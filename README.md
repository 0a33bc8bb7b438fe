# TEAMbalancing — a verified model of the team balancer

The app takes a typed list of players, one `name... skill gender role` record per
line, and a number of teams between 2 and 15. It splits the players into teams whose
skill totals are as even as a greedy rule makes them, and shows every team's average
skill. This project models that core in Dafny and proves what it does:

- `players.dfy` (`Players`): the player record `(name, skill, gender, role)` and the
  padded roster slot (a player or `None`). Also the allowed genders and roles, and the
  bounds of the team-count slider.
- `skill_order.dfy` (`SkillOrder`): the stable, highest-first ordering that
  `list.sort(key=skill, reverse=True)` produces.
- `balance.dfy` (`Balance`): `balance_teams`.
  - Spec functions cover the five filtered lists, one greedy step (`Step`), one pass
    (`Pass`), the four passes (`Assigned`) and the padding (`Pad`).
  - Imperative Dafny follows the source: the closure state of `assign_players`
    (`teams`, `skill_sums`, `assigned_players`) is the class `Assignment`, whose method
    runs the source's loop. `FindLeastLoaded` is `skill_sums.index(min(skill_sums))`.
    `PadTeams` is the padding loops, and `BalanceTeams` ties these together.
  - Each method is proved equal to its spec function. The properties are proved about
    those functions: conservation of players and skill, equal padded lengths with
    padding last, one least-loaded team, the role passes idle on parsed input, and a
    bound on the spread of team totals.
- `coverage.dfy` (`Coverage`): which teams receive players.
  - When every skill is above 0, the first `n` distinct players open the `n` teams in
    order, so no team stays empty.
  - Players rated 0 can all pile onto team 0. The `len(players) < num_teams` guard
    then does not keep a team from being empty. A lemma shows this for two players and
    two teams.
- `average.dfy` (`Average`): `calculate_avg_skill`, as an exact `real` quotient.
- `parsing.dfy` (`Parsing`): the per-line parser. It covers `str.split()` and
  `str.strip()` with Python's whitespace set, `" ".join`, `int()` on a token, ASCII
  `lower()`, the acceptance conditions, and the loop that collects the records.
- `app.dfy` (`App`): the "Balance Teams" button, with the "Not enough players" guard,
  balancing and the averages.

The balancing code has three plain role passes after the gender pass. It has no
hybrid-splitting rule. It does not keep the number of `open` players per team within
one of each other, because placement follows skill sums, not head counts. The model
follows the code. `RolePassesIdle` shows that on records from the parser, the three
role passes place nobody.

## Model

| member | source | states |
|---|---|---|
| SkillOrder.SortBySkill | streamlit_app.py:13-17 | the sorted list is a permutation of the input, ordered by non-increasing skill |
| SkillOrder.SortBySkillIsStable | streamlit_app.py:13-17 | for every skill value, the players holding it come out in their input order (stability) |
| Balance.Filter | streamlit_app.py:6-11 | a player is in the filtered list iff it is in the input and passes the test; the list is no longer than the input |
| Balance.FilterOne | streamlit_app.py:6-11 | a one-player list is kept exactly when the player passes the test |
| Balance.FilterAppend | streamlit_app.py:6-11 | filtering `a + b` is filtering `a`, then `b`: the comprehension keeps input order and copies (with `FilterOne`, this fixes the result) |
| SkillOrder.WithSkillAppend | streamlit_app.py:13-17 | the players of one skill value in `a + b` are those of `a`, then those of `b` |
| Balance.WithSkillFilter | streamlit_app.py:6-17 | selecting one skill value and filtering commute, both keeping input order |
| Balance.ByGender | streamlit_app.py:6-17 | `opens` / `womans`: the filtered list sorted best-first. It has no contract of its own; `ByGenderElems`, `ByGenderOnly` and `PassListsOrdered` state its meaning |
| Balance.ByRole | streamlit_app.py:9-17 | `cutters` / `handlers` / `hybrids`, the same way; `ByRoleElems` and `PassListsOrdered` state its meaning |
| Balance.FirstPassList | streamlit_app.py:31 | `opens + womans`; `OpensBeforeWomans` and `FirstPassCovers` state its meaning |
| Balance.ByGenderElems | streamlit_app.py:6-7 | `opens` / `womans` hold exactly the input players of that gender |
| Balance.ByRoleElems | streamlit_app.py:9-11 | `cutters` / `handlers` / `hybrids` hold exactly the input players of that role |
| Balance.ByGenderOnly | streamlit_app.py:6-7 | every entry of a gender list has that gender |
| Balance.PassListsOrdered | streamlit_app.py:6-17 | each pass list is best-first, and for every skill value its players are exactly the input players of that skill and that gender (or role), in input order |
| Balance.OpensBeforeWomans | streamlit_app.py:31 | in the first pass list, no `open` player comes after a non-`open` one |
| Balance.Eligible | streamlit_app.py:6-11 | the players some pass picks up: those in the input whose gender is `open`/`woman` or whose role is known |
| Balance.InByGender | streamlit_app.py:6-7 | a player is in a gender list exactly when it is an input player of that gender |
| Balance.InByRole | streamlit_app.py:9-11 | a player is in a role list exactly when it is an input player of that role |
| Balance.InQueue | streamlit_app.py:6-11 | a player is in one of the four pass lists exactly when it is eligible |
| Balance.QueueElems | streamlit_app.py:6-11 | the four pass lists together contain exactly the eligible players |
| Balance.Initial | streamlit_app.py:19-21 | `n` empty teams, all sums 0, nobody assigned, and the pass invariant holds |
| Balance.LeastLoaded | streamlit_app.py:26 | the chosen index has the minimum sum, and every earlier index has a strictly larger sum |
| Balance.LeastLoadedUnique | streamlit_app.py:26 | at most one index has that property, so the choice is determined |
| Balance.FindLeastLoaded | streamlit_app.py:26 | the min-then-index scan returns the lowest index of the minimum sum |
| Balance.Step | streamlit_app.py:24-29 | the player joins the assigned set, the number of teams is unchanged, and a player already assigned changes nothing |
| Balance.StepPlacesAtLeastLoaded | streamlit_app.py:25-29 | a new player is appended to the least-loaded team only, whose sum grows by the player's skill; all other teams and sums stay the same |
| Balance.StepAt | streamlit_app.py:26-29 | when team `k` is least loaded, a new player's step is exactly the append at `k`, the add to `k`'s sum and the add to the assigned set |
| Balance.Pass | streamlit_app.py:23-29 | a pass keeps the number of teams |
| Balance.PassPlaces | streamlit_app.py:23-29 | after a pass, the assigned set is the old one plus every player of the list |
| Balance.PassSnoc | streamlit_app.py:24 | a loop-proof helper that unfolds `Pass` once: the pass over the first `i + 1` players is the pass over the first `i`, then the step for player `i` |
| Balance.Assignment.constructor | streamlit_app.py:19-21 | the object's state is the initial state, and the pass invariant holds of it (every later pass keeps it, by `PassKeepsInv`) |
| Balance.Assignment.AssignPlayers | streamlit_app.py:23-29 | the loop leaves exactly the state `Pass` gives from the state before it |
| Balance.StepKeepsSums | streamlit_app.py:26-28 | one step keeps each running sum equal to its team's skill total |
| Balance.StepKeepsContents | streamlit_app.py:26-29 | one step adds the new player to the teams exactly once, as it adds it to the assigned set |
| Balance.StepKeepsInv | streamlit_app.py:20-29 | one step keeps the invariant: each running sum is its team's skill total, and the teams hold each assigned player exactly once |
| Balance.PassKeepsInv | streamlit_app.py:23-29 | a whole pass keeps the same invariant |
| Balance.PassConcat | streamlit_app.py:31-34 | a pass over `a + b` is a pass over `a` followed by a pass over `b` |
| Balance.PassIdle | streamlit_app.py:25 | a pass over players who are all already assigned changes nothing |
| Balance.SumsMatchTeams | streamlit_app.py:20-28 | when every sum is its team's total, the sums add up to the total skill of all team members |
| Balance.Assigned | streamlit_app.py:31-34 | the state after the four `assign_players` calls; it keeps the number of teams. `AssignedIsOnePass`, `AssignedHoldsEligible` and `RolePassesIdle` state its meaning |
| Balance.AssignedIsOnePass | streamlit_app.py:31-34 | the four passes equal one pass over their concatenated lists |
| Balance.FirstPassCovers | streamlit_app.py:6-7 | when every gender is `open` or `woman`, every player is in `opens + womans` |
| Balance.InOwnGender | streamlit_app.py:6-7 | every input player is in the list of its own gender |
| Balance.FirstPassPlacesAll | streamlit_app.py:31 | when every gender is `open` or `woman`, the first pass assigns every player |
| Balance.RolePassIdle | streamlit_app.py:32-34 | a role pass over players who are all assigned changes nothing |
| Balance.RolePassesIdle | streamlit_app.py:31-34 | when every gender is `open` or `woman`, the state after the four passes is the state after the first |
| Balance.Dedup | streamlit_app.py:21-29 | a list without repeats holding the same players as the input |
| Balance.MaxLen | streamlit_app.py:36 | no team is longer than the result, and some team has exactly that length |
| Balance.PadRow | streamlit_app.py:37-39 | one team followed by `None` up to the width; `PadRowShape` and `UnpadPadRow` state its meaning |
| Balance.Pad | streamlit_app.py:36-39 | every team padded to the longest team's length; `PadCorrect` and `UnpadPad` state its meaning |
| Balance.BalanceSpec | streamlit_app.py:5-41 | the padded teams after the four passes; `BalanceSpecCorrect`, `BalanceSpread` and `EveryTeamGetsAPlayer` state its meaning |
| Balance.PadTeams | streamlit_app.py:36-39 | the padding loops produce exactly the padded rows |
| Balance.PadRowShape | streamlit_app.py:37-39 | a padded row has the target length, `None` only after all players, and no `None` when the roster was already longest |
| Balance.UnpadPadRow | streamlit_app.py:37-39 | removing the `None` slots from a padded row gives back the roster |
| Balance.UnpadPad | streamlit_app.py:36-39 | padding keeps the number of teams, and every padded row unpads to its roster |
| Balance.PaddedRow | streamlit_app.py:36-39 | padding keeps the number of teams, and row `i` unpads to roster `i` |
| Balance.PaddedRowTotal | streamlit_app.py:36-39 | under the invariant, the players of padded row `i` have the skill total `skill_sums[i]` |
| Balance.MembersOfRows | streamlit_app.py:36-39 | the players in the padded rows, team by team, are the players of the rosters |
| Balance.PadCorrect | streamlit_app.py:36-39 | as many rows as rosters, all as long as the longest roster, `None` only after the players, at least one row without `None`, and the rows' players are the rosters' players |
| Balance.AssignedHoldsEligible | streamlit_app.py:19-34 | after the four passes the invariant holds and the assigned set is exactly the eligible players |
| Balance.EligibleSkill | streamlit_app.py:21-29 | any list holding each eligible player once has the skill total of the distinct eligible players |
| Balance.BalanceSpecCorrect | streamlit_app.py:5-41 | `n` rows of equal length with `None` last, and at least one row without `None`. Every distinct eligible player appears exactly once, nobody else does, and the rows' skill total is the total of the distinct eligible players |
| Balance.BalanceTeams | streamlit_app.py:5-41 | the method returns the modelled result, with all the properties above |
| Balance.BalanceConservesPlayers | streamlit_app.py:21-29 | with no repeated record and every record placeable, the rows hold exactly the input players, and their skill total is the input's |
| Balance.PassKeepsSpread | streamlit_app.py:26-28 | with skills in `0..bound`, least-loaded placement keeps every two running sums within `bound` of each other |
| Balance.AssignedSpread | streamlit_app.py:31-34 | the same holds after the four passes |
| Balance.PaddedSpread | streamlit_app.py:36-39 | padding keeps every two team totals within the bound the running sums kept |
| Balance.BalanceSpread | streamlit_app.py:5-41 | with skills in `0..bound`, no returned team's skill total exceeds another's by more than `bound` |
| Coverage.InitialFilledInOrder | streamlit_app.py:19-20 | at the start, every team is empty with sum 0 |
| Coverage.StepFillsInOrder | streamlit_app.py:26-29 | while a team is empty, a player rated above 0 goes to the first empty team. Teams `0..k-1` are started with positive sums, and the rest are empty |
| Coverage.PassFillsInOrder | streamlit_app.py:23-29 | a pass of players rated above 0 keeps that shape |
| Coverage.AssignedFillsInOrder | streamlit_app.py:31-34 | after the four passes the shape holds, and the assigned set is the eligible players |
| Coverage.EveryTeamGetsAPlayer | streamlit_app.py:5-41 | with all skills above 0 and at least `n` distinct eligible players, every returned row holds a player |
| Coverage.StepToFirstOfTwo | streamlit_app.py:26-28 | with two teams at equal sums, a new player goes to the first |
| Coverage.TwoOpensFirstList | streamlit_app.py:6-14 | two `open` players of equal skill keep their input order in the first pass list |
| Coverage.TwoUnratedPass | streamlit_app.py:23-29 | two players rated 0 both go to team 0 of two |
| Coverage.UnratedPlayersCrowdFirstTeam | streamlit_app.py:26 | two different `open` players rated 0, balanced into two teams, leave the second team empty |
| Average.PositiveSkills | streamlit_app.py:47 | only skills above 0 are kept, at most one per slot |
| Average.TeamAverage | streamlit_app.py:48 | 0 when no skill counts. Otherwise the average times the count is the sum, and the average is at least 1 |
| Balance.SumOf | streamlit_app.py:48 | Python's `sum` over integers, shared by the running sums and the averages; `SumOfPositives` bounds it from below |
| Average.SumOfPositives | streamlit_app.py:47-48 | the counted skills add up to at least their number |
| Average.Quotient | streamlit_app.py:48 | the quotient of a total by a smaller or equal positive count, times the count, is the total, and is at least 1 |
| Average.AvgSkills | streamlit_app.py:44-49 | one value per team, each that team's average, and 0 exactly when no skill of the team counts |
| Average.PositiveSkillsOne | streamlit_app.py:47 | one slot counts its skill exactly when it holds a player rated above 0 (with `PositiveSkillsAppend`, this fixes the counted list) |
| Average.RatedPlayerCounted | streamlit_app.py:47 | the skill of a player rated above 0 is among the counted skills |
| Average.RatedPlayerCounts | streamlit_app.py:47-48 | a team with a player rated above 0 averages at least 1 |
| Average.AverageZeroIff | streamlit_app.py:47-48 | a team averages 0 exactly when none of its players is rated above 0 |
| Average.PositiveSkillsAppend | streamlit_app.py:47 | the kept skills of two concatenated rows are the kept skills of each, in order |
| Average.BlanksHaveNoSkills | streamlit_app.py:47 | `None` slots contribute no skill |
| Average.AverageIgnoresPadding | streamlit_app.py:47-48 | padding a roster with `None` never changes its average |
| Average.AverageIgnoresUnrated | streamlit_app.py:47-48 | adding a player rated 0 or below never changes a team's average |
| Average.UnratedTeamAveragesZero | streamlit_app.py:47-48 | a team without a player rated above 0 averages 0 |
| Parsing.TrimLeftFacts | streamlit_app.py:89 | cutting leading whitespace leaves a suffix that is empty or starts with non-whitespace, and only whitespace was cut |
| Parsing.TrimRightFacts | streamlit_app.py:89 | cutting trailing whitespace leaves a prefix that is empty or ends with non-whitespace, and only whitespace was cut |
| Parsing.Strip | streamlit_app.py:89 | `str.strip()` as trimming on both sides; `StripSurrounded` and `StripTrimmed` state its meaning |
| Parsing.StripSurrounded | streamlit_app.py:89 | `strip()` gives a piece of the input with only whitespace around it, which neither starts nor ends with whitespace |
| Parsing.Split | streamlit_app.py:80 | every token is non-empty and free of whitespace; `SplitSpace`, `SplitToken` and `SplitUnique` make the tokens exactly the maximal whitespace-free runs |
| Parsing.SplitSpace | streamlit_app.py:80 | a whitespace character separates: the tokens of `a + [c] + b` are those of `a` followed by those of `b` |
| Parsing.SplitToken | streamlit_app.py:80 | a whitespace-free run is one token |
| Parsing.SplitUnique | streamlit_app.py:80 | any splitting that yields nothing for `""`, one token for a whitespace-free run and splits apart at every whitespace character is `Split` |
| Parsing.SplitKeepsText | streamlit_app.py:80 | the tokens, put together, are exactly the line's non-whitespace characters in order |
| Parsing.SplitJoin | streamlit_app.py:80-82 | splitting tokens joined by single spaces gives the tokens back |
| Parsing.Join | streamlit_app.py:82 | `sep.join(tokens)`; `SplitJoin` and `JoinEnds` state its meaning |
| Parsing.JoinEnds | streamlit_app.py:82 | tokens joined by spaces start and end with non-whitespace |
| Parsing.StripTrimmed | streamlit_app.py:89 | `strip()` leaves a string alone that starts and ends with non-whitespace |
| Parsing.ParseInt | streamlit_app.py:84 | a parsed token is non-empty, and a negative result comes only from a leading `-` |
| Parsing.ParseFormatInt | streamlit_app.py:84 | `int(str(n)) == n` for every integer (Python's digit-count limit aside, see below) |
| Parsing.FormatIntIsToken | streamlit_app.py:80-84 | `str(n)` is a single token, so it survives `split()` |
| Parsing.ParseIntNeedsDigit | streamlit_app.py:84 | a token without a digit raises `ValueError` (`None`) |
| Parsing.DigitStringShape | streamlit_app.py:84 | an accepted digit string starts and ends with a digit, holds only digits and `_`, and has no two adjacent underscores |
| Parsing.DigitsValueLeadingZero | streamlit_app.py:84 | a leading zero does not change the value |
| Parsing.DigitsValueSkipsUnderscore | streamlit_app.py:84 | an underscore does not change the value |
| Parsing.DigitStringUnderscore | streamlit_app.py:84 | two digit strings joined by one underscore form a digit string |
| Parsing.ParseIntSigned | streamlit_app.py:84 | `int("+" + d)` is the value of `d`, and `int("-" + d)` its negation |
| Parsing.ParseIntLeadingZero | streamlit_app.py:84 | leading zeros are accepted and ignored (`int("007") == 7`) |
| Parsing.ParseIntUnderscore | streamlit_app.py:84 | one underscore between digits is accepted and skipped (`int("1_000") == 1000`) |
| Parsing.ParseIntRejects | streamlit_app.py:84-91 | a character other than a digit or `_` after the optional sign, or two adjacent underscores, raises `ValueError` (`None`) |
| Parsing.Lower | streamlit_app.py:85-86 | same length, no upper-case ASCII letter left, and every character kept or moved from `A-Z` to `a-z` |
| Parsing.LowerIdempotent | streamlit_app.py:85-86 | lowering twice is lowering once |
| Parsing.LowerOfLowercase | streamlit_app.py:85-86 | a string without upper-case letters is its own lower-case form |
| Parsing.AllowedWord | streamlit_app.py:87 | each allowed gender and role is one token and its own lower-case form |
| Parsing.LineName | streamlit_app.py:82-89 | the name of a line with at least four tokens is non-empty |
| Parsing.LineNameJoined | streamlit_app.py:82-89 | `strip()` changes nothing: the name is the leading tokens joined by single spaces, and neither starts nor ends with whitespace |
| Parsing.ParseLine | streamlit_app.py:80-91 | a record the line yields has an allowed gender and role and a non-empty name |
| Parsing.ParseLineAccepts | streamlit_app.py:80-91 | a line yields a record iff it has at least 4 tokens, the third-from-last parses as an integer, and the lowered last two are an allowed gender and role; the record is then the joined name, that integer, and the lowered gender and role |
| Parsing.ParseFormattedLine | streamlit_app.py:80-89 | `name skill gender role`, with any spelling of the skill that `int()` reads and any letter case of gender and role, reads back as that record |
| Parsing.ParseFormatLine | streamlit_app.py:80-89 | every record the parser can produce reads back from its canonical line |
| Parsing.Collect | streamlit_app.py:79-91 | the loop over the lines with a given per-line parser collects at most one record per line |
| Parsing.CollectSnoc | streamlit_app.py:79-91 | a loop-proof helper that unfolds `Collect` once: one more line adds its record at the end, or nothing when it is skipped |
| Parsing.CollectAppend | streamlit_app.py:79-91 | the records of two batches of lines are the records of each, in order |
| Parsing.CollectYielded | streamlit_app.py:79-91 | every collected record is the one some line yielded |
| Parsing.ParseAll | streamlit_app.py:79-91 | at most one record per line, each with an allowed gender and role and a non-empty name |
| Parsing.ParseAllAppend | streamlit_app.py:79-91 | the records of two batches of lines are the records of each, in order: a skipped line does not stop the rest |
| Parsing.ParsePlayers | streamlit_app.py:77-91 | the loop collects exactly `ParseAll(lines)`, and every collected name is non-empty |
| App.BalanceParsed | streamlit_app.py:87-109 | on parsed records, only the first pass places anyone, and every record is placed exactly once. With distinct records rated above 0 and at least as many records as teams, no team is empty |
| App.BalanceClicked | streamlit_app.py:93-110 | "Not enough players" exactly when there are fewer records than teams. Otherwise: `n` teams holding each parsed record once, the first pass's result, and one average per team |

## Left out

- The Streamlit page: title, text area, checkbox, custom team names, and the tables and
  dataframes built with pandas for display (streamlit_app.py:68-76, 95-103, 112-145).
  These are presentation and foreign library calls. The slider contributes only its
  range, as the precondition of `App.BalanceClicked`.
- `generate_bracket` (streamlit_app.py:52-65): it shuffles with `random`, which is never
  imported, and nothing calls it.
- `players_input.splitlines()`: the model takes the list of lines. Empty input is the
  empty list, which yields no records, as `if players_input:` does.
- Parsing.ParseInt: models `int()` on a token as an optional sign followed by ASCII
  digits, with single underscores allowed between digits. Non-ASCII decimal digits,
  which Python's `int()` also accepts, are not modelled. Surrounding whitespace cannot
  occur in a token. The function's own contract is weak. Its acceptance and values
  are stated by lemmas: `ParseFormatInt` (canonical spellings), `ParseIntSigned`,
  `ParseIntLeadingZero`, `ParseIntUnderscore` (the other accepted spellings),
  `DigitStringShape`, `ParseIntRejects` and `ParseIntNeedsDigit` (rejected tokens).
- Parsing.ParseInt: Python 3.11 and later refuse to convert a decimal string of more
  than 4300 digits (the interpreter's default `int` digit limit), raising `ValueError`.
  The model has no such limit. A line whose skill has more than 4300 digits is
  skipped by the app but accepted by the model.
- Parsing.ParseFormatInt: for the same reason, `str(n)` itself raises in Python once
  `n` has more than 4300 digits, so the round trip holds in Python only below that size.
- Parsing.Lower: ASCII letters only. The only non-ASCII character whose lower-case form
  is ASCII is KELVIN SIGN (to `k`), and none of the allowed words contains `k`. So
  acceptance and the stored gender and role are the same as with full Unicode
  lowering.
- The average is an exact `real` quotient rather than an IEEE double.
- Sort algorithm: Python's sort is Timsort. The model specifies only its result, a
  stable descending order, computed by insertion.
- Balance.BalanceTeams: requires at least one team. With zero teams, `max()` of an
  empty sequence raises; the slider never allows that.
- In-place aliasing: the padding loop appends `None` to the team lists in place. The
  model builds new rows, which is the same because nothing else refers to those lists.
