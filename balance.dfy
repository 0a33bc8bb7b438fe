/** `balance_teams`: greedy least-loaded assignment in four passes, then padding. */
module Balance {
  import opened Players
  import opened SkillOrder

  /** The players of `xs` that `keep` accepts, in their order in `xs`
      (a list comprehension with an `if`). */
  function Filter(xs: seq<Player>, keep: Player -> bool): (r: seq<Player>)
    ensures forall p :: p in r <==> p in xs && keep(p)
    ensures |r| <= |xs|
    decreases |xs|
  {
    if xs == [] then []
    else (if keep(xs[0]) then [xs[0]] else []) + Filter(xs[1..], keep)
  }

  /** Filtering a concatenation filters each part and keeps them in order. */
  lemma {:induction false} FilterAppend(a: seq<Player>, b: seq<Player>, keep: Player -> bool)
    ensures Filter(a + b, keep) == Filter(a, keep) + Filter(b, keep)
    decreases |a|
  {
    if a == [] {
      assert a + b == b;
    } else {
      assert (a + b)[1..] == a[1..] + b;
      FilterAppend(a[1..], b, keep);
    }
  }

  /** A one-player list is kept exactly when the test accepts the player. */
  lemma FilterOne(p: Player, keep: Player -> bool)
    ensures Filter([p], keep) == if keep(p) then [p] else []
  {
    assert [p][1..] == [];
  }

  /** Picking one skill value and filtering commute: both keep input order. */
  lemma {:induction false} WithSkillFilter(xs: seq<Player>, keep: Player -> bool, k: int)
    ensures WithSkill(Filter(xs, keep), k) == Filter(WithSkill(xs, k), keep)
    decreases |xs|
  {
    if xs != [] {
      var x, rest := xs[0], xs[1..];
      var head := if keep(x) then [x] else [];
      WithSkillFilter(rest, keep, k);
      WithSkillAppend(head, Filter(rest, keep), k);
      assert head == [] || head[1..] == [];
      var same := if x.skill == k then [x] else [];
      FilterAppend(same, WithSkill(rest, k), keep);
      if x.skill == k {
        FilterOne(x, keep);
      }
    }
  }

  /** The players of one gender, best first (`opens`, `womans`). */
  function ByGender(players: seq<Player>, gender: string): seq<Player>
  {
    SortBySkill(Filter(players, (p: Player) => p.gender == gender))
  }

  /** The players of one role, best first (`cutters`, `handlers`, `hybrids`). */
  function ByRole(players: seq<Player>, role: string): seq<Player>
  {
    SortBySkill(Filter(players, (p: Player) => p.role == role))
  }

  /** The list handed to the first pass: `opens + womans`. */
  function FirstPassList(players: seq<Player>): seq<Player>
  {
    ByGender(players, Open) + ByGender(players, Woman)
  }

  /** Every player the four passes consider, in the order they consider them. */
  function Queue(players: seq<Player>): seq<Player>
  {
    FirstPassList(players) + ByRole(players, Cutter) + ByRole(players, Handler) + ByRole(players, Hybrid)
  }

  /** A player that some pass picks up: gender `open` or `woman`, or a known role. */
  predicate Placeable(p: Player)
  {
    p.gender == Open || p.gender == Woman || p.role in Roles
  }

  /** The distinct placeable players of the input. */
  function Eligible(players: seq<Player>): (s: set<Player>)
    ensures forall p :: p in s <==> p in players && Placeable(p)
  {
    set p | p in players && Placeable(p)
  }

  // ---------------------------------------------------------------------------
  // The state the passes share: `teams`, `skill_sums` and `assigned_players`.

  datatype Progress = Progress(teams: seq<seq<Player>>, sums: seq<int>, placed: set<Player>)

  predicate Shaped(st: Progress)
  {
    |st.teams| == |st.sums| > 0
  }

  /** All players of all teams, team by team. */
  function Flatten(teams: seq<seq<Player>>): seq<Player>
    decreases |teams|
  {
    if teams == [] then [] else teams[0] + Flatten(teams[1..])
  }

  /** Python's `sum` over a list of integers. */
  function SumOf(xs: seq<int>): int
    decreases |xs|
  {
    if xs == [] then 0 else xs[0] + SumOf(xs[1..])
  }

  /** The invariant of the passes: each running sum is its team's skill total, and
      the players in the teams are exactly the assigned ones, each once. */
  ghost predicate Inv(st: Progress)
  {
    && Shaped(st)
    && (forall i :: 0 <= i < |st.teams| ==> st.sums[i] == TotalSkill(st.teams[i]))
    && multiset(Flatten(st.teams)) == multiset(st.placed)
  }

  function EmptyTeams(n: nat): seq<seq<Player>>
  {
    seq(n, _ => [])
  }

  lemma {:induction false} FlattenOfEmpties(n: nat)
    ensures Flatten(EmptyTeams(n)) == []
  {
    if n > 0 {
      assert EmptyTeams(n)[1..] == EmptyTeams(n - 1);
      FlattenOfEmpties(n - 1);
    }
  }

  /** `teams = [[] for _ in range(n)]`, `skill_sums = [0] * n`, `assigned_players = set()`. */
  function Initial(n: nat): (st: Progress)
    requires n >= 1
    ensures Inv(st) && |st.teams| == n && st.placed == {}
    ensures forall i :: 0 <= i < n ==> st.teams[i] == [] && st.sums[i] == 0
  {
    FlattenOfEmpties(n);
    Progress(EmptyTeams(n), seq(n, _ => 0), {})
  }

  /** Team `k` has the minimum running sum, and no team before it does. */
  predicate IsLeastLoaded(sums: seq<int>, k: int)
  {
    && 0 <= k < |sums|
    && (forall j :: 0 <= j < |sums| ==> sums[k] <= sums[j])
    && (forall j :: 0 <= j < k ==> sums[j] > sums[k])
  }

  /** `skill_sums.index(min(skill_sums))`. */
  function LeastLoaded(sums: seq<int>): (k: nat)
    requires |sums| > 0
    ensures IsLeastLoaded(sums, k)
    decreases |sums|
  {
    if |sums| == 1 then 0
    else
      var k := LeastLoaded(sums[..|sums| - 1]);
      if sums[|sums| - 1] < sums[k] then |sums| - 1 else k
  }

  /** There is only one least-loaded team. */
  lemma LeastLoadedUnique(sums: seq<int>, k: int, k': int)
    requires IsLeastLoaded(sums, k) && IsLeastLoaded(sums, k')
    ensures k == k'
  {
    assert sums[k] == sums[k'];
  }

  /** One iteration of `assign_players`' loop on player `p`. */
  function Step(st: Progress, p: Player): (r: Progress)
    requires Shaped(st)
    ensures Shaped(r) && |r.teams| == |st.teams|
    ensures r.placed == st.placed + {p}
    ensures p in st.placed ==> r == st
  {
    if p in st.placed then st
    else
      var k := LeastLoaded(st.sums);
      Progress(st.teams[k := st.teams[k] + [p]], st.sums[k := st.sums[k] + p.skill], st.placed + {p})
  }

  /** A new player joins the least-loaded team, whose sum grows by the player's skill;
      every other team and sum stays as it was. */
  lemma StepPlacesAtLeastLoaded(st: Progress, p: Player)
    requires Shaped(st) && p !in st.placed
    ensures var r := Step(st, p);
      forall i :: 0 <= i < |st.teams| ==>
        if IsLeastLoaded(st.sums, i)
        then r.teams[i] == st.teams[i] + [p] && r.sums[i] == st.sums[i] + p.skill
        else r.teams[i] == st.teams[i] && r.sums[i] == st.sums[i]
  {
    var k := LeastLoaded(st.sums);
    forall i | IsLeastLoaded(st.sums, i) ensures i == k {
      LeastLoadedUnique(st.sums, i, k);
    }
  }

  /** `assign_players(xs)`: the steps for the players of `xs` in order. */
  function Pass(st: Progress, xs: seq<Player>): (r: Progress)
    requires Shaped(st)
    ensures Shaped(r) && |r.teams| == |st.teams|
    decreases |xs|
  {
    if xs == [] then st
    else
      Step(Pass(st, xs[..|xs| - 1]), xs[|xs| - 1])
  }

  /** The state after the four passes of `balance_teams`. */
  function Assigned(players: seq<Player>, n: nat): (st: Progress)
    requires n >= 1
    ensures Shaped(st) && |st.teams| == n
  {
    var afterGender := Pass(Initial(n), FirstPassList(players));
    var afterCutters := Pass(afterGender, ByRole(players, Cutter));
    var afterHandlers := Pass(afterCutters, ByRole(players, Handler));
    Pass(afterHandlers, ByRole(players, Hybrid))
  }

  // ---------------------------------------------------------------------------
  // Padding.

  /** `max(len(team) for team in teams)`. */
  function MaxLen(teams: seq<seq<Player>>): (m: nat)
    requires |teams| > 0
    ensures forall i :: 0 <= i < |teams| ==> |teams[i]| <= m
    ensures exists i :: 0 <= i < |teams| && |teams[i]| == m
    decreases |teams|
  {
    if |teams| == 1 then |teams[0]|
    else
      var m := MaxLen(teams[1..]);
      assert forall i :: 1 <= i < |teams| ==> teams[i] == teams[1..][i - 1];
      if |teams[0]| > m then |teams[0]| else m
  }

  function Lift(team: seq<Player>): (row: seq<Slot>)
  {
    seq(|team|, i requires 0 <= i < |team| => Filled(team[i]))
  }

  function Blanks(n: nat): seq<Slot>
  {
    seq(n, _ => Empty)
  }

  /** A team after `while len(team) < width: team.append(None)`. */
  function PadRow(team: seq<Player>, width: nat): seq<Slot>
    requires |team| <= width
  {
    Lift(team) + Blanks(width - |team|)
  }

  function Pad(teams: seq<seq<Player>>): (rows: seq<seq<Slot>>)
    requires |teams| > 0
  {
    var width := MaxLen(teams);
    seq(|teams|, i requires 0 <= i < |teams| => PadRow(teams[i], width))
  }

  /** What `balance_teams(players, n)` returns. */
  function BalanceSpec(players: seq<Player>, n: nat): seq<seq<Slot>>
    requires n >= 1
  {
    Pad(Assigned(players, n).teams)
  }

  /** The players in a padded row, in order. */
  function Unpad(row: seq<Slot>): seq<Player>
    decreases |row|
  {
    if row == [] then []
    else (match row[0] case Empty => [] case Filled(p) => [p]) + Unpad(row[1..])
  }

  /** All players of all padded rows. */
  function Members(rows: seq<seq<Slot>>): seq<Player>
    decreases |rows|
  {
    if rows == [] then [] else Unpad(rows[0]) + Members(rows[1..])
  }

  /** No `None` comes before a player. */
  ghost predicate EmptiesLast(row: seq<Slot>)
  {
    forall i, j :: 0 <= i < j < |row| && row[i].Empty? ==> row[j].Empty?
  }

  /** The distinct players of `xs`, each at its first occurrence. */
  function Dedup(xs: seq<Player>): (r: seq<Player>)
    ensures NoDuplicates(r) && Elems(r) == Elems(xs)
    decreases |xs|
  {
    if xs == [] then []
    else
      var pre, p := xs[..|xs| - 1], xs[|xs| - 1];
      assert xs == pre + [p];
      var d := Dedup(pre);
      if p in pre then d else d + [p]
  }

  // ---------------------------------------------------------------------------
  // The closure state of `assign_players`, updated in place.

  class Assignment {
    var teams: seq<seq<Player>>
    var skillSums: seq<int>
    var assignedPlayers: set<Player>

    function Snapshot(): Progress
      reads this
    {
      Progress(teams, skillSums, assignedPlayers)
    }

    constructor (numTeams: nat)
      requires numTeams >= 1
      ensures Inv(Snapshot()) && Snapshot() == Initial(numTeams)
    {
      teams := EmptyTeams(numTeams);
      skillSums := seq(numTeams, _ => 0);
      assignedPlayers := {};
      FlattenOfEmpties(numTeams);
    }

    /** The nested `assign_players(player_list)`. */
    method AssignPlayers(playerList: seq<Player>)
      requires Shaped(Snapshot())
      modifies this
      ensures Snapshot() == Pass(old(Snapshot()), playerList)
    {
      ghost var start := Snapshot();
      for i := 0 to |playerList|
        invariant Shaped(start)
        invariant Shaped(Snapshot())
        invariant Snapshot() == Pass(start, playerList[..i])
      {
        var player := playerList[i];
        PassSnoc(start, playerList, i);
        ghost var before := Snapshot();
        if player !in assignedPlayers {
          var k := FindLeastLoaded(skillSums);
          StepAt(before, player, k);
          teams := teams[k := teams[k] + [player]];
          skillSums := skillSums[k := skillSums[k] + player.skill];
          assignedPlayers := assignedPlayers + {player};
          assert Snapshot() == Step(before, player);
        }
      }
      assert playerList[..|playerList|] == playerList;
    }
  }

  /** `skill_sums.index(min(skill_sums))`: a scan for the minimum, then a scan for
      its first position. */
  method FindLeastLoaded(sums: seq<int>) returns (k: nat)
    requires |sums| > 0
    ensures IsLeastLoaded(sums, k) && k == LeastLoaded(sums)
  {
    var least := sums[0];
    for i := 1 to |sums|
      invariant least in sums[..i]
      invariant forall j :: 0 <= j < i ==> least <= sums[j]
    {
      if sums[i] < least {
        least := sums[i];
      }
    }
    k := 0;
    while sums[k] != least
      invariant 0 <= k < |sums|
      decreases |sums| - k
      invariant least in sums[k..]
      invariant forall j :: 0 <= j < k ==> sums[j] != least
    {
      k := k + 1;
    }
    LeastLoadedUnique(sums, k, LeastLoaded(sums));
  }

  /** The padding loops at the end of `balance_teams`: every team grows with `None`
      until it is as long as the longest. */
  method PadTeams(rosters: seq<seq<Player>>) returns (rows: seq<seq<Slot>>)
    requires |rosters| > 0
    ensures rows == Pad(rosters)
  {
    var maxTeamSize := MaxLen(rosters);
    rows := [];
    for i := 0 to |rosters|
      invariant |rows| == i
      invariant forall t :: 0 <= t < i ==> rows[t] == PadRow(rosters[t], maxTeamSize)
    {
      var team := Lift(rosters[i]);
      while |team| < maxTeamSize
        invariant |rosters[i]| <= |team| <= maxTeamSize
        invariant team == Lift(rosters[i]) + Blanks(|team| - |rosters[i]|)
      {
        assert Blanks(|team| - |rosters[i]| + 1) == Blanks(|team| - |rosters[i]|) + [Empty];
        team := team + [Empty];
      }
      rows := rows + [team];
    }
  }

  /** `balance_teams(players, num_teams)`. */
  method BalanceTeams(players: seq<Player>, numTeams: nat) returns (teams: seq<seq<Slot>>)
    requires numTeams >= 1
    ensures teams == BalanceSpec(players, numTeams)
    ensures |teams| == numTeams
    ensures forall i :: 0 <= i < numTeams ==> |teams[i]| == |teams[0]| && EmptiesLast(teams[i])
    ensures exists i :: 0 <= i < numTeams && Empty !in teams[i]
    ensures multiset(Members(teams)) == multiset(Eligible(players))
    ensures TotalSkill(Members(teams)) == TotalSkill(Dedup(Filter(players, Placeable)))
  {
    var opens := ByGender(players, Open);
    var womans := ByGender(players, Woman);
    var cutters := ByRole(players, Cutter);
    var handlers := ByRole(players, Handler);
    var hybrids := ByRole(players, Hybrid);

    var state := new Assignment(numTeams);
    state.AssignPlayers(opens + womans);
    state.AssignPlayers(cutters);
    state.AssignPlayers(handlers);
    state.AssignPlayers(hybrids);

    teams := PadTeams(state.teams);
    BalanceSpecCorrect(players, numTeams);
  }

  // ---------------------------------------------------------------------------
  // Lemmas.

  lemma {:induction false} FlattenAppendAt(teams: seq<seq<Player>>, k: nat, p: Player)
    requires k < |teams|
    ensures multiset(Flatten(teams[k := teams[k] + [p]])) == multiset(Flatten(teams)) + multiset{p}
    decreases |teams|
  {
    var updated := teams[k := teams[k] + [p]];
    if k == 0 {
      assert updated[1..] == teams[1..];
    } else {
      assert updated[1..] == teams[1..][k - 1 := teams[1..][k - 1] + [p]];
      FlattenAppendAt(teams[1..], k - 1, p);
    }
  }

  /** A step keeps each running sum equal to its team's skill total. */
  lemma StepKeepsSums(st: Progress, p: Player, k: nat)
    requires Shaped(st) && p !in st.placed && IsLeastLoaded(st.sums, k)
    requires forall i :: 0 <= i < |st.teams| ==> st.sums[i] == TotalSkill(st.teams[i])
    ensures var r := Step(st, p);
      forall i :: 0 <= i < |r.teams| ==> r.sums[i] == TotalSkill(r.teams[i])
  {
    StepAt(st, p, k);
    TotalSkillAppend(st.teams[k], [p]);
  }

  /** A step adds the new player to the teams' contents exactly once. */
  lemma StepKeepsContents(st: Progress, p: Player, k: nat)
    requires Shaped(st) && p !in st.placed && IsLeastLoaded(st.sums, k)
    requires multiset(Flatten(st.teams)) == multiset(st.placed)
    ensures multiset(Flatten(Step(st, p).teams)) == multiset(Step(st, p).placed)
  {
    StepAt(st, p, k);
    FlattenAppendAt(st.teams, k, p);
    assert multiset(st.placed + {p}) == multiset(st.placed) + multiset{p};
  }

  /** A step keeps the invariant of the passes. */
  lemma StepKeepsInv(st: Progress, p: Player)
    requires Inv(st)
    ensures Inv(Step(st, p))
  {
    if p !in st.placed {
      var k := LeastLoaded(st.sums);
      StepKeepsSums(st, p, k);
      StepKeepsContents(st, p, k);
    }
  }

  /** A new player goes to team `k` when `k` is the least-loaded team. */
  lemma StepAt(st: Progress, p: Player, k: nat)
    requires Shaped(st) && p !in st.placed && IsLeastLoaded(st.sums, k)
    ensures Step(st, p) == Progress(st.teams[k := st.teams[k] + [p]], st.sums[k := st.sums[k] + p.skill], st.placed + {p})
  {
    LeastLoadedUnique(st.sums, k, LeastLoaded(st.sums));
  }

  /** A pass marks exactly the players of its list as assigned. */
  lemma {:induction false} PassPlaces(st: Progress, xs: seq<Player>)
    requires Shaped(st)
    ensures Pass(st, xs).placed == st.placed + Elems(xs)
    decreases |xs|
  {
    if xs != [] {
      var pre := xs[..|xs| - 1];
      PassPlaces(st, pre);
      assert xs == pre + [xs[|xs| - 1]];
      assert Elems(xs) == Elems(pre) + {xs[|xs| - 1]};
    }
  }

  /** The pass over the first `i + 1` players is the pass over the first `i`, then
      one step for player `i`. */
  lemma PassSnoc(st: Progress, xs: seq<Player>, i: nat)
    requires Shaped(st) && i < |xs|
    ensures Pass(st, xs[..i + 1]) == Step(Pass(st, xs[..i]), xs[i])
  {
    assert xs[..i + 1][..i] == xs[..i];
  }

  lemma {:induction false} PassKeepsInv(st: Progress, xs: seq<Player>)
    requires Inv(st)
    ensures Inv(Pass(st, xs))
    decreases |xs|
  {
    if xs != [] {
      PassKeepsInv(st, xs[..|xs| - 1]);
      StepKeepsInv(Pass(st, xs[..|xs| - 1]), xs[|xs| - 1]);
    }
  }

  /** Running the passes on `a` and then on `b` is one pass over `a + b`. */
  lemma {:induction false} PassConcat(st: Progress, a: seq<Player>, b: seq<Player>)
    requires Shaped(st)
    ensures Pass(st, a + b) == Pass(Pass(st, a), b)
    decreases |b|
  {
    if b == [] {
      assert a + b == a;
    } else {
      assert (a + b)[..|a + b| - 1] == a + b[..|b| - 1];
      PassConcat(st, a, b[..|b| - 1]);
    }
  }

  /** A pass over players that are all assigned already changes nothing. */
  lemma {:induction false} PassIdle(st: Progress, xs: seq<Player>)
    requires Shaped(st)
    requires forall p :: p in xs ==> p in st.placed
    ensures Pass(st, xs) == st
    decreases |xs|
  {
    if xs != [] {
      PassIdle(st, xs[..|xs| - 1]);
    }
  }

  /** Once the invariant holds, the running sums add up to the skill in the teams. */
  lemma {:induction false} SumsMatchTeams(teams: seq<seq<Player>>, sums: seq<int>)
    requires |teams| == |sums|
    requires forall i :: 0 <= i < |teams| ==> sums[i] == TotalSkill(teams[i])
    ensures TotalSkill(Flatten(teams)) == SumOf(sums)
    decreases |teams|
  {
    if teams != [] {
      SumsMatchTeams(teams[1..], sums[1..]);
      TotalSkillAppend(teams[0], Flatten(teams[1..]));
    }
  }

  /** The four passes are one pass over the whole queue. */
  lemma AssignedIsOnePass(players: seq<Player>, n: nat)
    requires n >= 1
    ensures Assigned(players, n) == Pass(Initial(n), Queue(players))
  {
    var first, c, h, y := FirstPassList(players), ByRole(players, Cutter), ByRole(players, Handler), ByRole(players, Hybrid);
    PassConcat(Initial(n), first, c);
    PassConcat(Initial(n), first + c, h);
    PassConcat(Initial(n), first + c + h, y);
  }

  lemma ByGenderElems(players: seq<Player>, gender: string)
    ensures forall p :: p in ByGender(players, gender) <==> p in players && p.gender == gender
  {
    SortBySkillElems(Filter(players, (p: Player) => p.gender == gender));
  }

  lemma ByRoleElems(players: seq<Player>, role: string)
    ensures forall p :: p in ByRole(players, role) <==> p in players && p.role == role
  {
    SortBySkillElems(Filter(players, (p: Player) => p.role == role));
  }

  lemma InByGender(players: seq<Player>, gender: string, p: Player)
    ensures p in ByGender(players, gender) <==> p in players && p.gender == gender
  {
    ByGenderElems(players, gender);
  }

  lemma InByRole(players: seq<Player>, role: string, p: Player)
    ensures p in ByRole(players, role) <==> p in players && p.role == role
  {
    ByRoleElems(players, role);
  }

  /** A player is in one of the four pass lists exactly when it is eligible. */
  lemma InQueue(players: seq<Player>, p: Player)
    ensures p in Queue(players) <==> p in players && Placeable(p)
  {
    InByGender(players, Open, p);
    InByGender(players, Woman, p);
    InByRole(players, Cutter, p);
    InByRole(players, Handler, p);
    InByRole(players, Hybrid, p);
  }

  lemma QueueElems(players: seq<Player>)
    ensures Elems(Queue(players)) == Eligible(players)
  {
    forall p ensures p in Queue(players) <==> p in players && Placeable(p) {
      InQueue(players, p);
    }
  }

  lemma {:induction false} UnpadPadRow(team: seq<Player>, width: nat)
    requires |team| <= width
    ensures Unpad(PadRow(team, width)) == team
    decreases |team| + width
  {
    var row := PadRow(team, width);
    if team == [] {
      if width > 0 {
        assert row[1..] == PadRow([], width - 1);
        UnpadPadRow([], width - 1);
      }
    } else {
      assert row[1..] == PadRow(team[1..], width - 1);
      UnpadPadRow(team[1..], width - 1);
    }
  }

  lemma {:induction false} MembersOfRows(teams: seq<seq<Player>>, rows: seq<seq<Slot>>, width: nat)
    requires |rows| == |teams|
    requires forall i :: 0 <= i < |teams| ==> |teams[i]| <= width && rows[i] == PadRow(teams[i], width)
    ensures Members(rows) == Flatten(teams)
    decreases |teams|
  {
    if teams != [] {
      UnpadPadRow(teams[0], width);
      MembersOfRows(teams[1..], rows[1..], width);
    }
  }

  lemma PadRowShape(team: seq<Player>, width: nat)
    requires |team| <= width
    ensures |PadRow(team, width)| == width && EmptiesLast(PadRow(team, width))
    ensures |team| == width ==> Empty !in PadRow(team, width)
  {
  }

  /** The padding: as many rows as rosters, all as long as the longest roster, `None`
      only after the players, at least one row without `None`, and the players of the
      rows are the players of the rosters. */
  lemma PadCorrect(teams: seq<seq<Player>>)
    requires |teams| > 0
    ensures var r := Pad(teams);
      && |r| == |teams|
      && (forall i :: 0 <= i < |r| ==> |r[i]| == |r[0]| && EmptiesLast(r[i]))
      && (exists i :: 0 <= i < |r| && Empty !in r[i])
      && Members(r) == Flatten(teams)
  {
    var r := Pad(teams);
    var width := MaxLen(teams);
    forall i | 0 <= i < |teams| ensures |r[i]| == width && EmptiesLast(r[i]) {
      PadRowShape(teams[i], width);
    }
    var longest :| 0 <= longest < |teams| && |teams[longest]| == width;
    PadRowShape(teams[longest], width);
    MembersOfRows(teams, r, width);
  }

  /** After the four passes the invariant holds and every eligible player is assigned:
      the teams hold each of them exactly once. */
  lemma AssignedHoldsEligible(players: seq<Player>, n: nat)
    requires n >= 1
    ensures Inv(Assigned(players, n)) && Assigned(players, n).placed == Eligible(players)
  {
    AssignedIsOnePass(players, n);
    PassKeepsInv(Initial(n), Queue(players));
    PassPlaces(Initial(n), Queue(players));
    QueueElems(players);
  }

  /** Anything holding each eligible player once has the skill of the distinct
      eligible players. */
  lemma EligibleSkill(players: seq<Player>, xs: seq<Player>)
    requires multiset(xs) == multiset(Eligible(players))
    ensures TotalSkill(xs) == TotalSkill(Dedup(Filter(players, Placeable)))
  {
    var distinct := Dedup(Filter(players, Placeable));
    NoDuplicatesMultiset(distinct);
    assert Elems(distinct) == Eligible(players);
    TotalSkillPermutation(xs, distinct);
  }

  /** What `balance_teams` promises: `n` rows of equal length, as long as the longest
      roster; padding only after the players; every distinct placeable player exactly
      once and no one else; the skill in the rows is the skill of those players. */
  lemma BalanceSpecCorrect(players: seq<Player>, n: nat)
    requires n >= 1
    ensures var r := BalanceSpec(players, n);
      && |r| == n
      && (forall i :: 0 <= i < n ==> |r[i]| == |r[0]| && EmptiesLast(r[i]))
      && (exists i :: 0 <= i < n && Empty !in r[i])
      && multiset(Members(r)) == multiset(Eligible(players))
      && TotalSkill(Members(r)) == TotalSkill(Dedup(Filter(players, Placeable)))
  {
    var st := Assigned(players, n);
    PadCorrect(st.teams);
    AssignedHoldsEligible(players, n);
    EligibleSkill(players, Members(BalanceSpec(players, n)));
  }

  /** When every gender is `open` or `woman`, the first pass assigns every player. */
  lemma FirstPassPlacesAll(players: seq<Player>, n: nat)
    requires n >= 1
    requires forall p :: p in players ==> p.gender in Genders
    ensures forall p :: p in players ==> p in Pass(Initial(n), FirstPassList(players)).placed
  {
    FirstPassCovers(players);
    PassPlaces(Initial(n), FirstPassList(players));
  }

  /** When every gender is `open` or `woman`, everyone is in `opens + womans`. */
  lemma FirstPassCovers(players: seq<Player>)
    requires forall p :: p in players ==> p.gender in Genders
    ensures forall p :: p in players ==> p in FirstPassList(players)
  {
    forall p | p in players ensures p in FirstPassList(players) {
      InOwnGender(players, p);
    }
  }

  lemma InOwnGender(players: seq<Player>, p: Player)
    requires p in players
    ensures p in ByGender(players, p.gender)
  {
    ByGenderElems(players, p.gender);
  }

  /** A role pass over players who are all assigned already changes nothing. */
  lemma RolePassIdle(st: Progress, players: seq<Player>, role: string)
    requires Shaped(st)
    requires forall p :: p in players ==> p in st.placed
    ensures Pass(st, ByRole(players, role)) == st
  {
    ByRoleElems(players, role);
    PassIdle(st, ByRole(players, role));
  }

  /** When every gender is `open` or `woman`, the first pass already places everyone
      and the cutter, handler and hybrid passes add nothing. */
  lemma RolePassesIdle(players: seq<Player>, n: nat)
    requires n >= 1
    requires forall p :: p in players ==> p.gender in Genders
    ensures Assigned(players, n) == Pass(Initial(n), FirstPassList(players))
  {
    var afterGender := Pass(Initial(n), FirstPassList(players));
    FirstPassPlacesAll(players, n);
    RolePassIdle(afterGender, players, Cutter);
    RolePassIdle(afterGender, players, Handler);
    RolePassIdle(afterGender, players, Hybrid);
  }

  /** With no two identical records and every record placeable, the rows hold exactly
      the input players and their total skill is the input's total skill. */
  lemma BalanceConservesPlayers(players: seq<Player>, n: nat)
    requires n >= 1
    requires NoDuplicates(players)
    requires forall p :: p in players ==> Placeable(p)
    ensures multiset(Members(BalanceSpec(players, n))) == multiset(players)
    ensures TotalSkill(Members(BalanceSpec(players, n))) == TotalSkill(players)
  {
    BalanceSpecCorrect(players, n);
    assert Eligible(players) == Elems(players);
    NoDuplicatesMultiset(players);
    TotalSkillPermutation(Members(BalanceSpec(players, n)), players);
  }

  /** Each pass list is best-first, and for every skill value its players are the
      input players of that skill and that gender (or role), in input order. */
  lemma PassListsOrdered(players: seq<Player>, gender: string, role: string, k: int)
    ensures SortedBySkill(ByGender(players, gender)) && SortedBySkill(ByRole(players, role))
    ensures WithSkill(ByGender(players, gender), k) == Filter(WithSkill(players, k), (p: Player) => p.gender == gender)
    ensures WithSkill(ByRole(players, role), k) == Filter(WithSkill(players, k), (p: Player) => p.role == role)
  {
    SortBySkillIsStable(Filter(players, (p: Player) => p.gender == gender), k);
    SortBySkillIsStable(Filter(players, (p: Player) => p.role == role), k);
    WithSkillFilter(players, (p: Player) => p.gender == gender, k);
    WithSkillFilter(players, (p: Player) => p.role == role, k);
  }

  lemma ByGenderOnly(players: seq<Player>, gender: string)
    ensures forall i :: 0 <= i < |ByGender(players, gender)| ==> ByGender(players, gender)[i].gender == gender
  {
    var xs := ByGender(players, gender);
    ByGenderElems(players, gender);
    forall i | 0 <= i < |xs| ensures xs[i].gender == gender {
      assert xs[i] in xs;
    }
  }

  /** In the first pass every `open` player comes before every `woman` player. */
  lemma OpensBeforeWomans(players: seq<Player>)
    ensures var first := FirstPassList(players);
      forall i, j :: 0 <= i < j < |first| && first[j].gender == Open ==> first[i].gender == Open
  {
    var opens, womans := ByGender(players, Open), ByGender(players, Woman);
    ByGenderOnly(players, Open);
    ByGenderOnly(players, Woman);
    var first := opens + womans;
    assert Open != Woman;
    forall i, j | 0 <= i < j < |first| && first[j].gender == Open
      ensures first[i].gender == Open
    {
      assert j < |opens|;
      assert first[i] == opens[i];
    }
  }

  /** The largest difference between two running sums. */
  ghost predicate SpreadWithin(sums: seq<int>, bound: int)
  {
    forall i, j :: 0 <= i < |sums| && 0 <= j < |sums| ==> sums[i] - sums[j] <= bound
  }

  /** Greedy least-loaded placement keeps the team totals within `bound` of each other
      as long as every skill lies between 0 and `bound`. */
  lemma {:induction false} PassKeepsSpread(st: Progress, xs: seq<Player>, bound: int)
    requires Shaped(st) && SpreadWithin(st.sums, bound)
    requires forall p :: p in xs ==> 0 <= p.skill <= bound
    ensures SpreadWithin(Pass(st, xs).sums, bound)
    decreases |xs|
  {
    if xs != [] {
      var pre := xs[..|xs| - 1];
      var p := xs[|xs| - 1];
      assert forall q :: q in pre ==> q in xs;
      PassKeepsSpread(st, pre, bound);
      var mid := Pass(st, pre);
      if p !in mid.placed {
        var k := LeastLoaded(mid.sums);
        var next := Step(mid, p);
        forall i, j | 0 <= i < |next.sums| && 0 <= j < |next.sums|
          ensures next.sums[i] - next.sums[j] <= bound
        {
          assert mid.sums[k] <= mid.sums[i] && mid.sums[k] <= mid.sums[j];
        }
      }
    }
  }

  /** For skills between 0 and `bound`, no team's total exceeds another's by more
      than `bound`, padding included. */
  lemma BalanceSpread(players: seq<Player>, n: nat, bound: int)
    requires n >= 1 && bound >= 0
    requires forall p :: p in players ==> 0 <= p.skill <= bound
    ensures var r := BalanceSpec(players, n);
      forall i, j :: 0 <= i < |r| && 0 <= j < |r| ==> TotalSkill(Unpad(r[i])) - TotalSkill(Unpad(r[j])) <= bound
  {
    AssignedSpread(players, n, bound);
    PaddedSpread(Assigned(players, n), bound);
  }

  /** Padding keeps the spread of the team totals. */
  lemma PaddedSpread(st: Progress, bound: int)
    requires Inv(st) && SpreadWithin(st.sums, bound)
    ensures var r := Pad(st.teams);
      forall i, j :: 0 <= i < |r| && 0 <= j < |r| ==> TotalSkill(Unpad(r[i])) - TotalSkill(Unpad(r[j])) <= bound
  {
    var r := Pad(st.teams);
    forall i, j | 0 <= i < |r| && 0 <= j < |r|
      ensures TotalSkill(Unpad(r[i])) - TotalSkill(Unpad(r[j])) <= bound
    {
      PaddedRowTotal(st, i);
      PaddedRowTotal(st, j);
    }
  }

  /** A padded row holds its team's running sum of skill. */
  lemma PaddedRowTotal(st: Progress, i: nat)
    requires Inv(st) && i < |st.teams|
    ensures |Pad(st.teams)| == |st.teams|
    ensures TotalSkill(Unpad(Pad(st.teams)[i])) == st.sums[i]
  {
    PaddedRow(st.teams, i);
  }

  lemma AssignedSpread(players: seq<Player>, n: nat, bound: int)
    requires n >= 1 && bound >= 0
    requires forall p :: p in players ==> 0 <= p.skill <= bound
    ensures Inv(Assigned(players, n)) && SpreadWithin(Assigned(players, n).sums, bound)
  {
    var q := Queue(players);
    QueueElems(players);
    assert forall p :: p in q ==> 0 <= p.skill <= bound;
    AssignedIsOnePass(players, n);
    PassKeepsSpread(Initial(n), q, bound);
    PassKeepsInv(Initial(n), q);
  }

  /** Row `i` of the padding gives back team `i`. */
  lemma PaddedRow(teams: seq<seq<Player>>, i: nat)
    requires i < |teams|
    ensures |Pad(teams)| == |teams| && Unpad(Pad(teams)[i]) == teams[i]
  {
    UnpadPadRow(teams[i], MaxLen(teams));
  }

  lemma UnpadPad(teams: seq<seq<Player>>)
    requires |teams| > 0
    ensures |Pad(teams)| == |teams|
    ensures forall i :: 0 <= i < |teams| ==> Unpad(Pad(teams)[i]) == teams[i]
  {
    forall i | 0 <= i < |teams| ensures Unpad(Pad(teams)[i]) == teams[i] {
      UnpadPadRow(teams[i], MaxLen(teams));
    }
  }
}
