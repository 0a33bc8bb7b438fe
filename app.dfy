/** What pressing "Balance Teams" does with the player list typed into the app. */
module App {
  import opened Players
  import opened Parsing
  import opened Balance
  import opened Average
  import opened Coverage

  /** Either the "Not enough players" error, or the padded teams and their averages. */
  datatype Outcome = NotEnoughPlayers | Balanced(teams: seq<seq<Slot>>, averages: seq<real>)

  /** A list without repeated records has as many distinct records as entries. */
  lemma DistinctCount(xs: seq<Player>)
    requires NoDuplicates(xs)
    ensures |Elems(xs)| == |xs|
  {
    NoDuplicatesMultiset(xs);
    assert |multiset(xs)| == |multiset(Elems(xs))|;
  }

  /** What balancing does with records the parser produced: only the first pass
      places anyone, every record is placed once, and with distinct records rated
      above 0 and at least as many records as teams, no team stays empty. */
  lemma BalanceParsed(players: seq<Player>, n: nat)
    requires n >= 1
    requires forall p :: p in players ==> p.gender in Genders && p.role in Roles
    ensures BalanceSpec(players, n) == Pad(Pass(Initial(n), FirstPassList(players)).teams)
    ensures multiset(Members(BalanceSpec(players, n))) == multiset(Elems(players))
    ensures NoDuplicates(players) && |players| >= n && (forall p :: p in players ==> p.skill > 0) ==>
      forall i :: 0 <= i < n ==> Unpad(BalanceSpec(players, n)[i]) != []
  {
    RolePassesIdle(players, n);
    BalanceSpecCorrect(players, n);
    assert Eligible(players) == Elems(players);
    if NoDuplicates(players) && |players| >= n && forall p :: p in players ==> p.skill > 0 {
      DistinctCount(players);
      EveryTeamGetsAPlayer(players, n);
    }
  }

  /** Parse the lines; refuse when there are fewer records than teams; otherwise
      balance the records and compute every team's average. */
  method BalanceClicked(lines: seq<string>, numTeams: nat) returns (outcome: Outcome)
    requires MinTeams <= numTeams <= MaxTeams
    ensures outcome.NotEnoughPlayers? <==> |ParseAll(lines)| < numTeams
    ensures outcome.Balanced? ==>
      var players := ParseAll(lines);
      && outcome.teams == BalanceSpec(players, numTeams)
      && outcome.teams == Pad(Pass(Initial(numTeams), FirstPassList(players)).teams)
      && |outcome.teams| == numTeams
      && multiset(Members(outcome.teams)) == multiset(Elems(players))
      && outcome.averages == AvgSkills(outcome.teams) && |outcome.averages| == numTeams
    ensures outcome.Balanced? && NoDuplicates(ParseAll(lines)) && (forall p :: p in ParseAll(lines) ==> p.skill > 0) ==>
      forall i :: 0 <= i < numTeams ==> Unpad(outcome.teams[i]) != []
  {
    var players := ParsePlayers(lines);
    if |players| < numTeams {
      return NotEnoughPlayers;
    }
    var teams := BalanceTeams(players, numTeams);
    BalanceParsed(players, numTeams);
    outcome := Balanced(teams, AvgSkills(teams));
  }
}
