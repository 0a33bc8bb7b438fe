/** Which teams `balance_teams` actually gives players to. The least-loaded rule picks
    the lowest index among the teams with the smallest running sum, so as long as every
    skill is positive an empty team (sum 0) always wins over a started one (sum above
    0): the first `n` distinct players open the `n` teams one after the other. Players
    rated 0 or below break this, and then the guard `len(players) < num_teams` no longer
    ensures that every team gets someone. */
module Coverage {
  import opened Players
  import opened SkillOrder
  import opened Balance

  /** Teams `0 .. |placed| - 1` each have a player and a positive sum; the others are
      still empty with sum 0. */
  ghost predicate FilledInOrder(st: Progress)
  {
    && Shaped(st)
    && forall i :: 0 <= i < |st.teams| ==>
         if i < |st.placed| then st.teams[i] != [] && st.sums[i] > 0
         else st.teams[i] == [] && st.sums[i] == 0
  }

  lemma InitialFilledInOrder(n: nat)
    requires n >= 1
    ensures FilledInOrder(Initial(n))
  {
  }

  /** While some team is empty, a player rated above 0 goes to the first empty team. */
  lemma StepFillsInOrder(st: Progress, p: Player)
    requires FilledInOrder(st) && p.skill > 0
    ensures FilledInOrder(Step(st, p))
  {
    var m := |st.placed|;
    if p !in st.placed && m < |st.teams| {
      assert IsLeastLoaded(st.sums, m);
      LeastLoadedUnique(st.sums, m, LeastLoaded(st.sums));
    }
  }

  lemma {:induction false} PassFillsInOrder(st: Progress, xs: seq<Player>)
    requires FilledInOrder(st)
    requires forall p :: p in xs ==> p.skill > 0
    ensures FilledInOrder(Pass(st, xs))
    decreases |xs|
  {
    if xs != [] {
      var pre := xs[..|xs| - 1];
      assert forall p :: p in pre ==> p in xs;
      PassFillsInOrder(st, pre);
      StepFillsInOrder(Pass(st, pre), xs[|xs| - 1]);
    }
  }

  lemma AssignedFillsInOrder(players: seq<Player>, n: nat)
    requires n >= 1
    requires forall p :: p in players ==> p.skill > 0
    ensures FilledInOrder(Assigned(players, n)) && Assigned(players, n).placed == Eligible(players)
  {
    var q := Queue(players);
    AssignedIsOnePass(players, n);
    PassPlaces(Initial(n), q);
    QueueElems(players);
    assert forall p :: p in q ==> p in players;
    InitialFilledInOrder(n);
    PassFillsInOrder(Initial(n), q);
  }

  /** With every skill above 0 and at least `n` distinct placeable players, each of
      the `n` padded rows holds at least one player. */
  lemma EveryTeamGetsAPlayer(players: seq<Player>, n: nat)
    requires n >= 1
    requires forall p :: p in players ==> p.skill > 0
    requires |Eligible(players)| >= n
    ensures var r := BalanceSpec(players, n);
      |r| == n && forall i :: 0 <= i < n ==> Unpad(r[i]) != []
  {
    AssignedFillsInOrder(players, n);
    var st := Assigned(players, n);
    PaddedRow(st.teams, 0);
    forall i | 0 <= i < n ensures Unpad(BalanceSpec(players, n)[i]) != [] {
      assert st.teams[i] != [];
      PaddedRow(st.teams, i);
    }
  }

  lemma TwoOpensFirstList(a: Player, b: Player)
    requires a.gender == Open && b.gender == Open && a.skill == b.skill
    ensures FirstPassList([a, b]) == [a, b]
  {
    var players := [a, b];
    assert players[1..] == [b] && [b][1..] == [];
    var isOpen := (p: Player) => p.gender == Open;
    assert Filter([b], isOpen) == [b];
    assert Filter(players, isOpen) == [a, b];
    assert SortBySkill([b]) == [b];
    assert SortBySkill([a, b]) == Insert(a, [b]);
    var isWoman := (p: Player) => p.gender == Woman;
    assert Open[0] != Woman[0];
    assert Filter([b], isWoman) == [];
    assert Filter(players, isWoman) == [];
  }

  /** With two teams at equal sums, a new player goes to the first. */
  lemma StepToFirstOfTwo(st: Progress, p: Player)
    requires Shaped(st) && |st.sums| == 2 && st.sums[0] == st.sums[1] && p !in st.placed
    ensures Step(st, p).teams == [st.teams[0] + [p], st.teams[1]]
    ensures Step(st, p).sums == [st.sums[0] + p.skill, st.sums[1]]
  {
    assert IsLeastLoaded(st.sums, 0);
    LeastLoadedUnique(st.sums, 0, LeastLoaded(st.sums));
  }

  lemma TwoUnratedPass(a: Player, b: Player)
    requires a.skill == 0 && b.skill == 0 && a != b
    ensures Pass(Initial(2), [a, b]).teams == [[a, b], []]
  {
    var s0 := Initial(2);
    assert s0.sums == [0, 0] && s0.teams == [[], []];
    assert [a, b][..1] == [a] && [a][..0] == [];
    StepToFirstOfTwo(s0, a);
    var s1 := Step(s0, a);
    assert Pass(s0, [a]) == s1;
    assert Pass(s0, [a, b]) == Step(s1, b);
    StepToFirstOfTwo(s1, b);
    assert [] + [a] + [b] == [a, b];
  }

  /** Two different `open` players rated 0 both land in the first of two teams: the
      second team stays empty although there are as many players as teams. */
  lemma UnratedPlayersCrowdFirstTeam(a: Player, b: Player)
    requires a.gender == Open && b.gender == Open && a.skill == 0 && b.skill == 0 && a != b
    ensures Assigned([a, b], 2).teams == [[a, b], []]
  {
    TwoOpensFirstList(a, b);
    RolePassesIdle([a, b], 2);
    TwoUnratedPass(a, b);
  }
}
