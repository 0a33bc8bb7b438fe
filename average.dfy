/** `calculate_avg_skill`: one average per team over the rated players only. */
module Average {
  import opened Players
  import opened Balance

  /** The skills that count towards a team's average: those of real players (not the
      `None` filler) whose skill is above 0, in roster order. */
  function PositiveSkills(team: seq<Slot>): (skills: seq<int>)
    ensures forall s :: s in skills ==> s > 0
    ensures |skills| <= |team|
    decreases |team|
  {
    if team == [] then []
    else
      var head := match team[0]
        case Filled(p) => if p.skill > 0 then [p.skill] else []
        case Empty => [];
      head + PositiveSkills(team[1..])
  }

  lemma {:induction false} SumOfPositives(xs: seq<int>)
    requires forall s :: s in xs ==> s > 0
    ensures SumOf(xs) >= |xs|
    decreases |xs|
  {
    if xs != [] {
      assert xs[0] in xs;
      assert forall s :: s in xs[1..] ==> s in xs;
      SumOfPositives(xs[1..]);
    }
  }

  /** `sum(skills) / len(skills) if skills else 0`, as an exact quotient. */
  function TeamAverage(team: seq<Slot>): (avg: real)
    ensures PositiveSkills(team) == [] ==> avg == 0.0
    ensures PositiveSkills(team) != [] ==>
      avg * (|PositiveSkills(team)| as real) == SumOf(PositiveSkills(team)) as real && avg >= 1.0
  {
    var skills := PositiveSkills(team);
    if skills == [] then 0.0
    else
      SumOfPositives(skills);
      Quotient(SumOf(skills), |skills|);
      (SumOf(skills) as real) / (|skills| as real)
  }

  /** The exact quotient of a total by a count no larger than it is at least 1. */
  lemma Quotient(total: int, count: int)
    requires 0 < count <= total
    ensures var q := (total as real) / (count as real); q * (count as real) == total as real && q >= 1.0
  {
    var q := (total as real) / (count as real);
    assert q * (count as real) == total as real;
    if q < 1.0 {
      assert q * (count as real) < count as real;
    }
  }

  /** `calculate_avg_skill(teams)`: the averages, team by team. */
  function AvgSkills(teams: seq<seq<Slot>>): (avgs: seq<real>)
    ensures |avgs| == |teams|
    ensures forall i :: 0 <= i < |teams| ==> avgs[i] == TeamAverage(teams[i])
    ensures forall i :: 0 <= i < |teams| ==> (avgs[i] == 0.0 <==> PositiveSkills(teams[i]) == [])
  {
    seq(|teams|, i requires 0 <= i < |teams| => TeamAverage(teams[i]))
  }

  lemma {:induction false} PositiveSkillsAppend(a: seq<Slot>, b: seq<Slot>)
    ensures PositiveSkills(a + b) == PositiveSkills(a) + PositiveSkills(b)
    decreases |a|
  {
    if a == [] {
      assert a + b == b;
    } else {
      assert (a + b)[1..] == a[1..] + b;
      PositiveSkillsAppend(a[1..], b);
    }
  }

  lemma {:induction false} BlanksHaveNoSkills(n: nat)
    ensures PositiveSkills(Blanks(n)) == []
    decreases n
  {
    if n > 0 {
      assert Blanks(n)[1..] == Blanks(n - 1);
      BlanksHaveNoSkills(n - 1);
    }
  }

  /** The `None` padding never changes a team's average. */
  lemma AverageIgnoresPadding(team: seq<Player>, width: nat)
    requires |team| <= width
    ensures TeamAverage(PadRow(team, width)) == TeamAverage(Lift(team))
  {
    PositiveSkillsAppend(Lift(team), Blanks(width - |team|));
    BlanksHaveNoSkills(width - |team|);
    assert PositiveSkills(PadRow(team, width)) == PositiveSkills(Lift(team));
  }

  /** A player rated 0 or below never changes a team's average. */
  lemma AverageIgnoresUnrated(team: seq<Slot>, p: Player)
    requires p.skill <= 0
    ensures TeamAverage(team + [Filled(p)]) == TeamAverage(team)
  {
    PositiveSkillsAppend(team, [Filled(p)]);
    assert PositiveSkills([Filled(p)]) == [];
    assert PositiveSkills(team + [Filled(p)]) == PositiveSkills(team);
  }

  /** A team with no player rated above 0 reports 0. */
  lemma {:induction false} UnratedTeamAveragesZero(team: seq<Slot>)
    requires forall i :: 0 <= i < |team| && team[i].Filled? ==> team[i].player.skill <= 0
    ensures TeamAverage(team) == 0.0
    decreases |team|
  {
    if team != [] {
      assert forall i :: 0 <= i < |team[1..]| ==> team[1..][i] == team[i + 1];
      UnratedTeamAveragesZero(team[1..]);
    }
  }

  /** A single slot counts its skill exactly when it holds a player rated above 0. */
  lemma PositiveSkillsOne(s: Slot)
    ensures PositiveSkills([s]) == if s.Filled? && s.player.skill > 0 then [s.player.skill] else []
  {
    assert [s][1..] == [];
  }

  /** A player rated above 0 has its skill counted. */
  lemma RatedPlayerCounted(team: seq<Slot>, i: nat)
    requires i < |team| && team[i].Filled? && team[i].player.skill > 0
    ensures team[i].player.skill in PositiveSkills(team)
  {
    var pre, s, post := team[..i], team[i], team[i + 1..];
    assert team == pre + ([s] + post);
    PositiveSkillsAppend(pre, [s] + post);
    PositiveSkillsAppend([s], post);
    PositiveSkillsOne(s);
    var counted := PositiveSkills(pre) + ([s.player.skill] + PositiveSkills(post));
    assert counted[|PositiveSkills(pre)|] == s.player.skill;
  }

  /** A team with a player rated above 0 averages at least 1. */
  lemma RatedPlayerCounts(team: seq<Slot>, i: nat)
    requires i < |team| && team[i].Filled? && team[i].player.skill > 0
    ensures TeamAverage(team) >= 1.0
  {
    RatedPlayerCounted(team, i);
  }

  /** A team averages 0 exactly when none of its players is rated above 0. */
  lemma AverageZeroIff(team: seq<Slot>)
    ensures TeamAverage(team) == 0.0 <==>
      forall i :: 0 <= i < |team| && team[i].Filled? ==> team[i].player.skill <= 0
  {
    if forall i :: 0 <= i < |team| && team[i].Filled? ==> team[i].player.skill <= 0 {
      UnratedTeamAveragesZero(team);
    } else {
      var i :| 0 <= i < |team| && team[i].Filled? && team[i].player.skill > 0;
      RatedPlayerCounts(team, i);
    }
  }
}
