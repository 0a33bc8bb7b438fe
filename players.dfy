/** Players and team slots, as the balancer and the input parser share them. */
module Players {

  /** A player record `(name, skill, gender, role)`. Gender and role are kept as the
      strings the app stores; the parser only ever produces the allowed values, but the
      balancer itself accepts any. */
  datatype Player = Player(name: string, skill: int, gender: string, role: string)

  /** One roster position after padding: a player, or the `None` filler. */
  datatype Slot = Empty | Filled(player: Player)

  const Open: string := "open"
  const Woman: string := "woman"
  const Cutter: string := "cutter"
  const Handler: string := "handler"
  const Hybrid: string := "hybrid"

  /** The genders and roles the input parser accepts. */
  const Genders: set<string> := {Open, Woman}
  const Roles: set<string> := {Cutter, Handler, Hybrid}

  /** The bounds of the team-count slider. */
  const MinTeams: nat := 2
  const MaxTeams: nat := 15

  /** Sum of the skills of a list of players. */
  function TotalSkill(xs: seq<Player>): int
    decreases |xs|
  {
    if xs == [] then 0 else xs[0].skill + TotalSkill(xs[1..])
  }

  lemma {:induction false} TotalSkillAppend(a: seq<Player>, b: seq<Player>)
    ensures TotalSkill(a + b) == TotalSkill(a) + TotalSkill(b)
    decreases |a|
  {
    if a == [] {
      assert a + b == b;
    } else {
      assert (a + b)[1..] == a[1..] + b;
      TotalSkillAppend(a[1..], b);
    }
  }

  /** Taking the player at position `j` out of a list removes one copy of it. */
  lemma RemoveAt(b: seq<Player>, j: nat)
    requires j < |b|
    ensures multiset(b) == multiset(b[..j] + b[j + 1..]) + multiset{b[j]}
  {
    assert b == b[..j] + [b[j]] + b[j + 1..];
  }

  /** Taking the player at position `j` out of a list removes its skill from the total. */
  lemma RemoveAtSkill(b: seq<Player>, j: nat)
    requires j < |b|
    ensures TotalSkill(b) == TotalSkill(b[..j] + b[j + 1..]) + b[j].skill
  {
    var pre, x, post := b[..j], b[j], b[j + 1..];
    assert b == pre + ([x] + post);
    assert ([x] + post)[1..] == post;
    TotalSkillAppend(pre, [x] + post);
    TotalSkillAppend(pre, post);
  }

  /** Total skill does not depend on the order of the players. */
  lemma {:induction false} TotalSkillPermutation(a: seq<Player>, b: seq<Player>)
    requires multiset(a) == multiset(b)
    ensures TotalSkill(a) == TotalSkill(b)
    decreases |a|
  {
    if a == [] {
      assert |b| == |multiset(b)| == 0;
    } else {
      var x := a[0];
      assert x in multiset(b);
      var j :| 0 <= j < |b| && b[j] == x;
      RemoveAt(b, j);
      RemoveAtSkill(b, j);
      assert a == [x] + a[1..];
      assert multiset(a) == multiset(a[1..]) + multiset{x};
      assert multiset(a[1..]) == multiset(a) - multiset{x};
      assert multiset(b[..j] + b[j + 1..]) == multiset(b) - multiset{x};
      TotalSkillPermutation(a[1..], b[..j] + b[j + 1..]);
    }
  }

  /** The set of players occurring in a list. */
  function Elems(xs: seq<Player>): (s: set<Player>)
    ensures forall p :: p in s <==> p in xs
  {
    set p | p in xs
  }

  predicate NoDuplicates(xs: seq<Player>)
  {
    forall i, j :: 0 <= i < j < |xs| ==> xs[i] != xs[j]
  }

  /** A list without duplicates holds each of its elements exactly once. */
  lemma {:induction false} NoDuplicatesMultiset(xs: seq<Player>)
    requires NoDuplicates(xs)
    ensures multiset(xs) == multiset(Elems(xs))
    decreases |xs|
  {
    if xs != [] {
      var pre, x := xs[..|xs| - 1], xs[|xs| - 1];
      assert xs == pre + [x];
      assert NoDuplicates(pre);
      NoDuplicatesMultiset(pre);
      assert x !in pre;
      assert Elems(xs) == Elems(pre) + {x};
      forall y ensures multiset(xs)[y] == multiset(Elems(xs))[y] {
        if y == x {
          assert multiset(pre)[y] == 0;
        }
      }
    }
  }
}
