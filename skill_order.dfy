/** The ordering every balancing pass uses: players by skill, highest first, with
    players of equal skill kept in their input order (the stable descending sort the
    app asks the runtime's list sort for). */
module SkillOrder {
  import opened Players

  /** Non-increasing skill from front to back. */
  ghost predicate SortedBySkill(xs: seq<Player>)
  {
    forall i, j :: 0 <= i < j < |xs| ==> xs[i].skill >= xs[j].skill
  }

  /** The players of `xs` whose skill is `k`, in their order in `xs`. */
  function WithSkill(xs: seq<Player>, k: int): (r: seq<Player>)
    ensures |r| <= |xs|
    decreases |xs|
  {
    if xs == [] then []
    else if xs[0].skill == k then [xs[0]] + WithSkill(xs[1..], k)
    else WithSkill(xs[1..], k)
  }

  /** The players of skill `k` in `a + b` are those of `a`, then those of `b`. */
  lemma {:induction false} WithSkillAppend(a: seq<Player>, b: seq<Player>, k: int)
    ensures WithSkill(a + b, k) == WithSkill(a, k) + WithSkill(b, k)
    decreases |a|
  {
    if a == [] {
      assert a + b == b;
    } else {
      assert (a + b)[1..] == a[1..] + b;
      WithSkillAppend(a[1..], b, k);
    }
  }

  /** Puts `p` in front of the first player whose skill is not above its own. */
  function Insert(p: Player, xs: seq<Player>): (r: seq<Player>)
    ensures multiset(r) == multiset(xs) + multiset{p}
    decreases |xs|
  {
    if xs == [] || xs[0].skill <= p.skill then [p] + xs
    else
      assert xs == [xs[0]] + xs[1..];
      [xs[0]] + Insert(p, xs[1..])
  }

  lemma {:induction false} InsertSorted(p: Player, xs: seq<Player>)
    requires SortedBySkill(xs)
    ensures SortedBySkill(Insert(p, xs))
    decreases |xs|
  {
    if xs != [] && xs[0].skill > p.skill {
      var rest := Insert(p, xs[1..]);
      InsertSorted(p, xs[1..]);
      forall j | 0 <= j < |rest| ensures xs[0].skill >= rest[j].skill {
        assert rest[j] in multiset(rest);
        assert rest[j] == p || rest[j] in multiset(xs[1..]);
      }
    }
  }

  /** The sorted copy of `xs` that `list.sort(key=skill, reverse=True)` leaves behind. */
  function SortBySkill(xs: seq<Player>): (r: seq<Player>)
    ensures multiset(r) == multiset(xs)
    ensures SortedBySkill(r)
    decreases |xs|
  {
    if xs == [] then []
    else
      assert xs == [xs[0]] + xs[1..];
      InsertSorted(xs[0], SortBySkill(xs[1..]));
      Insert(xs[0], SortBySkill(xs[1..]))
  }

  lemma {:induction false} InsertKeepsEqualOrder(p: Player, xs: seq<Player>, k: int)
    ensures WithSkill(Insert(p, xs), k) == if p.skill == k then [p] + WithSkill(xs, k) else WithSkill(xs, k)
    decreases |xs|
  {
    if xs == [] || xs[0].skill <= p.skill {
      assert ([p] + xs)[1..] == xs;
    } else {
      InsertKeepsEqualOrder(p, xs[1..], k);
      assert ([xs[0]] + Insert(p, xs[1..]))[1..] == Insert(p, xs[1..]);
      if p.skill == k {
        assert ([p] + WithSkill(xs[1..], k)) == [p] + WithSkill(xs, k);
      }
    }
  }

  /** The sort is stable: for every skill value, the players holding it come out in
      the order in which they went in. Together with SortBySkill's own contract
      (sorted, a permutation) this is the whole meaning of a stable sort. */
  lemma {:induction false} SortBySkillIsStable(xs: seq<Player>, k: int)
    ensures WithSkill(SortBySkill(xs), k) == WithSkill(xs, k)
    decreases |xs|
  {
    if xs != [] {
      SortBySkillIsStable(xs[1..], k);
      InsertKeepsEqualOrder(xs[0], SortBySkill(xs[1..]), k);
    }
  }

  lemma SortBySkillElems(xs: seq<Player>)
    ensures Elems(SortBySkill(xs)) == Elems(xs)
  {
    var r := SortBySkill(xs);
    forall p ensures p in r <==> p in xs {
      assert p in r <==> p in multiset(r);
      assert p in xs <==> p in multiset(xs);
    }
  }
}
