/** `getStats`: the counters shown above the wall, computed in one pass. */
module IdeaStats {
  import opened IdeaModel

  datatype Stats = Stats(total: nat, todayCount: nat, weekCount: nat, firstCreatedAt: Option<int>)

  /** How many ideas were created at or after `since`. */
  function CountSince(ideas: seq<Idea>, since: int): (n: nat)
    ensures n <= |ideas|
    decreases |ideas|
  {
    if ideas == [] then 0
    else (if ideas[0].createdAt >= since then 1 else 0) + CountSince(ideas[1..], since)
  }

  function Min(a: int, b: int): int {
    if a <= b then a else b
  }

  /** The earliest creation time on a non-empty wall. */
  function EarliestCreatedAt(ideas: seq<Idea>): int
    requires ideas != []
    decreases |ideas|
  {
    if |ideas| == 1 then ideas[0].createdAt
    else Min(ideas[0].createdAt, EarliestCreatedAt(ideas[1..]))
  }

  /** What `getStats` returns, stated as a function of the wall. */
  function StatsOf(ideas: seq<Idea>, startOfToday: int): Stats {
    Stats(|ideas|,
          CountSince(ideas, startOfToday),
          CountSince(ideas, SevenDaysAgo(startOfToday)),
          if ideas == [] then None else Some(EarliestCreatedAt(ideas)))
  }

  /** `getStats(ideas)`: one loop keeps the two counters and the running minimum. */
  method GetStats(ideas: seq<Idea>, startOfToday: int) returns (stats: Stats)
    ensures stats == StatsOf(ideas, startOfToday)
    ensures stats.todayCount <= stats.weekCount <= stats.total == |ideas|
    ensures stats.firstCreatedAt == None <==> ideas == []
  {
    var total := |ideas|;
    var sevenDaysAgo := SevenDaysAgo(startOfToday);
    var todayCount: nat := 0;
    var weekCount: nat := 0;
    var firstCreatedAt: Option<int> := None;
    for i := 0 to |ideas|
      invariant todayCount == CountSince(ideas[..i], startOfToday)
      invariant weekCount == CountSince(ideas[..i], sevenDaysAgo)
      invariant firstCreatedAt == if i == 0 then None else Some(EarliestCreatedAt(ideas[..i]))
    {
      var created := ideas[i].createdAt;
      CountSinceSnoc(ideas[..i], ideas[i], startOfToday);
      CountSinceSnoc(ideas[..i], ideas[i], sevenDaysAgo);
      if i > 0 {
        EarliestSnoc(ideas[..i], ideas[i]);
      }
      assert ideas[..i + 1] == ideas[..i] + [ideas[i]];
      if created >= startOfToday {
        todayCount := todayCount + 1;
      }
      if created >= sevenDaysAgo {
        weekCount := weekCount + 1;
      }
      if firstCreatedAt == None || created < firstCreatedAt.value {
        firstCreatedAt := Some(created);
      }
    }
    assert ideas[..|ideas|] == ideas;
    stats := Stats(total, todayCount, weekCount, firstCreatedAt);
    CountSinceAntitone(ideas, sevenDaysAgo, startOfToday);
  }

  lemma {:induction false} CountSinceSnoc(ideas: seq<Idea>, x: Idea, since: int)
    ensures CountSince(ideas + [x], since) == CountSince(ideas, since) + (if x.createdAt >= since then 1 else 0)
    decreases |ideas|
  {
    if ideas != [] {
      assert (ideas + [x])[1..] == ideas[1..] + [x];
      CountSinceSnoc(ideas[1..], x, since);
    }
  }

  lemma {:induction false} EarliestSnoc(ideas: seq<Idea>, x: Idea)
    requires ideas != []
    ensures EarliestCreatedAt(ideas + [x]) == Min(EarliestCreatedAt(ideas), x.createdAt)
    decreases |ideas|
  {
    if |ideas| > 1 {
      assert (ideas + [x])[1..] == ideas[1..] + [x];
      EarliestSnoc(ideas[1..], x);
    }
  }

  /** A later threshold admits no more ideas: fewer today than this week. */
  lemma {:induction false} CountSinceAntitone(ideas: seq<Idea>, early: int, late: int)
    requires early <= late
    ensures CountSince(ideas, late) <= CountSince(ideas, early)
    decreases |ideas|
  {
    if ideas != [] {
      CountSinceAntitone(ideas[1..], early, late);
    }
  }

  /** The earliest creation time belongs to an idea on the wall and no idea is older. */
  lemma {:induction false} EarliestIsLeast(ideas: seq<Idea>)
    requires ideas != []
    ensures exists k :: 0 <= k < |ideas| && ideas[k].createdAt == EarliestCreatedAt(ideas)
    ensures forall k :: 0 <= k < |ideas| ==> EarliestCreatedAt(ideas) <= ideas[k].createdAt
    decreases |ideas|
  {
    if |ideas| > 1 {
      EarliestIsLeast(ideas[1..]);
      var m := EarliestCreatedAt(ideas[1..]);
      var k :| 0 <= k < |ideas| - 1 && ideas[1..][k].createdAt == m;
      if ideas[0].createdAt > m {
        assert ideas[k + 1].createdAt == EarliestCreatedAt(ideas);
      }
      forall j | 0 <= j < |ideas| ensures EarliestCreatedAt(ideas) <= ideas[j].createdAt {
        if j > 0 { assert ideas[j] == ideas[1..][j - 1]; }
      }
    } else {
      assert ideas[0].createdAt == EarliestCreatedAt(ideas);
    }
  }

  /** Removing one idea removes its contribution to the count and nothing else. */
  lemma {:induction false} CountSinceRemove(ideas: seq<Idea>, j: nat, since: int)
    requires j < |ideas|
    ensures CountSince(ideas, since)
         == CountSince(ideas[..j] + ideas[j + 1..], since) + (if ideas[j].createdAt >= since then 1 else 0)
    decreases |ideas|
  {
    if j > 0 {
      CountSinceRemove(ideas[1..], j - 1, since);
      assert ideas[1..][..j - 1] + ideas[1..][j..] == (ideas[..j] + ideas[j + 1..])[1..];
    } else {
      assert ideas[..0] + ideas[1..] == ideas[1..];
    }
  }

  /** The count depends only on which ideas are on the wall, not on their order. */
  lemma {:induction false} CountSincePermutation(a: seq<Idea>, b: seq<Idea>, since: int)
    requires multiset(a) == multiset(b)
    ensures CountSince(a, since) == CountSince(b, since)
    decreases |a|
  {
    if a != [] {
      var x := a[0];
      assert x in multiset(b);
      var j :| 0 <= j < |b| && b[j] == x;
      var b' := b[..j] + b[j + 1..];
      assert b == b[..j] + [x] + b[j + 1..];
      assert multiset(b) == multiset(b') + multiset{x};
      assert a == [x] + a[1..];
      assert multiset(a) == multiset(a[1..]) + multiset{x};
      MultisetCancel(multiset(a[1..]), multiset(b'), x);
      CountSincePermutation(a[1..], b', since);
      CountSinceRemove(b, j, since);
    }
  }

  lemma MultisetCancel<T>(p: multiset<T>, q: multiset<T>, x: T)
    requires p + multiset{x} == q + multiset{x}
    ensures p == q
  {
    forall y ensures p[y] == q[y] {
      assert (p + multiset{x})[y] == (q + multiset{x})[y];
    }
  }

  /** `getStats` gives the same result for any order of the same ideas. */
  lemma StatsPermutationInvariant(a: seq<Idea>, b: seq<Idea>, startOfToday: int)
    requires multiset(a) == multiset(b)
    ensures StatsOf(a, startOfToday) == StatsOf(b, startOfToday)
  {
    assert |a| == |multiset(a)| == |multiset(b)| == |b|;
    CountSincePermutation(a, b, startOfToday);
    CountSincePermutation(a, b, SevenDaysAgo(startOfToday));
    if a != [] {
      EarliestIsLeast(a);
      EarliestIsLeast(b);
      var ma, mb := EarliestCreatedAt(a), EarliestCreatedAt(b);
      var i :| 0 <= i < |a| && a[i].createdAt == ma;
      var j :| 0 <= j < |b| && b[j].createdAt == mb;
      assert a[i] in multiset(b);
      assert b[j] in multiset(a);
      assert mb <= ma && ma <= mb;
    }
  }
}
