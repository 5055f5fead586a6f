/** The `filteredIdeas` view of the wall: a time window and a keyword search,
    applied to every idea in list order. */
module IdeaFilter {
  import opened Text
  import opened IdeaModel

  /** The toolbar's three filter pills. */
  datatype Filter = All | Today | Week

  /** The time-window test. */
  predicate InWindow(filter: Filter, createdAt: int, startOfToday: int) {
    match filter
    case All => true
    case Today => createdAt >= startOfToday
    case Week => createdAt >= SevenDaysAgo(startOfToday)
  }

  /** The keyword test: skipped when the trimmed search is empty, and
      otherwise run with the UNtrimmed search, lower-cased. */
  predicate MatchesSearch(content: string, search: string) {
    Trim(search) == [] || Contains(Lower(content), Lower(search))
  }

  /** The callback given to `Array.filter`. */
  predicate Keep(idea: Idea, filter: Filter, search: string, startOfToday: int) {
    InWindow(filter, idea.createdAt, startOfToday) && MatchesSearch(idea.content, search)
  }

  /** `ideas.filter(...)`: the ideas that pass both tests, in list order. */
  function FilteredIdeas(ideas: seq<Idea>, filter: Filter, search: string, startOfToday: int): (r: seq<Idea>)
    ensures |r| <= |ideas|
    ensures forall x :: x in r ==> x in ideas
    decreases |ideas|
  {
    if ideas == [] then []
    else
      var rest := FilteredIdeas(ideas[1..], filter, search, startOfToday);
      if Keep(ideas[0], filter, search, startOfToday) then [ideas[0]] + rest else rest
  }

  /** `sub` is `s` with some elements removed and the rest left in order. */
  predicate IsSubsequence<T(==)>(sub: seq<T>, s: seq<T>)
    decreases |s|
  {
    if sub == [] then true
    else if s == [] then false
    else (sub[0] == s[0] && IsSubsequence(sub[1..], s[1..])) || IsSubsequence(sub, s[1..])
  }

  /** The view only drops ideas: it never adds, repeats or reorders them. */
  lemma {:induction false} FilteredIsSubsequence(ideas: seq<Idea>, filter: Filter, search: string, startOfToday: int)
    ensures IsSubsequence(FilteredIdeas(ideas, filter, search, startOfToday), ideas)
    decreases |ideas|
  {
    if ideas != [] {
      FilteredIsSubsequence(ideas[1..], filter, search, startOfToday);
    }
  }

  /** An idea is shown exactly when it is on the wall and passes both tests. */
  lemma {:induction false} FilteredMembership(ideas: seq<Idea>, filter: Filter, search: string, startOfToday: int, x: Idea)
    ensures x in FilteredIdeas(ideas, filter, search, startOfToday)
      <==> x in ideas && Keep(x, filter, search, startOfToday)
    decreases |ideas|
  {
    if ideas != [] {
      FilteredMembership(ideas[1..], filter, search, startOfToday, x);
      assert ideas == [ideas[0]] + ideas[1..];
    }
  }

  /** Every copy of a passing idea is kept and every copy of a failing one
      dropped: the view holds an idea exactly as often as the list does, or
      not at all. */
  lemma {:induction false} FilteredMultiplicity(ideas: seq<Idea>, filter: Filter, search: string, startOfToday: int, x: Idea)
    ensures multiset(FilteredIdeas(ideas, filter, search, startOfToday))[x]
         == if Keep(x, filter, search, startOfToday) then multiset(ideas)[x] else 0
    decreases |ideas|
  {
    if ideas != [] {
      FilteredMultiplicity(ideas[1..], filter, search, startOfToday, x);
      assert ideas == [ideas[0]] + ideas[1..];
      assert multiset(ideas) == multiset{ideas[0]} + multiset(ideas[1..]);
    }
  }

  /** With the "all" pill and a blank search the view is the whole wall. */
  lemma {:induction false} FilteredAllBlankIsIdentity(ideas: seq<Idea>, search: string, startOfToday: int)
    requires IsBlank(search)
    ensures FilteredIdeas(ideas, All, search, startOfToday) == ideas
    decreases |ideas|
  {
    if ideas != [] {
      FilteredAllBlankIsIdentity(ideas[1..], search, startOfToday);
      assert ideas == [ideas[0]] + ideas[1..];
    }
  }

  /** The "today" pill shows the ideas created at or after local midnight;
      the "week" pill those created at or after midnight six days earlier. */
  lemma {:induction false} FilteredWindows(ideas: seq<Idea>, search: string, startOfToday: int, x: Idea)
    ensures x in FilteredIdeas(ideas, Today, search, startOfToday)
      <==> x in ideas && x.createdAt >= startOfToday && MatchesSearch(x.content, search)
    ensures x in FilteredIdeas(ideas, Week, search, startOfToday)
      <==> x in ideas && x.createdAt >= startOfToday - 6 * DAY && MatchesSearch(x.content, search)
  {
    FilteredMembership(ideas, Today, search, startOfToday, x);
    FilteredMembership(ideas, Week, search, startOfToday, x);
  }

  /** Whatever the "today" pill shows, the "week" pill shows too, in the same order. */
  lemma {:induction false} TodayViewWithinWeekView(ideas: seq<Idea>, search: string, startOfToday: int)
    ensures IsSubsequence(FilteredIdeas(ideas, Today, search, startOfToday),
                          FilteredIdeas(ideas, Week, search, startOfToday))
    decreases |ideas|
  {
    if ideas != [] {
      TodayViewWithinWeekView(ideas[1..], search, startOfToday);
      var today := FilteredIdeas(ideas, Today, search, startOfToday);
      var week := FilteredIdeas(ideas, Week, search, startOfToday);
      var today' := FilteredIdeas(ideas[1..], Today, search, startOfToday);
      var week' := FilteredIdeas(ideas[1..], Week, search, startOfToday);
      if Keep(ideas[0], Week, search, startOfToday) {
        assert week == [ideas[0]] + week' && week[1..] == week';
        if Keep(ideas[0], Today, search, startOfToday) {
          assert today == [ideas[0]] + today' && today[1..] == today';
        } else {
          assert today == today';
          SubsequenceOfTail(today', week);
        }
      }
    }
  }

  /** Dropping the first element of the longer sequence keeps a subsequence one. */
  lemma SubsequenceOfTail<T>(sub: seq<T>, s: seq<T>)
    requires s != [] && IsSubsequence(sub, s[1..])
    ensures IsSubsequence(sub, s)
  {
  }

  /** With a non-blank search every shown idea contains the search text,
      untrimmed, ignoring case. */
  lemma {:induction false} FilteredMatchesSearch(ideas: seq<Idea>, filter: Filter, search: string, startOfToday: int, x: Idea)
    requires !IsBlank(search)
    requires x in FilteredIdeas(ideas, filter, search, startOfToday)
    ensures Contains(Lower(x.content), Lower(search))
  {
    FilteredMembership(ideas, filter, search, startOfToday, x);
  }

  /** The search ignores case: two searches that lower-case alike give the same view. */
  lemma {:induction false} SearchIgnoresCase(ideas: seq<Idea>, filter: Filter, a: string, b: string, startOfToday: int)
    requires Lower(a) == Lower(b)
    ensures FilteredIdeas(ideas, filter, a, startOfToday) == FilteredIdeas(ideas, filter, b, startOfToday)
    decreases |ideas|
  {
    if ideas != [] {
      SameLowerSameBlank(a, b);
      SearchIgnoresCase(ideas[1..], filter, a, b, startOfToday);
    }
  }

  /** Filtering the view again with the same settings changes nothing. */
  lemma {:induction false} FilterIdempotent(ideas: seq<Idea>, filter: Filter, search: string, startOfToday: int)
    ensures FilteredIdeas(FilteredIdeas(ideas, filter, search, startOfToday), filter, search, startOfToday)
         == FilteredIdeas(ideas, filter, search, startOfToday)
    decreases |ideas|
  {
    if ideas != [] {
      FilterIdempotent(ideas[1..], filter, search, startOfToday);
      var r := FilteredIdeas(ideas, filter, search, startOfToday);
      if Keep(ideas[0], filter, search, startOfToday) {
        assert r[1..] == FilteredIdeas(ideas[1..], filter, search, startOfToday);
      }
    }
  }

  /** The keyword is matched untrimmed: a leading space in the search makes
      "build" miss an idea whose whole content is "build". */
  lemma UntrimmedSearchMatters()
    ensures MatchesSearch("build", "build")
    ensures !MatchesSearch("build", " build")
  {
    assert OccursAt(Lower("build"), Lower("build"), 0);
    assert !IsBlank(" build") by { assert !IsWhitespace(" build"[1]); }
  }
}
