/** A page cut out of one list, and the pages cut out of its shares: when the one gives the others. */
module Shares {
  import opened Rows
  import opened Eager

  // ---------------------------------------------------------------- shares and their pages

  /** The elements of one owner. */
  function ShareOf<T>(key: T -> int, id: int, all: seq<T>): seq<T> { Filter(KeyIs(key, id), all) }

  /** The owner's share of the page is the page of its share. */
  ghost predicate SharePaged<T>(all: seq<T>, key: T -> int, id: int, limit: Option<nat>, offset: nat) {
    ShareOf(key, id, Page(limit, offset, all)) == Page(limit, offset, ShareOf(key, id, all))
  }

  ghost predicate SharesPaged<T>(all: seq<T>, key: T -> int, ids: seq<int>, limit: Option<nat>, offset: nat) {
    forall id :: id in ids ==> SharePaged(all, key, id, limit, offset)
  }

  ghost predicate Owned<T(!new)>(all: seq<T>, key: T -> int, ids: seq<int>) { forall x :: x in all ==> key(x) in ids }

  ghost predicate HasShare<T(!new)>(all: seq<T>, key: T -> int, id: int) { exists x :: x in all && key(x) == id }

  /** At most one owner has any element. */
  ghost predicate OneFamily<T(!new)>(all: seq<T>, key: T -> int, ids: seq<int>) {
    forall a, b :: a in ids && b in ids && HasShare(all, key, a) && HasShare(all, key, b) ==> a == b
  }

  ghost predicate AllOf<T(!new)>(s: seq<T>, key: T -> int, x: int) { forall t :: t in s ==> key(t) == x }

  ghost predicate Others<T>(all: seq<T>, key: T -> int, ids: seq<int>, x: int, offset: nat) {
    forall y :: y in ids && y != x ==> |ShareOf(key, y, all)| <= offset
  }

  /** The page ends within elements of one owner, and every other owner has no more than are skipped. */
  ghost predicate OnlyOneReached<T(!new)>(all: seq<T>, key: T -> int, ids: seq<int>, upTo: nat, offset: nat) {
    upTo <= |all| && exists x :: x in ids && AllOf(all[..upTo], key, x) && Others(all, key, ids, x, offset)
  }

  /** When one page over all is one page an owner. */
  ghost predicate PageHarmless<T(!new)>(all: seq<T>, key: T -> int, ids: seq<int>, limit: Option<nat>, offset: nat) {
    || limit == Some(0) || |all| <= offset || OneFamily(all, key, ids)
    || (offset == 0 && (limit.None? || |all| <= limit.value))
    || (limit.Some? && OnlyOneReached(all, key, ids, offset + limit.value, offset))
  }

  ghost predicate Distinct<T(!new)>(s: seq<T>) { forall i, j :: 0 <= i < j < |s| ==> s[i] != s[j] }

  // ---------------------------------------------------------------- lists

  lemma {:induction false} FilterShorter<T(!new)>(p: T -> bool, s: seq<T>)
    ensures |Filter(p, s)| <= |s|
    ensures |Filter(p, s)| == |s| ==> forall x :: x in s ==> p(x)
  {
    if s != [] {
      assert s == [s[0]] + s[1..];
      FilterShorter(p, s[1..]);
    }
  }

  lemma {:induction false} FilterDistinct<T(!new)>(p: T -> bool, s: seq<T>)
    requires Distinct(s)
    ensures Distinct(Filter(p, s))
  {
    if s != [] {
      FilterDistinct(p, s[1..]);
      FilterIn(p, s[1..]);
      assert s[0] !in s[1..];
      assert forall x :: x in Filter(p, s[1..]) ==> x != s[0];
      var f := Filter(p, s[1..]);
      forall i, j | 0 <= i < j < |Filter(p, s)| ensures Filter(p, s)[i] != Filter(p, s)[j] {
        if p(s[0]) { assert Filter(p, s)[j] == f[j - 1] && f[j - 1] in f; }
      }
    }
  }

  /** A list cut in two: what is kept before the cut comes first. */
  lemma FilterCut<T(!new)>(p: T -> bool, s: seq<T>, n: nat)
    requires n <= |s|
    ensures Filter(p, s) == Filter(p, s[..n]) + Filter(p, s[n..])
    ensures n < |s| && p(s[n]) ==>
              |Filter(p, s[..n])| < |Filter(p, s)| && Filter(p, s)[|Filter(p, s[..n])|] == s[n]
  {
    assert s == s[..n] + s[n..];
    FilterConcat(p, s[..n], s[n..]);
    hide Filter;
    if n < |s| && p(s[n]) {
      assert s[n..] == [s[n]] + s[n + 1..];
      FilterCons(p, s[n], s[n + 1..]);
    }
  }

  lemma {:induction false} InsertKeepsDistinct<T(!new)>(o: Order<T>, x: T, s: seq<T>)
    requires Distinct(s) && x !in s
    ensures Distinct(Insert(o, x, s))
  {
    if s != [] && !Leq(o, x, s[0]) {
      assert s == [s[0]] + s[1..];
      InsertKeepsDistinct(o, x, s[1..]);
      InsertIn(o, x, s[1..]);
      var t := Insert(o, x, s[1..]);
      assert s[0] !in s[1..];
      forall j | 0 <= j < |t| ensures t[j] != s[0] { assert t[j] in t; }
    }
  }

  lemma {:induction false} SortKeepsDistinct<T(!new)>(o: Order<T>, s: seq<T>)
    requires Distinct(s)
    ensures Distinct(SortBy(o, s))
  {
    if s != [] {
      SortKeepsDistinct(o, s[1..]);
      SortByIn(o, s[1..]);
      assert s[0] !in s[1..];
      InsertKeepsDistinct(o, s[0], SortBy(o, s[1..]));
    }
  }

  lemma PageOfPrefix<T>(limit: nat, offset: nat, a: seq<T>, b: seq<T>)
    requires |a| == offset + limit
    ensures Page(Some(limit), offset, a + b) == a[offset..]
  {
    var t := (a + b)[offset..];
    assert t == a[offset..] + b && t[..limit] == a[offset..];
    if limit == |t| { assert t[..limit] == t; }
  }

  lemma PageShort<T>(limit: Option<nat>, offset: nat, s: seq<T>)
    ensures |s| <= offset ==> Page(limit, offset, s) == []
    ensures offset < |s| && limit != Some(0) ==> Page(limit, offset, s) != [] && Page(limit, offset, s)[0] == s[offset]
  {}

  /** What is skipped, the page, and what comes behind it. */
  lemma PageSplit<T>(limit: Option<nat>, offset: nat, s: seq<T>) returns (back: seq<T>)
    requires offset <= |s|
    ensures s == s[..offset] + (Page(limit, offset, s) + back)
    ensures back != [] ==> limit.Some? && |Page(limit, offset, s)| == limit.value
  {
    var t, page := s[offset..], Page(limit, offset, s);
    back := t[|page|..];
    assert t == page + back && s == s[..offset] + t;
  }

  // ---------------------------------------------------------------- a harmless page

  lemma HarmlessShares<T(!new)>(all: seq<T>, key: T -> int, ids: seq<int>, limit: Option<nat>, offset: nat, id: int)
    requires PageHarmless(all, key, ids, limit, offset) && id in ids && Owned(all, key, ids)
    ensures SharePaged(all, key, id, limit, offset)
  {
    hide Filter, OneFamily, AllOf, Others;
    if limit == Some(0) || |all| <= offset || (offset == 0 && (limit.None? || |all| <= limit.value)) {
      EasyPages(all, key, id, limit, offset);
    } else if OneFamily(all, key, ids) {
      OneFamilyPages(all, key, ids, id, limit, offset);
    } else {
      var x :| x in ids && AllOf(all[..offset + limit.value], key, x) && Others(all, key, ids, x, offset);
      ReachedPages(all, key, ids, x, limit.value, offset, id);
    }
  }

  lemma EasyPages<T(!new)>(all: seq<T>, key: T -> int, id: int, limit: Option<nat>, offset: nat)
    requires limit == Some(0) || |all| <= offset || (offset == 0 && (limit.None? || |all| <= limit.value))
    ensures SharePaged(all, key, id, limit, offset)
  {
    FilterShorter(KeyIs(key, id), all);
    if offset == 0 { assert all[0..] == all && ShareOf(key, id, all)[0..] == ShareOf(key, id, all); }
  }

  lemma OneFamilyPages<T(!new)>(all: seq<T>, key: T -> int, ids: seq<int>, id: int, limit: Option<nat>, offset: nat)
    requires OneFamily(all, key, ids) && id in ids && Owned(all, key, ids)
    ensures SharePaged(all, key, id, limit, offset)
  {
    var own := KeyIs(key, id);
    PageIn(limit, offset, all);
    if HasShare(all, key, id) {
      forall x | x in all ensures own(x) { assert HasShare(all, key, key(x)); }
      FilterAll(own, all);
      FilterAll(own, Page(limit, offset, all));
    } else {
      FilterNone(own, all);
      FilterNone(own, Page(limit, offset, all));
    }
  }

  lemma ReachedPages<T(!new)>(all: seq<T>, key: T -> int, ids: seq<int>, x: int, limit: nat, offset: nat, id: int)
    requires offset + limit <= |all| && AllOf(all[..offset + limit], key, x) && Others(all, key, ids, x, offset)
    requires id in ids
    ensures SharePaged(all, key, id, Some(limit), offset)
  {
    var own, reached, back := KeyIs(key, id), all[..offset + limit], all[offset + limit..];
    var page := reached[offset..];
    assert all == reached + back && forall t :: t in page ==> t in reached;
    FilterConcat(own, reached, back);
    PageOfPrefix(limit, offset, reached, back);
    PageOfPrefix(limit, offset, reached, Filter(own, back));
    if id == x {
      FilterAll(own, reached);
      FilterAll(own, page);
    } else {
      FilterNone(own, page);
      PageShort(Some(limit), offset, Filter(own, all));
    }
  }

  // ---------------------------------------------------------------- the converse, without an offset

  /** The first element cut off belongs to x; either x or another owner is treated differently. */
  lemma CutFamilyDiffers<T(!new)>(all: seq<T>, key: T -> int, ids: seq<int>, n: nat)
    requires 0 < n < |all| && Owned(all, key, ids) && !OneFamily(all, key, ids)
    ensures !SharesPaged(all, key, ids, Some(n), 0)
  {
    assert all[n] in all && all[0..] == all;
    var x := key(all[n]);
    var a, b :| a in ids && b in ids && HasShare(all, key, a) && HasShare(all, key, b) && a != b;
    var y := if x == a then b else a;
    hide Filter, HasShare, OneFamily;
    if SharePaged(all, key, x, Some(n), 0) {
      CutRowsAreX(all, key, x, n);
      CutOffEntirely(all, key, x, y, n);
    }
  }

  lemma TakePage<T>(n: nat, s: seq<T>)
    ensures Page(Some(n), 0, s) == if n < |s| then s[..n] else s
  {
    assert s[0..] == s;
  }

  /** If the family of the first element cut off is treated alike, all kept are that family's. */
  lemma CutRowsAreX<T(!new)>(all: seq<T>, key: T -> int, x: int, n: nat)
    requires 0 < n < |all| && key(all[n]) == x && SharePaged(all, key, x, Some(n), 0)
    ensures AllOf(all[..n], key, x)
  {
    var own := KeyIs(key, x);
    TakePage(n, all);
    TakePage(n, ShareOf(key, x, all));
    FilterCut(own, all, n);
    FilterShorter(own, all[..n]);
    hide Filter, Page;
    assert |Filter(own, all[..n])| == n;
  }

  /** When the first n all belong to x, another owner gets none of them. */
  lemma CutOffEntirely<T(!new)>(all: seq<T>, key: T -> int, x: int, y: int, n: nat)
    requires 0 < n < |all| && x != y && HasShare(all, key, y) && AllOf(all[..n], key, x)
    ensures !SharePaged(all, key, y, Some(n), 0)
  {
    var other := KeyIs(key, y);
    TakePage(n, all);
    TakePage(n, ShareOf(key, y, all));
    FilterNone(other, all[..n]);
    var t :| t in all && key(t) == y;
    FilterIn(other, all);
    assert t in Filter(other, all);
  }

  // ---------------------------------------------------------------- the converse, with an offset

  /** The first element of the page belongs to x: then x owns everything before it, too. */
  lemma SkippedAreX<T(!new)>(all: seq<T>, key: T -> int, x: int, limit: Option<nat>, offset: nat)
    requires Distinct(all) && limit != Some(0) && offset < |all| && key(all[offset]) == x
    requires SharePaged(all, key, x, limit, offset)
    ensures AllOf(all[..offset], key, x)
  {
    var own, page := KeyIs(key, x), Page(limit, offset, all);
    FilterDistinct(own, all);
    FilterCut(own, all, offset);
    FilterShorter(own, all[..offset]);
    assert page[0] == all[offset] && page[..0] == [];
    FilterCut(own, page, 0);
    assert Filter(own, page)[0] == all[offset];
  }

  /** Another owner, none of whose elements are skipped: the page has none of them either. */
  lemma OthersUnreached<T(!new)>(all: seq<T>, key: T -> int, y: int, limit: Option<nat>, offset: nat)
    requires Distinct(all) && limit != Some(0) && 0 < offset < |all|
    requires forall t :: t in all[..offset] ==> key(t) != y
    requires SharePaged(all, key, y, limit, offset)
    ensures ShareOf(key, y, Page(limit, offset, all)) == [] && |ShareOf(key, y, all)| <= offset
  {
    var own, page, front := KeyIs(key, y), Page(limit, offset, all), all[..offset];
    var back := PageSplit(limit, offset, all);
    FilterDistinct(own, all);
    FilterConcat(own, front, page + back);
    FilterConcat(own, page, back);
    FilterNone(own, front);
    hide Filter, Page;
    assert Filter(own, all) == Filter(own, page) + Filter(own, back);
    PrefixPage(limit, offset, Filter(own, page), Filter(own, back));
  }

  /** A list whose page is its own beginning, although elements were skipped: nothing is on the page. */
  lemma PrefixPage<T(!new)>(limit: Option<nat>, offset: nat, a: seq<T>, b: seq<T>)
    requires Distinct(a + b) && limit != Some(0) && 0 < offset && Page(limit, offset, a + b) == a
    ensures a == [] && |a + b| <= offset
  {
    PageShort(limit, offset, a + b);
    SameHead(a, b);
  }

  lemma SameHead<T>(a: seq<T>, b: seq<T>)
    ensures a != [] ==> (a + b)[0] == a[0]
  {}

  lemma PagedToHarmless<T(!new)>(all: seq<T>, key: T -> int, ids: seq<int>, limit: Option<nat>, offset: nat)
    requires Distinct(all) && limit != Some(0) && 0 < offset < |all| && !OneFamily(all, key, ids)
    requires SharesPaged(all, key, ids, limit, offset) && Owned(all, key, ids)
    ensures limit.Some? && OnlyOneReached(all, key, ids, offset + limit.value, offset)
  {
    var front, page := all[..offset], Page(limit, offset, all);
    var x := PageOfX(all, key, ids, limit, offset);
    NotOnlyX(all, key, ids, x);
    var back := PageSplit(limit, offset, all);
    hide Page, OneFamily, Others, SharesPaged, Distinct, OnlyOneReached;
    ReachedOnlyX(all, key, ids, x, offset, front, page, back);
  }

  lemma ReachedOnlyX<T(!new)>(all: seq<T>, key: T -> int, ids: seq<int>, x: int, offset: nat, front: seq<T>,
                              page: seq<T>, back: seq<T>)
    requires all == front + (page + back) && x in ids
    requires AllOf(front, key, x) && AllOf(page, key, x) && Others(all, key, ids, x, offset)
    requires exists t :: t in all && key(t) != x
    ensures back != [] && OnlyOneReached(all, key, ids, |front| + |page|, offset)
  {
    hide Others;
    var reached := front + page;
    assert all == reached + back && all[..|reached|] == reached;
    assert AllOf(reached, key, x);
    assert reached + [] == reached;
  }

  /** The page and all that is skipped belong to one owner, and the others have no more than are skipped. */
  lemma PageOfX<T(!new)>(all: seq<T>, key: T -> int, ids: seq<int>, limit: Option<nat>, offset: nat) returns (x: int)
    requires Distinct(all) && limit != Some(0) && 0 < offset < |all|
    requires SharesPaged(all, key, ids, limit, offset) && Owned(all, key, ids)
    ensures x in ids && AllOf(all[..offset], key, x) && AllOf(Page(limit, offset, all), key, x)
    ensures Others(all, key, ids, x, offset)
  {
    assert all[offset] in all;
    x := key(all[offset]);
    var page := Page(limit, offset, all);
    PageIn(limit, offset, all);
    SkippedAreX(all, key, x, limit, offset);
    hide Page, Filter, Distinct;
    forall y | y in ids && y != x ensures ShareOf(key, y, page) == [] && |ShareOf(key, y, all)| <= offset {
      OthersUnreached(all, key, y, limit, offset);
    }
    forall t | t in page ensures key(t) == x {
      assert t in all;
      FilterIn(KeyIs(key, key(t)), page);
    }
  }

  /** More than one family: some element is not x's. */
  lemma NotOnlyX<T(!new)>(all: seq<T>, key: T -> int, ids: seq<int>, x: int)
    requires !OneFamily(all, key, ids)
    ensures exists t :: t in all && key(t) != x
  {
    var a, b :| a in ids && b in ids && HasShare(all, key, a) && HasShare(all, key, b) && a != b;
    var y := if a == x then b else a;
    var t :| t in all && key(t) == y;
  }

  // ---------------------------------------------------------------- the exact condition

  /** One page over all gives every owner the page of its share exactly when it is empty anyway, takes everything,
      only one owner has elements, or it ends within one owner's and no other has more than are skipped. Repeated
      elements are excluded only where elements are skipped. */
  lemma PageExact<T(!new)>(all: seq<T>, key: T -> int, ids: seq<int>, limit: Option<nat>, offset: nat)
    requires Owned(all, key, ids) && (offset > 0 ==> Distinct(all))
    ensures SharesPaged(all, key, ids, limit, offset) <==> PageHarmless(all, key, ids, limit, offset)
  {
    hide Filter, Page, OneFamily, SharePaged;
    if PageHarmless(all, key, ids, limit, offset) {
      forall id | id in ids { HarmlessShares(all, key, ids, limit, offset, id); }
    } else if SharesPaged(all, key, ids, limit, offset) {
      if offset == 0 {
        CutFamilyDiffers(all, key, ids, limit.value);
      } else {
        PagedToHarmless(all, key, ids, limit, offset);
      }
    }
  }

  /** Without an offset the last case is no other than one family. */
  lemma LimitHarmless<T(!new)>(all: seq<T>, key: T -> int, ids: seq<int>, n: nat)
    requires Owned(all, key, ids)
    ensures PageHarmless(all, key, ids, Some(n), 0) <==> |all| <= n || n == 0 || OneFamily(all, key, ids)
  {
    if OnlyOneReached(all, key, ids, n, 0) {
      var x :| x in ids && AllOf(all[..n], key, x) && Others(all, key, ids, x, 0);
      forall y | y in ids && HasShare(all, key, y) ensures y == x {
        FilterIn(KeyIs(key, y), all);
      }
    }
  }
}
