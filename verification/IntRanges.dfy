/** Lists of closed integer ranges over a machine integer type, from min to max, whose
    successor wraps around at the top: membership, enumeration, and merging in place. */
module IntRanges {
  /** A range as the source builds it has its ends in order. */
  datatype Range = Range(start: int, end: int) {
    predicate Contains(t: int) {
      t >= start && t <= end
    }
  }

  function NewRange(start: int, end: int): (r: Range)
    ensures r.start <= r.end && {r.start, r.end} == {start, end}
  {
    if start > end then Range(end, start) else Range(start, end)
  }

  /** A machine integer type. */
  datatype Bounds = Bounds(min: int, max: int) {
    predicate Has(t: int) {
      min <= t <= max
    }

    function Inc(t: int): int {
      if t == max then min else t + 1
    }
  }

  ghost predicate WellFormed(ranges: seq<Range>, b: Bounds) {
    forall i :: 0 <= i < |ranges| ==> ranges[i].start <= ranges[i].end && b.Has(ranges[i].start) && b.Has(ranges[i].end)
  }

  ghost predicate Member(ranges: seq<Range>, t: int) {
    exists i :: 0 <= i < |ranges| && ranges[i].Contains(t)
  }

  /** Is t in one of the ranges? An empty list accepts everything. */
  method Check(ranges: seq<Range>, t: int) returns (ok: bool)
    ensures ok <==> ranges == [] || Member(ranges, t)
  {
    if |ranges| == 0 {
      return true;
    }
    for i := 0 to |ranges|
      invariant forall j :: 0 <= j < i ==> !ranges[j].Contains(t)
    {
      if ranges[i].Contains(t) {
        return true;
      }
    }
    return false;
  }

  // ------------------------------------------------------------- enumeration

  /** The integers from lo up to hi. */
  function UpTo(lo: int, hi: int): (s: seq<int>)
    ensures |s| == if lo <= hi then hi - lo + 1 else 0
    ensures forall i :: 0 <= i < |s| ==> s[i] == lo + i
    decreases hi - lo + 1
  {
    if lo > hi then [] else UpTo(lo, hi - 1) + [hi]
  }

  /** All members, range by range. */
  function Values(ranges: seq<Range>): seq<int> {
    if ranges == [] then [] else Values(ranges[..|ranges| - 1]) + UpTo(ranges[|ranges| - 1].start, ranges[|ranges| - 1].end)
  }

  /** A list up to and including the first element that f refuses. */
  function Until(s: seq<int>, f: int -> bool): seq<int> {
    if s == [] then [] else if !f(s[0]) then [s[0]] else [s[0]] + Until(s[1..], f)
  }

  lemma {:induction false} UntilAppend(s: seq<int>, t: seq<int>, f: int -> bool)
    requires forall i :: 0 <= i < |s| ==> f(s[i])
    ensures Until(s + t, f) == s + Until(t, f)
  {
    if s == [] {
      assert s + t == t;
    } else {
      UntilAppend(s[1..], t, f);
      assert (s + t)[1..] == s[1..] + t;
    }
  }

  lemma {:induction false} ValuesAre(ranges: seq<Range>, t: int)
    ensures t in Values(ranges) <==> Member(ranges, t)
  {
    if ranges != [] {
      var n := |ranges| - 1;
      ValuesAre(ranges[..n], t);
      var last := UpTo(ranges[n].start, ranges[n].end);
      assert t in last <==> ranges[n].Contains(t) by {
        if ranges[n].Contains(t) {
          assert last[t - ranges[n].start] == t;
        }
      }
      MemberMore(ranges[..n], ranges[n], t);
      assert ranges == ranges[..n] + [ranges[n]];
    }
  }

  lemma {:induction false} UntilStops(s: seq<int>, f: int -> bool, n: nat)
    requires n < |s| && !f(s[n]) && forall i :: 0 <= i < n ==> f(s[i])
    ensures Until(s, f) == s[..n + 1]
  {
    if n > 0 {
      UntilStops(s[1..], f, n - 1);
    }
  }

  lemma UntilAll(s: seq<int>, f: int -> bool)
    requires forall i :: 0 <= i < |s| ==> f(s[i])
    ensures Until(s, f) == s
  {
  }

  /** Give f every value of a range in turn, until it refuses one. The values end at the top
      of the type without coming round again. */
  method EachValue(r: Range, b: Bounds, f: int -> bool) returns (given: seq<int>, stopped: bool)
    requires b.min < b.max && b.Has(r.start) && b.Has(r.end)
    ensures given == Until(UpTo(r.start, r.end), f)
    ensures stopped <==> exists i :: 0 <= i < |UpTo(r.start, r.end)| && !f(UpTo(r.start, r.end)[i])
  {
    given := [];
    ghost var all := UpTo(r.start, r.end);
    var i := r.start;
    while i <= r.end && i >= r.start
      invariant r.start <= i && (i <= r.end + 1 || r.end < r.start)
      invariant |given| == i - r.start <= |all|
      invariant forall j :: 0 <= j < |given| ==> given[j] == all[j] && f(all[j])
      decreases r.end - i
    {
      given := given + [i];
      if !f(i) {
        UntilStops(all, f, i - r.start);
        assert given == all[..i - r.start + 1];
        return given, true;
      }
      if b.Inc(i) < i { // the type ends here
        break;
      }
      i := b.Inc(i);
    }
    assert given == all;
    UntilAll(all, f);
    return given, false;
  }

  /** The same over all the ranges. */
  method RangeOver(ranges: seq<Range>, b: Bounds, f: int -> bool) returns (given: seq<int>)
    requires b.min < b.max && forall i :: 0 <= i < |ranges| ==> b.Has(ranges[i].start) && b.Has(ranges[i].end)
    ensures given == Until(Values(ranges), f)
  {
    given := [];
    for n := 0 to |ranges|
      invariant given == Values(ranges[..n]) && forall i :: 0 <= i < |given| ==> f(given[i])
    {
      var r := ranges[n];
      var more, stopped := EachValue(r, b, f);
      if stopped {
        StopsHere(ranges, n, f, given, UpTo(r.start, r.end));
        return given + more;
      }
      ValuesSplit(ranges, n);
      UntilAll(UpTo(r.start, r.end), f);
      given := given + more;
    }
    assert ranges[..|ranges|] == ranges;
    UntilAll(given, f);
  }

  /** Values of the first ranges come first. */
  lemma {:induction false} ValuesSplit(ranges: seq<Range>, n: nat)
    requires n < |ranges|
    ensures Values(ranges[..n + 1]) == Values(ranges[..n]) + UpTo(ranges[n].start, ranges[n].end)
    ensures Values(ranges[..n + 1]) <= Values(ranges)
    decreases |ranges|
  {
    assert ranges[..n + 1][..n] == ranges[..n];
    if n + 1 < |ranges| {
      var rest := ranges[..|ranges| - 1];
      ValuesSplit(rest, n);
      assert rest[..n + 1] == ranges[..n + 1];
    } else {
      assert ranges[..n + 1] == ranges;
    }
  }

  /** A refusal inside a first part ends the enumeration of the whole there. */
  lemma StopsInside(part: seq<int>, whole: seq<int>, f: int -> bool, from: nat)
    requires part <= whole && exists i :: from <= i < |part| && !f(part[i])
    ensures Until(whole, f) == Until(part, f)
  {
    var n := FirstRefused(part, f);
    UntilStops(part, f, n);
    UntilStops(whole, f, n);
  }

  /** A refusal inside a range ends the enumeration there. */
  lemma {:induction false} StopsHere(ranges: seq<Range>, n: nat, f: int -> bool, given: seq<int>, part: seq<int>)
    requires n < |ranges| && part == UpTo(ranges[n].start, ranges[n].end)
    requires given == Values(ranges[..n]) && forall i :: 0 <= i < |given| ==> f(given[i])
    requires exists i :: 0 <= i < |part| && !f(part[i])
    ensures Until(Values(ranges), f) == given + Until(part, f)
  {
    ValuesSplit(ranges, n);
    UntilAppend(given, part, f);
    var i :| 0 <= i < |part| && !f(part[i]);
    assert (given + part)[|given| + i] == part[i];
    StopsInside(given + part, Values(ranges), f, |given|);
  }

  lemma {:induction false} FirstRefused(s: seq<int>, f: int -> bool) returns (n: nat)
    requires exists i :: 0 <= i < |s| && !f(s[i])
    ensures n < |s| && !f(s[n]) && forall i :: 0 <= i < n ==> f(s[i])
  {
    n := 0;
    while f(s[n])
      invariant n < |s| && forall i :: 0 <= i < n ==> f(s[i])
      decreases |s| - n
    {
      n := n + 1;
    }
  }

  // ------------------------------------------------------------- merging

  /** Ranges in order, with at least one integer between any two in a row. */
  ghost predicate Normal(ranges: seq<Range>) {
    && (forall i :: 0 <= i < |ranges| ==> ranges[i].start <= ranges[i].end)
    && (forall i :: 0 <= i < |ranges| - 1 ==> ranges[i].end + 1 < ranges[i + 1].start)
  }

  ghost predicate SameMembers(x: seq<Range>, y: seq<Range>) {
    forall t :: Member(x, t) <==> Member(y, t)
  }

  ghost predicate SortedByStart(ranges: seq<Range>) {
    forall i, j :: 0 <= i < j < |ranges| ==> ranges[i].start <= ranges[j].start
  }

  /** The next range either starts a new one, clear of the last, or widens the last. */
  function MergeOne(acc: seq<Range>, r: Range, b: Bounds): seq<Range>
    requires acc != []
  {
    var last := acc[|acc| - 1];
    if b.Inc(last.end) > last.end && r.start > b.Inc(last.end) then acc + [r]
    else if r.end > last.end then acc[|acc| - 1 := Range(last.start, r.end)]
    else acc
  }

  lemma MemberMore(x: seq<Range>, r: Range, t: int)
    ensures Member(x + [r], t) <==> Member(x, t) || r.Contains(t)
  {
    if i :| 0 <= i < |x| && x[i].Contains(t) {
      assert (x + [r])[i].Contains(t);
    }
    assert (x + [r])[|x|] == r;
    if i :| 0 <= i < |x| + 1 && (x + [r])[i].Contains(t) {
      assert i < |x| ==> x[i].Contains(t);
    }
  }

  /** Widening the last range adds exactly the members of the next. */
  lemma MemberWidened(x: seq<Range>, end: int, t: int)
    requires x != []
    ensures var last := x[|x| - 1];
      Member(x[|x| - 1 := Range(last.start, end)], t) <==> Member(x[..|x| - 1], t) || Range(last.start, end).Contains(t)
  {
    var n := |x| - 1;
    assert x[n := Range(x[n].start, end)] == x[..n] + [Range(x[n].start, end)];
    MemberMore(x[..n], Range(x[n].start, end), t);
  }

  lemma MergeOneOk(acc: seq<Range>, done: seq<Range>, r: Range, b: Bounds) returns (acc': seq<Range>)
    requires b.min < b.max && WellFormed(acc, b) && WellFormed([r], b)
    requires acc != [] && Normal(acc) && SameMembers(acc, done) && acc[|acc| - 1].start <= r.start
    ensures acc' == MergeOne(acc, r, b) && acc' != [] && WellFormed(acc', b)
    ensures Normal(acc') && SameMembers(acc', done + [r]) && acc'[|acc'| - 1].start <= r.start
  {
    acc' := MergeOne(acc, r, b);
    assert [r][0] == r;
    var n := |acc| - 1;
    var last := acc[n];
    assert acc == acc[..n] + [last];
    forall t
      ensures Member(acc', t) <==> Member(done + [r], t)
    {
      MemberMore(done, r, t);
      MemberMore(acc, r, t);
      MemberMore(acc[..n], last, t);
      MemberWidened(acc, r.end, t);
    }
  }

  /** Insert a range behind those that start no later. */
  function Insert(s: seq<Range>, r: Range): seq<Range> {
    if s == [] || r.start >= s[|s| - 1].start then s + [r] else Insert(s[..|s| - 1], r) + [s[|s| - 1]]
  }

  lemma {:induction false} InsertOk(s: seq<Range>, r: Range, top: int)
    requires SortedByStart(s) && r.start <= top && forall i :: 0 <= i < |s| ==> s[i].start <= top
    ensures SortedByStart(Insert(s, r)) && |Insert(s, r)| == |s| + 1
    ensures forall i :: 0 <= i < |Insert(s, r)| ==> Insert(s, r)[i].start <= top
  {
    if s != [] && r.start < s[|s| - 1].start {
      InsertOk(s[..|s| - 1], r, s[|s| - 1].start);
    }
  }

  lemma {:induction false} InsertKeeps(s: seq<Range>, r: Range)
    ensures multiset(Insert(s, r)) == multiset(s) + multiset{r}
  {
    if s != [] && r.start < s[|s| - 1].start {
      InsertKeeps(s[..|s| - 1], r);
      assert s == s[..|s| - 1] + [s[|s| - 1]];
    }
  }

  function SortOf(s: seq<Range>): seq<Range> {
    if s == [] then [] else Insert(SortOf(s[..|s| - 1]), s[|s| - 1])
  }

  lemma {:induction false} SortOfSorts(s: seq<Range>)
    ensures SortedByStart(SortOf(s)) && |SortOf(s)| == |s|
  {
    if s != [] {
      var rest, last := SortOf(s[..|s| - 1]), s[|s| - 1];
      SortOfSorts(s[..|s| - 1]);
      var top := TopStart(rest);
      InsertOk(rest, last, if last.start > top then last.start else top);
    }
  }

  lemma {:induction false} SortOfKeeps(s: seq<Range>)
    ensures multiset(SortOf(s)) == multiset(s)
  {
    if s != [] {
      SortOfKeeps(s[..|s| - 1]);
      InsertKeeps(SortOf(s[..|s| - 1]), s[|s| - 1]);
      assert s == s[..|s| - 1] + [s[|s| - 1]];
    }
  }

  lemma {:induction false} TopStart(s: seq<Range>) returns (top: int)
    ensures forall i :: 0 <= i < |s| ==> s[i].start <= top
  {
    if s == [] {
      top := 0;
    } else {
      top := TopStart(s[..|s| - 1]);
      top := if s[|s| - 1].start > top then s[|s| - 1].start else top;
    }
  }

  /** Sort by start; ranges with the same start may end in any order. */
  method SortRanges(a: array<Range>)
    modifies a
    ensures SortedByStart(a[..]) && multiset(a[..]) == multiset(old(a[..]))
  {
    SortOfSorts(a[..]);
    SortOfKeeps(a[..]);
    CopyIn(a, SortOf(a[..]));
  }

  method CopyIn(a: array<Range>, s: seq<Range>)
    requires |s| == a.Length
    modifies a
    ensures a[..] == s
  {
    for n := 0 to a.Length
      invariant a[..n] == s[..n]
    {
      a[n] := s[n];
    }
  }

  /** Merge in place: the first n of the array become ranges in order, apart from each
      other, with the members the array had. The rest of the array is left over. */
  method Merge(a: array<Range>, b: Bounds) returns (n: nat)
    requires b.min < b.max && WellFormed(a[..], b)
    modifies a
    ensures n <= a.Length && (n == 0 <==> a.Length == 0)
    ensures WellFormed(a[..n], b) && Normal(a[..n]) && SameMembers(a[..n], old(a[..]))
  {
    if a.Length == 0 {
      return 0;
    }
    ghost var before := a[..];
    SortRanges(a);
    SameElements(before, a[..], b);
    ghost var sorted := a[..];
    n := MergeSorted(a, b);
    assert SameMembers(a[..n], sorted);
  }

  lemma SameElements(x: seq<Range>, y: seq<Range>, b: Bounds)
    requires multiset(x) == multiset(y) && WellFormed(x, b)
    ensures WellFormed(y, b) && SameMembers(y, x)
  {
    forall i | 0 <= i < |y|
      ensures y[i] in x
    {
      assert y[i] in multiset(y);
    }
    forall i | 0 <= i < |x|
      ensures x[i] in y
    {
      assert x[i] in multiset(x);
    }
    forall i | 0 <= i < |y|
      ensures y[i].start <= y[i].end && b.Has(y[i].start) && b.Has(y[i].end)
    {
      var j :| 0 <= j < |x| && x[j] == y[i];
    }
    forall t
      ensures Member(y, t) <==> Member(x, t)
    {
      if i :| 0 <= i < |y| && y[i].Contains(t) {
        var j :| 0 <= j < |x| && x[j] == y[i];
      }
      if i :| 0 <= i < |x| && x[i].Contains(t) {
        var j :| 0 <= j < |y| && y[j] == x[i];
      }
    }
  }

  /** One pass over the sorted array, writing what is merged over what has been read. */
  method MergeSorted(a: array<Range>, b: Bounds) returns (n: nat)
    requires a.Length > 0 && b.min < b.max && WellFormed(a[..], b) && SortedByStart(a[..])
    modifies a
    ensures 0 < n <= a.Length
    ensures WellFormed(a[..n], b) && Normal(a[..n]) && SameMembers(a[..n], old(a[..]))
  {
    ghost var s := a[..];
    n := 1;
    assert a[..1] == s[..1];
    for i := 1 to a.Length
      invariant 0 < n <= i && a[i..] == s[i..]
      invariant WellFormed(a[..n], b) && Normal(a[..n]) && SameMembers(a[..n], s[..i])
      invariant a[n - 1].start <= s[i - 1].start
    {
      n := MergeNext(a, b, n, i, s);
    }
    assert s[..a.Length] == s;
  }

  /** Merge the i-th range into the first n. */
  method MergeNext(a: array<Range>, b: Bounds, n: nat, i: nat, ghost s: seq<Range>) returns (n': nat)
    requires 0 < n <= i < a.Length == |s| && a[i..] == s[i..] && b.min < b.max && WellFormed(s, b) && SortedByStart(s)
    requires WellFormed(a[..n], b) && Normal(a[..n]) && SameMembers(a[..n], s[..i]) && a[n - 1].start <= s[i - 1].start
    modifies a
    ensures 0 < n' <= i + 1 && a[i + 1..] == s[i + 1..]
    ensures WellFormed(a[..n'], b) && Normal(a[..n']) && SameMembers(a[..n'], s[..i + 1]) && a[n' - 1].start <= s[i].start
  {
    var r := a[i];
    assert r == a[i..][0] == s[i];
    assert s[..i + 1] == s[..i] + [r];
    assert s[i + 1..] == s[i..][1..];
    ghost var acc := MergeOneOk(a[..n], s[..i], r, b);
    n' := n;
    if b.Inc(a[n - 1].end) > a[n - 1].end && r.start > b.Inc(a[n - 1].end) {
      a[n] := r;
      n' := n + 1;
    } else if r.end > a[n - 1].end {
      a[n - 1] := Range(a[n - 1].start, r.end);
    }
    assert a[..n'] == acc;
  }

  // ------------------------------------------------------------- one normal form for a set

  /** The start of a normal list is its least member. */
  lemma LeastMember(x: seq<Range>, t: int)
    requires Normal(x) && Member(x, t)
    ensures x != [] && x[0].start <= t && Member(x, x[0].start)
  {
    assert x[0].Contains(x[0].start);
    var i :| 0 <= i < |x| && x[i].Contains(t);
    StartsAscend(x, i);
  }

  lemma {:induction false} StartsAscend(x: seq<Range>, i: nat)
    requires Normal(x) && i < |x|
    ensures x[0].start <= x[i].start && (i > 0 ==> x[0].end + 1 < x[i].start)
  {
    if i > 1 {
      StartsAscend(x, i - 1);
    }
  }

  /** The end of the first range is where the first gap begins. */
  lemma FirstGap(x: seq<Range>)
    requires Normal(x) && x != []
    ensures !Member(x, x[0].end + 1)
    ensures forall t :: x[0].start <= t <= x[0].end ==> Member(x, t)
    ensures forall t :: t > x[0].end ==> (Member(x, t) <==> Member(x[1..], t))
    ensures forall t :: t <= x[0].end ==> !Member(x[1..], t)
    ensures Normal(x[1..])
  {
    forall t
      ensures Member(x, t) <==> x[0].Contains(t) || Member(x[1..], t)
    {
      if i :| 0 <= i < |x| && x[i].Contains(t) {
        assert i > 0 ==> x[1..][i - 1].Contains(t);
      }
      if i :| 0 <= i < |x| - 1 && x[1..][i].Contains(t) {
        assert x[i + 1].Contains(t);
      }
    }
    forall t | Member(x[1..], t)
      ensures t > x[0].end + 1
    {
      var i :| 0 <= i < |x| - 1 && x[1..][i].Contains(t);
      StartsAscend(x, i + 1);
    }
  }

  lemma SomeMember(x: seq<Range>)
    requires Normal(x) && x != []
    ensures Member(x, x[0].start)
  {
  }

  lemma FirstEndsNoLater(x: seq<Range>, y: seq<Range>)
    requires Normal(x) && Normal(y) && SameMembers(x, y) && x != [] && y != [] && x[0].start == y[0].start
    ensures x[0].end <= y[0].end
  {
    FirstGap(x);
    FirstGap(y);
  }

  /** Two normal lists with the same members are the same list, so what Merge returns
      depends on the set of members alone. */
  lemma {:induction false} NormalIsUnique(x: seq<Range>, y: seq<Range>)
    requires Normal(x) && Normal(y) && SameMembers(x, y)
    ensures x == y
  {
    if x != [] {
      SomeMember(x);
    }
    if y != [] {
      SomeMember(y);
    }
    if x != [] && y != [] {
      LeastMember(y, x[0].start);
      LeastMember(x, y[0].start);
      FirstEndsNoLater(x, y);
      FirstEndsNoLater(y, x);
      FirstGap(x);
      FirstGap(y);
      NormalIsUnique(x[1..], y[1..]);
    }
  }
}
