/** The search-and-sort projection of the world clock view
    (`filteredAndSortedData` in `src/components/WorldClockTab.tsx`): a
    case-insensitive substring filter followed by a stable sort of a copy. */
module WorldClock {
  import opened TimezoneOperations
  import opened Sequences

  /** The sort key chosen in the view. */
  datatype SortBy = City | Time | Region

  /** `toLowerCase` on one character (A to Z only). */
  function LowerChar(c: char): char
  {
    if 'A' <= c <= 'Z' then (c as int + 32) as char else c
  }

  function ToLowerCase(s: string): (r: string)
    ensures |r| == |s| && forall i :: 0 <= i < |s| ==> r[i] == LowerChar(s[i])
  {
    seq(|s|, i requires 0 <= i < |s| => LowerChar(s[i]))
  }

  predicate OccursAt(s: string, part: string, i: int)
  {
    0 <= i <= |s| - |part| && s[i..i + |part|] == part
  }

  /** `s.includes(part)`: `part` occurs in `s` at some position. */
  predicate Includes(s: string, part: string)
  {
    exists i | 0 <= i <= |s| - |part| :: OccursAt(s, part, i)
  }

  /** The search predicate: the lower-cased term occurs in the lower-cased city,
      region or timezone identifier. */
  predicate MatchesSearch(data: TimezoneDisplayData, searchLower: string)
  {
    || Includes(ToLowerCase(data.city), searchLower)
    || Includes(ToLowerCase(data.region), searchLower)
    || Includes(ToLowerCase(data.timezone), searchLower)
  }

  /** `timezoneData.filter(...)` for a non-empty, lower-cased term: every
      matching record with all its copies, in the original order. */
  function FilterBySearch(data: seq<TimezoneDisplayData>, searchLower: string): (r: seq<TimezoneDisplayData>)
    ensures IsSubsequence(r, data)
    ensures forall x :: multiset(r)[x] == if MatchesSearch(x, searchLower) then multiset(data)[x] else 0
    ensures forall x :: x in r <==> x in data && MatchesSearch(x, searchLower)
  {
    Filter(data, x => MatchesSearch(x, searchLower))
  }

  /** The filtering step: an empty term applies no filter, otherwise a record is
      kept exactly when it matches the lower-cased term; either way the result is
      an order-preserving subsequence of the input. */
  function ApplySearch(timezoneData: seq<TimezoneDisplayData>, debouncedSearchTerm: string): (r: seq<TimezoneDisplayData>)
    ensures debouncedSearchTerm == "" ==> r == timezoneData
    ensures IsSubsequence(r, timezoneData) && |r| <= |timezoneData|
    ensures debouncedSearchTerm != "" ==>
      forall x :: multiset(r)[x] == if MatchesSearch(x, ToLowerCase(debouncedSearchTerm)) then multiset(timezoneData)[x] else 0
    ensures debouncedSearchTerm != "" ==>
      forall x :: x in r <==> x in timezoneData && MatchesSearch(x, ToLowerCase(debouncedSearchTerm))
  {
    if debouncedSearchTerm == "" then
      SubsequenceReflexive(timezoneData);
      timezoneData
    else
      var r := FilterBySearch(timezoneData, ToLowerCase(debouncedSearchTerm));
      SubsequenceNoLonger(r, timezoneData);
      r
  }

  /** `localeCompare(a, b) <= 0`, taken as code-point lexicographic order. */
  predicate StrLeq(a: string, b: string)
  {
    if a == [] then true
    else if b == [] then false
    else if a[0] != b[0] then a[0] < b[0]
    else StrLeq(a[1..], b[1..])
  }

  lemma {:induction false} StrLeqTotal(a: string, b: string)
    ensures StrLeq(a, b) || StrLeq(b, a)
  {
    if a != [] && b != [] && a[0] == b[0] {
      StrLeqTotal(a[1..], b[1..]);
    }
  }

  lemma {:induction false} StrLeqTransitive(a: string, b: string, c: string)
    requires StrLeq(a, b) && StrLeq(b, c)
    ensures StrLeq(a, c)
  {
    if a != [] && b != [] && c != [] && a[0] == b[0] && b[0] == c[0] {
      StrLeqTransitive(a[1..], b[1..], c[1..]);
    }
  }

  lemma {:induction false} StrLeqAntisymmetric(a: string, b: string)
    requires StrLeq(a, b) && StrLeq(b, a)
    ensures a == b
  {
    if a != [] && b != [] {
      StrLeqAntisymmetric(a[1..], b[1..]);
      assert a == [a[0]] + a[1..] && b == [b[0]] + b[1..];
    }
  }

  /** The wall-clock instant of a local date, in milliseconds, as the key of the
      "time" order (`localTime.getTime()`). */
  function WallClockStamp(d: LocalDate): int
  {
    (((((d.year * 12 + d.monthIndex) * 31 + (d.day - 1)) * 24 + d.hours) * 60 + d.minutes) * 60 + d.seconds) * 1000
  }

  /** The comparator returns a value at most zero: `a` may stay before `b`. */
  predicate Leq(a: TimezoneDisplayData, b: TimezoneDisplayData, sortBy: SortBy)
  {
    match sortBy
    case City => StrLeq(a.city, b.city)
    case Time => WallClockStamp(a.localTime) <= WallClockStamp(b.localTime)
    case Region => StrLeq(a.region, b.region)
  }

  /** The comparator returns zero: a tie the sort must leave in input order. */
  predicate Tie(a: TimezoneDisplayData, b: TimezoneDisplayData, sortBy: SortBy)
  {
    Leq(a, b, sortBy) && Leq(b, a, sortBy)
  }

  lemma LeqTotal(a: TimezoneDisplayData, b: TimezoneDisplayData, sortBy: SortBy)
    ensures Leq(a, b, sortBy) || Leq(b, a, sortBy)
  {
    match sortBy
    case City => StrLeqTotal(a.city, b.city);
    case Time =>
    case Region => StrLeqTotal(a.region, b.region);
  }

  lemma LeqTransitive(a: TimezoneDisplayData, b: TimezoneDisplayData, c: TimezoneDisplayData, sortBy: SortBy)
    requires Leq(a, b, sortBy) && Leq(b, c, sortBy)
    ensures Leq(a, c, sortBy)
  {
    match sortBy
    case City => StrLeqTransitive(a.city, b.city, c.city);
    case Time =>
    case Region => StrLeqTransitive(a.region, b.region, c.region);
  }

  predicate Sorted(s: seq<TimezoneDisplayData>, sortBy: SortBy)
  {
    forall i, j :: 0 <= i < j < |s| ==> Leq(s[i], s[j], sortBy)
  }

  /** Places `x` before the first element it may precede. */
  function Insert(x: TimezoneDisplayData, ys: seq<TimezoneDisplayData>, sortBy: SortBy): (r: seq<TimezoneDisplayData>)
    ensures multiset(r) == multiset(ys) + multiset{x}
  {
    if ys == [] || Leq(x, ys[0], sortBy) then [x] + ys
    else
      assert ys == [ys[0]] + ys[1..];
      [ys[0]] + Insert(x, ys[1..], sortBy)
  }

  lemma {:induction false} InsertSorted(x: TimezoneDisplayData, ys: seq<TimezoneDisplayData>, sortBy: SortBy)
    requires Sorted(ys, sortBy)
    ensures Sorted(Insert(x, ys, sortBy), sortBy)
  {
    var r := Insert(x, ys, sortBy);
    if ys == [] {
    } else if Leq(x, ys[0], sortBy) {
      forall j | 1 <= j < |r| ensures Leq(r[0], r[j], sortBy) {
        if j > 1 { LeqTransitive(x, ys[0], ys[j - 1], sortBy); }
      }
    } else {
      LeqTotal(x, ys[0], sortBy);
      var tail := Insert(x, ys[1..], sortBy);
      InsertSorted(x, ys[1..], sortBy);
      forall j | 0 <= j < |tail| ensures Leq(ys[0], tail[j], sortBy) {
        assert tail[j] in multiset(tail);
        assert tail[j] == x || tail[j] in multiset(ys[1..]);
        if tail[j] != x {
          var k :| 0 <= k < |ys[1..]| && ys[1..][k] == tail[j];
          assert ys[k + 1] == tail[j];
        }
      }
      assert r == [ys[0]] + tail;
    }
  }

  /** The sorted copy of `[...filtered].sort(compare)`: insertion sort, which
      never moves an element past one it ties with. */
  function SortRecords(xs: seq<TimezoneDisplayData>, sortBy: SortBy): (r: seq<TimezoneDisplayData>)
    ensures multiset(r) == multiset(xs) && |r| == |xs|
    ensures Sorted(r, sortBy)
  {
    if xs == [] then []
    else
      assert xs == [xs[0]] + xs[1..];
      InsertSorted(xs[0], SortRecords(xs[1..], sortBy), sortBy);
      Insert(xs[0], SortRecords(xs[1..], sortBy), sortBy)
  }

  /** The records of `s` that tie with `y`, in the order of `s`. */
  function TiesWith(s: seq<TimezoneDisplayData>, y: TimezoneDisplayData, sortBy: SortBy): seq<TimezoneDisplayData>
  {
    if s == [] then []
    else (if Tie(s[0], y, sortBy) then [s[0]] else []) + TiesWith(s[1..], y, sortBy)
  }

  lemma TiesOfCons(a: TimezoneDisplayData, s: seq<TimezoneDisplayData>, y: TimezoneDisplayData, sortBy: SortBy)
    ensures TiesWith([a] + s, y, sortBy) == (if Tie(a, y, sortBy) then [a] else []) + TiesWith(s, y, sortBy)
  {
    assert ([a] + s)[1..] == s;
  }

  /** A record that may not precede `z` cannot tie with a record `z` ties with. */
  lemma NoTwoSidedTie(x: TimezoneDisplayData, z: TimezoneDisplayData, y: TimezoneDisplayData, sortBy: SortBy)
    requires !Leq(x, z, sortBy)
    ensures !(Tie(x, y, sortBy) && Tie(z, y, sortBy))
  {
    if Tie(x, y, sortBy) && Tie(z, y, sortBy) {
      LeqTransitive(x, y, z, sortBy);
    }
  }

  /** The step of `InsertKeepsTies` where `x` goes after the head of `ys`. */
  lemma InsertKeepsTiesStep(x: TimezoneDisplayData, ys: seq<TimezoneDisplayData>, y: TimezoneDisplayData, sortBy: SortBy)
    requires ys != [] && !Leq(x, ys[0], sortBy)
    requires TiesWith(Insert(x, ys[1..], sortBy), y, sortBy)
          == (if Tie(x, y, sortBy) then [x] else []) + TiesWith(ys[1..], y, sortBy)
    ensures TiesWith(Insert(x, ys, sortBy), y, sortBy)
         == (if Tie(x, y, sortBy) then [x] else []) + TiesWith(ys, y, sortBy)
  {
    var rest := Insert(x, ys[1..], sortBy);
    assert Insert(x, ys, sortBy) == [ys[0]] + rest;
    NoTwoSidedTie(x, ys[0], y, sortBy);
    TiesOfCons(ys[0], rest, y, sortBy);
    TiesOfCons(ys[0], ys[1..], y, sortBy);
    assert ys == [ys[0]] + ys[1..];
    var tx := if Tie(x, y, sortBy) then [x] else [];
    var t0 := if Tie(ys[0], y, sortBy) then [ys[0]] else [];
    var later := TiesWith(ys[1..], y, sortBy);
    assert TiesWith(Insert(x, ys, sortBy), y, sortBy) == t0 + (tx + later);
    assert TiesWith(ys, y, sortBy) == t0 + later;
    if tx == [] {
      assert tx + later == later && tx + (t0 + later) == t0 + later;
    } else {
      assert t0 == [];
      assert t0 + (tx + later) == tx + later && t0 + later == later;
    }
  }

  lemma {:induction false} InsertKeepsTies(x: TimezoneDisplayData, ys: seq<TimezoneDisplayData>, y: TimezoneDisplayData, sortBy: SortBy)
    ensures TiesWith(Insert(x, ys, sortBy), y, sortBy)
         == (if Tie(x, y, sortBy) then [x] else []) + TiesWith(ys, y, sortBy)
  {
    if ys == [] || Leq(x, ys[0], sortBy) {
      assert Insert(x, ys, sortBy) == [x] + ys;
      TiesOfCons(x, ys, y, sortBy);
    } else {
      InsertKeepsTies(x, ys[1..], y, sortBy);
      InsertKeepsTiesStep(x, ys, y, sortBy);
    }
  }

  /** Stability: for every record `y`, the records that tie with `y` appear in
      the sorted output in exactly their input order. */
  lemma {:induction false} SortIsStable(xs: seq<TimezoneDisplayData>, y: TimezoneDisplayData, sortBy: SortBy)
    ensures TiesWith(SortRecords(xs, sortBy), y, sortBy) == TiesWith(xs, y, sortBy)
  {
    if xs != [] {
      SortIsStable(xs[1..], y, sortBy);
      InsertKeepsTies(xs[0], SortRecords(xs[1..], sortBy), y, sortBy);
    }
  }

  /** Sorting already-sorted records changes nothing. */
  lemma {:induction false} SortSortedIsIdentity(xs: seq<TimezoneDisplayData>, sortBy: SortBy)
    requires Sorted(xs, sortBy)
    ensures SortRecords(xs, sortBy) == xs
  {
    if xs != [] {
      assert Sorted(xs[1..], sortBy);
      SortSortedIsIdentity(xs[1..], sortBy);
      assert xs == [xs[0]] + xs[1..];
    }
  }

  /** `filteredAndSortedData`: a sorted permutation of the filtered records; the
      input list itself is a value and is left as it was. */
  function FilteredAndSortedData(timezoneData: seq<TimezoneDisplayData>, debouncedSearchTerm: string, sortBy: SortBy)
    : (r: seq<TimezoneDisplayData>)
    ensures multiset(r) == multiset(ApplySearch(timezoneData, debouncedSearchTerm))
    ensures Sorted(r, sortBy)
    // the "Showing X of Y" counts: X never exceeds Y
    ensures |r| <= |timezoneData|
  {
    SortRecords(ApplySearch(timezoneData, debouncedSearchTerm), sortBy)
  }

  /** Sorting the displayed list again by the same key leaves it as it is. */
  lemma ResortIsIdentity(timezoneData: seq<TimezoneDisplayData>, debouncedSearchTerm: string, sortBy: SortBy)
    ensures SortRecords(FilteredAndSortedData(timezoneData, debouncedSearchTerm, sortBy), sortBy)
         == FilteredAndSortedData(timezoneData, debouncedSearchTerm, sortBy)
  {
    SortSortedIsIdentity(FilteredAndSortedData(timezoneData, debouncedSearchTerm, sortBy), sortBy);
  }
}
