/** Array `filter` and `map` and the facts about them the views rely on: which
    records a filter keeps, how many copies of each and in what order, and
    what a map whose callback may throw returns. */
module Sequences {
  import opened Results

  /** `a` is `b` with some elements left out and the rest in their order. */
  predicate IsSubsequence<T(==)>(a: seq<T>, b: seq<T>)
    decreases |b|
  {
    if a == [] then true
    else if b == [] then false
    else (a[0] == b[0] && IsSubsequence(a[1..], b[1..])) || IsSubsequence(a, b[1..])
  }

  lemma {:induction false} SubsequenceNoLonger<T>(a: seq<T>, b: seq<T>)
    requires IsSubsequence(a, b)
    ensures |a| <= |b|
    decreases |b|
  {
    if a != [] {
      if a[0] == b[0] && IsSubsequence(a[1..], b[1..]) {
        SubsequenceNoLonger(a[1..], b[1..]);
      } else {
        SubsequenceNoLonger(a, b[1..]);
      }
    }
  }

  lemma {:induction false} SubsequenceReflexive<T>(s: seq<T>)
    ensures IsSubsequence(s, s)
  {
    if s != [] {
      SubsequenceReflexive(s[1..]);
    }
  }

  /** The number of positions of `data` whose element `pick` accepts. */
  function Count<T>(data: seq<T>, pick: T -> bool): (n: nat)
    ensures n <= |data|
    decreases |data|
  {
    if |data| == 0 then 0
    else (if pick(data[0]) then 1 else 0) + Count(data[1..], pick)
  }

  /** The count is zero exactly when no element is accepted, and the whole
      length exactly when every element is. */
  lemma {:induction false} CountExtremes<T>(data: seq<T>, pick: T -> bool)
    ensures Count(data, pick) == 0 <==> forall i :: 0 <= i < |data| ==> !pick(data[i])
    ensures Count(data, pick) == |data| <==> forall i :: 0 <= i < |data| ==> pick(data[i])
    decreases |data|
  {
    if |data| > 0 {
      CountExtremes(data[1..], pick);
      var rest := data[1..];
      assert forall i :: 1 <= i < |data| ==> data[i] == rest[i - 1];
    }
  }

  /** `data.filter(pick)`: every accepted element with all its copies, no other
      element, in the original order; as many elements as `pick` accepts. */
  function Filter<T(==,!new)>(data: seq<T>, pick: T -> bool): (r: seq<T>)
    ensures IsSubsequence(r, data)
    ensures |r| == Count(data, pick)
    ensures forall x :: multiset(r)[x] == if pick(x) then multiset(data)[x] else 0
    ensures forall x :: x in r <==> x in data && pick(x)
    decreases |data|
  {
    if |data| == 0 then []
    else
      var rest := Filter(data[1..], pick);
      assert data == [data[0]] + data[1..];
      assert multiset(data) == multiset{data[0]} + multiset(data[1..]);
      if pick(data[0]) then
        assert ([data[0]] + rest)[1..] == rest;
        assert multiset([data[0]] + rest) == multiset{data[0]} + multiset(rest);
        [data[0]] + rest
      else
        assert rest == [] || IsSubsequence(rest, data[1..]);
        rest
  }

  /** `xs.map(f)` where `f` may throw: the results in order, or the error of
      the first element whose call throws; never a partial list. */
  function MapAll<A, B>(xs: seq<A>, f: A -> Result<B>): (r: Result<seq<B>>)
    ensures r.Ok? <==> forall i :: 0 <= i < |xs| ==> f(xs[i]).Ok?
    ensures r.Ok? ==> |r.value| == |xs| && forall i :: 0 <= i < |xs| ==> f(xs[i]) == Ok(r.value[i])
    decreases |xs|
  {
    if |xs| == 0 then Ok([])
    else
      var first :- f(xs[0]);
      var rest :- MapAll(xs[1..], f);
      assert forall i :: 1 <= i < |xs| ==> xs[i] == xs[1..][i - 1];
      Ok([first] + rest)
  }

  /** A failed map carries the error of the first element whose call throws. */
  lemma {:induction false} MapAllFirstFailure<A, B>(xs: seq<A>, f: A -> Result<B>) returns (i: nat)
    requires MapAll(xs, f).Err?
    ensures i < |xs| && f(xs[i]).Err? && forall j :: 0 <= j < i ==> f(xs[j]).Ok?
    ensures MapAll(xs, f) == Err(f(xs[i]).message)
    decreases |xs|
  {
    if f(xs[0]).Err? {
      i := 0;
    } else {
      var k := MapAllFirstFailure(xs[1..], f);
      assert forall j :: 1 <= j < |xs| ==> xs[j] == xs[1..][j - 1];
      i := k + 1;
    }
  }
}
