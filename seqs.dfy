/** Order-preserving selection from a sequence: the model of a boolean-mask row filter
    (`df[mask]`), which keeps the selected rows in their original order. */
module Seqs {

  /** The elements of `s` that satisfy `p`, in the order they occur in `s`. */
  function Filter<T(!new)>(s: seq<T>, p: T -> bool): (r: seq<T>)
    ensures |r| <= |s|
    ensures forall k :: 0 <= k < |r| ==> p(r[k])
    ensures forall x :: x in r <==> x in s && p(x)
  {
    if |s| == 0 then []
    else if p(s[0]) then [s[0]] + Filter(s[1..], p)
    else Filter(s[1..], p)
  }

  /** The positions of `s[start..]` whose element satisfies `p`, in increasing order. */
  function FilterPositions<T(!new)>(s: seq<T>, p: T -> bool, start: nat): (idx: seq<nat>)
    requires start <= |s|
    ensures forall k :: 0 <= k < |idx| ==> start <= idx[k] < |s| && p(s[idx[k]])
    ensures forall k, m :: 0 <= k < m < |idx| ==> idx[k] < idx[m]
    decreases |s| - start
  {
    if start == |s| then []
    else if p(s[start]) then [start] + FilterPositions(s, p, start + 1)
    else FilterPositions(s, p, start + 1)
  }

  /** `Filter(s[start..], p)` is the subsequence of `s` at `FilterPositions(s, p, start)`:
      together with the ascending positions this says no element is added or reordered. */
  lemma {:induction false} FilterAtPositions<T(!new)>(s: seq<T>, p: T -> bool, start: nat)
    requires start <= |s|
    ensures |FilterPositions(s, p, start)| == |Filter(s[start..], p)|
    ensures forall k :: 0 <= k < |FilterPositions(s, p, start)| ==>
      Filter(s[start..], p)[k] == s[FilterPositions(s, p, start)[k]]
    decreases |s| - start
  {
    if start < |s| {
      var t := s[start..];
      assert t[1..] == s[start + 1..];
      FilterAtPositions(s, p, start + 1);
      if p(s[start]) {
        assert Filter(t, p) == [s[start]] + Filter(s[start + 1..], p);
        assert FilterPositions(s, p, start) == [start] + FilterPositions(s, p, start + 1);
      } else {
        assert Filter(t, p) == Filter(s[start + 1..], p);
        assert FilterPositions(s, p, start) == FilterPositions(s, p, start + 1);
      }
    }
  }

  /** Every selected position of `s[start..]` is among `FilterPositions(s, p, start)`. */
  lemma {:induction false} FilterPositionsComplete<T(!new)>(s: seq<T>, p: T -> bool, start: nat)
    requires start <= |s|
    ensures forall i :: start <= i < |s| && p(s[i]) ==> i in FilterPositions(s, p, start)
    decreases |s| - start
  {
    if start < |s| {
      FilterPositionsComplete(s, p, start + 1);
    }
  }

  /** A non-empty filter result starts with the first selected element. */
  lemma {:induction false} FilterHead<T(!new)>(s: seq<T>, p: T -> bool)
    requires |Filter(s, p)| > 0
    ensures exists i :: 0 <= i < |s| && p(s[i]) && Filter(s, p)[0] == s[i] &&
                        forall j :: 0 <= j < i ==> !p(s[j])
  {
    if p(s[0]) {
      assert Filter(s, p)[0] == s[0];
    } else {
      FilterHead(s[1..], p);
      var i :| 0 <= i < |s[1..]| && p(s[1..][i]) && Filter(s[1..], p)[0] == s[1..][i] &&
               forall j :: 0 <= j < i ==> !p(s[1..][j]);
      assert forall j :: 1 <= j < i + 1 ==> s[j] == s[1..][j - 1];
      assert p(s[i + 1]) && Filter(s, p)[0] == s[i + 1];
    }
  }

  /** The filter result is empty exactly when no element is selected. */
  lemma FilterEmpty<T(!new)>(s: seq<T>, p: T -> bool)
    ensures |Filter(s, p)| == 0 <==> forall i :: 0 <= i < |s| ==> !p(s[i])
  {
    if |Filter(s, p)| != 0 {
      assert Filter(s, p)[0] in Filter(s, p);
    }
    if exists i :: 0 <= i < |s| && p(s[i]) {
      var i :| 0 <= i < |s| && p(s[i]);
      assert s[i] in s;
    }
  }
}
