/**
 * Generic sequence operations that mirror the JavaScript array methods the
 * plugin uses: `findIndex`, `find`, and `splice` for inserting, replacing and
 * removing one element.
 */
module Lists {
  import opened Common

  /** `Array.prototype.findIndex`: index of the first element satisfying `p`, or -1. */
  function FirstIndex<T>(s: seq<T>, p: T -> bool): (r: int)
    ensures -1 <= r < |s|
    ensures r >= 0 ==> p(s[r]) && forall j :: 0 <= j < r ==> !p(s[j])
    ensures r == -1 <==> forall j :: 0 <= j < |s| ==> !p(s[j])
  {
    if |s| == 0 then -1
    else if p(s[0]) then 0
    else
      var k := FirstIndex(s[1..], p);
      if k < 0 then -1 else k + 1
  }

  /** `Array.prototype.find`: the first element satisfying `p`, or nothing. */
  function Find<T>(s: seq<T>, p: T -> bool): (r: Option<T>)
    ensures r.None? <==> forall j :: 0 <= j < |s| ==> !p(s[j])
    ensures r.Some? ==> FirstIndex(s, p) >= 0 && r.value == s[FirstIndex(s, p)]
  {
    var i := FirstIndex(s, p);
    if i < 0 then None else Some(s[i])
  }

  /** `s.splice(i, 0, x)` for `0 <= i <= |s|`. */
  function InsertAt<T>(s: seq<T>, i: nat, x: T): (r: seq<T>)
    requires i <= |s|
    ensures |r| == |s| + 1 && r[i] == x
    ensures forall k :: 0 <= k < i ==> r[k] == s[k]
    ensures forall k :: i < k < |r| ==> r[k] == s[k - 1]
    ensures multiset(r) == multiset(s) + multiset{x}
  {
    assert s == s[..i] + s[i..];
    s[..i] + [x] + s[i..]
  }

  /** `s.splice(i, 1)` for `0 <= i < |s|`. */
  function RemoveAt<T>(s: seq<T>, i: nat): (r: seq<T>)
    requires i < |s|
    ensures |r| == |s| - 1
    ensures forall k :: 0 <= k < i ==> r[k] == s[k]
    ensures forall k :: i <= k < |r| ==> r[k] == s[k + 1]
    ensures multiset(r) == multiset(s) - multiset{s[i]}
  {
    assert s == s[..i] + [s[i]] + s[i + 1..];
    s[..i] + s[i + 1..]
  }

  /**
   * `s.splice(i, 0, x)` for any `i >= 0`: JavaScript clamps a start index past
   * the end to the length, so the element is then appended.
   */
  function InsertClamped<T>(s: seq<T>, i: nat, x: T): (r: seq<T>)
    ensures |r| == |s| + 1
    ensures i <= |s| ==> r == InsertAt(s, i, x)
    ensures i >= |s| ==> r == s + [x]
  {
    if i <= |s| then InsertAt(s, i, x) else s + [x]
  }

  /**
   * `s.splice(i, 1, x)` for any `i >= 0`: replaces the element at `i`, or,
   * when `i` is past the end, deletes nothing and appends `x`.
   */
  function ReplaceClamped<T>(s: seq<T>, i: nat, x: T): (r: seq<T>)
    ensures i < |s| ==> |r| == |s| && r[i] == x && forall k :: 0 <= k < |s| && k != i ==> r[k] == s[k]
    ensures i >= |s| ==> r == s + [x]
  {
    if i < |s| then s[i := x] else s + [x]
  }

  /**
   * A list move: take the element at `i` out, then put it back at `j`,
   * where `j` is an index of the shortened list.
   */
  function Move<T>(s: seq<T>, i: nat, j: nat): (r: seq<T>)
    requires i < |s| && j < |s|
    ensures |r| == |s| && r[j] == s[i]
    ensures multiset(r) == multiset(s)
  {
    InsertAt(RemoveAt(s, i), j, s[i])
  }

  /** The index of the original list whose element lands at `k` after `Move(_, i, j)`. */
  function MoveSource(i: nat, j: nat, k: nat): nat
  {
    if k == j then i
    else
      var m := if k < j then k else k - 1;
      if m < i then m else m + 1
  }

  lemma MoveAt<T>(s: seq<T>, i: nat, j: nat, k: nat)
    requires i < |s| && j < |s| && k < |s|
    ensures MoveSource(i, j, k) < |s|
    ensures Move(s, i, j)[k] == s[MoveSource(i, j, k)]
  {
  }

  /** Different positions after a move come from different positions before it. */
  lemma MoveSourceInjective(n: nat, i: nat, j: nat, a: nat, b: nat)
    requires i < n && j < n && a < n && b < n && a != b
    ensures MoveSource(i, j, a) != MoveSource(i, j, b)
  {
  }

  /** Position `k` traced back through a move and its reverse move is `k` again. */
  lemma MoveSourceRoundTrip(i: nat, j: nat, k: nat)
    ensures MoveSource(i, j, MoveSource(j, i, k)) == k
  {
  }

  /** Moving an element from `i` to `j` and then from `j` back to `i` restores the list. */
  lemma {:induction false} MoveInverse<T>(s: seq<T>, i: nat, j: nat)
    requires i < |s| && j < |s|
    ensures Move(Move(s, i, j), j, i) == s
  {
    var m := Move(s, i, j);
    var r := Move(m, j, i);
    forall k | 0 <= k < |s|
      ensures r[k] == s[k]
    {
      MoveAt(m, j, i, k);
      MoveAt(s, i, j, MoveSource(j, i, k));
      MoveSourceRoundTrip(i, j, k);
    }
    assert |r| == |s|;
  }

  /** Moving an element onto its own position changes nothing. */
  lemma MoveSelf<T>(s: seq<T>, i: nat)
    requires i < |s|
    ensures Move(s, i, i) == s
  {
    forall k | 0 <= k < |s|
      ensures Move(s, i, i)[k] == s[k]
    {
      MoveAt(s, i, i, k);
    }
  }
}
