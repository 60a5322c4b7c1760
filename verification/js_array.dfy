/**
  The two JavaScript array mutations the settings screen performs on the stored symbol list,
  as functions returning the new array. An array slot that holds no value (a hole, or a `null`
  after a JSON round trip) is `None`.
 */
module JsArray {
  import opened Options

  /** What reading `a[j]` yields: the element, or `undefined` past the end. */
  function At<T>(a: seq<Option<T>>, j: nat): Option<T> {
    if j < |a| then a[j] else None
  }

  /**
    `a[i] = v`. Inside the array only slot `i` changes; past the end the array grows to
    length `i + 1` and the slots between the old end and `i` are holes.
   */
  function SetAt<T>(a: seq<Option<T>>, i: nat, v: T): (r: seq<Option<T>>)
    ensures |r| == if i < |a| then |a| else i + 1
    ensures r[i] == Some(v)
    ensures forall j :: 0 <= j < |r| && j != i ==> r[j] == At(a, j)
  {
    if i < |a| then a[i := Some(v)]
    else a + seq(i - |a|, _ => None) + [Some(v)]
  }

  /**
    `a.splice(i, 1)` for `i >= 0`: the element at `i` is removed and every later one moves one
    place to the left; at or past the end nothing happens.
   */
  function Splice<T>(a: seq<T>, i: nat): (r: seq<T>)
    ensures i < |a| ==> |r| == |a| - 1
    ensures i < |a| ==> forall j :: 0 <= j < i ==> r[j] == a[j]
    ensures i < |a| ==> forall j :: i <= j < |r| ==> r[j] == a[j + 1]
    ensures |a| <= i ==> r == a
  {
    if i < |a| then a[..i] + a[i + 1..] else a
  }

  /** Writing the value a slot already holds changes nothing. */
  lemma SetAtSameValue<T>(a: seq<Option<T>>, i: nat, v: T)
    requires i < |a| && a[i] == Some(v)
    ensures SetAt(a, i, v) == a
  {
  }

  /** Writing the same slot twice is writing it once. */
  lemma SetAtTwice<T>(a: seq<Option<T>>, i: nat, v: T)
    ensures SetAt(SetAt(a, i, v), i, v) == SetAt(a, i, v)
  {
    SetAtSameValue(SetAt(a, i, v), i, v);
  }

  /** Splicing out the element just inserted at the same position gives the array back. */
  lemma SpliceUndoesInsert<T>(a: seq<T>, i: nat, x: T)
    requires i <= |a|
    ensures Splice(a[..i] + [x] + a[i..], i) == a
  {
    var b := a[..i] + [x] + a[i..];
    assert b[..i] == a[..i];
    assert b[i + 1..] == a[i..];
    assert a[..i] + a[i..] == a;
  }

  /** Splicing removes exactly one occurrence of the element at `i` and nothing else. */
  lemma SpliceRemovesOne<T>(a: seq<T>, i: nat)
    requires i < |a|
    ensures multiset(Splice(a, i)) + multiset{a[i]} == multiset(a)
  {
    assert a == a[..i] + [a[i]] + a[i + 1..];
    assert multiset(a) == multiset(a[..i]) + multiset{a[i]} + multiset(a[i + 1..]);
  }
}
