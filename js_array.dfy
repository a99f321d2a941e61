/**
 * JavaScript array operations used by the viewer's state: `splice(index, 1)` and an
 * index write that may grow the array, leaving holes (modelled as `None`).
 */
module JsArray {
  import opened Wrappers

  /** Where `splice` starts: a negative index counts back from the end. */
  function SpliceStart(len: nat, index: int): (k: nat)
    ensures k <= len
    ensures 0 <= index ==> k == if index < len then index else len
    ensures index < 0 ==> k == if len + index < 0 then 0 else len + index
  {
    if index < 0 then (if len + index < 0 then 0 else len + index)
    else if index < len then index else len
  }

  /** `a.splice(index, 1)`: the array without the element at the splice start, if there is one. */
  function RemoveAt<T>(s: seq<T>, index: int): (r: seq<T>)
    ensures 0 <= index < |s| ==>
              |r| == |s| - 1
              && (forall j :: 0 <= j < index ==> r[j] == s[j])
              && (forall j :: index <= j < |r| ==> r[j] == s[j + 1])
    ensures index >= |s| ==> r == s
  {
    var k := SpliceStart(|s|, index);
    if k < |s| then s[..k] + s[k + 1..] else s
  }

  /** Removing the last element of a prefix leaves the shorter prefix. */
  lemma RemoveLastOfPrefix<T>(s: seq<T>, i: nat)
    requires i < |s|
    ensures RemoveAt(s[..i + 1], i) == s[..i]
  {
    assert s[..i + 1][..i] == s[..i];
  }

  /** `a[index] = v` for a non-negative index: the array grows with holes when needed. */
  function WriteAt<T>(s: seq<Option<T>>, index: nat, v: T): (r: seq<Option<T>>)
    ensures |r| == if index < |s| then |s| else index + 1
    ensures r[index] == Some(v)
    ensures forall j :: 0 <= j < |s| && j != index ==> r[j] == s[j]
    ensures forall j :: |s| <= j < |r| && j != index ==> r[j] == None
  {
    if index < |s| then s[index := Some(v)]
    else s + seq(index - |s|, _ => None) + [Some(v)]
  }

  /** `a[index]` read as an optional value: `None` past the end or at a hole. */
  function ReadAt<T>(s: seq<Option<T>>, index: int): (r: Option<T>)
    ensures 0 <= index < |s| ==> r == s[index]
    ensures (index < 0 || index >= |s|) ==> r == None
  {
    if 0 <= index < |s| then s[index] else None
  }

  /** Reading back a written slot gives the written value, and the write touches nothing else. */
  lemma ReadAfterWrite<T>(s: seq<Option<T>>, index: nat, v: T, j: int)
    ensures ReadAt(WriteAt(s, index, v), j) == if j == index then Some(v) else ReadAt(s, j)
  {
  }
}
