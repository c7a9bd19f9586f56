/** Byte strings, as Go's `string` and `[]byte` hold them, and optional values. */
module Bytes {

  type byte = b: int | 0 <= b < 256

  /** A Go string: a sequence of bytes. */
  type Text = seq<byte>

  datatype Option<+T> = None | Some(value: T)

  const COLON: byte := 58
  const SLASH: byte := 47
  const AT: byte := 64
  const HASH: byte := 35
  const PERCENT: byte := 37
  const MINUS: byte := 45
  const PAD: byte := 61

  predicate IsDigit(b: byte) { 48 <= b <= 57 }
  predicate IsUpper(b: byte) { 65 <= b <= 90 }
  predicate IsLower(b: byte) { 97 <= b <= 122 }
  predicate IsAlphanumeric(b: byte) { IsDigit(b) || IsUpper(b) || IsLower(b) }

  /** The position of the first `b` in `s`, or `|s|`. */
  function IndexOf(s: Text, b: byte): (i: nat)
    ensures i <= |s|
    ensures forall j :: 0 <= j < i ==> s[j] != b
    ensures i < |s| ==> s[i] == b
  {
    if s == [] || s[0] == b then 0 else 1 + IndexOf(s[1..], b)
  }

  /** The position of the last `b` among the first `n` bytes of `s`, if there is one. */
  function LastBefore(s: Text, b: byte, n: nat): (i: Option<nat>)
    requires n <= |s|
    ensures i.None? ==> forall j :: 0 <= j < n ==> s[j] != b
    ensures i.Some? ==> i.value < n && s[i.value] == b
    ensures i.Some? ==> forall j :: i.value < j < n ==> s[j] != b
  {
    if n == 0 then None else if s[n - 1] == b then Some(n - 1) else LastBefore(s, b, n - 1)
  }

  function LastIndexOf(s: Text, b: byte): Option<nat> { LastBefore(s, b, |s|) }

  /** The first `b` of `left + [b] + right` is the one after `left`. */
  lemma FirstSeparator(left: Text, b: byte, right: Text)
    requires b !in left
    ensures IndexOf(left + [b] + right, b) == |left|
  {
    var s := left + [b] + right;
    assert forall j :: 0 <= j < |left| ==> s[j] == left[j];
    assert s[|left|] == b;
  }

  /** The last `b` of `left + [b] + right` is the one before `right`. */
  lemma LastSeparator(left: Text, b: byte, right: Text)
    requires b !in right
    ensures LastIndexOf(left + [b] + right, b) == Some(|left|)
  {
    var s := left + [b] + right;
    assert forall j :: |left| < j < |s| ==> s[j] == right[j - |left| - 1];
    assert s[|left|] == b;
  }
}
