/**
 The few JavaScript value semantics the handler relies on: optional strings
 (`undefined` or a string), truthiness of a string, the `||` fallback, the
 text a template literal inserts for a value, and `String.prototype.length`,
 which counts UTF-16 code units rather than characters.
 */
module JsValues {

  /** A value that may be `undefined`. */
  datatype Option<+T> = None | Some(value: T)

  /** A JavaScript string is truthy exactly when it is defined and non-empty. */
  predicate Truthy(v: Option<string>) {
    v.Some? && v.value != ""
  }

  /** `v || fallback` on an optional string: the value when truthy, else the fallback. */
  function Or(v: Option<string>, fallback: string): (r: string)
    ensures Truthy(v) <==> (v.Some? && r == v.value && r != "")
    ensures !Truthy(v) ==> r == fallback
    ensures fallback != "" ==> r != ""
  {
    if Truthy(v) then v.value else fallback
  }

  /** The text a template literal `${v}` inserts: `undefined` prints as the word itself. */
  function Text(v: Option<string>): (r: string)
    ensures v.Some? ==> r == v.value
    ensures v.None? ==> r == "undefined"
    ensures r == "" <==> v == Some("")
  {
    match v
    case Some(s) => s
    case None => "undefined"
  }

  /** Number of UTF-16 code units a character occupies: two for a supplementary-plane one. */
  function CodeUnits(c: char): (n: nat)
    ensures 1 <= n <= 2
  {
    if c as int < 0x1_0000 then 1 else 2
  }

  /**
   `s.length` in JavaScript: the number of UTF-16 code units of `s`, which
   lies between the number of characters and twice that, and is zero only
   for the empty string.
   */
  function Utf16Length(s: string): (n: nat)
    ensures |s| <= n <= 2 * |s|
    ensures n == 0 <==> s == ""
  {
    if s == [] then 0 else CodeUnits(s[0]) + Utf16Length(s[1..])
  }

  /** Characters outside the supplementary planes each count once. */
  lemma {:induction false} Utf16LengthOfBasicPlane(s: string)
    requires forall i :: 0 <= i < |s| ==> s[i] as int < 0x1_0000
    ensures Utf16Length(s) == |s|
  {
    if s != [] {
      assert forall i :: 0 <= i < |s[1..]| ==> s[1..][i] == s[i + 1];
      Utf16LengthOfBasicPlane(s[1..]);
    }
  }

  /** `a` occurs in `b` starting at position `i`. */
  predicate OccursAt(a: string, b: string, i: int) {
    0 <= i <= |b| - |a| && b[i..i + |a|] == a
  }

  /** `a` occurs in `b` as a contiguous run: `b.includes(a)`. */
  predicate IsInfix(a: string, b: string) {
    exists i | 0 <= i <= |b| :: OccursAt(a, b, i)
  }

  /** Every string occurs in itself framed by anything. */
  lemma InfixOfFrame(p: string, a: string, q: string)
    ensures IsInfix(a, p + a + q)
  {
    var b := p + a + q;
    assert b[|p|..|p| + |a|] == a;
    assert OccursAt(a, b, |p|);
  }

  /** Occurring in a part of a string means occurring in the string. */
  lemma InfixTransitive(a: string, b: string, c: string)
    requires IsInfix(a, b) && IsInfix(b, c)
    ensures IsInfix(a, c)
  {
    var i :| 0 <= i <= |b| && OccursAt(a, b, i);
    var j :| 0 <= j <= |c| && OccursAt(b, c, j);
    assert 0 <= i <= |b| - |a| && b[i..i + |a|] == a;
    assert 0 <= j <= |c| - |b| && c[j..j + |b|] == b;
    forall k | 0 <= k < |a|
      ensures c[j + i + k] == a[k]
    {
      assert a[k] == b[i + k] == c[j + i + k];
    }
    assert c[j + i..j + i + |a|] == a;
    assert OccursAt(a, c, j + i);
  }

  /** A prefix of something that occurs in a string occurs in it too. */
  lemma InfixOfPrefix(a: string, q: string, c: string)
    requires IsInfix(a + q, c)
    ensures IsInfix(a, c)
  {
    InfixOfFrame([], a, q);
    assert [] + a + q == a + q;
    InfixTransitive(a, a + q, c);
  }
}
