/**
 JavaScript template literals: the literal text pieces `parts` with the
 values `values` inserted between consecutive pieces, exactly as given
 (a template literal performs no escaping of any kind).
 */
module Template {
  import opened JsValues

  /** `` `${parts[0]}${values[0]}${parts[1]}...${parts[n]}` `` for `n == |values|`. */
  function Interpolate(parts: seq<string>, values: seq<string>): (r: string)
    requires |parts| == |values| + 1
    ensures |r| >= |parts[0]| && r[..|parts[0]|] == parts[0]
    decreases |values|
  {
    if values == [] then parts[0]
    else parts[0] + values[0] + Interpolate(parts[1..], values[1..])
  }

  /**
   Every inserted value appears verbatim in the result, directly between the
   literal pieces that surround it in the template.
   */
  lemma {:induction false} InterpolateShowsFramedValue(parts: seq<string>, values: seq<string>, k: nat)
    requires |parts| == |values| + 1
    requires k < |values|
    ensures IsInfix(parts[k] + values[k] + parts[k + 1], Interpolate(parts, values))
    decreases k
  {
    var tail := Interpolate(parts[1..], values[1..]);
    if k == 0 {
      var rest := tail[|parts[1]|..];
      assert tail == parts[1] + rest;
      assert Interpolate(parts, values) == parts[0] + values[0] + parts[1] + rest;
      InfixOfFrame([], parts[0] + values[0] + parts[1], rest);
      assert [] + (parts[0] + values[0] + parts[1]) + rest == Interpolate(parts, values);
    } else {
      InterpolateShowsFramedValue(parts[1..], values[1..], k - 1);
      assert parts[1..][k - 1] + values[1..][k - 1] + parts[1..][k] == parts[k] + values[k] + parts[k + 1];
      InfixOfFrame(parts[0] + values[0], tail, []);
      assert parts[0] + values[0] + tail + [] == Interpolate(parts, values);
      InfixTransitive(parts[k] + values[k] + parts[k + 1], tail, Interpolate(parts, values));
    }
  }
}
