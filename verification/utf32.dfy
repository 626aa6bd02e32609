/**
  A reference decoder for the builder's decoding parameter: one code unit per
  character, as in UTF-32. A unit decodes when it is a Unicode scalar value.

  The source hands the bytes of the wide-character buffer to Foundation's
  UTF-32 little-endian decoder; byte order, and any byte-order-mark handling of
  Foundation, are below the level of code units and are not modelled here.
 */
module Utf32 {
  import opened Values

  /** A code point that is not a surrogate and not above U+10FFFF. */
  predicate IsScalar(u: int) {
    (0 <= u < 0xD800) || (0xE000 <= u < 0x11_0000)
  }

  /** Decodes every unit, or fails if any unit is not a scalar value. */
  function Decode(units: seq<int>): (r: Option<string>)
    ensures r.Some? <==> forall i | 0 <= i < |units| :: IsScalar(units[i])
    ensures r.Some? ==> |r.value| == |units| && forall i | 0 <= i < |units| :: r.value[i] as int == units[i]
  {
    if |units| == 0 then Some([])
    else if !IsScalar(units[0]) then None
    else
      match Decode(units[1..])
      case None => None
      case Some(rest) => Some([units[0] as char] + rest)
  }

  /** One unit per character. */
  function Encode(s: string): (units: seq<int>)
    ensures |units| == |s|
    ensures forall i | 0 <= i < |units| :: IsScalar(units[i])
  {
    seq(|s|, i requires 0 <= i < |s| => s[i] as int)
  }

  /** Decoding an encoding gives back the string. */
  lemma DecodeEncode(s: string)
    ensures Decode(Encode(s)) == Some(s)
  {
    var units := Encode(s);
    assert forall i | 0 <= i < |s| :: units[i] == s[i] as int;
    var t := Decode(units).value;
    assert forall i | 0 <= i < |s| :: t[i] == s[i];
    assert t == s;
  }

  /** A successful decoding encodes back to the same units. */
  lemma EncodeDecode(units: seq<int>)
    requires Decode(units).Some?
    ensures Encode(Decode(units).value) == units
  {
  }
}
