/** Percent-encoded names, section 2.1 of RFC 3986. */
module Percent {
  import opened Tiles

  const PERCENT: Byte := 37

  datatype DecodeError = Incomplete | InvalidEscape | NotUtf8

  function HexDigit(b: Byte): Option<Byte> {
    if 48 <= b <= 57 then Some(b - 48)
    else if 97 <= b <= 102 then Some(b - 97 + 10)
    else if 65 <= b <= 70 then Some(b - 65 + 10)
    else None
  }

  /** The bytes that a text stands for, or the first error met from the left. */
  function Decoded(text: Bytes): Result<Bytes, DecodeError> {
    if text == [] then Ok([])
    else if text[0] != PERCENT then Prefixed(text[0], Decoded(text[1..]))
    else if |text| < 3 then Err(Incomplete)
    else if HexDigit(text[1]).None? || HexDigit(text[2]).None? then Err(InvalidEscape)
    else Prefixed(Escape(text[1], text[2]), Decoded(text[3..]))
  }

  function Prefixed(b: Byte, rest: Result<Bytes, DecodeError>): Result<Bytes, DecodeError> {
    if rest.Ok? then Ok([b] + rest.value) else rest
  }

  function Escape(high: Byte, low: Byte): Byte
    requires HexDigit(high).Some? && HexDigit(low).Some?
  {
    HexDigit(high).value * 16 + HexDigit(low).value
  }

  function Appended(done: Bytes, rest: Result<Bytes, DecodeError>): Result<Bytes, DecodeError> {
    if rest.Ok? then Ok(done + rest.value) else rest
  }

  /** The scanning loop, followed by the UTF-8 validation of the decoded bytes. */
  method PercentDecode(text: Bytes, utf8: Bytes -> bool) returns (result: Result<Bytes, DecodeError>)
    ensures result == if Decoded(text).Ok? && !utf8(Decoded(text).value) then Err(NotUtf8) else Decoded(text)
  {
    var decoded: Bytes := [];
    var index := 0;
    assert text[0..] == text;
    assert Decoded(text).Ok? ==> [] + Decoded(text).value == Decoded(text).value;
    while index < |text|
      invariant index <= |text|
      invariant Decoded(text) == Appended(decoded, Decoded(text[index..]))
    {
      var rest := text[index..];
      if text[index] == PERCENT {
        if index + 2 >= |text| { return Err(Incomplete); }
        var high, low := HexDigit(text[index + 1]), HexDigit(text[index + 2]);
        if high.None? { return Err(InvalidEscape); }
        if low.None? { return Err(InvalidEscape); }
        Moved(decoded, high.value * 16 + low.value, Decoded(rest[3..]));
        assert rest[3..] == text[index + 3..];
        decoded := decoded + [high.value * 16 + low.value];
        index := index + 3;
      } else {
        Moved(decoded, text[index], Decoded(rest[1..]));
        assert rest[1..] == text[index + 1..];
        decoded := decoded + [text[index]];
        index := index + 1;
      }
    }
    assert decoded + [] == decoded;
    result := if utf8(decoded) then Ok(decoded) else Err(NotUtf8);
  }

  lemma Moved(done: Bytes, b: Byte, rest: Result<Bytes, DecodeError>)
    ensures Appended(done, Prefixed(b, rest)) == Appended(done + [b], rest)
  {
    if rest.Ok? { assert done + ([b] + rest.value) == done + [b] + rest.value; }
  }

  /** `text` is some percent-encoding of `data`: every byte stands for itself or is escaped, '%' always is. */
  predicate Encodes(text: Bytes, data: Bytes)
    decreases |data|
  {
    if data == [] then text == []
    else
      || (text != [] && text[0] == data[0] != PERCENT && Encodes(text[1..], data[1..]))
      || (|text| >= 3 && text[0] == PERCENT && HexDigit(text[1]).Some? && HexDigit(text[2]).Some?
          && Escape(text[1], text[2]) == data[0] && Encodes(text[3..], data[1..]))
  }

  /** Decoding undoes every encoding, and whatever decodes is an encoding of its result. */
  lemma {:induction false} DecodingInvertsEncoding(text: Bytes, data: Bytes)
    ensures Decoded(text) == Ok(data) <==> Encodes(text, data)
    decreases |text|
  {
    if text != [] && data != [] {
      if text[0] != PERCENT {
        DecodingInvertsEncoding(text[1..], data[1..]);
        OkCons(text[0], Decoded(text[1..]), data);
      } else if |text| >= 3 && HexDigit(text[1]).Some? && HexDigit(text[2]).Some? {
        DecodingInvertsEncoding(text[3..], data[1..]);
        OkCons(Escape(text[1], text[2]), Decoded(text[3..]), data);
      }
    }
  }

  lemma OkCons(b: Byte, rest: Result<Bytes, DecodeError>, data: Bytes)
    requires data != []
    ensures Prefixed(b, rest) == Ok(data) <==> rest == Ok(data[1..]) && b == data[0]
  {
    assert data == [data[0]] + data[1..];
    if rest.Ok? && [b] + rest.value == data { assert data[1..] == rest.value; }
  }

  /** A digit or a letter from A to F in either case, by its code. */
  predicate Hex(b: Byte) { 48 <= b <= 57 || 65 <= b <= 70 || 97 <= b <= 102 }

  predicate WellFormed(text: Bytes) {
    forall i :: 0 <= i < |text| && text[i] == 37 ==> i + 2 < |text| && Hex(text[i + 1]) && Hex(text[i + 2])
  }

  /** Decoding succeeds exactly when two hex digits follow every '%'. */
  lemma {:induction false} DecodesWhenWellFormed(text: Bytes)
    ensures Decoded(text).Ok? <==> WellFormed(text)
    decreases |text|
  {
    if text != [] {
      if text[0] != PERCENT {
        DecodesWhenWellFormed(text[1..]);
      } else if |text| >= 3 && HexDigit(text[1]).Some? && HexDigit(text[2]).Some? {
        DecodesWhenWellFormed(text[3..]);
      }
    }
  }

  /** The first '%' without two hex digits decides the error: too few bytes behind it, or a byte that is no digit. */
  lemma {:induction false} FirstErrorDecides(text: Bytes, i: nat)
    requires i < |text| && text[i] == 37 && Decoded(text[..i]).Ok?
    requires !(i + 2 < |text| && Hex(text[i + 1]) && Hex(text[i + 2]))
    ensures Decoded(text) == Err(if i + 2 >= |text| then Incomplete else InvalidEscape)
    decreases |text|
  {
    if i > 0 {
      var first := text[..i];
      if text[0] != PERCENT {
        assert first[1..] == text[1..][..i - 1];
        FirstErrorDecides(text[1..], i - 1);
      } else {
        assert |first| >= 3 && first[3..] == text[3..][..i - 3];
        FirstErrorDecides(text[3..], i - 3);
      }
    }
  }

  /** How one byte is written: plain, or escaped with digits of either case. */
  datatype Choice = Plain | Escaped(upperHigh: bool, upperLow: bool)

  function HexByte(d: Byte, upper: bool): Byte
    requires d < 16
  {
    if d < 10 then d + 48 else if upper then d - 10 + 65 else d - 10 + 97
  }

  function Encode(data: Bytes, choices: seq<Choice>): Bytes
    requires |choices| == |data|
  {
    if data == [] then []
    else
      (match choices[0]
       case Plain => [data[0]]
       case Escaped(h, l) => [PERCENT, HexByte(data[0] / 16, h), HexByte(data[0] % 16, l)])
      + Encode(data[1..], choices[1..])
  }

  /** Whatever bytes are escaped and in whatever case, provided '%' is, decoding gives the data back. */
  lemma {:induction false} RoundTrip(data: Bytes, choices: seq<Choice>)
    requires |choices| == |data|
    requires forall i :: 0 <= i < |data| && data[i] == PERCENT ==> choices[i].Escaped?
    ensures Decoded(Encode(data, choices)) == Ok(data)
  {
    if data != [] {
      RoundTrip(data[1..], choices[1..]);
      var text, rest := Encode(data, choices), Encode(data[1..], choices[1..]);
      match choices[0] {
        case Plain => assert text[1..] == rest;
        case Escaped(h, l) =>
          assert text[3..] == rest && text[0] == PERCENT;
          assert text[1] == HexByte(data[0] / 16, h) && text[2] == HexByte(data[0] % 16, l);
      }
      assert data == [data[0]] + data[1..];
    }
  }
}
