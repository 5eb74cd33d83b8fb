/**
DER tag-length-value encoding, as far as SPNEGO needs it (src/auth/der.rs).
*/
module Der {
  import opened Bytes

  datatype DerError =
    | Truncated
    | UnsupportedLength(first: byte)
    | UnexpectedTag(tag: byte)
    | EmptyToken
    | EmptyEnumerated
    | UnknownState(value: byte)

  /** One length octet up to 127, two up to 255, three beyond; the casts drop what does not fit. */
  function DerLength(len: nat): (r: seq<byte>)
    ensures 1 <= |r| <= 3
  {
    if len < 128 then [len]
    else if len < 256 then [0x81, len]
    else [0x82, len / 256 % 256, len % 256]
  }

  function DerTlv(tag: byte, data: seq<byte>): (r: seq<byte>)
    ensures |data| + 2 <= |r| <= |data| + 4
  {
    [tag] + DerLength(|data|) + data
  }

  datatype Length = Length(value: nat, consumed: nat)

  function ParseLength(data: seq<byte>): (r: Result<Length, DerError>)
    ensures r.Ok? ==> 1 <= r.value.consumed <= |data|
  {
    if data == [] then Err(Truncated)
    else if data[0] < 128 then Ok(Length(data[0], 1))
    else if data[0] == 0x81 then
      if |data| < 2 then Err(Truncated) else Ok(Length(data[1], 2))
    else if data[0] == 0x82 then
      if |data| < 3 then Err(Truncated) else Ok(Length(data[1] as int * 256 + data[2] as int, 3))
    else if data[0] == 0x83 then
      if |data| < 4 then Err(Truncated)
      else Ok(Length(data[1] as int * 0x1_0000 + data[2] as int * 256 + data[3] as int, 4))
    else Err(UnsupportedLength(data[0]))
  }

  datatype Tlv = Tlv(tag: byte, value: seq<byte>, total: nat)

  /** Whatever the bytes, a parsed value lies inside them and something was consumed. */
  function ParseTlv(data: seq<byte>): (r: Result<Tlv, DerError>)
    ensures r.Ok? ==>
      && 2 <= r.value.total <= |data| && |r.value.value| <= r.value.total - 2
      && r.value.tag == data[0] && r.value.value == data[r.value.total - |r.value.value|..r.value.total]
  {
    if data == [] then Err(Truncated)
    else
      match ParseLength(data[1..])
      case Err(e) => Err(e)
      case Ok(len) =>
        var header := 1 + len.consumed;
        var total := header + len.value;
        if |data| < total then Err(Truncated)
        else Ok(Tlv(data[0], data[header..total], total))
  }

  /** The shortest form is used: one byte below 128, two below 256, three from there on. */
  lemma LengthIsShortest(len: nat)
    ensures |DerLength(len)| == (if len < 128 then 1 else if len < 256 then 2 else 3)
    ensures len < 128 ==> DerLength(len)[0] < 128
    ensures len >= 128 ==> DerLength(len)[0] as int == 0x80 + |DerLength(len)| - 1
  {
  }

  /** A number in base 256, most significant digit first. */
  function BigEndian(digits: seq<byte>): nat {
    if digits == [] then 0 else 256 * BigEndian(digits[..|digits| - 1]) + digits[|digits| - 1] as int
  }

  /**
  Reading a length, for every byte string: the short form is the byte itself; a first byte of 0x81 to
  0x83 says how many big-endian digits follow, which must be there; no other first byte is taken.
  */
  lemma LengthsAreReadExactly(data: seq<byte>)
    ensures data == [] ==> ParseLength(data) == Err(Truncated)
    ensures data != [] && data[0] < 0x80 ==> ParseLength(data) == Ok(Length(data[0], 1))
    ensures data != [] && 0x81 <= data[0] <= 0x83 ==>
              var n := data[0] as int - 0x80;
              ParseLength(data) == if |data| < 1 + n then Err(Truncated)
                                   else Ok(Length(BigEndian(data[1..1 + n]), 1 + n))
    ensures data != [] && (data[0] == 0x80 || data[0] > 0x83) ==> ParseLength(data) == Err(UnsupportedLength(data[0]))
  {
    if |data| >= 2 && data[0] == 0x81 {
      OneDigit(data[1]);
      assert data[1..2] == [data[1]];
    } else if |data| >= 3 && data[0] == 0x82 {
      TwoDigitsRead(data[1], data[2]);
      assert data[1..3] == [data[1], data[2]];
    } else if |data| >= 4 && data[0] == 0x83 {
      ThreeDigits(data[1], data[2], data[3]);
      assert data[1..4] == [data[1], data[2], data[3]];
    }
  }

  lemma OneDigit(a: byte)
    ensures BigEndian([a]) == a as int
  {
    assert [a][..0] == [];
  }

  lemma TwoDigitsRead(a: byte, b: byte)
    ensures BigEndian([a, b]) == 256 * a as int + b as int
  {
    OneDigit(a);
    assert [a, b][..1] == [a];
  }

  lemma ThreeDigits(a: byte, b: byte, c: byte)
    ensures BigEndian([a, b, c]) == 0x1_0000 * a as int + 256 * b as int + c as int
  {
    TwoDigitsRead(a, b);
    assert [a, b, c][..2] == [a, b];
  }

  /** A value is found exactly when its length can be read and it is all there. */
  lemma TlvIsFoundExactly(data: seq<byte>)
    ensures ParseTlv(data).Ok?
            <==> data != [] && ParseLength(data[1..]).Ok?
                 && 1 + ParseLength(data[1..]).value.consumed + ParseLength(data[1..]).value.value <= |data|
    ensures ParseTlv(data).Ok? ==> |ParseTlv(data).value.value| == ParseLength(data[1..]).value.value
  {
  }

  /** A length field read back gives the length modulo 2^16. */
  lemma LengthRoundTrip(len: nat, rest: seq<byte>)
    ensures ParseLength(DerLength(len) + rest)
            == Ok(Length(if len < 256 then len else len % U16_LIMIT, |DerLength(len)|))
  {
    if len >= 256 {
      assert len == 256 * (len / 256) + len % 256;
      assert len / 256 == 256 * (len / 256 / 256) + len / 256 % 256;
    }
  }

  /** A value that fits the encoding comes back whole, with whatever follows left alone. */
  lemma TlvRoundTrip(tag: byte, data: seq<byte>, rest: seq<byte>)
    requires |data| < U16_LIMIT
    ensures ParseTlv(DerTlv(tag, data) + rest) == Ok(Tlv(tag, data, |DerTlv(tag, data)|))
  {
    var whole := DerTlv(tag, data) + rest;
    assert whole[1..] == DerLength(|data|) + (data + rest);
    LengthRoundTrip(|data|, data + rest);
    var header := 1 + |DerLength(|data|)|;
    assert whole[header..header + |data|] == data;
  }

  /** A value of 65536 bytes or more has no encoding: what is read back is shorter. */
  lemma OversizedTlvIsCut(tag: byte, data: seq<byte>)
    requires |data| >= U16_LIMIT
    ensures ParseTlv(DerTlv(tag, data)).Ok?
    ensures ParseTlv(DerTlv(tag, data)).value.tag == tag
    ensures ParseTlv(DerTlv(tag, data)).value.value == data[..|data| % U16_LIMIT]
  {
    var whole := DerTlv(tag, data);
    assert whole[1..] == DerLength(|data|) + data;
    LengthRoundTrip(|data|, data);
    var header := 1 + |DerLength(|data|)|;
    var len := |data| % U16_LIMIT;
    assert len < |data|;
    assert whole[header..header + len] == data[..len];
  }

  /** So a TLV round-trips exactly when its content is below 65536 bytes. */
  lemma TlvRoundTripsExactlyWhenItFits(tag: byte, data: seq<byte>)
    ensures ParseTlv(DerTlv(tag, data)) == Ok(Tlv(tag, data, |DerTlv(tag, data)|)) <==> |data| < U16_LIMIT
  {
    if |data| < U16_LIMIT {
      TlvRoundTrip(tag, data, []);
      assert DerTlv(tag, data) + [] == DerTlv(tag, data);
    } else {
      OversizedTlvIsCut(tag, data);
      assert |data[..|data| % U16_LIMIT]| < |data|;
    }
  }
}
