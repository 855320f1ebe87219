/**
 The byte encoding of the data that a stored result is authenticated with.

 A domain, a zero byte, then every field with a four-byte big-endian length in front. The
 decoder below is the inverse that shows the encoding loses nothing.
 */
module AadEncoding {
  import opened Wrappers

  type Byte = b: int | 0 <= b < 256
  type Bytes = seq<Byte>

  const FIELD_LIMIT := 0x1_0000_0000

  predicate Encodable(fields: seq<Bytes>) {
    forall i :: 0 <= i < |fields| ==> |fields[i]| < FIELD_LIMIT
  }

  function BigEndian(n: int): (r: Bytes)
    requires 0 <= n < FIELD_LIMIT
    ensures |r| == 4
  {
    [n / 0x100_0000, n / 0x1_0000 % 0x100, n / 0x100 % 0x100, n % 0x100]
  }

  function FromBigEndian(b: Bytes): int
    requires |b| == 4
  {
    (b[0] as int) * 0x100_0000 + (b[1] as int) * 0x1_0000 + (b[2] as int) * 0x100 + b[3] as int
  }

  lemma BigEndianRoundTrip(n: int)
    requires 0 <= n < FIELD_LIMIT
    ensures FromBigEndian(BigEndian(n)) == n
  {
    var hi := n / 0x1_0000;
    assert n / 0x100_0000 == hi / 0x100;
    assert n / 0x100 == hi * 0x100 + (n % 0x1_0000) / 0x100;
  }

  function EncodeField(field: Bytes): Bytes
    requires |field| < FIELD_LIMIT
  {
    BigEndian(|field|) + field
  }

  function EncodeFields(fields: seq<Bytes>): Bytes
    requires Encodable(fields)
  {
    if fields == [] then [] else EncodeField(fields[0]) + EncodeFields(fields[1..])
  }

  /** The encoding as it is specified; `StructuredAad` computes it. */
  function Encode(domain: Bytes, fields: seq<Bytes>): Bytes
    requires Encodable(fields)
  {
    domain + [0] + EncodeFields(fields)
  }

  lemma {:induction false} EncodeFieldsAppend(fields: seq<Bytes>, field: Bytes)
    requires Encodable(fields) && |field| < FIELD_LIMIT
    ensures EncodeFields(fields + [field]) == EncodeFields(fields) + EncodeField(field)
  {
    if fields == [] {
      assert fields + [field] == [field];
      assert [field][1..] == [];
    } else {
      assert (fields + [field])[1..] == fields[1..] + [field];
      EncodeFieldsAppend(fields[1..], field);
    }
  }

  /** Fills the buffer field by field. */
  method StructuredAad(domain: Bytes, fields: seq<Bytes>) returns (encoded: Bytes)
    requires Encodable(fields)
    ensures encoded == Encode(domain, fields)
  {
    encoded := domain + [0];
    for i := 0 to |fields|
      invariant encoded == domain + [0] + EncodeFields(fields[..i])
    {
      var length := BigEndian(|fields[i]|);
      EncodeFieldsAppend(fields[..i], fields[i]);
      assert fields[..i + 1] == fields[..i] + [fields[i]];
      encoded := encoded + length;
      encoded := encoded + fields[i];
    }
    assert fields[..|fields|] == fields;
  }

  // The inverse.

  function DecodeFields(bytes: Bytes): Option<seq<Bytes>>
    decreases |bytes|
  {
    if bytes == [] then Some([])
    else if |bytes| < 4 then None
    else
      var length := FromBigEndian(bytes[..4]);
      if |bytes| < 4 + length then None
      else
        match DecodeFields(bytes[4 + length..])
        case None => None
        case Some(rest) => Some([bytes[4..4 + length]] + rest)
  }

  function Decode(bytes: Bytes): Option<(Bytes, seq<Bytes>)> {
    if bytes == [] then None
    else if bytes[0] == 0 then
      match DecodeFields(bytes[1..])
      case None => None
      case Some(fields) => Some(([], fields))
    else
      match Decode(bytes[1..])
      case None => None
      case Some((domain, fields)) => Some(([bytes[0]] + domain, fields))
  }

  lemma {:induction false} FieldsRoundTrip(fields: seq<Bytes>)
    requires Encodable(fields)
    ensures DecodeFields(EncodeFields(fields)) == Some(fields)
  {
    if fields != [] {
      var bytes := EncodeFields(fields);
      var field := fields[0];
      BigEndianRoundTrip(|field|);
      assert bytes[..4] == BigEndian(|field|);
      assert bytes[4..4 + |field|] == field;
      assert bytes[4 + |field|..] == EncodeFields(fields[1..]);
      FieldsRoundTrip(fields[1..]);
      assert [field] + fields[1..] == fields;
    }
  }

  /** Decoding gives back exactly the domain and the fields, for any domain without a zero byte. */
  lemma {:induction false} RoundTrip(domain: Bytes, fields: seq<Bytes>)
    requires Encodable(fields) && 0 !in domain
    ensures Decode(Encode(domain, fields)) == Some((domain, fields))
  {
    var bytes := Encode(domain, fields);
    if domain == [] {
      assert bytes[1..] == EncodeFields(fields);
      FieldsRoundTrip(fields);
    } else {
      assert bytes[1..] == Encode(domain[1..], fields);
      RoundTrip(domain[1..], fields);
      assert [domain[0]] + domain[1..] == domain;
    }
  }

  lemma EncodeIsInjective(domain: Bytes, fields: seq<Bytes>, domain': Bytes, fields': seq<Bytes>)
    requires Encodable(fields) && Encodable(fields') && 0 !in domain && 0 !in domain'
    requires Encode(domain, fields) == Encode(domain', fields')
    ensures domain == domain' && fields == fields'
  {
    RoundTrip(domain, fields);
    RoundTrip(domain', fields');
  }

  // The two uses.

  function Digit(d: int): Byte
    requires 0 <= d < 10
  {
    '0' as int + d
  }

  /** The decimal text of a generation. */
  function Decimal(n: nat): (r: Bytes)
    ensures r != []
    ensures forall i :: 0 <= i < |r| ==> '0' as int <= r[i] <= '9' as int
  {
    if n < 10 then [Digit(n)] else Decimal(n / 10) + [Digit(n % 10)]
  }

  function FromDecimal(text: Bytes): int {
    if text == [] then 0 else FromDecimal(text[..|text| - 1]) * 10 + (text[|text| - 1] - '0' as int)
  }

  lemma {:induction false} DecimalRoundTrip(n: nat)
    ensures FromDecimal(Decimal(n)) == n
  {
    var text := Decimal(n);
    if n >= 10 {
      assert text[..|text| - 1] == Decimal(n / 10);
      DecimalRoundTrip(n / 10);
    } else {
      assert text[..0] == [];
    }
  }

  function Ascii(text: string): (r: Bytes)
    requires forall i :: 0 <= i < |text| ==> text[i] < 128 as char
    ensures |r| == |text| && forall i :: 0 <= i < |text| ==> r[i] == text[i] as int
  {
    if text == "" then [] else [text[0] as int] + Ascii(text[1..])
  }

  const REFRESH_DOMAIN: Bytes := Ascii("device-refresh:v1")
  const EXCHANGE_DOMAIN: Bytes := Ascii("device-exchange:v1")

  datatype AadText =
    | RotationText(family: Bytes, device: Bytes, server: Bytes, generation: nat, transaction: Bytes, sourceHash: Bytes)
    | ExchangeText(authorization: Bytes, server: Bytes, transaction: Bytes, codeHash: Bytes)

  function Domain(a: AadText): Bytes {
    if a.RotationText? then REFRESH_DOMAIN else EXCHANGE_DOMAIN
  }

  function Fields(a: AadText): seq<Bytes> {
    match a
    case RotationText(family, device, server, generation, transaction, hash) =>
      [family, device, server, Decimal(generation), transaction, hash]
    case ExchangeText(authorization, server, transaction, hash) => [authorization, server, transaction, hash]
  }

  lemma DomainsDiffer()
    ensures |REFRESH_DOMAIN| != |EXCHANGE_DOMAIN|
    ensures 0 !in REFRESH_DOMAIN && 0 !in EXCHANGE_DOMAIN
  {
    hide Ascii;
    assert |REFRESH_DOMAIN| == 17 && |EXCHANGE_DOMAIN| == 18;
    AsciiHasNoZero("device-refresh:v1");
    AsciiHasNoZero("device-exchange:v1");
  }

  lemma AsciiHasNoZero(text: string)
    requires forall i :: 0 <= i < |text| ==> 0 as char < text[i] < 128 as char
    ensures 0 !in Ascii(text)
  {
    hide Ascii;
  }

  lemma FieldsDetermine(a: AadText, b: AadText)
    requires a.RotationText? == b.RotationText? && Fields(a) == Fields(b)
    ensures a == b
  {
    hide Decimal;
    var x, y := Fields(a), Fields(b);
    assert |x| == |y| && x[0] == y[0] && x[1] == y[1] && x[2] == y[2] && x[3] == y[3];
    if a.RotationText? {
      assert x[4] == y[4] && x[5] == y[5];
      DecimalRoundTrip(a.generation);
      DecimalRoundTrip(b.generation);
    }
  }

  /**
   Equal authenticated bytes mean the same use and the same components, generation included:
   a rotation result can never be opened as an exchange result or at another place of the chain.
   */
  lemma AadBindsEveryComponent(a: AadText, b: AadText)
    requires Encodable(Fields(a)) && Encodable(Fields(b))
    requires Encode(Domain(a), Fields(a)) == Encode(Domain(b), Fields(b))
    ensures a == b
  {
    hide Ascii, Decimal, Encode, EncodeFields, Fields;
    DomainsDiffer();
    EncodeIsInjective(Domain(a), Fields(a), Domain(b), Fields(b));
    FieldsDetermine(a, b);
  }

  // Comparing digests without an early exit.

  function Difference(left: seq<bv8>, right: seq<bv8>): bv8
    requires |left| == |right|
  {
    if left == [] then 0
    else Difference(left[..|left| - 1], right[..|right| - 1]) | (left[|left| - 1] ^ right[|right| - 1])
  }

  predicate ConstantTimeEq(left: seq<bv8>, right: seq<bv8>) {
    |left| == |right| && Difference(left, right) == 0
  }

  lemma BitsOfDifference(d: bv8, l: bv8, r: bv8)
    ensures d | (l ^ r) == 0 <==> d == 0 && l == r
  {
  }

  lemma {:induction false} ConstantTimeEqIsEquality(left: seq<bv8>, right: seq<bv8>)
    ensures ConstantTimeEq(left, right) <==> left == right
    decreases |left|
  {
    if |left| == |right| && left != [] {
      var n := |left| - 1;
      ConstantTimeEqIsEquality(left[..n], right[..n]);
      BitsOfDifference(Difference(left[..n], right[..n]), left[n], right[n]);
      assert left == left[..n] + [left[n]] && right == right[..n] + [right[n]];
    }
  }
}
