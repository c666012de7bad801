/**
  Risk identifiers, attributes and records, and the textual and JSON forms of an
  identifier (internal/models/models.go).

  A risk identifier is a 128-bit UUID, held as its 16 bytes in order. Its canonical
  text is the one of section 4 of RFC 9562: 32 lowercase hexadecimal digits in groups
  of 8, 4, 4, 4 and 12, separated by hyphens.
*/
module Models {
  import opened Wrappers

  /** The states a risk may be created with. */
  const VALID_RISK_STATES: seq<string> := ["open", "closed", "accepted", "investigating"]

  /** The membership test applied to a new risk's state before it is stored. */
  predicate IsValidRiskState(state: string)
    ensures IsValidRiskState(state) <==>
      state == "open" || state == "closed" || state == "accepted" || state == "investigating"
  {
    state in VALID_RISK_STATES
  }

  type byte = x: int | 0 <= x < 256

  /** The 16 bytes of a UUID. */
  type UuidBytes = s: seq<byte> | |s| == 16 witness [0, 0, 0, 0, 0, 0, 0, 0, 0, 0, 0, 0, 0, 0, 0, 0]

  datatype RiskId = RiskId(bytes: UuidBytes)

  datatype RiskAttributes = RiskAttributes(state: string, title: string, description: string)

  /** A stored risk: its identifier together with its attributes. */
  datatype Risk = Risk(id: RiskId, attributes: RiskAttributes)

  /** A Go `error`, known by its message. */
  datatype Error = Error(message: string)

  /** Go's zero values of the types above. */
  const ZERO_ID: RiskId := RiskId([0, 0, 0, 0, 0, 0, 0, 0, 0, 0, 0, 0, 0, 0, 0, 0])
  const ZERO_ATTRIBUTES: RiskAttributes := RiskAttributes("", "", "")
  const ZERO_RISK: Risk := Risk(ZERO_ID, ZERO_ATTRIBUTES)

  /** Two risks are equal exactly when their identifiers and all three attributes are. */
  lemma RiskEquality(a: Risk, b: Risk)
    ensures a == b <==>
      a.id.bytes == b.id.bytes && a.attributes.state == b.attributes.state &&
      a.attributes.title == b.attributes.title && a.attributes.description == b.attributes.description
  {
  }

  // ---------------------------------------------------------------------------
  // Hexadecimal digits

  predicate IsLowerHexDigit(c: char) {
    '0' <= c <= '9' || 'a' <= c <= 'f'
  }

  /** The lowercase hexadecimal digit of a value below 16. */
  function HexDigit(n: int): (c: char)
    requires 0 <= n < 16
    ensures IsLowerHexDigit(c)
  {
    if n < 10 then (48 + n) as char else (87 + n) as char
  }

  /** The value of a lowercase hexadecimal digit; None for any other character. */
  function HexValue(c: char): (r: Option<int>)
    ensures r.Some? <==> IsLowerHexDigit(c)
    ensures r.Some? ==> 0 <= r.value < 16 && HexDigit(r.value) == c
  {
    if '0' <= c <= '9' then Some(c as int - 48)
    else if 'a' <= c <= 'f' then Some(c as int - 87)
    else None
  }

  /** Two digits per byte, high nibble first. */
  function EncodeHex(bs: seq<byte>): (s: string)
    ensures |s| == 2 * |bs|
  {
    if bs == [] then [] else [HexDigit(bs[0] / 16), HexDigit(bs[0] % 16)] + EncodeHex(bs[1..])
  }

  /** The bytes spelled by pairs of lowercase hexadecimal digits, or None. */
  function DecodeHex(s: string): (r: Option<seq<byte>>)
    ensures r.Some? ==> 2 * |r.value| == |s|
    decreases |s|
  {
    if |s| == 0 then Some([])
    else if |s| == 1 then None
    else
      match (HexValue(s[0]), HexValue(s[1]), DecodeHex(s[2..]))
      case (Some(hi), Some(lo), Some(rest)) => Some([hi * 16 + lo] + rest)
      case _ => None
  }

  lemma {:induction false} EncodeHexAt(bs: seq<byte>, k: int)
    requires 0 <= k < |bs|
    ensures EncodeHex(bs)[2 * k] == HexDigit(bs[k] / 16)
    ensures EncodeHex(bs)[2 * k + 1] == HexDigit(bs[k] % 16)
  {
    if k > 0 {
      EncodeHexAt(bs[1..], k - 1);
    }
  }

  lemma {:induction false} DecodeEncodeHex(bs: seq<byte>)
    ensures DecodeHex(EncodeHex(bs)) == Some(bs)
  {
    if bs != [] {
      DecodeEncodeHex(bs[1..]);
      var s := EncodeHex(bs);
      assert s[2..] == EncodeHex(bs[1..]);
      assert bs == [bs[0] / 16 * 16 + bs[0] % 16] + bs[1..];
    }
  }

  lemma {:induction false} EncodeDecodeHex(s: string)
    requires DecodeHex(s).Some?
    ensures EncodeHex(DecodeHex(s).value) == s
  {
    if |s| >= 2 {
      EncodeDecodeHex(s[2..]);
      var bs := DecodeHex(s).value;
      var hi, lo := HexValue(s[0]).value, HexValue(s[1]).value;
      assert bs[0] == hi * 16 + lo && bs[1..] == DecodeHex(s[2..]).value;
      assert bs[0] / 16 == hi && bs[0] % 16 == lo;
      assert s == [s[0], s[1]] + s[2..];
    }
  }

  /** DecodeHex succeeds exactly on strings of pairs of lowercase hexadecimal digits. */
  lemma {:induction false} DecodeHexSucceeds(s: string)
    ensures DecodeHex(s).Some? <==>
      |s| % 2 == 0 && forall p :: 0 <= p < |s| ==> IsLowerHexDigit(s[p])
  {
    if |s| >= 2 {
      DecodeHexSucceeds(s[2..]);
      assert forall p :: 2 <= p < |s| ==> s[p] == s[2..][p - 2];
    }
  }

  // ---------------------------------------------------------------------------
  // The canonical text of an identifier

  predicate IsHyphenPosition(p: int) {
    p == 8 || p == 13 || p == 18 || p == 23
  }

  /** The canonical 36-character form: hyphens at 8, 13, 18 and 23, lowercase hex elsewhere. */
  predicate IsCanonical(s: string) {
    |s| == 36 &&
    forall p :: 0 <= p < 36 ==> if IsHyphenPosition(p) then s[p] == '-' else IsLowerHexDigit(s[p])
  }

  /** Where the two digits of byte `i` stand in the canonical text. */
  function DigitPosition(i: int): (p: int)
    requires 0 <= i < 16
  {
    2 * i + (if i < 4 then 0 else if i < 6 then 1 else if i < 8 then 2 else if i < 10 then 3 else 4)
  }

  /** The canonical text of an identifier (RiskId.String). */
  function RiskIdString(id: RiskId): (s: string)
    ensures |s| == 36
  {
    var b := id.bytes;
    EncodeHex(b[0..4]) + "-" + EncodeHex(b[4..6]) + "-" + EncodeHex(b[6..8]) + "-" +
    EncodeHex(b[8..10]) + "-" + EncodeHex(b[10..16])
  }

  const INVALID_FORMAT: Error := Error("invalid UUID format")

  /** Decimal digits of a length, for the length error's message. */
  function NatToString(n: nat): (s: string)
  {
    if n < 10 then [(48 + n) as char] else NatToString(n / 10) + [(48 + n % 10) as char]
  }

  /** Parses the canonical text of an identifier (NewRiskIdFromString). */
  function NewRiskIdFromString(s: string): (r: Result<RiskId, Error>)
    ensures |s| == 36 && r.Failure? ==> r.error == INVALID_FORMAT
  {
    if |s| != 36 then Failure(Error("invalid UUID length: " + NatToString(|s|)))
    else if s[8] != '-' || s[13] != '-' || s[18] != '-' || s[23] != '-' then Failure(INVALID_FORMAT)
    else
      match (DecodeHex(s[0..8]), DecodeHex(s[9..13]), DecodeHex(s[14..18]), DecodeHex(s[19..23]), DecodeHex(s[24..36]))
      case (Some(b0), Some(b1), Some(b2), Some(b3), Some(b4)) => Success(RiskId(b0 + b1 + b2 + b3 + b4))
      case _ => Failure(INVALID_FORMAT)
  }

  /** The five digit groups of a canonical-length string joined by hyphens. */
  lemma SplitGroups(s: string, g0: string, g1: string, g2: string, g3: string, g4: string)
    requires |g0| == 8 && |g1| == 4 && |g2| == 4 && |g3| == 4 && |g4| == 12
    requires s == g0 + "-" + g1 + "-" + g2 + "-" + g3 + "-" + g4
    ensures |s| == 36 && s[8] == '-' && s[13] == '-' && s[18] == '-' && s[23] == '-'
    ensures s[0..8] == g0 && s[9..13] == g1 && s[14..18] == g2 && s[19..23] == g3 && s[24..36] == g4
  {
  }

  /** Parsing the text of an identifier gives that identifier back. */
  lemma ParseRiskIdString(id: RiskId)
    ensures NewRiskIdFromString(RiskIdString(id)) == Success(id)
  {
    var b := id.bytes;
    var s := RiskIdString(id);
    SplitGroups(s, EncodeHex(b[0..4]), EncodeHex(b[4..6]), EncodeHex(b[6..8]), EncodeHex(b[8..10]), EncodeHex(b[10..16]));
    DecodeEncodeHex(b[0..4]);
    DecodeEncodeHex(b[4..6]);
    DecodeEncodeHex(b[6..8]);
    DecodeEncodeHex(b[8..10]);
    DecodeEncodeHex(b[10..16]);
    assert b[0..4] + b[4..6] + b[6..8] + b[8..10] + b[10..16] == b;
  }

  /** A canonical-length string with its hyphens in place is its five groups joined by hyphens. */
  lemma JoinGroups(s: string)
    requires |s| == 36 && s[8] == '-' && s[13] == '-' && s[18] == '-' && s[23] == '-'
    ensures s == s[0..8] + "-" + s[9..13] + "-" + s[14..18] + "-" + s[19..23] + "-" + s[24..36]
  {
    var t := s[0..8] + "-" + s[9..13] + "-" + s[14..18] + "-" + s[19..23] + "-" + s[24..36];
    assert |t| == 36;
    forall p | 0 <= p < 36
      ensures s[p] == t[p]
    {
    }
  }

  /** Five byte groups of sizes 4, 2, 2, 2 and 6 are the slices of their concatenation. */
  lemma SliceGroups(b0: seq<byte>, b1: seq<byte>, b2: seq<byte>, b3: seq<byte>, b4: seq<byte>)
    requires |b0| == 4 && |b1| == 2 && |b2| == 2 && |b3| == 2 && |b4| == 6
    ensures var b := b0 + b1 + b2 + b3 + b4;
      b[0..4] == b0 && b[4..6] == b1 && b[6..8] == b2 && b[8..10] == b3 && b[10..16] == b4
  {
  }

  /** A string that parses is the text of the identifier it parses to. */
  lemma RiskIdStringOfParsed(s: string)
    requires NewRiskIdFromString(s).Success?
    ensures RiskIdString(NewRiskIdFromString(s).value) == s
  {
    var b0, b1, b2, b3, b4 := DecodeHex(s[0..8]).value, DecodeHex(s[9..13]).value,
      DecodeHex(s[14..18]).value, DecodeHex(s[19..23]).value, DecodeHex(s[24..36]).value;
    SliceGroups(b0, b1, b2, b3, b4);
    assert NewRiskIdFromString(s).value.bytes == b0 + b1 + b2 + b3 + b4;
    EncodeDecodeHex(s[0..8]);
    EncodeDecodeHex(s[9..13]);
    EncodeDecodeHex(s[14..18]);
    EncodeDecodeHex(s[19..23]);
    EncodeDecodeHex(s[24..36]);
    JoinGroups(s);
  }

  /** Parsing succeeds exactly on canonical strings. */
  lemma ParseSucceedsIffCanonical(s: string)
    ensures NewRiskIdFromString(s).Success? <==> IsCanonical(s)
  {
    if |s| == 36 {
      DecodeHexSucceeds(s[0..8]);
      DecodeHexSucceeds(s[9..13]);
      DecodeHexSucceeds(s[14..18]);
      DecodeHexSucceeds(s[19..23]);
      DecodeHexSucceeds(s[24..36]);
      assert forall p :: 0 <= p < 8 ==> s[0..8][p] == s[p];
      assert forall p :: 9 <= p < 13 ==> s[9..13][p - 9] == s[p];
      assert forall p :: 14 <= p < 18 ==> s[14..18][p - 14] == s[p];
      assert forall p :: 19 <= p < 23 ==> s[19..23][p - 19] == s[p];
      assert forall p :: 24 <= p < 36 ==> s[24..36][p - 24] == s[p];
    }
  }

  /** Identifiers and canonical strings correspond one to one. */
  lemma RiskIdStringIsCanonical(id: RiskId)
    ensures IsCanonical(RiskIdString(id))
  {
    ParseRiskIdString(id);
    ParseSucceedsIffCanonical(RiskIdString(id));
  }

  lemma RiskIdStringInjective(a: RiskId, b: RiskId)
    ensures RiskIdString(a) == RiskIdString(b) <==> a == b
  {
    ParseRiskIdString(a);
    ParseRiskIdString(b);
  }

  /** The two digits of byte `i` stand at DigitPosition(i), high nibble first. */
  lemma RiskIdStringDigits(id: RiskId, i: int)
    requires 0 <= i < 16
    ensures RiskIdString(id)[DigitPosition(i)] == HexDigit(id.bytes[i] / 16)
    ensures RiskIdString(id)[DigitPosition(i) + 1] == HexDigit(id.bytes[i] % 16)
  {
    var b := id.bytes;
    var s := RiskIdString(id);
    SplitGroups(s, EncodeHex(b[0..4]), EncodeHex(b[4..6]), EncodeHex(b[6..8]), EncodeHex(b[8..10]), EncodeHex(b[10..16]));
    var p := DigitPosition(i);
    if i < 4 {
      EncodeHexAt(b[0..4], i);
      assert s[p] == s[0..8][p] && s[p + 1] == s[0..8][p + 1];
    } else if i < 6 {
      EncodeHexAt(b[4..6], i - 4);
      assert s[p] == s[9..13][p - 9] && s[p + 1] == s[9..13][p - 8];
    } else if i < 8 {
      EncodeHexAt(b[6..8], i - 6);
      assert s[p] == s[14..18][p - 14] && s[p + 1] == s[14..18][p - 13];
    } else if i < 10 {
      EncodeHexAt(b[8..10], i - 8);
      assert s[p] == s[19..23][p - 19] && s[p + 1] == s[19..23][p - 18];
    } else {
      EncodeHexAt(b[10..16], i - 10);
      assert s[p] == s[24..36][p - 24] && s[p + 1] == s[24..36][p - 23];
    }
  }

  /** The identifier with bytes 01 23 45 67 89 ab cd ef fe dc ba 98 76 54 32 10. */
  const EXAMPLE_ID: RiskId :=
    RiskId([0x01, 0x23, 0x45, 0x67, 0x89, 0xab, 0xcd, 0xef, 0xfe, 0xdc, 0xba, 0x98, 0x76, 0x54, 0x32, 0x10])

  lemma ExampleGroup0()
    ensures EncodeHex([0x01, 0x23, 0x45, 0x67]) == "01234567"
  {
    assert [0x45, 0x67][1..] == [0x67];
    assert EncodeHex([0x45, 0x67]) == "4567";
    assert [0x23, 0x45, 0x67][1..] == [0x45, 0x67];
    assert EncodeHex([0x23, 0x45, 0x67]) == "234567";
    assert [0x01, 0x23, 0x45, 0x67][1..] == [0x23, 0x45, 0x67];
  }

  lemma ExampleGroup1()
    ensures EncodeHex([0x89, 0xab]) == "89ab"
  {
    assert [0x89, 0xab][1..] == [0xab];
  }

  lemma ExampleGroup2()
    ensures EncodeHex([0xcd, 0xef]) == "cdef"
  {
    assert [0xcd, 0xef][1..] == [0xef];
  }

  lemma ExampleGroup3()
    ensures EncodeHex([0xfe, 0xdc]) == "fedc"
  {
    assert [0xfe, 0xdc][1..] == [0xdc];
  }

  lemma ExampleGroup4Tail()
    ensures EncodeHex([0x54, 0x32, 0x10]) == "543210"
  {
    assert [0x32, 0x10][1..] == [0x10];
    assert EncodeHex([0x32, 0x10]) == "3210";
    assert [0x54, 0x32, 0x10][1..] == [0x32, 0x10];
  }

  lemma ExampleGroup4()
    ensures EncodeHex([0xba, 0x98, 0x76, 0x54, 0x32, 0x10]) == "ba9876543210"
  {
    ExampleGroup4Tail();
    assert [0x76, 0x54, 0x32, 0x10][1..] == [0x54, 0x32, 0x10];
    assert EncodeHex([0x76, 0x54, 0x32, 0x10]) == "76543210";
    assert [0x98, 0x76, 0x54, 0x32, 0x10][1..] == [0x76, 0x54, 0x32, 0x10];
    assert EncodeHex([0x98, 0x76, 0x54, 0x32, 0x10]) == "9876543210";
    assert [0xba, 0x98, 0x76, 0x54, 0x32, 0x10][1..] == [0x98, 0x76, 0x54, 0x32, 0x10];
  }

  /** The example's text, assembled from its five groups. */
  lemma JoinExampleGroups(s: string, g0: string, g1: string, g2: string, g3: string, g4: string)
    requires g0 == "01234567" && g1 == "89ab" && g2 == "cdef" && g3 == "fedc" && g4 == "ba9876543210"
    requires s == g0 + "-" + g1 + "-" + g2 + "-" + g3 + "-" + g4
    ensures s == "01234567-89ab-cdef-fedc-ba9876543210"
  {
  }

  lemma RiskIdStringExample()
    ensures RiskIdString(EXAMPLE_ID) == "01234567-89ab-cdef-fedc-ba9876543210"
  {
    var b := EXAMPLE_ID.bytes;
    assert b[0..4] == [0x01, 0x23, 0x45, 0x67] && b[4..6] == [0x89, 0xab] && b[6..8] == [0xcd, 0xef];
    assert b[8..10] == [0xfe, 0xdc] && b[10..16] == [0xba, 0x98, 0x76, 0x54, 0x32, 0x10];
    ExampleGroup0();
    ExampleGroup1();
    ExampleGroup2();
    ExampleGroup3();
    ExampleGroup4();
    JoinExampleGroups(RiskIdString(EXAMPLE_ID), EncodeHex(b[0..4]), EncodeHex(b[4..6]), EncodeHex(b[6..8]),
      EncodeHex(b[8..10]), EncodeHex(b[10..16]));
  }

  // ---------------------------------------------------------------------------
  // JSON form and generation

  /** The JSON encoding of an identifier: its canonical text as a JSON string (MarshalJSON). */
  function MarshalJson(id: RiskId): (json: string)
    ensures |json| == 38 && json[0] == '"' && json[37] == '"' && json[1..37] == RiskIdString(id)
  {
    "\"" + RiskIdString(id) + "\""
  }

  /**
    Every character between the quotes is a lowercase hexadecimal digit or a hyphen.
    These are printable ASCII characters that a JSON string encoder never escapes, so
    quoting the text is the whole of its JSON encoding.
  */
  lemma MarshalJsonNeedsNoEscapes(id: RiskId)
    ensures forall p :: 1 <= p < 37 ==>
      var c := MarshalJson(id)[p];
      IsLowerHexDigit(c) || c == '-'
  {
    RiskIdStringIsCanonical(id);
    var s := RiskIdString(id);
    assert forall p :: 1 <= p < 37 ==> MarshalJson(id)[p] == s[p - 1];
  }

  lemma MarshalJsonInjective(a: RiskId, b: RiskId)
    ensures MarshalJson(a) == MarshalJson(b) <==> a == b
  {
    if MarshalJson(a) == MarshalJson(b) {
      assert MarshalJson(a)[1..37] == MarshalJson(b)[1..37];
      RiskIdStringInjective(a, b);
    }
  }

  lemma MarshalJsonExample()
    ensures MarshalJson(EXAMPLE_ID) == "\"01234567-89ab-cdef-fedc-ba9876543210\""
  {
    RiskIdStringExample();
    QuoteExample(MarshalJson(EXAMPLE_ID), RiskIdString(EXAMPLE_ID));
  }

  lemma QuoteExample(json: string, s: string)
    requires s == "01234567-89ab-cdef-fedc-ba9876543210" && json == "\"" + s + "\""
    ensures json == "\"01234567-89ab-cdef-fedc-ba9876543210\""
  {
  }

  /**
    A new identifier. The random source is a parameter: the model places no
    constraint on the bytes it supplies.
  */
  function NewRiskId(random: UuidBytes): (id: RiskId)
    ensures id.bytes == random
  {
    RiskId(random)
  }

  /** A generated identifier's text parses back to it. */
  lemma NewRiskIdParses(random: UuidBytes)
    ensures NewRiskIdFromString(RiskIdString(NewRiskId(random))) == Success(NewRiskId(random))
  {
    ParseRiskIdString(NewRiskId(random));
  }

  /** The malformed identifier "bad-uuid-0000-0000-0000-000000000000" is refused as such. */
  lemma BadIdIsRefused()
    ensures NewRiskIdFromString("bad-uuid-0000-0000-0000-000000000000") == Failure(INVALID_FORMAT)
  {
    var s := "bad-uuid-0000-0000-0000-000000000000";
    ParseSucceedsIffCanonical(s);
    assert !IsLowerHexDigit(s[3]);
  }

  /** The example from the package tests, "01234567-89ab-cdef-fedc-ba9876543210", parses. */
  lemma ExampleStringParses()
    ensures NewRiskIdFromString("01234567-89ab-cdef-fedc-ba9876543210") == Success(EXAMPLE_ID)
  {
    RiskIdStringExample();
    ParseRiskIdString(EXAMPLE_ID);
  }
}
