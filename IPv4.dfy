/**
 * The IPv4 layer: the fixed header of section 3.1 of RFC 791, read field by
 * field with the source's own masks and shifts, the options and payload it
 * cuts out, the protocol-number labels and the report.
 *
 * The TOS byte is split as section 3 of RFC 2474 and section 5 of RFC 3168
 * do (DSCP, then ECN).  Two reads differ from RFC 791 and are kept as the
 * source writes them: the flags mask 0x60 drops the reserved bit, and the
 * fragment offset shifts the five high bits by 5 instead of 8 (see
 * FragmentOffsetAsWritten).
 */
module IPv4 {
  import opened Bits
  import opened Bytes
  import opened Text

  /** A decoded IPv4 header: the fields the constructor sets. */
  datatype Header = Header(
    version: nat,
    ihl: nat,
    dscp: nat,
    ecn: nat,
    totalLength: nat,
    identification: nat,
    flags: nat,
    flagOffset: nat,
    ttl: nat,
    protocol: nat,
    protocolLabel: string,
    headerChecksum: nat,
    srcIp: string,
    destIp: string,
    options: Option<seq<Byte>>,
    payload: seq<Byte>)

  /** `(data[0] & 0xff & 0b00001111) << 2`: the header length in bytes, four times the low nibble. */
  function Ihl(b0: Byte): (ihl: nat)
    ensures ihl == 4 * (b0 % 16)
    ensures ihl % 4 == 0 && ihl <= 60
  {
    assert Pow2(4) - 1 == 0x0f && Pow2(2) == 4;
    AndLowMask(b0, 4);
    Shl(And(b0, 0x0f), 2)
  }

  /** `(data[1] & 0xff) >> 2`: the DSCP, the six high bits of byte 1. */
  function Dscp(b1: Byte): (d: nat)
    ensures d == b1 / 4 && d < 64
  {
    assert Pow2(2) == 4;
    Shr(b1, 2)
  }

  /** `data[1] & 0xff & 0b00000011`: the ECN, the two low bits; with the DSCP it makes up byte 1. */
  function Ecn(b1: Byte): (e: nat)
    ensures e == b1 % 4 && e < 4
    ensures Dscp(b1) * 4 + e == b1
  {
    assert Pow2(2) - 1 == 3;
    AndLowMask(b1, 2);
    And(b1, 3)
  }

  /**
   * `(data[6] & 0xff & 0b01100000) >> 5`: bits 6 and 5 of byte 6, the
   * DF and MF flags of RFC 791; the reserved bit 7 is dropped.
   */
  function Flags(b6: Byte): (f: nat)
    ensures f == (b6 / 32) % 4 && f < 4
    ensures f / 2 == (b6 / 64) % 2 && f % 2 == (b6 / 32) % 2
  {
    Mask0x60(b6);
    assert Pow2(5) == 32;
    FlagBits(b6);
    Shr(And(b6, 0x60), 5)
  }

  /** `a & 0x60` keeps bits 6 and 5 of a byte in place. */
  lemma {:induction false} Mask0x60(a: Byte)
    ensures And(a, 0x60) == 32 * ((a / 32) % 4)
  {
    AndEvenMask(a, 0x30);
    AndEvenMask(a / 2, 0x18);
    DivDiv(a, 2, 2);
    AndEvenMask(a / 4, 0x0c);
    DivDiv(a, 4, 2);
    AndEvenMask(a / 8, 0x06);
    DivDiv(a, 8, 2);
    AndEvenMask(a / 16, 0x03);
    DivDiv(a, 16, 2);
    assert Pow2(2) - 1 == 3;
    AndLowMask(a / 32, 2);
  }

  lemma {:induction false} FlagBits(a: Byte)
    ensures ((a / 32) % 4) / 2 == (a / 64) % 2 && ((a / 32) % 4) % 2 == (a / 32) % 2
  {
    DivDiv(a, 32, 2);
  }

  /**
   * `(data[6] & 0xff & 0b00011111) << 5 | data[7] & 0xff`, as written: the
   * five low bits of byte 6 land on bits 5 to 9 and are OR-ed with the whole
   * of byte 7, so the value stays below 2^10; only when byte 7 is below 32
   * do the two parts not meet.
   */
  function FragmentOffset(b6: Byte, b7: Byte): (o: nat)
    ensures o < 1024
    ensures b7 < 32 ==> o == (b6 % 32) * 32 + b7
  {
    FragmentOffsetParts(b6, b7);
    Or(Shl(And(b6, 0x1f), 5), b7)
  }

  lemma {:induction false} FragmentOffsetParts(b6: Byte, b7: Byte)
    ensures Or(Shl(And(b6, 0x1f), 5), b7) < 1024
    ensures b7 < 32 ==> Or(Shl(And(b6, 0x1f), 5), b7) == (b6 % 32) * 32 + b7
  {
    assert Pow2(5) == 32 && Pow2(5) - 1 == 0x1f && Pow2(10) == 1024;
    AndLowMask(b6, 5);
    assert Shl(And(b6, 0x1f), 5) == (b6 % 32) * 32;
    OrBound(Shl(And(b6, 0x1f), 5), b7, 10);
    if b7 < 32 {
      OrShifted(And(b6, 0x1f), b7, 5);
    }
  }

  /**
   * The fragment offset differs from the 13-bit field of RFC 791: the byte
   * pair 01 00 reads as 32 rather than 256, and 01 20 reads as 32 as well
   * because the two parts overlap in bit 5.
   */
  lemma {:induction false} FragmentOffsetAsWritten()
    ensures FragmentOffset(0x01, 0x00) == 32
    ensures FragmentOffset(0x01, 0x20) == 32
  {
    assert Shl(And(0x01, 0x1f), 5) == 32 by {
      assert And(0x01, 0x1f) == 1;
      assert Pow2(5) == 32;
    }
    assert Or(32, 0x20) == 32;
  }

  /** `handleProtocolLabel`: the name of an IP protocol number. */
  function ProtocolLabel(protocol: nat): (l: string)
    ensures l == "UNKNOWN" <==>
      protocol !in [1, 2, 6, 17, 41, 89, 132]
  {
    match protocol
      case 17 => "UDP"
      case 1 => "ICMP"
      case 2 => "IGMP"
      case 6 => "TCP"
      case 41 => "ENCAP"
      case 89 => "OSPF"
      case 132 => "SCTP"
      case _ => "UNKNOWN"
  }

  /** An address as the constructor builds it: the four bytes in decimal, separated by '.'. */
  function DottedQuad(a: Byte, b: Byte, c: Byte, d: Byte): string
  {
    Decimal(a) + "." + Decimal(b) + "." + Decimal(c) + "." + Decimal(d)
  }

  /** s cut at every '.'. */
  function SplitDots(s: string): (parts: seq<string>)
    ensures |parts| >= 1
  {
    if s == [] then [""]
    else
      var rest := SplitDots(s[1..]);
      if s[0] == '.' then [""] + rest else [[s[0]] + rest[0]] + rest[1..]
  }

  /** The numbers of a dotted address. */
  function ReadQuad(s: string): seq<int>
  {
    var parts := SplitDots(s);
    seq(|parts|, i requires 0 <= i < |parts| => DecimalValue(parts[i]))
  }

  predicate NoDot(x: string)
  {
    forall i :: 0 <= i < |x| ==> x[i] != '.'
  }

  /** Cutting x + "." + y, where x has no '.', gives x and the pieces of y. */
  lemma {:induction false} SplitJoin(x: string, y: string)
    requires NoDot(x)
    ensures SplitDots(x + "." + y) == [x] + SplitDots(y)
  {
    var s := x + "." + y;
    if x == [] {
      assert s[1..] == y;
    } else {
      assert s[1..] == x[1..] + "." + y;
      SplitJoin(x[1..], y);
      assert [x[0]] + x[1..] == x;
    }
  }

  /** A string without '.' is a single piece. */
  lemma {:induction false} SplitNone(x: string)
    requires NoDot(x)
    ensures SplitDots(x) == [x]
  {
    if x != [] {
      SplitNone(x[1..]);
      assert [x[0]] + x[1..] == x;
    }
  }

  lemma {:induction false} DecimalNoDot(n: nat)
    ensures NoDot(Decimal(n))
  {
  }

  /** A dotted address is cut back into the four decimals it was built from. */
  lemma {:induction false} QuadPieces(a: Byte, b: Byte, c: Byte, d: Byte)
    ensures SplitDots(DottedQuad(a, b, c, d)) == [Decimal(a), Decimal(b), Decimal(c), Decimal(d)]
  {
    var da, db, dc, dd := Decimal(a), Decimal(b), Decimal(c), Decimal(d);
    DecimalNoDot(a);
    DecimalNoDot(b);
    DecimalNoDot(c);
    DecimalNoDot(d);
    var t2 := dc + "." + dd;
    var t1 := db + "." + t2;
    assert DottedQuad(a, b, c, d) == da + "." + t1;
    SplitNone(dd);
    SplitJoin(dc, dd);
    SplitJoin(db, t2);
    SplitJoin(da, t1);
  }

  /** A dotted address reads back as its four bytes. */
  lemma {:induction false} QuadRoundTrip(a: Byte, b: Byte, c: Byte, d: Byte)
    ensures ReadQuad(DottedQuad(a, b, c, d)) == [a, b, c, d]
  {
    QuadPieces(a, b, c, d);
    DecimalRoundTrip(a);
    DecimalRoundTrip(b);
    DecimalRoundTrip(c);
    DecimalRoundTrip(d);
  }

  /** `(ihl >> 2) > 5 && (ihl >> 2) < 16`: the header is longer than the 20 fixed bytes. */
  predicate HasOptions(ihl: nat)
  {
    Shr(ihl, 2) > 5 && Shr(ihl, 2) < 16
  }

  /** Where the payload copy starts: after the options when there are some, else at byte 20. */
  function PayloadStart(data: seq<Byte>): (start: nat)
    requires |data| >= 20
    ensures start == if data[0] % 16 > 5 then 4 * (data[0] % 16) else 20
    ensures HasOptions(Ihl(data[0])) <==> data[0] % 16 > 5
  {
    var ihl := Ihl(data[0]);
    assert Pow2(2) == 4;
    if HasOptions(ihl) then ihl else 20
  }

  /**
   * `new InternetProtocolV4Packet(data)`.  It fails when the buffer ends
   * before byte 19, or when the payload copy cannot start: its start (the
   * header length when options are present, else 20) lies past the buffer
   * or past the total length.  A total length beyond the buffer is not an
   * error: the payload is zero-filled up to it.
   */
  function Parse(data: seq<Byte>): (r: Result<Header>)
    ensures r.Success? <==>
      |data| >= 20 && PayloadStart(data) <= |data| && PayloadStart(data) <= U16(data[2], data[3])
    ensures r.Success? ==>
      var h := r.value;
      && h.version == data[0] / 16
      && h.ihl == 4 * (data[0] % 16)
      && h.dscp == data[1] / 4 && h.ecn == data[1] % 4
      && h.totalLength == U16(data[2], data[3])
      && h.identification == U16(data[4], data[5])
      && h.flags == (data[6] / 32) % 4
      && h.flagOffset == FragmentOffset(data[6], data[7])
      && h.ttl == data[8] && h.protocol == data[9]
      && h.protocolLabel == ProtocolLabel(data[9])
      && h.headerChecksum == U16(data[10], data[11])
      && h.srcIp == DottedQuad(data[12], data[13], data[14], data[15])
      && h.destIp == DottedQuad(data[16], data[17], data[18], data[19])
      && (h.options.Some? <==> data[0] % 16 > 5)
      && (h.options.Some? ==> h.options.value == data[20..h.ihl])
      && Success(h.payload) == CopyOfRange(data, PayloadStart(data), h.totalLength)
  {
    if |data| < 20 then Failure
    else
      var ihl := Ihl(data[0]);
      var totalLength := U16(data[2], data[3]);
      var payload := CopyOfRange(data, PayloadStart(data), totalLength);
      if payload.Failure? then Failure
      else
        var options := if HasOptions(ihl) then Some(CopyOfRange(data, 20, ihl).value) else None;
        Success(Header(
          HighNibble(data[0]), ihl, Dscp(data[1]), Ecn(data[1]), totalLength, U16(data[4], data[5]),
          Flags(data[6]), FragmentOffset(data[6], data[7]), data[8], data[9], ProtocolLabel(data[9]),
          U16(data[10], data[11]),
          DottedQuad(data[12], data[13], data[14], data[15]),
          DottedQuad(data[16], data[17], data[18], data[19]),
          options, payload.value))
  }

  /**
   * The constructor as the source runs it: the fields one by one, the two
   * addresses built with `+=`, then the options and payload copies.
   */
  method Decode(data: seq<Byte>) returns (r: Result<Header>)
    ensures r == Parse(data)
  {
    if |data| < 20 {
      return Failure;
    }
    var version := HighNibble(data[0]);
    var ihl := Ihl(data[0]);
    var dscp := Dscp(data[1]);
    var ecn := Ecn(data[1]);
    var totalLength := U16(data[2], data[3]);
    var identification := U16(data[4], data[5]);
    var flags := Flags(data[6]);
    var flagOffset := FragmentOffset(data[6], data[7]);
    var ttl := data[8];
    var protocol := data[9];
    var protocolLabel := ProtocolLabel(protocol);
    var headerChecksum := U16(data[10], data[11]);
    var srcIp := "";
    srcIp := srcIp + Decimal(data[12]) + ".";
    srcIp := srcIp + Decimal(data[13]) + ".";
    srcIp := srcIp + Decimal(data[14]) + ".";
    srcIp := srcIp + Decimal(data[15]);
    var destIp := "";
    destIp := destIp + Decimal(data[16]) + ".";
    destIp := destIp + Decimal(data[17]) + ".";
    destIp := destIp + Decimal(data[18]) + ".";
    destIp := destIp + Decimal(data[19]);
    var options: Option<seq<Byte>> := None;
    var payload: Result<seq<Byte>>;
    if HasOptions(ihl) {
      options := Some(CopyOfRange(data, 20, ihl).value);
      payload := CopyOfRange(data, ihl, totalLength);
    } else {
      payload := CopyOfRange(data, 20, totalLength);
    }
    if payload.Failure? {
      return Failure;
    }
    r := Success(Header(version, ihl, dscp, ecn, totalLength, identification, flags, flagOffset,
                        ttl, protocol, protocolLabel, headerChecksum, srcIp, destIp, options, payload.value));
    QuadBuilt(data[12], data[13], data[14], data[15]);
    QuadBuilt(data[16], data[17], data[18], data[19]);
  }

  /** The `+=` steps of the constructor build the dotted address. */
  lemma {:induction false} QuadBuilt(a: Byte, b: Byte, c: Byte, d: Byte)
    ensures "" + Decimal(a) + "." + Decimal(b) + "." + Decimal(c) + "." + Decimal(d)
         == DottedQuad(a, b, c, d)
  {
    assert "" + Decimal(a) == Decimal(a);
  }

  /** `options()`: a copy of the stored options, or none when the constructor left them out. */
  function Options(h: Header): (o: Option<seq<Byte>>)
    ensures o == h.options
  {
    match h.options
      case Some(opts) => Some(Copy(opts))
      case None => None
  }

  /**
   * A 20-byte header without options, whose total length counts exactly the
   * bytes that follow, decodes to exactly those bytes as its payload.
   */
  lemma {:induction false} DecodeWithoutOptions(header: seq<Byte>, payload: seq<Byte>)
    requires |header| == 20 && header[0] % 16 <= 5
    requires U16(header[2], header[3]) == 20 + |payload|
    ensures var r := Parse(header + payload);
      && r.Success? && r.value.options.None?
      && r.value.payload == payload
  {
    var data := header + payload;
    assert data[0] == header[0] && data[2] == header[2] && data[3] == header[3];
    CopyWithin(data, 20, |data|);
    assert data[20..] == payload;
  }

  /** The ECN as the report prints it: `%2s` of its binary digits, with the padding made '0'. */
  function EcnBits(ecn: nat): string
  {
    Replace(PadLeft(Binary(ecn), 2, ' '), ' ', '0')
  }

  /**
   * The four ECN codepoints print as their two binary digits, high bit
   * first: the one-digit renderings of 0 and 1 get a '0' in front.
   */
  lemma {:induction false} EcnBitsTable()
    ensures EcnBits(0) == "00" && EcnBits(1) == "01"
    ensures EcnBits(2) == "10" && EcnBits(3) == "11"
  {
    OneDigitPadded(0);
    OneDigitPadded(1);
    TwoDigits(2);
    TwoDigits(3);
  }

  lemma {:induction false} OneDigitPadded(ecn: nat)
    requires ecn < 2
    ensures EcnBits(ecn) == ['0', DigitChar(ecn)]
  {
    var padded := PadLeft(Binary(ecn), 2, ' ');
    assert padded == [' ', DigitChar(ecn)];
    var r := Replace(padded, ' ', '0');
    assert r[0] == '0' && r[1] == DigitChar(ecn);
  }

  lemma {:induction false} TwoDigits(ecn: nat)
    requires 2 <= ecn < 4
    ensures EcnBits(ecn) == ['1', DigitChar(ecn - 2)]
  {
    var digits := Binary(ecn);
    assert ecn / 2 == 1 && ecn % 2 == ecn - 2;
    assert Binary(1) == ['1'];
    assert digits == ['1', DigitChar(ecn - 2)];
    assert PadLeft(digits, 2, ' ') == digits;
    var r := Replace(digits, ' ', '0');
    assert r[0] == digits[0] && r[1] == digits[1];
  }

  /** The line naming the ECN codepoint. */
  function EcnLines(ecn: nat): (lines: seq<string>)
    ensures |lines| <= 1
  {
    if And(ecn, 0x3) == 0x0 then ["IP:       0b00 = Non ECN-Capable Transport"]
    else if And(ecn, 0x3) == 0x2 then ["IP:       0b10 = ECN Capable Transport, ECT(0)"]
    else if And(ecn, 0x3) == 0x1 then ["IP:       0b01 = ECN Capable Transport, ECT(1)"]
    else if And(ecn, 0x3) == 0x3 then ["IP:       0b11 = Congestion Encountered, CE"]
    else []
  }

  /**
   * Each of the four ECN codepoints of section 5 of RFC 3168 gets its own
   * line: 00 not ECN-capable, 10 ECT(0), 01 ECT(1), 11 congestion.
   */
  lemma {:induction false} EcnLineNames(ecn: nat)
    requires ecn < 4
    ensures ecn == 0 ==> EcnLines(ecn) == ["IP:       0b00 = Non ECN-Capable Transport"]
    ensures ecn == 2 ==> EcnLines(ecn) == ["IP:       0b10 = ECN Capable Transport, ECT(0)"]
    ensures ecn == 1 ==> EcnLines(ecn) == ["IP:       0b01 = ECN Capable Transport, ECT(1)"]
    ensures ecn == 3 ==> EcnLines(ecn) == ["IP:       0b11 = Congestion Encountered, CE"]
  {
    assert Pow2(2) - 1 == 3;
    AndLowMask(ecn, 2);
  }

  /**
   * `ecn & 0x3` is one of the four tested codepoints, so the ECN line is
   * never missing.
   */
  lemma {:induction false} EcnLineAlways(ecn: nat)
    ensures |EcnLines(ecn)| == 1
  {
    assert Pow2(2) - 1 == 3;
    AndLowMask(ecn, 2);
  }

  /** The DF line: `(flags & 0b10) == 0b10`. */
  function DfLine(flags: nat): string
  {
    if And(flags, 0x2) == 0x2 then "IP:       .1.. .... = do not fragment"
    else "IP:       .0.. .... = OK to fragment"
  }

  /** The MF line: `(flags & 0b1) == 0b0`. */
  function MfLine(flags: nat): string
  {
    if And(flags, 0x1) == 0x0 then "IP:       ..0. .... = last fragment"
    else "IP:       ..1. .... = more fragment"
  }

  /** The options line: `(ihl >> 2) <= 5`. */
  function OptionsLine(ihl: nat): string
  {
    if Shr(ihl, 2) <= 5 then "IP: No options" else "IP: Options present"
  }

  /** The first lines of `toString()`, up to the ECN value. */
  function HeadLines(h: Header): (lines: seq<string>)
    ensures |lines| == 6
  {
    [ "IP: ----- IP Header -----",
      "IP:                      ",
      "IP: Version = " + Decimal(h.version),
      "IP: Header length = " + Decimal(h.ihl) + " bytes",
      "IP: Differentiated Services Code Point: 0x" + Hex(h.dscp, 2),
      "IP: Explicit Congestion Notification = 0b" + EcnBits(h.ecn) ]
  }

  /** The lines from the total length to the header checksum. */
  function FieldLines(h: Header): (lines: seq<string>)
    ensures |lines| == 9
  {
    [ "IP: Total length = " + Decimal(h.totalLength) + " bytes",
      "IP: Identification = " + Decimal(h.identification),
      "IP: Flags = 0x" + Hex(h.flags, 2),
      DfLine(h.flags),
      MfLine(h.flags),
      "IP: Fragment offset = " + Decimal(h.flagOffset) + " bytes",
      "IP: Time to live = " + Decimal(h.ttl) + " seconds/hops",
      "IP: Protocol = " + Decimal(h.protocol) + " (" + h.protocolLabel + ")",
      "IP: Header checksum = 0x" + Hex(h.headerChecksum, 4) ]
  }

  /** The last lines: the addresses, the options line and the closing tag. */
  function AddressLines(h: Header): (lines: seq<string>)
    ensures |lines| == 4
  {
    [ "IP: Source address = " + h.srcIp,
      "IP: Destination address = " + h.destIp,
      OptionsLine(h.ihl),
      "IP:" ]
  }

  /** The lines of `toString()`, one per `append`, without their "\n". */
  function ReportLines(h: Header): (lines: seq<string>)
    ensures |lines| == 20
  {
    EcnLineAlways(h.ecn);
    HeadLines(h) + EcnLines(h.ecn) + FieldLines(h) + AddressLines(h)
  }

  /** `toString()`: each line followed by "\n". */
  function Report(h: Header): string
  {
    Lines(ReportLines(h))
  }

  /** The lines up to the ECN value start with "IP:". */
  lemma {:induction false} HeadLinesTagged(h: Header)
    ensures AllStartWith(HeadLines(h), "IP:")
  {
    var ls := HeadLines(h);
    forall i | 0 <= i < |ls|
      ensures StartsWith(ls[i], "IP:")
    {
      if i == 0 {
        assert StartsWith(ls[0], "IP:");
      } else if i == 1 {
        assert StartsWith(ls[1], "IP:");
      } else if i == 2 {
        assert StartsWith(ls[2], "IP:");
      } else if i == 3 {
        assert StartsWith(ls[3], "IP:");
      } else if i == 4 {
        assert StartsWith(ls[4], "IP:");
      } else {
        assert StartsWith(ls[5], "IP:");
      }
    }
  }

  /** The ECN line, whichever codepoint it names, starts with "IP:". */
  lemma {:induction false} EcnLinesTagged(ecn: nat)
    ensures AllStartWith(EcnLines(ecn), "IP:")
  {
    var ls := EcnLines(ecn);
    forall i | 0 <= i < |ls|
      ensures StartsWith(ls[i], "IP:")
    {
      if And(ecn, 0x3) == 0x0 {
        assert StartsWith(ls[i], "IP:");
      } else if And(ecn, 0x3) == 0x2 {
        assert StartsWith(ls[i], "IP:");
      } else if And(ecn, 0x3) == 0x1 {
        assert StartsWith(ls[i], "IP:");
      } else {
        assert StartsWith(ls[i], "IP:");
      }
    }
  }

  /** The lines from the total length to the checksum start with "IP:". */
  lemma {:induction false} FieldLinesTagged(h: Header)
    ensures AllStartWith(FieldLines(h), "IP:")
  {
    var ls := FieldLines(h);
    forall i | 0 <= i < |ls|
      ensures StartsWith(ls[i], "IP:")
    {
      if i == 0 {
        assert StartsWith(ls[0], "IP:");
      } else if i == 1 {
        assert StartsWith(ls[1], "IP:");
      } else if i == 2 {
        assert StartsWith(ls[2], "IP:");
      } else if i == 3 {
        assert StartsWith(ls[3], "IP:");
      } else if i == 4 {
        assert StartsWith(ls[4], "IP:");
      } else if i == 5 {
        assert StartsWith(ls[5], "IP:");
      } else if i == 6 {
        assert StartsWith(ls[6], "IP:");
      } else if i == 7 {
        assert StartsWith(ls[7], "IP:");
      } else {
        assert StartsWith(ls[8], "IP:");
      }
    }
  }

  /** The address, options and closing lines start with "IP:". */
  lemma {:induction false} AddressLinesTagged(h: Header)
    ensures AllStartWith(AddressLines(h), "IP:")
  {
    var ls := AddressLines(h);
    forall i | 0 <= i < |ls|
      ensures StartsWith(ls[i], "IP:")
    {
      if i == 0 {
        assert StartsWith(ls[0], "IP:");
      } else if i == 1 {
        assert StartsWith(ls[1], "IP:");
      } else if i == 2 {
        assert StartsWith(ls[2], "IP:");
      } else {
        assert StartsWith(ls[3], "IP:");
      }
    }
  }

  /** Every line of the report starts with the layer's tag "IP:". */
  lemma {:induction false} ReportTagged(h: Header)
    ensures AllStartWith(ReportLines(h), "IP:")
  {
    HeadLinesTagged(h);
    EcnLinesTagged(h.ecn);
    FieldLinesTagged(h);
    AddressLinesTagged(h);
    AllStartWithAppend(HeadLines(h), EcnLines(h.ecn), "IP:");
    AllStartWithAppend(HeadLines(h) + EcnLines(h.ecn), FieldLines(h), "IP:");
    AllStartWithAppend(HeadLines(h) + EcnLines(h.ecn) + FieldLines(h), AddressLines(h), "IP:");
  }

  /**
   * For a decoded header the report says "No options" exactly when the
   * constructor stored no options.
   */
  lemma {:induction false} OptionsLineAgrees(data: seq<Byte>, h: Header)
    requires Parse(data) == Success(h)
    ensures OptionsLine(h.ihl) == "IP: No options" <==> h.options.None?
  {
    assert Pow2(2) == 4;
    assert Shr(h.ihl, 2) == data[0] % 16;
  }

  /**
   * For a decoded header the DF line says "do not fragment" exactly when
   * bit 6 of byte 6 is set, and the MF line says "more fragment" exactly
   * when bit 5 is set.
   */
  lemma {:induction false} FragmentLinesAgree(data: seq<Byte>, h: Header)
    requires Parse(data) == Success(h)
    ensures DfLine(h.flags) == "IP:       .1.. .... = do not fragment" <==> (data[6] / 64) % 2 == 1
    ensures MfLine(h.flags) == "IP:       ..1. .... = more fragment" <==> (data[6] / 32) % 2 == 1
  {
    var f := h.flags;
    FlagBits(data[6]);
    assert f < 4;
    if f == 0 {
      assert And(f, 2) == 0 && And(f, 1) == 0;
    } else if f == 1 {
      assert And(f, 2) == 0 && And(f, 1) == 1;
    } else if f == 2 {
      assert And(f, 2) == 2 && And(f, 1) == 0;
    } else {
      assert And(f, 2) == 2 && And(f, 1) == 1;
    }
  }

  /** The report ends with the address lines, the options line and the closing tag. */
  lemma {:induction false} ReportEnds(h: Header)
    ensures var ls := ReportLines(h);
      |ls| >= 4 && ls[|ls| - 4..] == AddressLines(h)
  {
    var front := HeadLines(h) + EcnLines(h.ecn) + FieldLines(h);
    var tail := AddressLines(h);
    assert ReportLines(h) == front + tail;
    assert (front + tail)[|front|..] == tail;
  }

  /** The address lines, their captions taken off, read back as the two addresses. */
  lemma {:induction false} AddressesReadBack(h: Header, src: seq<Byte>, dst: seq<Byte>)
    requires |src| == 4 && h.srcIp == DottedQuad(src[0], src[1], src[2], src[3])
    requires |dst| == 4 && h.destIp == DottedQuad(dst[0], dst[1], dst[2], dst[3])
    ensures ReadQuad(AddressLines(h)[0][|"IP: Source address = "|..]) == src
    ensures ReadQuad(AddressLines(h)[1][|"IP: Destination address = "|..]) == dst
  {
    var tail := AddressLines(h);
    assert tail[0][|"IP: Source address = "|..] == h.srcIp;
    assert tail[1][|"IP: Destination address = "|..] == h.destIp;
    QuadRoundTrip(src[0], src[1], src[2], src[3]);
    QuadRoundTrip(dst[0], dst[1], dst[2], dst[3]);
    assert src == [src[0], src[1], src[2], src[3]];
    assert dst == [dst[0], dst[1], dst[2], dst[3]];
  }

  /**
   * The address lines of the report of a decoded header (the first two of
   * the four lines it ends with, see ReportEnds) read back, after their
   * captions, as the four source and destination bytes.
   */
  lemma {:induction false} AddressLinesReadBack(data: seq<Byte>, h: Header)
    requires Parse(data) == Success(h)
    ensures ReadQuad(AddressLines(h)[0][|"IP: Source address = "|..]) == data[12..16]
    ensures ReadQuad(AddressLines(h)[1][|"IP: Destination address = "|..]) == data[16..20]
  {
    var src, dst := data[12..16], data[16..20];
    assert h.srcIp == DottedQuad(src[0], src[1], src[2], src[3]) && h.destIp == DottedQuad(dst[0], dst[1], dst[2], dst[3]);
    AddressesReadBack(h, src, dst);
  }

  /**
   * The options line of the report of a decoded header says "No options"
   * exactly when the constructor stored none.
   */
  lemma {:induction false} ReportOptionsLine(data: seq<Byte>, h: Header)
    requires Parse(data) == Success(h)
    ensures var ls := ReportLines(h);
      |ls| >= 2 && (ls[|ls| - 2] == "IP: No options" <==> h.options.None?)
  {
    ReportEnds(h);
    OptionsLineAgrees(data, h);
    var ls := ReportLines(h);
    assert ls[|ls| - 2] == AddressLines(h)[2];
  }
}
