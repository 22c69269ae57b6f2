/**
 * The ICMP layer: the type, code and checksum that open every message of
 * RFC 792, the names of the message types, and the report.
 */
module ICMP {
  import opened Bytes
  import opened Text

  /** A decoded ICMP message header. */
  datatype Message = Message(msgType: nat, code: nat, checksum: nat)

  /**
   * `new InternetControlMessageProtocolPacket(data)`: bytes 0 and 1 and the
   * big-endian pair 2-3.  It fails exactly when the buffer is shorter than
   * those 4 bytes.
   */
  function Parse(data: seq<Byte>): (r: Result<Message>)
    ensures r.Success? <==> |data| >= 4
    ensures r.Success? ==>
      && r.value.msgType == data[0] && r.value.code == data[1]
      && r.value.checksum / 256 == data[2] && r.value.checksum % 256 == data[3]
      && r.value.checksum < 0x1_0000
  {
    if |data| < 4 then Failure
    else Success(Message(data[0], data[1], U16(data[2], data[3])))
  }

  /** The types `getType` names. */
  const NamedTypes: set<nat> := {0, 3, 4, 5, 8, 9, 10, 11, 12, 13, 14, 15, 16, 17, 18, 30, 42, 43}

  /** `getType(type)`: the name of an ICMP message type, "No description" for the others. */
  function TypeName(msgType: nat): (name: string)
    ensures name == "No description" <==> msgType !in NamedTypes
  {
    match msgType
      case 0 => "Echo reply"
      case 3 => "Destination unreachable"
      case 4 => "Source quench"
      case 5 => "Redirect message"
      case 8 => "Echo request"
      case 9 => "Router advertisement"
      case 10 => "Router solicitation"
      case 11 => "Time exceeded"
      case 12 => "Bad IP header"
      case 13 => "Timestamp"
      case 14 => "Timestamp reply"
      case 15 => "Information request"
      case 16 => "Information reply"
      case 17 => "Address Mask request"
      case 18 => "Address Mask reply"
      case 30 => "Traceroute"
      case 42 => "Extended echo request"
      case 43 => "Extended echo reply"
      case _ => "No description"
  }

  /** Different named types have different names. */
  lemma {:induction false} TypeNamesDistinct(a: nat, b: nat)
    requires a in NamedTypes && b in NamedTypes && a != b
    ensures TypeName(a) != TypeName(b)
  {
  }

  /** The lines of `toString()`, one per `append`, without their "\n". */
  function ReportLines(m: Message): (lines: seq<string>)
    ensures |lines| == 6
  {
    [ "ICMP: ----- ICMP Header -----",
      "ICMP:                        ",
      "ICMP: Type = " + Decimal(m.msgType) + " (" + TypeName(m.msgType) + ")",
      "ICMP: Code = " + Decimal(m.code),
      "ICMP: Checksum = 0x" + Hex(m.checksum, 2),
      "ICMP:                        " ]
  }

  /** `toString()`: each line followed by "\n". */
  function Report(m: Message): string
  {
    Lines(ReportLines(m))
  }

  /** Every line of the report starts with the layer's tag "ICMP:". */
  lemma {:induction false} ReportTagged(m: Message)
    ensures AllStartWith(ReportLines(m), "ICMP:")
  {
    var ls := ReportLines(m);
    forall i | 0 <= i < |ls|
      ensures StartsWith(ls[i], "ICMP:")
    {
      if i == 0 {
        assert StartsWith(ls[0], "ICMP:");
      } else if i == 1 {
        assert StartsWith(ls[1], "ICMP:");
      } else if i == 2 {
        assert StartsWith(ls[2], "ICMP:");
      } else if i == 3 {
        assert StartsWith(ls[3], "ICMP:");
      } else if i == 4 {
        assert StartsWith(ls[4], "ICMP:");
      } else {
        assert StartsWith(ls[5], "ICMP:");
      }
    }
  }

  /**
   * The checksum line, its caption taken off, reads back as the checksum.
   * The source formats it with `%02x`, so a 16-bit checksum takes 2 to 4
   * digits rather than a fixed 4.
   */
  lemma {:induction false} ChecksumLineReadsBack(m: Message)
    requires m.checksum < 0x1_0000
    ensures var caption := "ICMP: Checksum = 0x";
      var line := ReportLines(m)[4];
      && |caption| + 2 <= |line| <= |caption| + 4
      && line[..|caption|] == caption
      && HexValue(line[|caption|..]) == m.checksum
  {
    var caption := "ICMP: Checksum = 0x";
    var digits := Hex(m.checksum, 2);
    assert Pow16(4) == 0x1_0000;
    HexDigitsLength(m.checksum, 4);
    HexRoundTrip(m.checksum, 2);
    var line := caption + digits;
    assert ReportLines(m)[4] == line;
    assert line[..|caption|] == caption && line[|caption|..] == digits;
  }

  /** A checksum of 0x0102 prints as "102": three digits, not four. */
  lemma {:induction false} ChecksumDigits()
    ensures ReportLines(Message(8, 0, 0x0102))[4] == "ICMP: Checksum = 0x102"
  {
    assert HexDigits(0x0102) == HexDigits(0x10) + [HexDigit(2)];
    assert HexDigits(0x10) == HexDigits(1) + [HexDigit(0)];
  }

  /**
   * The type line, its caption taken off, is the type number in decimal
   * followed by its description in parentheses.
   */
  lemma {:induction false} TypeLineReadsBack(m: Message)
    ensures var caption := "ICMP: Type = ";
      var digits := Decimal(m.msgType);
      var line := ReportLines(m)[2];
      && |line| >= |caption| + |digits|
      && line[..|caption|] == caption
      && DecimalValue(line[|caption|..|caption| + |digits|]) == m.msgType
      && line[|caption| + |digits|..] == " (" + TypeName(m.msgType) + ")"
  {
    var caption := "ICMP: Type = ";
    var digits := Decimal(m.msgType);
    Infix(caption, digits, " (", TypeName(m.msgType), ")");
    InfixRest(caption, digits, " (", TypeName(m.msgType), ")");
    DecimalRoundTrip(m.msgType);
  }
}
