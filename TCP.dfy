/**
 * The TCP layer: the 20-byte fixed header of section 3.1 of RFC 793, the
 * payload the decoder cuts out, the flag tests and the report.
 *
 * The payload starts at the header length `dataOffset << 2` only when that
 * exceeds 5, else at byte 20 (see PayloadStart): a data offset of 2 to 4
 * makes the payload begin inside the fixed header, and the options bytes of
 * a longer header are skipped without being read.
 */
module TCP {
  import opened Bits
  import opened Bytes
  import opened Text
  import opened HexDump
  import opened Reports

  /**
   * A decoded TCP segment.  `flags` is byte 13; the source keeps it in a
   * signed Java `byte`, whose low eight bits (all the flag tests look at)
   * are this value's.  `hexdump` is the dump the constructor builds of the
   * payload.
   */
  datatype Segment = Segment(
    sourcePort: nat,
    destPort: nat,
    sequenceNo: nat,
    ackNo: nat,
    dataOffset: nat,
    nsr: bool,
    flags: Byte,
    windowSize: nat,
    checksum: nat,
    urgentPtr: nat,
    payload: seq<Byte>,
    hexdump: seq<string>)

  /**
   * Where the payload copy starts: `dataOffset << 2` when that exceeds 5,
   * that is from a data offset of 2 on, else byte 20.
   */
  function PayloadStart(b12: Byte): (start: nat)
    ensures start == if b12 / 16 >= 2 then 4 * (b12 / 16) else 20
    ensures 8 <= start <= 60
  {
    assert Pow2(2) == 4;
    var d := HighNibble(b12);
    if Shl(d, 2) > 5 then Shl(d, 2) else 20
  }

  /**
   * `new TransmissionControlProtocolPacket(data)`.  It fails when the
   * buffer ends before byte 19 or before the payload start.
   */
  function Parse(data: seq<Byte>): (r: Result<Segment>)
    ensures r.Success? <==> |data| >= 20 && PayloadStart(data[12]) <= |data|
    ensures r.Success? ==>
      var s := r.value;
      && s.sourcePort == U16(data[0], data[1])
      && s.destPort == U16(data[2], data[3])
      && s.sequenceNo == U32(data[4], data[5], data[6], data[7])
      && s.ackNo == U32(data[8], data[9], data[10], data[11])
      && s.dataOffset == data[12] / 16
      && (s.nsr <==> data[12] % 2 == 1)
      && s.flags == data[13]
      && s.windowSize == U16(data[14], data[15])
      && s.checksum == U16(data[16], data[17])
      && s.urgentPtr == U16(data[18], data[19])
      && s.payload == data[PayloadStart(data[12])..]
      && s.hexdump == DumpLines(s.payload)
  {
    if |data| < 20 then Failure
    else
      var payload := CopyOfRange(data, PayloadStart(data[12]), |data|);
      if payload.Failure? then Failure
      else
        assert Pow2(1) - 1 == 1;
        AndLowMask(data[12], 1);
        assert Pow2(1) == 2;
        assert payload.value == data[PayloadStart(data[12])..];
        Success(Segment(
          U16(data[0], data[1]), U16(data[2], data[3]),
          U32(data[4], data[5], data[6], data[7]), U32(data[8], data[9], data[10], data[11]),
          HighNibble(data[12]), And(data[12], 1) > 0, data[13],
          U16(data[14], data[15]), U16(data[16], data[17]), U16(data[18], data[19]),
          payload.value, DumpLines(payload.value)))
  }

  /**
   * `fin()` to `cwr()`: `(flags & 0b1) > 0` up to `(flags & 0b10000000) > 0`.
   * Each test reads exactly its own bit of byte 13, FIN the lowest and CWR
   * the highest.
   */
  predicate Fin(s: Segment)
    ensures Fin(s) <==> s.flags % 2 == 1
  {
    assert Pow2(0) == 1;
    BitSetDigit(s.flags, 0);
    And(s.flags, 0x01) > 0
  }

  predicate Syn(s: Segment)
    ensures Syn(s) <==> (s.flags / 2) % 2 == 1
  {
    assert Pow2(1) == 2;
    BitSetDigit(s.flags, 1);
    And(s.flags, 0x02) > 0
  }

  predicate Rst(s: Segment)
    ensures Rst(s) <==> (s.flags / 4) % 2 == 1
  {
    assert Pow2(2) == 4;
    BitSetDigit(s.flags, 2);
    And(s.flags, 0x04) > 0
  }

  predicate Psh(s: Segment)
    ensures Psh(s) <==> (s.flags / 8) % 2 == 1
  {
    assert Pow2(3) == 8;
    BitSetDigit(s.flags, 3);
    And(s.flags, 0x08) > 0
  }

  predicate Ack(s: Segment)
    ensures Ack(s) <==> (s.flags / 16) % 2 == 1
  {
    assert Pow2(4) == 16;
    BitSetDigit(s.flags, 4);
    And(s.flags, 0x10) > 0
  }

  predicate Urg(s: Segment)
    ensures Urg(s) <==> (s.flags / 32) % 2 == 1
  {
    assert Pow2(5) == 32;
    BitSetDigit(s.flags, 5);
    And(s.flags, 0x20) > 0
  }

  predicate Ece(s: Segment)
    ensures Ece(s) <==> (s.flags / 64) % 2 == 1
  {
    assert Pow2(6) == 64;
    BitSetDigit(s.flags, 6);
    And(s.flags, 0x40) > 0
  }

  predicate Cwr(s: Segment)
    ensures Cwr(s) <==> (s.flags / 128) % 2 == 1
  {
    assert Pow2(7) == 128;
    BitSetDigit(s.flags, 7);
    And(s.flags, 0x80) > 0
  }

  /** A SYN+ACK segment (flags 0x12) answers only the SYN and ACK tests. */
  lemma {:induction false} SynAck(s: Segment)
    requires s.flags == 0x12
    ensures Syn(s) && Ack(s)
    ensures !Fin(s) && !Rst(s) && !Psh(s) && !Urg(s) && !Ece(s) && !Cwr(s)
  {
  }

  /** A segment with only SYN set (flags 0x02) answers only the SYN test. */
  lemma {:induction false} SynOnly(s: Segment)
    requires s.flags == 0x02
    ensures Syn(s)
    ensures !Fin(s) && !Rst(s) && !Psh(s) && !Ack(s) && !Urg(s) && !Ece(s) && !Cwr(s)
  {
  }

  /**
   * The sequence and acknowledgement numbers are read into a `long`, so the
   * four bytes FF FF FF FF give 2^32 - 1 and not -1.
   */
  lemma {:induction false} LargestSequenceNumber()
    ensures U32(0xff, 0xff, 0xff, 0xff) == 4294967295
  {
    U32Sum(0xff, 0xff, 0xff, 0xff);
  }

  /** The line for one flag: the marked pattern when it is set, else the other. */
  function FlagLine(on: bool, yes: string, no: string): (line: string)
    ensures line == yes || line == no
  {
    if on then yes else no
  }

  /** The six flag lines, URG down to FIN. */
  function FlagLines(s: Segment): (lines: seq<string>)
    ensures |lines| == 6
  {
    [ FlagLine(Urg(s), "TCP:       ..1. .... = Urgent pointer", "TCP:       ..0. .... = No Urgent pointer"),
      FlagLine(Ack(s), "TCP:       ...1 .... = Acknowledgement", "TCP:       ...0 .... = No acknowledgement"),
      FlagLine(Psh(s), "TCP:       .... 1... = Push", "TCP:       .... 0... = No push"),
      FlagLine(Rst(s), "TCP:       .... .1.. = Reset", "TCP:       .... .0.. = No reset"),
      FlagLine(Syn(s), "TCP:       .... ..1. = Syn", "TCP:       .... ..0. = No syn"),
      FlagLine(Fin(s), "TCP:       .... ...1 = Fin", "TCP:       .... ...0 = No fin") ]
  }

  /**
   * The flag lines name exactly the bits of byte 13 that are set: each
   * line shows a 1 at its bit's place in the `..x. ....` pattern when the
   * bit is 1, a 0 when it is 0.
   */
  lemma {:induction false} FlagLinesShowBits(s: Segment)
    ensures |FlagLines(s)| == 6
    ensures FlagLines(s)[0] == "TCP:       ..1. .... = Urgent pointer" <==> (s.flags / 32) % 2 == 1
    ensures FlagLines(s)[1] == "TCP:       ...1 .... = Acknowledgement" <==> (s.flags / 16) % 2 == 1
    ensures FlagLines(s)[2] == "TCP:       .... 1... = Push" <==> (s.flags / 8) % 2 == 1
    ensures FlagLines(s)[3] == "TCP:       .... .1.. = Reset" <==> (s.flags / 4) % 2 == 1
    ensures FlagLines(s)[4] == "TCP:       .... ..1. = Syn" <==> (s.flags / 2) % 2 == 1
    ensures FlagLines(s)[5] == "TCP:       .... ...1 = Fin" <==> s.flags % 2 == 1
  {
  }

  /** The header lines from the ports to the flags byte. */
  function FieldLines(s: Segment): (lines: seq<string>)
    ensures |lines| == 9
  {
    [ "TCP: ----- TCP Header -----",
      "TCP:                       ",
      "TCP: Source port = " + Decimal(s.sourcePort),
      "TCP: Destination port = " + Decimal(s.destPort),
      "TCP: Sequence number = " + Decimal(s.sequenceNo),
      "TCP: Acknowledgement number = " + Decimal(s.ackNo),
      "TCP: Data offset = " + Decimal(s.dataOffset) + " bytes",
      "TCP: Header Length = " + Decimal(Shl(s.dataOffset, 2)) + " bytes",
      "TCP: Flags = 0x" + Hex(s.flags, 2) ]
  }

  /** `dataOffset() > 5`. */
  function OptionsLine(dataOffset: nat): string
  {
    if dataOffset > 5 then "TCP: Options present" else "TCP: No options"
  }

  /** The header lines after the flags, up to the dump's caption. */
  function TrailerLines(s: Segment): (lines: seq<string>)
    ensures |lines| == 6
  {
    [ "TCP: Window = " + Decimal(s.windowSize),
      "TCP: Checksum = 0x" + Hex(s.checksum, 4),
      "TCP: Urgent pointer = " + Decimal(s.urgentPtr),
      OptionsLine(s.dataOffset),
      "TCP:                       ",
      "TCP: Data: (first 64 bytes)" ]
  }

  /** Every line of `toString()` before the dump. */
  function HeaderLines(s: Segment): (lines: seq<string>)
    ensures |lines| == 21
  {
    FieldLines(s) + FlagLines(s) + TrailerLines(s)
  }

  /** `toString()`: the header lines, then the first four dump lines behind "TCP: ". */
  function Report(s: Segment): string
  {
    Lines(HeaderLines(s) + Tagged("TCP: ", Shown(s.hexdump)))
  }

  /** The lines up to the flags byte start with "TCP:". */
  lemma {:induction false} FieldLinesTagged(s: Segment)
    ensures AllStartWith(FieldLines(s), "TCP:")
  {
    var ls := FieldLines(s);
    forall i | 0 <= i < |ls|
      ensures StartsWith(ls[i], "TCP:")
    {
      if i == 0 {
        assert StartsWith(ls[0], "TCP:");
      } else if i == 1 {
        assert StartsWith(ls[1], "TCP:");
      } else if i == 2 {
        assert StartsWith(ls[2], "TCP:");
      } else if i == 3 {
        assert StartsWith(ls[3], "TCP:");
      } else if i == 4 {
        assert StartsWith(ls[4], "TCP:");
      } else if i == 5 {
        assert StartsWith(ls[5], "TCP:");
      } else if i == 6 {
        assert StartsWith(ls[6], "TCP:");
      } else if i == 7 {
        assert StartsWith(ls[7], "TCP:");
      } else {
        assert StartsWith(ls[8], "TCP:");
      }
    }
  }

  /** The six flag lines start with "TCP:", set or not. */
  lemma {:induction false} FlagLinesTagged(s: Segment)
    ensures AllStartWith(FlagLines(s), "TCP:")
  {
    var ls := FlagLines(s);
    forall i | 0 <= i < |ls|
      ensures StartsWith(ls[i], "TCP:")
    {
      if i == 0 {
        assert StartsWith(ls[0], "TCP:");
      } else if i == 1 {
        assert StartsWith(ls[1], "TCP:");
      } else if i == 2 {
        assert StartsWith(ls[2], "TCP:");
      } else if i == 3 {
        assert StartsWith(ls[3], "TCP:");
      } else if i == 4 {
        assert StartsWith(ls[4], "TCP:");
      } else {
        assert StartsWith(ls[5], "TCP:");
      }
    }
  }

  /** The lines after the flags start with "TCP:". */
  lemma {:induction false} TrailerLinesTagged(s: Segment)
    ensures AllStartWith(TrailerLines(s), "TCP:")
  {
    var ls := TrailerLines(s);
    forall i | 0 <= i < |ls|
      ensures StartsWith(ls[i], "TCP:")
    {
      if i == 0 {
        assert StartsWith(ls[0], "TCP:");
      } else if i == 1 {
        assert StartsWith(ls[1], "TCP:");
      } else if i == 2 {
        assert StartsWith(ls[2], "TCP:");
      } else if i == 3 {
        assert StartsWith(ls[3], "TCP:");
      } else if i == 4 {
        assert StartsWith(ls[4], "TCP:");
      } else {
        assert StartsWith(ls[5], "TCP:");
      }
    }
  }

  /** Every line of the report, dump lines included, starts with "TCP:". */
  lemma {:induction false} ReportTagged(s: Segment)
    ensures AllStartWith(HeaderLines(s) + Tagged("TCP: ", Shown(s.hexdump)), "TCP:")
  {
    FieldLinesTagged(s);
    FlagLinesTagged(s);
    TrailerLinesTagged(s);
    AllStartWithAppend(FieldLines(s), FlagLines(s), "TCP:");
    AllStartWithAppend(FieldLines(s) + FlagLines(s), TrailerLines(s), "TCP:");
    TaggedStartWith("TCP: ", Shown(s.hexdump), "TCP:");
    AllStartWithAppend(HeaderLines(s), Tagged("TCP: ", Shown(s.hexdump)), "TCP:");
  }

  /**
   * The report of a decoded segment lists, after its header lines, the
   * dump of the first 64 bytes of the payload.
   */
  lemma {:induction false} ReportShowsFirst64(data: seq<Byte>, s: Segment)
    requires Parse(data) == Success(s)
    ensures Report(s) == Lines(HeaderLines(s))
                       + Lines(Tagged("TCP: ", DumpLines(s.payload[..Min(|s.payload|, 64)])))
  {
    ShowsFirst64(s.payload);
    LinesAppend(HeaderLines(s), Tagged("TCP: ", Shown(s.hexdump)));
  }

  /** The header length line, its caption and unit taken off, reads back as four times the data offset. */
  lemma {:induction false} HeaderLengthLineReadsBack(s: Segment)
    ensures var line := FieldLines(s)[7];
      var caption := "TCP: Header Length = ";
      && |line| >= |caption| + 6
      && line[..|caption|] == caption
      && DecimalValue(line[|caption|..|line| - 6]) == 4 * s.dataOffset
  {
    var n := Shl(s.dataOffset, 2);
    assert n == 4 * s.dataOffset by {
      assert Pow2(2) == 4;
    }
    Enclosed("TCP: Header Length = ", Decimal(n), " bytes");
    DecimalRoundTrip(n);
  }

  /** The options line says "Options present" exactly when the data offset exceeds 5 words. */
  lemma {:induction false} OptionsLineAgrees(data: seq<Byte>, s: Segment)
    requires Parse(data) == Success(s)
    ensures HeaderLines(s)[18] == "TCP: Options present" <==> data[12] / 16 > 5
  {
    assert HeaderLines(s)[18] == TrailerLines(s)[3];
  }

  /**
   * A data offset of 2 to 4 words makes the payload start inside the fixed
   * header: its first bytes are header bytes 4 * offset to 19.
   */
  lemma {:induction false} ShortOffsetOverlapsHeader(data: seq<Byte>, s: Segment)
    requires Parse(data) == Success(s)
    requires 2 <= data[12] / 16 <= 4
    ensures var start := 4 * (data[12] / 16);
      |s.payload| >= 20 - start && s.payload[..20 - start] == data[start..20]
  {
  }

  /** The bytes of a segment whose data offset is 5 (no options). */
  function Encode(header: seq<Byte>, payload: seq<Byte>): seq<Byte>
    requires |header| == 20
  {
    header + payload
  }

  /**
   * A segment with the minimal data offset of 5 decodes to its header's
   * fields and exactly the bytes after byte 19 as its payload.
   */
  lemma {:induction false} DecodeMinimal(header: seq<Byte>, payload: seq<Byte>)
    requires |header| == 20 && header[12] / 16 == 5
    ensures var r := Parse(Encode(header, payload));
      && r.Success?
      && r.value.payload == payload
      && r.value.dataOffset == 5
      && r.value.sourcePort == U16(header[0], header[1])
      && r.value.flags == header[13]
  {
    var data := Encode(header, payload);
    assert data[12] == header[12] && data[13] == header[13];
    assert data[0] == header[0] && data[1] == header[1];
    assert data[20..] == payload;
  }
}
