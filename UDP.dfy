/**
 * The UDP layer: the 8-byte header of RFC 768, the dump of the bytes that
 * follow it, and the report.
 */
module UDP {
  import opened Bytes
  import opened Text
  import opened HexDump
  import opened Reports

  /** A decoded UDP datagram; `hexdump` is the dump of the bytes after the header. */
  datatype Datagram = Datagram(
    sourcePort: nat,
    destPort: nat,
    length: nat,
    checksum: nat,
    hexdump: seq<string>)

  /**
   * `new UserDatagramProtocolPacket(data)`.  It fails exactly when the
   * buffer is shorter than the 8 header bytes; the stated length is shown
   * but not used to cut the data.
   */
  function Parse(data: seq<Byte>): (r: Result<Datagram>)
    ensures r.Success? <==> |data| >= 8
    ensures r.Success? ==>
      && r.value.sourcePort == U16(data[0], data[1])
      && r.value.destPort == U16(data[2], data[3])
      && r.value.length == U16(data[4], data[5])
      && r.value.checksum == U16(data[6], data[7])
      && r.value.hexdump == DumpLines(data[8..])
  {
    if |data| < 8 then Failure
    else
      var rest := CopyOfRange(data, 8, |data|);
      assert rest.value == data[8..];
      Success(Datagram(U16(data[0], data[1]), U16(data[2], data[3]),
                       U16(data[4], data[5]), U16(data[6], data[7]),
                       DumpLines(rest.value)))
  }

  /** The header lines of `toString()`, up to the dump's caption. */
  function HeaderLines(d: Datagram): (lines: seq<string>)
    ensures |lines| == 8
  {
    [ "UDP: ----- UDP Header -----",
      "UDP:                       ",
      "UDP: Source port = " + Decimal(d.sourcePort),
      "UDP: Destination port = " + Decimal(d.destPort),
      "UDP: Length = " + Decimal(d.length),
      "UDP: Checksum = 0x" + Hex(d.checksum, 4),
      "UDP:                       ",
      "UDP: Data: (first 64 bytes)" ]
  }

  /** `toString()`: the header lines, then the first four dump lines behind "UDP: ". */
  function Report(d: Datagram): string
  {
    Lines(HeaderLines(d) + Tagged("UDP: ", Shown(d.hexdump)))
  }

  /** Every header line starts with the layer's tag "UDP:". */
  lemma {:induction false} HeaderTagged(d: Datagram)
    ensures AllStartWith(HeaderLines(d), "UDP:")
  {
    var ls := HeaderLines(d);
    forall i | 0 <= i < |ls|
      ensures StartsWith(ls[i], "UDP:")
    {
      if i == 0 {
        assert StartsWith(ls[0], "UDP:");
      } else if i == 1 {
        assert StartsWith(ls[1], "UDP:");
      } else if i == 2 {
        assert StartsWith(ls[2], "UDP:");
      } else if i == 3 {
        assert StartsWith(ls[3], "UDP:");
      } else if i == 4 {
        assert StartsWith(ls[4], "UDP:");
      } else if i == 5 {
        assert StartsWith(ls[5], "UDP:");
      } else if i == 6 {
        assert StartsWith(ls[6], "UDP:");
      } else {
        assert StartsWith(ls[7], "UDP:");
      }
    }
  }

  /** Every line of the report, dump lines included, starts with "UDP:". */
  lemma {:induction false} ReportTagged(d: Datagram)
    ensures AllStartWith(HeaderLines(d) + Tagged("UDP: ", Shown(d.hexdump)), "UDP:")
  {
    HeaderTagged(d);
    TaggedStartWith("UDP: ", Shown(d.hexdump), "UDP:");
    AllStartWithAppend(HeaderLines(d), Tagged("UDP: ", Shown(d.hexdump)), "UDP:");
  }

  /**
   * The report of a decoded datagram lists, after its header lines, the
   * dump of the first 64 bytes after the header.
   */
  lemma {:induction false} ReportShowsFirst64(data: seq<Byte>, d: Datagram)
    requires Parse(data) == Success(d)
    ensures |data| >= 8
    ensures Report(d) == Lines(HeaderLines(d))
                       + Lines(Tagged("UDP: ", DumpLines(data[8..Min(|data|, 72)])))
  {
    ShowsFirst64(data[8..]);
    assert data[8..][..Min(|data| - 8, 64)] == data[8..Min(|data|, 72)];
    LinesAppend(HeaderLines(d), Tagged("UDP: ", Shown(d.hexdump)));
  }

  /** The checksum line, its caption taken off, reads back as the checksum in four digits. */
  lemma {:induction false} ChecksumLineReadsBack(d: Datagram)
    requires d.checksum < 0x1_0000
    ensures var caption := "UDP: Checksum = 0x";
      var line := HeaderLines(d)[5];
      && |line| == |caption| + 4
      && line[..|caption|] == caption
      && HexValue(line[|caption|..]) == d.checksum
  {
    var caption := "UDP: Checksum = 0x";
    var digits := Hex(d.checksum, 4);
    assert Pow16(4) == 0x1_0000;
    HexLength(d.checksum, 4);
    HexRoundTrip(d.checksum, 4);
    var line := caption + digits;
    assert HeaderLines(d)[5] == line;
    assert line[..|caption|] == caption && line[|caption|..] == digits;
  }

  /** The bytes of a datagram: the four header fields big-endian, then the data. */
  function Encode(sourcePort: nat, destPort: nat, length: nat, checksum: nat, payload: seq<Byte>): (data: seq<Byte>)
    requires sourcePort < 0x1_0000 && destPort < 0x1_0000 && length < 0x1_0000 && checksum < 0x1_0000
    ensures |data| == 8 + |payload|
  {
    [sourcePort / 256, sourcePort % 256, destPort / 256, destPort % 256,
     length / 256, length % 256, checksum / 256, checksum % 256] + payload
  }

  /** Decoding an encoded datagram gives back its four fields and the dump of its data. */
  lemma {:induction false} DecodeEncode(sourcePort: nat, destPort: nat, length: nat, checksum: nat, payload: seq<Byte>)
    requires sourcePort < 0x1_0000 && destPort < 0x1_0000 && length < 0x1_0000 && checksum < 0x1_0000
    ensures Parse(Encode(sourcePort, destPort, length, checksum, payload))
         == Success(Datagram(sourcePort, destPort, length, checksum, DumpLines(payload)))
  {
    var data := Encode(sourcePort, destPort, length, checksum, payload);
    assert data[8..] == payload;
    U16Split(sourcePort);
    U16Split(destPort);
    U16Split(length);
    U16Split(checksum);
  }
}
