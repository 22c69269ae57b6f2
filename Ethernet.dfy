/**
 * The Ethernet layer: the two MAC addresses, the EtherType (read past an
 * IEEE 802.1Q tag when the tag protocol identifier 0x8100 is present) and
 * the payload handed to the next layer.
 *
 * `Parse` states what the constructor computes; `Decode` is the
 * constructor's own sequence of steps, with its two MAC loops, proved to
 * compute exactly that.
 */
module Ethernet {
  import opened Bits
  import opened Bytes
  import opened Text
  import opened EtherTypes

  /** The tag protocol identifier of IEEE 802.1Q. */
  const VlanTpid: nat := 0x8100

  /** A decoded Ethernet frame: the fields the constructor sets. */
  datatype Frame = Frame(
    destMac: string,
    srcMac: string,
    etherType: EtherType,
    frameLength: nat,
    payload: seq<Byte>)

  /** The MAC builder after the bytes of m: each byte's two hex digits followed by ':'. */
  function ColonTerminated(m: seq<Byte>): (s: string)
    ensures |s| == 3 * |m|
  {
    if m == [] then "" else ColonTerminated(m[..|m| - 1]) + HexPair(m[|m| - 1]) + ":"
  }

  /** The usual text of a MAC address: the six bytes in hex, separated by ':'. */
  function MacText(m: seq<Byte>): (s: string)
    requires |m| == 6
    ensures |s| == 17
  {
    ColonTerminated(m[..5]) + HexPair(m[5])
  }

  /** Reads a MAC address back from its text: the hex pair at each position 3j. */
  function ParseMac(s: string): (m: seq<Byte>)
    requires |s| == 17
    ensures |m| == 6
  {
    seq(6, j requires 0 <= j < 6 => 16 * HexDigitValue(s[3 * j]) + HexDigitValue(s[3 * j + 1]))
  }

  /** Character by character, the builder holds each byte's pair and then ':'. */
  lemma {:induction false} ColonTerminatedAt(m: seq<Byte>, j: nat)
    requires j < |m|
    ensures ColonTerminated(m)[3 * j] == HexPair(m[j])[0]
    ensures ColonTerminated(m)[3 * j + 1] == HexPair(m[j])[1]
    ensures ColonTerminated(m)[3 * j + 2] == ':'
  {
    var init := m[..|m| - 1];
    if j < |m| - 1 {
      ColonTerminatedAt(init, j);
      assert init[j] == m[j];
    }
  }

  /**
   * The text of a MAC address is 17 characters, has ':' at every third
   * position, and reads back as the six bytes.
   */
  lemma {:induction false} MacRoundTrip(m: seq<Byte>)
    requires |m| == 6
    ensures forall j :: 0 <= j < 5 ==> MacText(m)[3 * j + 2] == ':'
    ensures ParseMac(MacText(m)) == m
  {
    var s := MacText(m);
    var prefix := ColonTerminated(m[..5]);
    forall j | 0 <= j < 6
      ensures s[3 * j] == HexPair(m[j])[0] && s[3 * j + 1] == HexPair(m[j])[1]
      ensures j < 5 ==> s[3 * j + 2] == ':'
    {
      if j < 5 {
        ColonTerminatedAt(m[..5], j);
      }
    }
    forall j | 0 <= j < 6
      ensures ParseMac(s)[j] == m[j]
    {
      HexDigitRoundTrip(m[j] / 16);
      HexDigitRoundTrip(m[j] % 16);
    }
  }

  /** The address AA BB CC DD EE FF prints as "aa:bb:cc:dd:ee:ff". */
  lemma {:induction false} MacExample()
    ensures MacText([0xaa, 0xbb, 0xcc, 0xdd, 0xee, 0xff]) == "aa:bb:cc:dd:ee:ff"
  {
    var m: seq<Byte> := [0xaa, 0xbb, 0xcc, 0xdd, 0xee, 0xff];
    assert m[..3] == [0xaa, 0xbb, 0xcc];
    MacExampleHead();
    assert HexPair(0xdd) == "dd" && HexPair(0xee) == "ee" && HexPair(0xff) == "ff";
    assert ColonTerminated(m[..4]) == "aa:bb:cc:dd:" by {
      assert m[..4][..3] == m[..3];
    }
    assert ColonTerminated(m[..5]) == "aa:bb:cc:dd:ee:" by {
      assert m[..5][..4] == m[..4];
    }
  }

  /** The builder after the first three bytes of that address. */
  lemma {:induction false} MacExampleHead()
    ensures ColonTerminated([0xaa, 0xbb, 0xcc]) == "aa:bb:cc:"
  {
    var m: seq<Byte> := [0xaa, 0xbb, 0xcc];
    assert HexPair(0xaa) == "aa" && HexPair(0xbb) == "bb" && HexPair(0xcc) == "cc";
    assert ColonTerminated(m[..1]) == "aa:" by {
      assert m[..1][..0] == [];
    }
    assert ColonTerminated(m[..2]) == "aa:bb:" by {
      assert m[..2][..1] == m[..1];
    }
    assert m[..3] == m;
  }

  /** Two different addresses never print the same. */
  lemma {:induction false} MacInjective(a: seq<Byte>, b: seq<Byte>)
    requires |a| == 6 && |b| == 6 && MacText(a) == MacText(b)
    ensures a == b
  {
    MacRoundTrip(a);
    MacRoundTrip(b);
  }

  /**
   * One of the constructor's MAC loops over data[start..start + 6]: each
   * byte's `%02x`, followed by ':' for all but the last.
   */
  method RenderMac(data: seq<Byte>, start: nat) returns (mac: string)
    requires start + 6 <= |data|
    ensures mac == MacText(data[start..start + 6])
  {
    ghost var m := data[start..start + 6];
    mac := "";
    assert m[..0] == [];
    for i := start to start + 6
      invariant MacBuilt(m, i - start, mac)
    {
      ghost var k := i - start;
      assert m[k] == data[i];
      HexByte(data[i]);
      MacStep(m, k, mac);
      if i < start + 5 {
        mac := mac + Hex(data[i], 2) + ":";
      } else {
        mac := mac + Hex(data[i], 2);
      }
    }
  }

  /** The MAC builder after k of the six bytes of m: all six make the address text. */
  predicate MacBuilt(m: seq<Byte>, k: nat, mac: string)
    requires |m| == 6 && k <= 6
  {
    if k < 6 then mac == ColonTerminated(m[..k]) else mac == MacText(m)
  }

  /** One more byte: its pair and ':' for a byte before the last, its pair alone for the last. */
  lemma {:induction false} MacStep(m: seq<Byte>, k: nat, mac: string)
    requires |m| == 6 && k < 6 && MacBuilt(m, k, mac)
    ensures k < 5 ==> MacBuilt(m, k + 1, mac + HexPair(m[k]) + ":")
    ensures k == 5 ==> MacBuilt(m, k + 1, mac + HexPair(m[k]))
  {
    assert m[..k + 1][..k] == m[..k];
  }

  /** The value of the two bytes at 12-13: an EtherType, or the 802.1Q tag identifier. */
  function OuterType(data: seq<Byte>): nat
    requires |data| >= 14
  {
    U16(data[12], data[13])
  }

  /**
   * `new EthernetPacket(data)`.  It fails when the buffer ends before byte
   * 13, or before byte 17 when bytes 12-13 hold 0x8100.  The stored
   * EtherType is that of bytes 12-13, or of bytes 16-17 behind a tag.  The
   * payload starts at byte 18 only when the stored type itself is 0x8100
   * (so behind a single tag it starts at byte 14, at the tag control
   * information), and at byte 14 otherwise.
   */
  function Parse(data: seq<Byte>): (r: Result<Frame>)
    ensures r.Success? <==> |data| >= 14 && (OuterType(data) != VlanTpid || |data| >= 18)
    ensures r.Success? ==>
      && r.value.destMac == MacText(data[0..6])
      && r.value.srcMac == MacText(data[6..12])
      && r.value.frameLength == |data|
      && r.value.etherType == Classify(
           if OuterType(data) != VlanTpid then OuterType(data) else U16(data[16], data[17]))
      && r.value.payload == (if r.value.etherType.value == VlanTpid then data[18..] else data[14..])
  {
    if |data| < 14 || (OuterType(data) == VlanTpid && |data| < 18) then Failure
    else
      var et := StoredType(data);
      Success(Frame(MacText(data[0..6]), MacText(data[6..12]), et, |data|, FramePayload(data, et)))
  }

  /** The EtherType the constructor stores: bytes 12-13, or bytes 16-17 behind a tag. */
  function StoredType(data: seq<Byte>): EtherType
    requires |data| >= 14 && (OuterType(data) != VlanTpid || |data| >= 18)
  {
    Classify(TypeValue(data))
  }

  /** The value the stored EtherType is built from. */
  function TypeValue(data: seq<Byte>): nat
    requires |data| >= 14 && (OuterType(data) != VlanTpid || |data| >= 18)
  {
    if OuterType(data) != VlanTpid then OuterType(data) else U16(data[16], data[17])
  }

  /** The payload copy: from byte 18 when `vlan()` holds, from byte 14 otherwise. */
  function FramePayload(data: seq<Byte>, et: EtherType): seq<Byte>
    requires |data| >= 14 && (Vlan(et) ==> |data| >= 18)
  {
    if Vlan(et) then CopyOfRange(data, 18, |data|).value else CopyOfRange(data, 14, |data|).value
  }

  /** `vlan()`: the stored EtherType is the tag identifier. */
  predicate Vlan(et: EtherType)
  {
    et.value == VlanTpid
  }

  /**
   * `vlan()` tests the stored type, which behind a tag is the inner one: on
   * a decoded frame it holds exactly when bytes 12-13 and bytes 16-17 both
   * hold 0x8100, so a frame with a single tag answers false.
   */
  lemma {:induction false} VlanOnlyDoubleTagged(data: seq<Byte>)
    ensures Parse(data).Success? ==>
      (Vlan(Parse(data).value.etherType) <==>
         OuterType(data) == VlanTpid && U16(data[16], data[17]) == VlanTpid)
  {
  }

  /**
   * The constructor as the source runs it: the two MAC loops, the EtherType
   * read, the frame length and the payload copy.
   */
  method Decode(data: seq<Byte>) returns (r: Result<Frame>)
    ensures r == Parse(data)
  {
    if |data| < 14 {
      return Failure;
    }
    var destMac := RenderMac(data, 0);
    var srcMac := RenderMac(data, 6);
    var stored := ReadEtherType(data);
    if stored.Failure? {
      return Failure;
    }
    var et := stored.value;
    var frameLength := |data|;
    var payload: seq<Byte>;
    if Vlan(et) {
      payload := CopyOfRange(data, 18, |data|).value;
    } else {
      payload := CopyOfRange(data, 14, |data|).value;
    }
    r := Success(Frame(destMac, srcMac, et, frameLength, payload));
    DecodeAgrees(data, destMac, srcMac, et, payload);
  }

  /** The parts the constructor computes make up the frame Parse describes. */
  lemma {:induction false} DecodeAgrees(data: seq<Byte>, destMac: string, srcMac: string, et: EtherType, payload: seq<Byte>)
    requires |data| >= 14 && (OuterType(data) != VlanTpid || |data| >= 18)
    requires destMac == MacText(data[0..0 + 6]) && srcMac == MacText(data[6..6 + 6])
    requires et == StoredType(data)
    requires payload == if Vlan(et) then CopyOfRange(data, 18, |data|).value else CopyOfRange(data, 14, |data|).value
    ensures Success(Frame(destMac, srcMac, et, |data|, payload)) == Parse(data)
  {
    assert data[0..0 + 6] == data[0..6] && data[6..6 + 6] == data[6..12];
    ParseFrame(data);
  }

  /**
   * The constructor's EtherType read: bytes 12-13, or bytes 16-17 when
   * bytes 12-13 hold the tag identifier; the read past the end of a tagged
   * buffer shorter than 18 bytes fails.
   */
  method ReadEtherType(data: seq<Byte>) returns (stored: Result<EtherType>)
    requires |data| >= 14
    ensures stored.Success? <==> OuterType(data) != VlanTpid || |data| >= 18
    ensures stored.Success? ==> stored.value == StoredType(data)
  {
    var value := U16(data[12], data[13]);
    if value != VlanTpid {
      stored := Success(Classify(value));
    } else {
      if |data| < 18 {
        return Failure;
      }
      stored := Success(Classify(U16(data[16], data[17])));
    }
  }

  /** A buffer long enough decodes to the frame the constructor's steps build. */
  lemma {:induction false} ParseFrame(data: seq<Byte>)
    requires |data| >= 14 && (OuterType(data) != VlanTpid || |data| >= 18)
    ensures Parse(data) == Success(Frame(MacText(data[0..6]), MacText(data[6..12]), StoredType(data),
                                         |data|, FramePayload(data, StoredType(data))))
  {
  }

  /** The bytes of an untagged frame with the given addresses, type and payload. */
  function Encode(dst: seq<Byte>, src: seq<Byte>, etherType: Byte16, payload: seq<Byte>): seq<Byte>
    requires |dst| == 6 && |src| == 6
  {
    dst + src + [etherType / 256, etherType % 256] + payload
  }

  /** A 16-bit field value. */
  type Byte16 = v: nat | v < 0x1_0000

  /** An untagged frame decodes to its addresses, its type and its payload. */
  lemma {:induction false} DecodeUntagged(dst: seq<Byte>, src: seq<Byte>, etherType: Byte16, payload: seq<Byte>)
    requires |dst| == 6 && |src| == 6 && etherType != VlanTpid
    ensures var r := Parse(Encode(dst, src, etherType, payload));
      && r.Success?
      && ParseMac(r.value.destMac) == dst && ParseMac(r.value.srcMac) == src
      && r.value.etherType == Classify(etherType)
      && r.value.payload == payload
  {
    var data := Encode(dst, src, etherType, payload);
    U16Split(etherType);
    assert data[12] == etherType / 256 && data[13] == etherType % 256;
    assert data[0..6] == dst && data[6..12] == src && data[14..] == payload;
    MacRoundTrip(dst);
    MacRoundTrip(src);
  }

  /**
   * A frame behind one 802.1Q tag (identifier 0x8100, two bytes of tag
   * control information, then the inner type) stores the inner type, but
   * as that type is not 0x8100 the payload keeps the four bytes from the
   * tag control information on.
   */
  lemma {:induction false} DecodeTagged(dst: seq<Byte>, src: seq<Byte>, tci: Byte16,
                                        inner: Byte16, payload: seq<Byte>)
    requires |dst| == 6 && |src| == 6 && inner != VlanTpid
    ensures var data := Encode(dst, src, VlanTpid, [tci / 256, tci % 256, inner / 256, inner % 256] + payload);
      var r := Parse(data);
      && r.Success?
      && r.value.etherType == Classify(inner)
      && !Vlan(r.value.etherType)
      && r.value.payload == data[14..]
      && r.value.payload[4..] == payload
  {
    var rest := [tci / 256, tci % 256, inner / 256, inner % 256] + payload;
    var data := Encode(dst, src, VlanTpid, rest);
    U16Split(VlanTpid);
    U16Split(inner);
    assert data[12] == VlanTpid / 256 && data[13] == VlanTpid % 256;
    assert data[16] == inner / 256 && data[17] == inner % 256;
    assert data[14..] == rest;
  }

  /** The header lines of `toString()`, one per `append`, without their "\n". */
  function ReportLines(f: Frame): (lines: seq<string>)
    ensures |lines| == 7
  {
    [ "ETHER: ----- Ether Header -----",
      "ETHER:",
      "ETHER: Packet size = " + Decimal(f.frameLength) + " bytes",
      "ETHER: Destination = " + f.destMac + ",",
      "ETHER: Source      = " + f.srcMac + ",",
      "ETHER: Ethertype = " + IntHex(f.etherType.value, 4) + " (" + f.etherType.name + ")",
      "ETHER:" ]
  }

  /** `toString()`: each line followed by "\n". */
  function Report(f: Frame): string
  {
    Lines(ReportLines(f))
  }

  /** Every line of the report starts with the layer's tag "ETHER:". */
  lemma {:induction false} ReportTagged(f: Frame)
    ensures AllStartWith(ReportLines(f), "ETHER:")
  {
    var ls := ReportLines(f);
    forall i | 0 <= i < |ls|
      ensures StartsWith(ls[i], "ETHER:")
    {
      if i == 0 {
        assert StartsWith(ls[0], "ETHER:");
      } else if i == 1 {
        assert StartsWith(ls[1], "ETHER:");
      } else if i == 2 {
        assert StartsWith(ls[2], "ETHER:");
      } else if i == 3 {
        assert StartsWith(ls[3], "ETHER:");
      } else if i == 4 {
        assert StartsWith(ls[4], "ETHER:");
      } else if i == 5 {
        assert StartsWith(ls[5], "ETHER:");
      } else {
        assert StartsWith(ls[6], "ETHER:");
      }
    }
  }

  /** The packet size line reads back as the frame length. */
  lemma {:induction false} SizeLineReadsBack(f: Frame)
    ensures var size := ReportLines(f)[2];
      DecimalValue(size[21..|size| - 6]) == f.frameLength
  {
    var size := ReportLines(f)[2];
    assert size[21..|size| - 6] == Decimal(f.frameLength);
    DecimalRoundTrip(f.frameLength);
  }

  /**
   * The EtherType line shows a 16-bit type value (every decoded frame has
   * one, see Parse) in exactly four hex digits, which read back as the value.
   */
  lemma {:induction false} TypeLineReadsBack(f: Frame)
    requires 0 <= f.etherType.value < 0x1_0000
    ensures var digits := IntHex(f.etherType.value, 4);
      && StartsWith(ReportLines(f)[5], "ETHER: Ethertype = " + digits + " (")
      && |digits| == 4 && HexValue(digits) == f.etherType.value
  {
    IntHex4(f.etherType.value);
    var digits := IntHex(f.etherType.value, 4);
    var p := "ETHER: Ethertype = " + digits + " (";
    StartsWithAppend(p, f.etherType.name, ")");
  }
}
