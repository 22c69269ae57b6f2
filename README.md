# pktanalyzer in Dafny

A verified model of the decoding core of **pktanalyzer**, a small Java
packet analyser. The analyser takes the bytes of one captured Ethernet frame
and decodes it layer by layer:

- the Ethernet header, including an IEEE 802.1Q tag;
- the EtherType label;
- the IPv4 header;
- one of TCP, UDP or ICMP;
- for TCP and UDP, a hex dump of the first 64 payload bytes.

Each layer prints a report of tagged lines.

The model keeps the source's structure. There is one module per source class,
plus small support modules for the Java operators and library calls they use.

| module | models |
|---|---|
| `Bits` | Java `&`, `|`, `<<`, `>>` on non-negative values, with their arithmetic meaning |
| `Bytes` | buffers of unsigned bytes, `Arrays.copyOfRange`, big-endian 16- and 32-bit reads, the single failure outcome |
| `Text` | the renderings the reports use: `%0Nx`, decimal, `%-Ns`, `Integer.toBinaryString`, and lines ended by `"\n"`; the hex, decimal and binary renderings come with the reading that undoes them |
| `EtherTypes` | `EtherType`: the value → label classification |
| `Ethernet` | `EthernetPacket`: MAC rendering loops, tag-dependent EtherType read, payload cut, report |
| `IPv4` | `InternetProtocolV4Packet`: header fields, addresses, options and payload, protocol labels, report |
| `TCP` | `TransmissionControlProtocolPacket`: fields, payload start, flag tests, report |
| `UDP` | `UserDatagramProtocolPacket`: fields, dump of the data, report |
| `ICMP` | `InternetControlMessageProtocolPacket`: type, code, checksum, type names, report |
| `HexDump` | `HexDump`: the line builder loop and the joining loop |
| `Reports` | the dump loop that the TCP and UDP reports share |

**Constructors.** Every decoder's constructor is a function `Parse` from bytes
to `Result<record>`. Any exception the constructor would throw becomes
`Failure`: an index past the end of the buffer, or a bad `copyOfRange` range.

**Imperative code.** Where the source works step by step, the model has a
method that does the same steps. Each such method is proved equal to the
specification function:

- the MAC loops (`Ethernet.RenderMac`);
- the Ethernet and IPv4 constructors (`Ethernet.Decode`, `IPv4.Decode`);
- the two loops of the hex dump (`HexDump.Build`);
- the report loops of TCP and UDP (`Reports.AppendDump`, `Reports.Render`).

**Behaviour kept as the source has it.** Several details differ from the
standards. The model keeps them as the code behaves and proves them:

- `vlan()` tests the *stored* EtherType, which is the inner type behind a
  tag. So a singly tagged frame's payload starts at byte 14, with the tag
  control information (`Ethernet.DecodeTagged`).
- The IPv4 flags mask `0x60` drops the reserved bit.
- The IPv4 fragment offset shifts the five high bits by 5 instead of 8
  (`IPv4.FragmentOffsetAsWritten`).
- The TCP payload starts at `dataOffset << 2` whenever that exceeds 5. So a
  data offset of 2 to 4 words starts the payload inside the fixed header
  (`TCP.ShortOffsetOverlapsHeader`).
- The ICMP checksum is printed with `%02x`, giving 2 to 4 digits
  (`ICMP.ChecksumDigits`).
- The hex dump's ASCII field turns a real space byte into `.`
  (`HexDump.AsciiFieldAt`).

## Model

| member | source | states |
|---|---|---|
| EtherTypes.Classify | pktanalyzer/EtherType.java:27-260 | the value is kept unchanged; the label is "LENGTH" exactly on [0, 1500], "UNDEFINED" exactly on [1501, 1535] (and negatives), "UNKNOWN" exactly for values from 1536 on that the table lacks, and the table's label for the listed codes |
| Ethernet.RenderMac | pktanalyzer/EthernetPacket.java:43-59 | the MAC loop over six bytes builds the address text: each byte's two lowercase hex digits, separated by ':' |
| Ethernet.MacRoundTrip | pktanalyzer/EthernetPacket.java:43-59 | the address text has ':' at every third position and reads back as the six bytes |
| Ethernet.MacInjective | pktanalyzer/EthernetPacket.java:43-59 | different addresses never render the same |
| Ethernet.MacExample | pktanalyzer/EthernetPacket.java:43-59 | the address AA BB CC DD EE FF prints as "aa:bb:cc:dd:ee:ff" |
| Ethernet.ReadEtherType | pktanalyzer/EthernetPacket.java:61-69 | the EtherType read succeeds exactly when bytes 12-13 are not 0x8100 or the buffer reaches byte 17; it yields bytes 12-13, or bytes 16-17 behind a tag |
| Ethernet.Parse | pktanalyzer/EthernetPacket.java:39-82 | decoding fails exactly when the buffer is shorter than 14 bytes (18 behind a tag); the addresses are bytes 0-5 and 6-11, the frame length is the buffer length, the EtherType is the outer or inner type, and the payload starts at byte 18 only when the stored type is 0x8100 |
| Ethernet.Decode | pktanalyzer/EthernetPacket.java:39-82 | the constructor's steps compute exactly Parse |
| Ethernet.DecodeUntagged | pktanalyzer/EthernetPacket.java:61-81 | an untagged frame decodes to its two addresses, its type and its payload |
| Ethernet.DecodeTagged | pktanalyzer/EthernetPacket.java:63-81 | behind one tag the inner type is stored, `vlan()` is false, and the payload keeps the tag control information and inner type before the data |
| Ethernet.VlanOnlyDoubleTagged | pktanalyzer/EthernetPacket.java:92-94 | on a decoded frame `vlan()` holds exactly when bytes 12-13 and bytes 16-17 are both 0x8100, because it tests the stored (inner) type |
| Ethernet.SizeLineReadsBack | pktanalyzer/EthernetPacket.java:101 | the packet size line reads back as the frame length |
| Ethernet.TypeLineReadsBack | pktanalyzer/EthernetPacket.java:104-105 | the EtherType line shows exactly four hex digits that read back as the type value |
| Ethernet.ReportLines | pktanalyzer/EthernetPacket.java:96-109 | `toString()` appends exactly seven lines |
| Ethernet.ReportTagged | pktanalyzer/EthernetPacket.java:96-109 | every line of the report starts with "ETHER:" |
| Bytes.HighNibble | pktanalyzer/InternetProtocolV4Packet.java:73 | `(b & 0xff) >> 4`, used for the IPv4 version and the TCP data offset, is b / 16, below 16 |
| IPv4.Ihl | pktanalyzer/InternetProtocolV4Packet.java:74 | the header length is four times the low nibble: a multiple of 4 up to 60 |
| IPv4.Dscp | pktanalyzer/InternetProtocolV4Packet.java:76 | the DSCP is the six high bits of byte 1 |
| IPv4.Ecn | pktanalyzer/InternetProtocolV4Packet.java:77 | the ECN is the two low bits of byte 1; DSCP * 4 + ECN is byte 1 |
| IPv4.Flags | pktanalyzer/InternetProtocolV4Packet.java:82 | the flags are bits 6 and 5 of byte 6, in [0, 3]; the reserved bit is dropped |
| IPv4.FragmentOffset | pktanalyzer/InternetProtocolV4Packet.java:83 | the offset stays below 1024, and is (byte6 mod 32) * 32 + byte7 when byte 7 is below 32 |
| IPv4.FragmentOffsetAsWritten | pktanalyzer/InternetProtocolV4Packet.java:83 | bytes 01 00 read as 32 (not 256), and 01 20 also read as 32 |
| IPv4.ProtocolLabel | pktanalyzer/InternetProtocolV4Packet.java:246-286 | the label is "UNKNOWN" exactly for the protocols outside 1, 2, 6, 17, 41, 89, 132 |
| IPv4.QuadRoundTrip | pktanalyzer/InternetProtocolV4Packet.java:92-102 | a dotted address cut at '.' reads back as its four bytes |
| IPv4.PayloadStart | pktanalyzer/InternetProtocolV4Packet.java:104-112 | the payload starts at the header length when the IHL nibble exceeds 5, else at byte 20 |
| IPv4.Parse | pktanalyzer/InternetProtocolV4Packet.java:72-113 | decoding fails exactly when the buffer is shorter than 20 or the payload start lies past the buffer or past the total length; it gives every field as read, the addresses, options exactly when the IHL nibble exceeds 5 (bytes 20 to the header length), and the payload as the zero-filled copy up to the total length |
| IPv4.Decode | pktanalyzer/InternetProtocolV4Packet.java:72-113 | the constructor's steps, with the addresses built by `+=`, compute exactly Parse |
| IPv4.Options | pktanalyzer/InternetProtocolV4Packet.java:123-129 | `options()` equals the stored options, or none |
| IPv4.DecodeWithoutOptions | pktanalyzer/InternetProtocolV4Packet.java:104-112 | a 20-byte header whose total length counts exactly the following bytes decodes to no options and exactly those bytes |
| IPv4.EcnBitsTable | pktanalyzer/InternetProtocolV4Packet.java:172-174 | the ECN values 0 to 3 print as "00", "01", "10", "11" |
| IPv4.EcnLineNames | pktanalyzer/InternetProtocolV4Packet.java:176-184 | each ECN codepoint gets its own line: 00 Non-ECT, 10 ECT(0), 01 ECT(1), 11 CE |
| IPv4.FragmentLinesAgree | pktanalyzer/InternetProtocolV4Packet.java:190-200 | the DF line says "do not fragment" exactly when bit 6 of byte 6 is set; the MF line says "more fragment" exactly when bit 5 is set |
| IPv4.OptionsLineAgrees | pktanalyzer/InternetProtocolV4Packet.java:211-215 | the options line says "No options" exactly when the decoder stored no options |
| IPv4.ReportEnds | pktanalyzer/InternetProtocolV4Packet.java:208-217 | the report ends with the two address lines, the options line and "IP:" |
| IPv4.AddressLinesReadBack | pktanalyzer/InternetProtocolV4Packet.java:208-209 | the address lines, after their captions, read back as bytes 12-15 and 16-19 |
| IPv4.ReportOptionsLine | pktanalyzer/InternetProtocolV4Packet.java:211-217 | the second-last report line says "No options" exactly when no options were stored |
| IPv4.HeadLines | pktanalyzer/InternetProtocolV4Packet.java:165-173 | `toString()` begins with six lines, up to the ECN value |
| IPv4.EcnLineAlways | pktanalyzer/InternetProtocolV4Packet.java:175-184 | `ecn & 0x3` always matches one of the four tests, so exactly one ECN line is appended |
| IPv4.FieldLines | pktanalyzer/InternetProtocolV4Packet.java:186-206 | nine lines from the total length to the header checksum, the DF and MF lines included |
| IPv4.AddressLines | pktanalyzer/InternetProtocolV4Packet.java:208-217 | four closing lines: the two addresses, the options line and "IP:" |
| IPv4.ReportLines | pktanalyzer/InternetProtocolV4Packet.java:162-220 | `toString()` appends exactly twenty lines, whatever the header |
| IPv4.ReportTagged | pktanalyzer/InternetProtocolV4Packet.java:162-220 | every line of the report starts with "IP:" |
| TCP.PayloadStart | pktanalyzer/TransmissionControlProtocolPacket.java:94-98 | the payload starts at 4 * offset from an offset of 2 on, else at byte 20 |
| TCP.Parse | pktanalyzer/TransmissionControlProtocolPacket.java:60-101 | decoding fails exactly when the buffer is shorter than 20 or than the payload start; it gives the 16-bit ports, window, checksum and urgent pointer, the unsigned 32-bit sequence and acknowledgement numbers, the offset, the NS bit, the flags byte, the payload to the end and its dump |
| TCP.DecodeMinimal | pktanalyzer/TransmissionControlProtocolPacket.java:60-101 | with a data offset of 5 the payload is exactly the bytes after byte 19 |
| TCP.ShortOffsetOverlapsHeader | pktanalyzer/TransmissionControlProtocolPacket.java:94-98 | an offset of 2 to 4 words makes the payload begin with header bytes 4 * offset to 19 |
| TCP.LargestSequenceNumber | pktanalyzer/TransmissionControlProtocolPacket.java:67-77 | the four bytes FF FF FF FF, read big-endian into a `long`, give 4294967295 and not a negative value |
| TCP.Fin | pktanalyzer/TransmissionControlProtocolPacket.java:214-216 | `fin()` holds exactly when the flags byte is odd (bit 0) |
| TCP.Syn | pktanalyzer/TransmissionControlProtocolPacket.java:218-220 | `syn()` holds exactly when bit 1 of the flags byte is 1 ((flags / 2) mod 2 = 1) |
| TCP.Rst | pktanalyzer/TransmissionControlProtocolPacket.java:222-224 | `rst()` holds exactly when bit 2 of the flags byte is 1 ((flags / 4) mod 2 = 1) |
| TCP.Psh | pktanalyzer/TransmissionControlProtocolPacket.java:226-228 | `psh()` holds exactly when bit 3 of the flags byte is 1 ((flags / 8) mod 2 = 1) |
| TCP.Ack | pktanalyzer/TransmissionControlProtocolPacket.java:230-232 | `ack()` holds exactly when bit 4 of the flags byte is 1 ((flags / 16) mod 2 = 1) |
| TCP.Urg | pktanalyzer/TransmissionControlProtocolPacket.java:234-236 | `urg()` holds exactly when bit 5 of the flags byte is 1 ((flags / 32) mod 2 = 1) |
| TCP.Ece | pktanalyzer/TransmissionControlProtocolPacket.java:238-240 | `ece()` holds exactly when bit 6 of the flags byte is 1 ((flags / 64) mod 2 = 1) |
| TCP.Cwr | pktanalyzer/TransmissionControlProtocolPacket.java:242-244 | `cwr()` holds exactly when bit 7 of the flags byte is 1 ((flags / 128) mod 2 = 1) |
| TCP.SynOnly | pktanalyzer/TransmissionControlProtocolPacket.java:215-245 | flags 0x02 answer only the SYN test |
| TCP.SynAck | pktanalyzer/TransmissionControlProtocolPacket.java:215-245 | flags 0x12 answer only the SYN and ACK tests |
| TCP.FlagLinesShowBits | pktanalyzer/TransmissionControlProtocolPacket.java:116-150 | each flag line shows the marked pattern exactly when its bit is set |
| TCP.HeaderLengthLineReadsBack | pktanalyzer/TransmissionControlProtocolPacket.java:113 | the header length line reads back as four times the data offset |
| TCP.OptionsLineAgrees | pktanalyzer/TransmissionControlProtocolPacket.java:156-162 | the report says "Options present" exactly when the data offset exceeds 5 |
| TCP.FieldLines | pktanalyzer/TransmissionControlProtocolPacket.java:106-114 | nine lines from the caption to the flags byte |
| TCP.FlagLines | pktanalyzer/TransmissionControlProtocolPacket.java:116-150 | six flag lines, one per tested flag from URG down to FIN |
| TCP.TrailerLines | pktanalyzer/TransmissionControlProtocolPacket.java:152-165 | six lines from the window to the dump caption |
| TCP.HeaderLines | pktanalyzer/TransmissionControlProtocolPacket.java:104-165 | the report has 21 lines before the dump |
| TCP.ReportTagged | pktanalyzer/TransmissionControlProtocolPacket.java:103-173 | every line of the report, the dump lines included, starts with "TCP:" |
| Reports.Render | pktanalyzer/TransmissionControlProtocolPacket.java:103-173 | `toString()` of TCP and UDP is the header lines followed by at most four dump lines, each behind the layer tag ("TCP: ", "UDP: ") |
| TCP.ReportShowsFirst64 | pktanalyzer/TransmissionControlProtocolPacket.java:165-170 | the dump lines in the report are the dump of the first 64 payload bytes |
| Reports.AppendDump | pktanalyzer/TransmissionControlProtocolPacket.java:167-170 | the dump loop appends the first min(n, 4) dump lines, each behind the tag and ended by a newline |
| Reports.ShowsFirst64 | pktanalyzer/UserDatagramProtocolPacket.java:68-74 | the first four dump lines are the dump of the first 64 bytes |
| UDP.Parse | pktanalyzer/UserDatagramProtocolPacket.java:39-56 | decoding fails exactly when the buffer is shorter than 8; it gives the four 16-bit fields (the length as read, unchecked) and the dump of exactly the bytes after byte 7 |
| UDP.DecodeEncode | pktanalyzer/UserDatagramProtocolPacket.java:39-56 | an encoded datagram decodes back to its four fields and the dump of its data |
| UDP.ReportShowsFirst64 | pktanalyzer/UserDatagramProtocolPacket.java:55-74 | the report lists the dump of bytes 8 to 71 of the datagram |
| UDP.ChecksumLineReadsBack | pktanalyzer/UserDatagramProtocolPacket.java:66 | the checksum prints as "0x" and exactly four hex digits that read back as the checksum |
| UDP.HeaderLines | pktanalyzer/UserDatagramProtocolPacket.java:61-68 | the report has eight lines before the dump |
| UDP.ReportTagged | pktanalyzer/UserDatagramProtocolPacket.java:58-77 | every line of the report, the dump lines included, starts with "UDP:" |
| ICMP.Parse | pktanalyzer/InternetControlMessageProtocolPacket.java:31-35 | decoding fails exactly when the buffer is shorter than 4; type and code are bytes 0 and 1, and the checksum is the 16-bit value of bytes 2-3 |
| ICMP.TypeName | pktanalyzer/InternetControlMessageProtocolPacket.java:62-121 | the name is "No description" exactly for the types outside the table |
| ICMP.TypeNamesDistinct | pktanalyzer/InternetControlMessageProtocolPacket.java:62-117 | different listed types have different names |
| ICMP.TypeLineReadsBack | pktanalyzer/InternetControlMessageProtocolPacket.java:42 | after the caption, the type line is the type number in decimal, which reads back as the type, followed by " (", its `getType` description and ")" |
| ICMP.ChecksumLineReadsBack | pktanalyzer/InternetControlMessageProtocolPacket.java:44 | the checksum prints in 2 to 4 hex digits that read back as the checksum |
| ICMP.ChecksumDigits | pktanalyzer/InternetControlMessageProtocolPacket.java:44 | checksum 0x0102 prints as "0x102" |
| ICMP.ReportLines | pktanalyzer/InternetControlMessageProtocolPacket.java:37-47 | `toString()` appends exactly six lines |
| ICMP.ReportTagged | pktanalyzer/InternetControlMessageProtocolPacket.java:37-47 | every line of the report starts with "ICMP:" |
| HexDump.Build | pktanalyzer/HexDump.java:24-61 | the constructor's two loops produce exactly one formatted line per chunk of 16 bytes |
| HexDump.DumpLines | pktanalyzer/HexDump.java:24-61 | the dump has one line per started group of 16 bytes, each 61 characters long |
| HexDump.CollectFields | pktanalyzer/HexDump.java:31-54 | the first loop's `hex` and `dump` lists hold the padded hex field and ASCII field of every chunk, in order |
| HexDump.JoinLines | pktanalyzer/HexDump.java:56-60 | the second loop joins entry m of both lists with "    '" and a closing quote |
| HexDump.LineCountBounds | pktanalyzer/HexDump.java:41 | no bytes give no line; otherwise there is one line per started group of 16 bytes |
| HexDump.ChunkSizes | pktanalyzer/HexDump.java:41 | every line covers 1 to 16 bytes, all but the last exactly 16 |
| HexDump.HexRunLength | pktanalyzer/HexDump.java:31-53 | after m bytes the hex builder is 2m characters plus one space per completed pair of bytes, none after the line's last byte |
| HexDump.HexRunPrefix | pktanalyzer/HexDump.java:31-53 | the builder only grows: its text after k bytes is a prefix of its text after any later byte |
| HexDump.HexRunAt | pktanalyzer/HexDump.java:31-53 | byte j's two hex digits sit at position 2j + j/2, followed by a space when j is odd and not the line's last byte (the spaces between groups of four digits) |
| HexDump.HexFieldLength | pktanalyzer/HexDump.java:42 | the hex field is always 39 characters; a full line fills it without padding |
| HexDump.AsciiRunAt | pktanalyzer/HexDump.java:35-39 | character k of the ASCII builder is byte k's character or '.' |
| HexDump.AsciiFieldAt | pktanalyzer/HexDump.java:35-44 | the ASCII field is 16 characters: a byte in [33, 126] as itself, anything else (the space byte included) and the padding as '.' |
| HexDump.FormatLineLength | pktanalyzer/HexDump.java:59 | every line is 61 characters |
| HexDump.HexFieldBack | pktanalyzer/HexDump.java:32-42 | the hex field with its spaces removed decodes back to the bytes of its chunk |
| HexDump.ShortDump | pktanalyzer/HexDump.java:24-61 | bytes 41 42 0a give the single line "4142 0a", padding, and 'AB' followed by fourteen dots |
| HexDump.DumpPrefix | pktanalyzer/HexDump.java:41-44 | the first k lines are the dump of the first 16k bytes |
| Bytes.CopyOfRange | pktanalyzer/InternetProtocolV4Packet.java:107-111 | the copy fails exactly on a start outside the buffer or past the end; otherwise it has length end - start, with the buffer's bytes and zeros past its end |
| Bytes.Copy | pktanalyzer/EthernetPacket.java:111-115 | `Arrays.copyOfRange(p, 0, p.length)`, the copy every `payload()` and `options()` accessor returns, equals p |
| Bytes.U16 | pktanalyzer/InternetProtocolV4Packet.java:79-80 | the big-endian read is below 2^16 and gives back both bytes |
| Bytes.U32 | pktanalyzer/TransmissionControlProtocolPacket.java:74-83 | the 32-bit read is below 2^32 and gives back all four bytes |
| Text.HexRoundTrip | pktanalyzer/InternetProtocolV4Packet.java:206-207 | a `%0Nx` rendering reads back as the value |
| Text.DecimalRoundTrip | pktanalyzer/EthernetPacket.java:101 | a decimal rendering reads back as the value |
| Text.BinaryRoundTrip | pktanalyzer/InternetProtocolV4Packet.java:172-173 | the `Integer.toBinaryString` digits read back as the value |

## Left out

- The driver `pktanalyzer.java` is not part of this model. It holds argument checks, file reading, printing, exit codes, and the dispatch between layers by reference comparison of label strings.
- `String.format`, `Formatter` and `Integer.toBinaryString` are modelled only for the renderings the reports use: `%02x`, `%04x`, decimal, `%-Ns` and 2-digit binary.
- Exception classes, messages and stack traces are collapsed into one `Failure` case.
- `payload()` and `options()` return defensive copies. The model has no aliasing: sequences are values, and `Bytes.Copy` shows the copy is an equal sequence, so `payload()` is the stored payload field.
- The source does none of these, so the model does not either: checksum verification, frame check sequence or padding trimming, fragment reassembly.
- The deviations from RFC 791, IEEE 802.1Q and RFC 793 are kept, not corrected.
- The field accessors are the fields of the decoded records.
- TCP.Parse keeps the flags byte as its unsigned value. The source stores it in a signed Java `byte`, but every flag test and the `%02x` rendering see the same low eight bits.
- TCP.Parse and UDP.Parse give the dump the constructor builds as `DumpLines` of the bytes. A function cannot call a method, so `HexDump.Build` is proved equal to `DumpLines` instead.
- The TCP, UDP and ICMP constructors and the EtherType constructor assign each field once, from a byte expression. So they are modelled as functions only. The imperative methods are kept for the loops and the `+=` building.
