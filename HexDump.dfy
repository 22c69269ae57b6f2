/**
 * The hex dump shown under the TCP and UDP reports: 16 bytes per line, the
 * bytes in lowercase hex grouped two by two, then the printable ones as
 * characters.  Every line is
 *
 *   <hex field, padded to 39>    '<ASCII field, padded to 16>'
 *
 * The specification functions describe line k from chunk k of the input;
 * `Build` is the analyser's loop, proved to produce exactly those lines.
 */
module HexDump {
  import opened Bits
  import opened Bytes
  import opened Text

  /** Width of the hex field: 16 bytes as 8 groups of 4 digits and 7 spaces. */
  const HexWidth: nat := 39

  /** Width of the ASCII field. */
  const AsciiWidth: nat := 16

  function Min(a: int, b: int): int
  {
    if a <= b then a else b
  }

  /** The number of lines for n bytes: one per started group of 16. */
  function LineCount(n: nat): nat
  {
    (n + 15) / 16
  }

  /** Chunk k of the input: the bytes [16k, min(16k + 16, |data|)). */
  function Chunk(data: seq<Byte>, k: nat): (c: seq<Byte>)
    requires 16 * k <= |data|
    ensures |c| == Min(16, |data| - 16 * k)
  {
    data[16 * k..Min(16 * k + 16, |data|)]
  }

  /**
   * What the loop appends to the hex builder for byte j of a chunk: its two
   * hex digits (`%02x`, see HexByte), then one space after an odd-indexed byte unless that byte
   * ends the line.
   */
  function HexPiece(chunk: seq<Byte>, j: nat): string
    requires j < |chunk|
  {
    HexPair(chunk[j]) + (if j % 2 == 1 && j != |chunk| - 1 then " " else "")
  }

  /** The hex builder after the first m bytes of a chunk. */
  function HexRun(chunk: seq<Byte>, m: nat): string
    requires m <= |chunk|
  {
    if m == 0 then "" else HexRun(chunk, m - 1) + HexPiece(chunk, m - 1)
  }

  /**
   * What the loop appends to the ASCII builder for byte b: the character
   * when the signed Java byte lies in [32, 126], else '.'.
   */
  function AsciiChar(b: Byte): char
  {
    var s := Signed(b);
    if s >= 32 && s <= 126 then s as char else '.'
  }

  /** The ASCII builder after the first m bytes of a chunk. */
  function AsciiRun(chunk: seq<Byte>, m: nat): string
    requires m <= |chunk|
  {
    if m == 0 then "" else AsciiRun(chunk, m - 1) + [AsciiChar(chunk[m - 1])]
  }

  /** `String.format("%-39s", sbh)` for a whole chunk. */
  function HexField(chunk: seq<Byte>): string
  {
    PadRight(HexRun(chunk, |chunk|), HexWidth)
  }

  /** `String.format("%-16s", sbd).replace(' ', '.')` for a whole chunk. */
  function AsciiField(chunk: seq<Byte>): string
  {
    Replace(PadRight(AsciiRun(chunk, |chunk|), AsciiWidth), ' ', '.')
  }

  /** The two fields of a line joined as the second loop of the constructor joins them. */
  function JoinFields(hex: string, ascii: string): string
  {
    hex + "    '" + ascii + "'"
  }

  /** One line of the dump. */
  function FormatLine(chunk: seq<Byte>): string
  {
    JoinFields(HexField(chunk), AsciiField(chunk))
  }

  /**
   * field applied to the first m chunks: the `hex` list (field HexField) and
   * the `dump` list (field AsciiField) after m lines.
   */
  function Fields(data: seq<Byte>, m: nat, field: seq<Byte> -> string): (fs: seq<string>)
    requires m <= LineCount(|data|)
    ensures |fs| == m
  {
    if m == 0 then [] else Fields(data, m - 1, field) + [field(Chunk(data, m - 1))]
  }

  lemma {:induction false} FieldsAt(data: seq<Byte>, m: nat, field: seq<Byte> -> string, k: nat)
    requires k < m <= LineCount(|data|)
    ensures |Fields(data, m, field)| == m
    ensures Fields(data, m, field)[k] == field(Chunk(data, k))
  {
    if k < m - 1 {
      FieldsAt(data, m - 1, field, k);
    } else if m > 1 {
      FieldsAt(data, m - 1, field, 0);
    }
  }

  /** Flushing the field of the next chunk extends the list by one line. */
  lemma {:induction false} FieldsNext(data: seq<Byte>, k: nat, field: seq<Byte> -> string, line: string)
    requires k < LineCount(|data|) && line == field(Chunk(data, k))
    ensures Fields(data, k, field) + [line] == Fields(data, k + 1, field)
  {
  }

  /** The lines of the dump of data: line k is the line of chunk k. */
  function DumpLines(data: seq<Byte>): (lines: seq<string>)
    ensures |lines| == LineCount(|data|)
    ensures forall k :: 0 <= k < |lines| ==> |lines[k]| == 61
  {
    LinesFull(data);
    seq(LineCount(|data|), k requires 0 <= k < LineCount(|data|) => FormatLine(Chunk(data, k)))
  }

  /**
   * `new HexDump(data).hexdump()`: the constructor's first loop collects the
   * two fields of every line, its second loop joins them into the result.
   */
  method Build(data: seq<Byte>) returns (hexdump: seq<string>)
    ensures hexdump == DumpLines(data)
  {
    var hex, dump := CollectFields(data);
    hexdump := JoinLines(hex, dump);
    forall m | 0 <= m < |hexdump|
      ensures hexdump[m] == DumpLines(data)[m]
    {
      LineAt(data, m);
    }
  }

  /** Line k of the dump joins the two fields the first loop collects for chunk k. */
  lemma {:induction false} LineAt(data: seq<Byte>, k: nat)
    requires k < LineCount(|data|)
    ensures var n := LineCount(|data|);
      && |Fields(data, n, HexField)| == |Fields(data, n, AsciiField)| == n
      && DumpLines(data)[k]
         == JoinFields(Fields(data, n, HexField)[k], Fields(data, n, AsciiField)[k])
  {
    FieldsAt(data, LineCount(|data|), HexField, k);
    FieldsAt(data, LineCount(|data|), AsciiField, k);
  }

  /** The lines flushed into the `hex` and `dump` lists after i bytes. */
  predicate Flushed(data: seq<Byte>, i: nat, hex: seq<string>, dump: seq<string>)
  {
    && i <= |data|
    && |hex| == |dump| == (if i == |data| then LineCount(|data|) else i / 16)
    && hex == Fields(data, |hex|, HexField)
    && dump == Fields(data, |dump|, AsciiField)
  }

  /** The two builders after i bytes hold the bytes of the current line. */
  predicate Building(data: seq<Byte>, i: nat, sbh: string, sbd: string)
  {
    && i <= |data|
    && (i < |data| ==> sbh == HexRun(Chunk(data, i / 16), i % 16))
    && (i < |data| ==> sbd == AsciiRun(Chunk(data, i / 16), i % 16))
  }

  /**
   * The first loop of the constructor: one pass over the bytes fills the hex
   * and ASCII builders and flushes them into the `hex` and `dump` lists at
   * the end of each line (after 16 bytes, or at the last byte).
   */
  method CollectFields(data: seq<Byte>) returns (hex: seq<string>, dump: seq<string>)
    ensures hex == Fields(data, LineCount(|data|), HexField)
    ensures dump == Fields(data, LineCount(|data|), AsciiField)
  {
    hex, dump := [], [];
    var sbh: string := "";
    var sbd: string := "";
    var n := |data|;
    var i := 0;
    while i < n
      invariant i <= n
      invariant Flushed(data, i, hex, dump)
      invariant Building(data, i, sbh, sbd)
    {
      ghost var h0, d0 := sbh, sbd;
      sbh := sbh + Hex(data[i], 2);
      sbd := sbd + [AsciiChar(data[i])];
      if (i + 1) % 16 == 0 || i == n - 1 {
        LineEnd(data, i, h0, d0);
        FlushLine(data, i, hex, dump, sbh, sbd);
        hex := hex + [PadRight(sbh, HexWidth)];
        dump := dump + [Replace(PadRight(sbd, AsciiWidth), ' ', '.')];
        sbh := "";
        sbd := "";
        i := i + 1;
        continue;
      }
      if i % 2 == 1 {
        sbh := sbh + " ";
      }
      LineMiddle(data, i, h0, d0);
      i := i + 1;
    }
  }

  /** The second loop of the constructor: line m joins hex[m] and dump[m]. */
  method JoinLines(hex: seq<string>, dump: seq<string>) returns (lines: seq<string>)
    requires |hex| == |dump|
    ensures |lines| == |hex|
    ensures forall m :: 0 <= m < |lines| ==> lines[m] == JoinFields(hex[m], dump[m])
  {
    var a := new string[|hex|];
    var k := 0;
    while k < |hex|
      invariant 0 <= k <= |hex|
      invariant forall m :: 0 <= m < k ==> a[m] == JoinFields(hex[m], dump[m])
    {
      a[k] := JoinFields(hex[k], dump[k]);
      k := k + 1;
    }
    lines := a[..];
  }

  /** A byte that ends its line completes the two builders of its chunk. */
  lemma {:induction false} LineEnd(data: seq<Byte>, i: nat, sbh: string, sbd: string)
    requires i < |data| && ((i + 1) % 16 == 0 || i == |data| - 1)
    requires Building(data, i, sbh, sbd)
    ensures var chunk := Chunk(data, i / 16);
      && sbh + Hex(data[i], 2) == HexRun(chunk, |chunk|)
      && sbd + [AsciiChar(data[i])] == AsciiRun(chunk, |chunk|)
      && Building(data, i + 1, "", "")
  {
    var chunk := Chunk(data, i / 16);
    ChunkIndex(data, i);
    EndOfLine(|data|, i);
    RunsStep(chunk, i % 16, data[i], sbh, sbd);
  }

  /** The builders after j + 1 bytes of a chunk extend those after j bytes by byte j's piece. */
  lemma {:induction false} RunsStep(chunk: seq<Byte>, j: nat, b: Byte, sbh: string, sbd: string)
    requires j < |chunk| && chunk[j] == b
    requires sbh == HexRun(chunk, j) && sbd == AsciiRun(chunk, j)
    ensures HexRun(chunk, j + 1)
         == sbh + Hex(b, 2) + (if j % 2 == 1 && j != |chunk| - 1 then " " else "")
    ensures AsciiRun(chunk, j + 1) == sbd + [AsciiChar(b)]
  {
    HexByte(b);
  }

  /** The index arithmetic of a byte that ends its line. */
  lemma {:induction false} EndOfLine(n: nat, i: nat)
    requires i < n && ((i + 1) % 16 == 0 || i == n - 1)
    ensures 16 * (i / 16) <= n && i % 16 == Min(16, n - 16 * (i / 16)) - 1
    ensures i + 1 < n ==> (i + 1) % 16 == 0 && 16 * ((i + 1) / 16) <= n
    ensures i + 1 == n ==> LineCount(n) == i / 16 + 1
  {
    assert i == 16 * (i / 16) + i % 16;
  }

  /** Flushing the completed builders of line i / 16 adds its two fields. */
  lemma {:induction false} FlushLine(data: seq<Byte>, i: nat, hex: seq<string>, dump: seq<string>, sbh: string, sbd: string)
    requires i < |data| && ((i + 1) % 16 == 0 || i == |data| - 1)
    requires Flushed(data, i, hex, dump)
    requires sbh == HexRun(Chunk(data, i / 16), |Chunk(data, i / 16)|)
    requires sbd == AsciiRun(Chunk(data, i / 16), |Chunk(data, i / 16)|)
    ensures Flushed(data, i + 1, hex + [PadRight(sbh, HexWidth)],
                    dump + [Replace(PadRight(sbd, AsciiWidth), ' ', '.')])
  {
    FieldsNext(data, |hex|, HexField, PadRight(sbh, HexWidth));
    FieldsNext(data, |dump|, AsciiField, Replace(PadRight(sbd, AsciiWidth), ' ', '.'));
  }

  /** A byte inside its line extends the two builders by its piece. */
  lemma {:induction false} LineMiddle(data: seq<Byte>, i: nat, sbh: string, sbd: string)
    requires i < |data| && !((i + 1) % 16 == 0 || i == |data| - 1)
    requires Building(data, i, sbh, sbd)
    ensures Building(data, i + 1,
                     sbh + Hex(data[i], 2) + (if i % 2 == 1 then " " else ""),
                     sbd + [AsciiChar(data[i])])
    ensures i + 1 < |data| && (i + 1) / 16 == i / 16
  {
    var chunk := Chunk(data, i / 16);
    ChunkIndex(data, i);
    NextInLine(|data|, i);
    var j := i % 16;
    assert j != |chunk| - 1 && j % 2 == i % 2;
    RunsStep(chunk, j, data[i], sbh, sbd);
    assert Chunk(data, (i + 1) / 16) == chunk && (i + 1) % 16 == j + 1;
  }

  /** Byte i of the input is byte i % 16 of chunk i / 16. */
  lemma {:induction false} ChunkIndex(data: seq<Byte>, i: nat)
    requires i < |data|
    ensures 16 * (i / 16) <= |data|
    ensures i % 16 < |Chunk(data, i / 16)|
    ensures Chunk(data, i / 16)[i % 16] == data[i]
  {
    assert 16 * (i / 16) + i % 16 == i;
  }

  /** The index arithmetic of a byte inside its line. */
  lemma {:induction false} NextInLine(n: nat, i: nat)
    requires i < n && !((i + 1) % 16 == 0 || i == n - 1)
    ensures i % 16 < Min(16, n - 16 * (i / 16)) - 1
    ensures (i + 1) / 16 == i / 16 && (i + 1) % 16 == i % 16 + 1
    ensures (i % 16) % 2 == i % 2
  {
    var q, r := i / 16, i % 16;
    assert i == 16 * q + r;
    assert i == 2 * (8 * q + r / 2) + r % 2;
    DivModUnique(i, 2, 8 * q + r / 2, r % 2);
  }
  /** No input gives no line; otherwise there is one line per started group of 16 bytes. */
  lemma {:induction false} LineCountBounds(n: nat)
    ensures n == 0 <==> LineCount(n) == 0
    ensures 16 * (LineCount(n) - 1) < n <= 16 * LineCount(n) || n == 0
  {
  }

  /**
   * Every chunk holds 1 to 16 bytes, all but the last exactly 16, so the
   * chunks cover the input in order with nothing left out.
   */
  lemma {:induction false} ChunkSizes(data: seq<Byte>, k: nat)
    requires k < LineCount(|data|)
    ensures 16 * k <= |data|
    ensures 1 <= |Chunk(data, k)| <= 16
    ensures k + 1 < LineCount(|data|) ==> |Chunk(data, k)| == 16
  {
  }

  /** The hex builder holds two digits per byte and a space after every second byte but the last. */
  lemma {:induction false} HexRunLength(chunk: seq<Byte>, m: nat)
    requires m <= |chunk|
    ensures |HexRun(chunk, m)| == 2 * m + (if m == |chunk| && m > 0 then (m - 1) / 2 else m / 2)
  {
    if m > 0 {
      HexRunLength(chunk, m - 1);
    }
  }

  /** The hex builder only grows: after k bytes it is a prefix of itself after m >= k bytes. */
  lemma {:induction false} HexRunPrefix(chunk: seq<Byte>, k: nat, m: nat)
    requires k <= m <= |chunk|
    ensures HexRun(chunk, k) <= HexRun(chunk, m)
    decreases m - k
  {
    if k < m {
      HexRunPrefix(chunk, k, m - 1);
      var a, b := HexRun(chunk, m - 1), HexPiece(chunk, m - 1);
      assert HexRun(chunk, m) == a + b;
      assert (a + b)[..|a|] == a;
    }
  }

  /**
   * Where each byte lands in the hex builder: byte j's two digits start at
   * 2j + j/2 (two digits per byte, one space per earlier pair), and a space
   * follows them when j is odd and not the line's last byte.
   */
  lemma {:induction false} HexRunAt(chunk: seq<Byte>, m: nat, j: nat)
    requires j < m <= |chunk|
    ensures var run := HexRun(chunk, m);
      var p := 2 * j + j / 2;
      && p + 2 <= |run|
      && run[p..p + 2] == HexPair(chunk[j])
      && (j % 2 == 1 && j != |chunk| - 1 ==> p + 2 < |run| && run[p + 2] == ' ')
  {
    var before, piece, run := HexRun(chunk, j), HexPiece(chunk, j), HexRun(chunk, m);
    assert |before| == 2 * j + j / 2 by {
      HexRunLength(chunk, j);
    }
    assert before + piece <= run by {
      assert HexRun(chunk, j + 1) == before + piece;
      HexRunPrefix(chunk, j + 1, m);
    }
    PieceInRun(before, piece, run);
    HexPieceAt(chunk, j);
    var p := |before|;
    assert run[p..p + 2] == run[p..p + |piece|][..2];
    assert |piece| == 3 ==> run[p + 2] == run[p..p + |piece|][2];
  }

  /** What one byte appends: its two digits, then the space when there is one. */
  lemma {:induction false} HexPieceAt(chunk: seq<Byte>, j: nat)
    requires j < |chunk|
    ensures var piece := HexPiece(chunk, j);
      && |piece| >= 2
      && piece[..2] == HexPair(chunk[j])
      && (j % 2 == 1 && j != |chunk| - 1 ==> |piece| == 3 && piece[2] == ' ')
  {
  }

  /** A piece appended after `before` sits at |before| in any text that extends both. */
  lemma {:induction false} PieceInRun(before: string, piece: string, run: string)
    requires before + piece <= run
    ensures |before| + |piece| <= |run|
    ensures run[|before|..|before| + |piece|] == piece
  {
    assert run[..|before + piece|] == before + piece;
  }

  /**
   * The hex field is always 39 characters; a full line of 16 bytes fills it
   * exactly, so only shorter lines are padded.
   */
  lemma {:induction false} HexFieldLength(chunk: seq<Byte>)
    requires 1 <= |chunk| <= 16
    ensures |HexField(chunk)| == HexWidth
    ensures |chunk| == 16 ==> HexField(chunk) == HexRun(chunk, 16)
  {
    HexRunLength(chunk, |chunk|);
  }

  /** Byte k of a chunk is character k of the ASCII builder. */
  lemma {:induction false} AsciiRunAt(chunk: seq<Byte>, m: nat, k: nat)
    requires k < m <= |chunk|
    ensures |AsciiRun(chunk, m)| == m
    ensures AsciiRun(chunk, m)[k] == AsciiChar(chunk[k])
  {
    if k < m - 1 {
      AsciiRunAt(chunk, m - 1, k);
    } else if m > 1 {
      AsciiRunAt(chunk, m - 1, 0);
    }
  }

  /**
   * The ASCII field is 16 characters: position k shows byte k when it is a
   * printable, non-space character (33 to 126), and '.' otherwise.  A space
   * byte (32) is first shown as ' ' and then turned into '.' together with
   * the padding, and past the last byte every position is '.'.
   */
  lemma {:induction false} AsciiFieldAt(chunk: seq<Byte>, k: nat)
    requires 1 <= |chunk| <= 16 && k < AsciiWidth
    ensures |AsciiField(chunk)| == AsciiWidth
    ensures AsciiField(chunk)[k]
         == if k < |chunk| && 33 <= chunk[k] <= 126 then chunk[k] as char else '.'
  {
    var run := AsciiRun(chunk, |chunk|);
    AsciiRunAt(chunk, |chunk|, 0);
    var padded := PadRight(run, AsciiWidth);
    if k < |chunk| {
      AsciiRunAt(chunk, |chunk|, k);
      assert padded[k] == run[k];
    }
  }

  /** Every line is 61 characters: the hex field, four spaces, the quoted ASCII field. */
  lemma {:induction false} FormatLineLength(chunk: seq<Byte>)
    requires 1 <= |chunk| <= 16
    ensures |FormatLine(chunk)| == HexWidth + 4 + 1 + AsciiWidth + 1
  {
    HexFieldLength(chunk);
    AsciiFieldAt(chunk, 0);
  }

  /** Every chunk of the input formats to a full-width line. */
  lemma {:induction false} LinesFull(data: seq<Byte>)
    ensures forall k :: 0 <= k < LineCount(|data|) ==>
      16 * k <= |data| && |FormatLine(Chunk(data, k))| == 61
  {
    forall k | 0 <= k < LineCount(|data|)
      ensures 16 * k <= |data| && |FormatLine(Chunk(data, k))| == 61
    {
      ChunkSizes(data, k);
      FormatLineLength(Chunk(data, k));
    }
  }

  /** s with its spaces removed. */
  function Strip(s: string): string
  {
    if s == [] then [] else Strip(s[..|s| - 1]) + (if s[|s| - 1] == ' ' then [] else [s[|s| - 1]])
  }

  /** The bytes spelled by a string of hex digit pairs. */
  function HexDecode(s: string): seq<Byte>
  {
    if |s| < 2 then []
    else HexDecode(s[..|s| - 2]) + [16 * HexDigitValue(s[|s| - 2]) + HexDigitValue(s[|s| - 1])]
  }

  lemma {:induction false} StripAppend(a: string, b: string)
    ensures Strip(a + b) == Strip(a) + Strip(b)
    decreases |b|
  {
    if b == [] {
      assert a + b == a;
    } else {
      assert (a + b)[..|a + b| - 1] == a + b[..|b| - 1];
      StripAppend(a, b[..|b| - 1]);
    }
  }

  lemma {:induction false} StripSpaces(n: nat)
    ensures Strip(seq(n, _ => ' ')) == []
  {
    if n > 0 {
      assert seq(n, _ => ' ')[..n - 1] == seq(n - 1, _ => ' ');
      StripSpaces(n - 1);
    }
  }

  /** The two digits of a byte have no space, and read back as the byte. */
  lemma {:induction false} HexPairBack(b: Byte)
    ensures Strip(HexPair(b)) == HexPair(b)
    ensures 16 * HexDigitValue(HexPair(b)[0]) + HexDigitValue(HexPair(b)[1]) == b
  {
    var h := HexPair(b);
    assert h[..1] == [h[0]] && h[..1][..0] == [];
    assert Strip(h[..1]) == [h[0]];
    assert Strip(h) == Strip(h[..1]) + [h[1]];
    HexDigitRoundTrip(b / 16);
    HexDigitRoundTrip(b % 16);
  }

  lemma {:induction false} HexDecodeSnoc(s: string, b: Byte)
    ensures HexDecode(s + HexPair(b)) == HexDecode(s) + [b]
  {
    var h := HexPair(b);
    HexPairBack(b);
    var x, y := h[0], h[1];
    assert h == [x, y];
    assert 16 * HexDigitValue(x) + HexDigitValue(y) == b;
    DecodeSnoc(s, x, y);
  }

  lemma {:induction false} DecodeSnoc(s: string, x: char, y: char)
    ensures HexDecode(s + [x, y]) == HexDecode(s) + [16 * HexDigitValue(x) + HexDigitValue(y)]
  {
    var t := s + [x, y];
    assert t[..|t| - 2] == s;
  }

  /** The separator after a byte of the hex builder has no character left once stripped. */
  lemma {:induction false} StripSeparator(sp: string)
    requires sp == " " || sp == ""
    ensures Strip(sp) == []
  {
    if sp == " " {
      assert sp[..0] == [];
    }
  }

  /** The two-digit pairs of the bytes, with nothing between them. */
  function HexConcat(bs: seq<Byte>): (s: string)
    ensures |s| == 2 * |bs|
  {
    if bs == [] then "" else HexConcat(bs[..|bs| - 1]) + HexPair(bs[|bs| - 1])
  }

  /** Pairs of digits read back as the bytes they were made from. */
  lemma {:induction false} HexConcatBack(bs: seq<Byte>)
    ensures HexDecode(HexConcat(bs)) == bs
  {
    if bs != [] {
      var init, last := bs[..|bs| - 1], bs[|bs| - 1];
      assert HexDecode(HexConcat(bs)) == init + [last] by {
        HexConcatBack(init);
        HexDecodeSnoc(HexConcat(init), last);
      }
      SplitLast(bs);
    }
  }

  lemma {:induction false} SplitLast(bs: seq<Byte>)
    requires bs != []
    ensures bs == bs[..|bs| - 1] + [bs[|bs| - 1]]
  {
  }

  /** With its spaces removed, the hex builder after m bytes is the pairs of those bytes. */
  lemma {:induction false} StripRun(chunk: seq<Byte>, m: nat)
    requires m <= |chunk|
    ensures Strip(HexRun(chunk, m)) == HexConcat(chunk[..m])
  {
    if m > 0 {
      StripRun(chunk, m - 1);
      StripRunStep(chunk, m);
      assert chunk[..m][..m - 1] == chunk[..m - 1];
    }
  }

  /** With its spaces removed, the hex builder after m bytes spells those m bytes. */
  lemma {:induction false} HexRunBack(chunk: seq<Byte>, m: nat)
    requires m <= |chunk|
    ensures |Strip(HexRun(chunk, m))| == 2 * m
    ensures HexDecode(Strip(HexRun(chunk, m))) == chunk[..m]
  {
    StripRun(chunk, m);
    HexConcatBack(chunk[..m]);
  }

  /** Stripped, the builder after m bytes is the builder after m - 1 bytes and byte m - 1's pair. */
  lemma {:induction false} StripRunStep(chunk: seq<Byte>, m: nat)
    requires 0 < m <= |chunk|
    ensures Strip(HexRun(chunk, m)) == Strip(HexRun(chunk, m - 1)) + HexPair(chunk[m - 1])
  {
    var prev := HexRun(chunk, m - 1);
    var b := chunk[m - 1];
    var sp := if (m - 1) % 2 == 1 && m - 1 != |chunk| - 1 then " " else "";
    assert HexRun(chunk, m) == prev + HexPair(b) + sp;
    StripPiece(prev, b, sp);
  }

  /** Stripping the builder after one more byte adds that byte's pair. */
  lemma {:induction false} StripPiece(prev: string, b: Byte, sp: string)
    requires sp == " " || sp == ""
    ensures Strip(prev + HexPair(b) + sp) == Strip(prev) + HexPair(b)
  {
    StripAppend(prev + HexPair(b), sp);
    StripAppend(prev, HexPair(b));
    HexPairBack(b);
    StripSeparator(sp);
  }

  /** Reading the hex field back, spaces and padding aside, gives the bytes of the line. */
  lemma {:induction false} HexFieldBack(chunk: seq<Byte>)
    ensures HexDecode(Strip(HexField(chunk))) == chunk
  {
    var run := HexRun(chunk, |chunk|);
    HexRunBack(chunk, |chunk|);
    assert chunk[..|chunk|] == chunk;
    if |run| < HexWidth {
      var pad := seq(HexWidth - |run|, _ => ' ');
      assert HexField(chunk) == run + pad;
      StripAppend(run, pad);
      StripSpaces(HexWidth - |run|);
      assert Strip(HexField(chunk)) == Strip(run);
    }
  }

  /** The dump of the three bytes 'A', 'B', newline: one line, padded, with '.' for the newline. */
  lemma {:induction false} ShortDump(data: seq<Byte>)
    requires data == [0x41, 0x42, 0x0a]
    ensures DumpLines(data) == ["4142 0a" + seq(32, _ => ' ') + "    'AB..............'"]
  {
    var line := "4142 0a" + seq(32, _ => ' ') + "    'AB..............'";
    assert FormatLine(data) == line by {
      ShortHexField(data);
      ShortAsciiField(data);
    }
    assert LineCount(|data|) == 1;
    assert Chunk(data, 0) == data;
    assert DumpLines(data)[0] == line;
  }

  lemma {:induction false} ShortHexField(chunk: seq<Byte>)
    requires chunk == [0x41, 0x42, 0x0a]
    ensures HexField(chunk) == "4142 0a" + seq(32, _ => ' ')
  {
    assert HexPair(0x41) == "41" && HexPair(0x42) == "42" && HexPair(0x0a) == "0a";
    assert HexRun(chunk, 1) == "41";
    assert HexRun(chunk, 2) == "4142 ";
    assert HexRun(chunk, 3) == "4142 0a";
  }

  lemma {:induction false} ShortAsciiField(chunk: seq<Byte>)
    requires chunk == [0x41, 0x42, 0x0a]
    ensures AsciiField(chunk) == "AB.............."
  {
    var ascii := "AB..............";
    forall k | 0 <= k < AsciiWidth
      ensures AsciiField(chunk)[k] == ascii[k]
    {
      AsciiFieldAt(chunk, k);
    }
    AsciiFieldAt(chunk, 0);
  }

  /** The number of lines of the first 16k bytes: k, or fewer when there are fewer bytes. */
  lemma {:induction false} LineCountPrefix(n: nat, k: nat)
    ensures LineCount(Min(n, 16 * k)) == Min(LineCount(n), k)
  {
    if n > 16 * k {
      DivModUnique(16 * k + 15, 16, k, 15);
      assert LineCount(n) >= k + 1;
    }
  }

  /**
   * The first k lines of a dump are the dump of the first 16k bytes: line
   * m depends only on chunk m.
   */
  lemma {:induction false} DumpPrefix(data: seq<Byte>, k: nat)
    ensures DumpLines(data)[..Min(LineCount(|data|), k)] == DumpLines(data[..Min(|data|, 16 * k)])
  {
    var p := Min(|data|, 16 * k);
    var front := data[..p];
    LineCountPrefix(|data|, k);
    var m := Min(LineCount(|data|), k);
    forall i | 0 <= i < m
      ensures DumpLines(front)[i] == DumpLines(data)[i]
    {
      assert 16 * i + 16 <= 16 * k;
      assert Chunk(front, i) == Chunk(data, i);
    }
  }
}
