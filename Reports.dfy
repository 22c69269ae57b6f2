/**
 * What the TCP and UDP reports share: after their header lines they list
 * the first lines of the payload's hex dump, each behind the layer's tag.
 */
module Reports {
  import opened Bytes
  import opened Text
  import opened HexDump

  /** Each line of ls behind tag. */
  function Tagged(tag: string, ls: seq<string>): (r: seq<string>)
    ensures |r| == |ls|
  {
    seq(|ls|, i requires 0 <= i < |ls| => tag + ls[i])
  }

  /** Lines put behind a tag that starts with p all start with p. */
  lemma {:induction false} TaggedStartWith(tag: string, ls: seq<string>, p: string)
    requires StartsWith(tag, p)
    ensures AllStartWith(Tagged(tag, ls), p)
  {
    var r := Tagged(tag, ls);
    forall i | 0 <= i < |r|
      ensures StartsWith(r[i], p)
    {
      assert r[i] == tag + ls[i];
    }
  }

  /** The dump lines a report lists: `i < Math.min(hexdump.length, 4)`. */
  function Shown(hexdump: seq<string>): (r: seq<string>)
    ensures |r| <= 4
  {
    hexdump[..Min(|hexdump|, 4)]
  }

  /**
   * The report's last loop: it appends `tag + hexdump[i] + "\n"` for each
   * of the first four dump lines (all of them when there are fewer).
   */
  method AppendDump(sb: string, tag: string, hexdump: seq<string>) returns (r: string)
    ensures r == sb + Lines(Tagged(tag, Shown(hexdump)))
  {
    r := sb;
    var n := Min(|hexdump|, 4);
    var i := 0;
    assert hexdump[..0] == [];
    while i < n
      invariant 0 <= i <= n
      invariant r == sb + Lines(Tagged(tag, hexdump[..i]))
    {
      var done := Tagged(tag, hexdump[..i]);
      var line := tag + hexdump[i];
      assert Tagged(tag, hexdump[..i + 1]) == done + [line];
      LinesAppend(done, [line]);
      assert Lines([line]) == line + "\n";
      r := r + (line + "\n");
      i := i + 1;
    }
    assert hexdump[..n] == Shown(hexdump);
  }

  /**
   * `toString()` of the TCP and UDP layers as the source builds it: the
   * header lines, then the loop over the dump.
   */
  method Render(header: seq<string>, tag: string, hexdump: seq<string>) returns (text: string)
    ensures text == Lines(header + Tagged(tag, Shown(hexdump)))
  {
    text := Lines(header);
    text := AppendDump(text, tag, hexdump);
    LinesAppend(header, Tagged(tag, Shown(hexdump)));
  }

  /**
   * "Data: (first 64 bytes)": the dump lines a report lists are the dump of
   * the first 64 bytes of the payload.
   */
  lemma {:induction false} ShowsFirst64(payload: seq<Byte>)
    ensures Shown(DumpLines(payload)) == DumpLines(payload[..Min(|payload|, 64)])
  {
    DumpPrefix(payload, 4);
  }
}
