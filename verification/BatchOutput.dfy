/** Bounded output of one server of a batch command
    (`appendOutput` and `appendResultOutput` in internal/batchcommand/manager.go).

    A server's output arrives as chunks of two streams.  Chunks are stored until one of them would
    push the total over a byte or a line limit; that chunk is replaced by a notice and everything
    after it is dropped.  The main result says what this means for a whole sequence of chunks. */
module BatchOutput {

  newtype Byte = b: int | 0 <= b < 256

  type Bytes = seq<Byte>

  const NEWLINE: Byte := 10
  const OUTPUT_LIMIT_BYTES: nat := 1024 * 1024
  const OUTPUT_LIMIT_LINES: nat := 5000

  /** The UTF-8 bytes of the truncation notice and its newline. */
  function NoticeByte(i: int): Byte {
    match i
    case 0 => 0xE8 case 1 => 0xBE case 2 => 0x93
    case 3 => 0xE5 case 4 => 0x87 case 5 => 0xBA
    case 6 => 0xE8 case 7 => 0xBF case 8 => 0x87
    case 9 => 0xE5 case 10 => 0xA4 case 11 => 0x9A
    case 12 => 0xEF case 13 => 0xBC case 14 => 0x8C
    case 15 => 0xE5 case 16 => 0xB7 case 17 => 0xB2
    case 18 => 0xE6 case 19 => 0x88 case 20 => 0xAA
    case 21 => 0xE6 case 22 => 0x96 case 23 => 0xAD
    case 24 => 0xE3 case 25 => 0x80 case 26 => 0x82
    case _ => NEWLINE
  }

  function Notice(): Bytes {
    seq(28, i => NoticeByte(i))
  }

  datatype Stream = Stdout | Stderr

  datatype Chunk = Chunk(stream: Stream, text: Bytes)

  /** The counters of `outputState`, the stored text of both streams, and the output events
      emitted so far. */
  datatype Output = Output(
    bytes: nat, lines: nat, truncated: bool,
    stdout: Bytes, stderr: Bytes, events: seq<Chunk>)
  {
    function Text(stream: Stream): Bytes {
      if stream == Stderr then stderr else stdout
    }
  }

  const EMPTY: Output := Output(0, 0, false, [], [], [])

  function Newlines(text: Bytes): nat {
    if text == [] then 0
    else Newlines(text[..|text| - 1]) + (if text[|text| - 1] == NEWLINE then 1 else 0)
  }

  /** The lines a chunk counts for: its newlines, and one more when it does not end in a newline. */
  function LinesOf(text: Bytes): nat {
    Newlines(text) + (if text != [] && text[|text| - 1] != NEWLINE then 1 else 0)
  }

  /** The newlines are counted: one for each position that holds one. */
  lemma {:induction false} NewlinesAreCounted(text: Bytes)
    ensures Newlines(text) == |set i | 0 <= i < |text| && text[i] == 10|
  {
    if text != [] {
      var n := |text| - 1;
      NewlinesAreCounted(text[..n]);
      var before, all := (set i | 0 <= i < n && text[..n][i] == 10), (set i | 0 <= i < |text| && text[i] == 10);
      assert all == before + if text[n] == 10 then {n} else {};
    }
  }

  /** A chunk counts one line more than it has newlines before its last byte, and an empty one none. */
  lemma LinesAreCounted(text: Bytes)
    ensures LinesOf(text) == if text == [] then 0 else Newlines(text[..|text| - 1]) + 1
  {
  }

  function Store(o: Output, c: Chunk): Output {
    if c.stream == Stderr then o.(stderr := o.stderr + c.text, events := o.events + [c])
    else o.(stdout := o.stdout + c.text, events := o.events + [c])
  }

  /** One call of `appendOutput` for a server that is Running. */
  function Append(o: Output, c: Chunk): Output {
    if c.text == [] || o.truncated then o
    else
      var nextBytes := o.bytes + |c.text|;
      var nextLines := o.lines + LinesOf(c.text);
      if nextBytes > OUTPUT_LIMIT_BYTES || nextLines > OUTPUT_LIMIT_LINES then
        Store(o.(truncated := true), Chunk(c.stream, Notice()))
      else
        Store(o.(bytes := nextBytes, lines := nextLines), c)
  }

  function Feed(chunks: seq<Chunk>): Output {
    if chunks == [] then EMPTY
    else Append(Feed(chunks[..|chunks| - 1]), chunks[|chunks| - 1])
  }

  // What the limits mean for a whole sequence of chunks, without any counter or flag.

  function TotalBytes(chunks: seq<Chunk>): nat {
    if chunks == [] then 0
    else TotalBytes(chunks[..|chunks| - 1]) + |chunks[|chunks| - 1].text|
  }

  function TotalLines(chunks: seq<Chunk>): nat {
    if chunks == [] then 0
    else TotalLines(chunks[..|chunks| - 1]) + LinesOf(chunks[|chunks| - 1].text)
  }

  predicate Fits(chunks: seq<Chunk>) {
    TotalBytes(chunks) <= OUTPUT_LIMIT_BYTES && TotalLines(chunks) <= OUTPUT_LIMIT_LINES
  }

  /** The in-order concatenation of one stream's chunks. */
  function StreamText(chunks: seq<Chunk>, stream: Stream): Bytes {
    if chunks == [] then []
    else
      var last := chunks[|chunks| - 1];
      var front := StreamText(chunks[..|chunks| - 1], stream);
      if last.stream == stream then front + last.text else front
  }

  /** `kept` is the longest prefix of `kept + dropped` that fits both limits. */
  predicate LongestFit(kept: seq<Chunk>, dropped: seq<Chunk>) {
    Fits(kept) && (dropped != [] ==> !Fits(kept + [dropped[0]]))
  }

  /** What is stored of one stream: its kept chunks in order, followed by the notice when the first
      chunk that does not fit belongs to it. */
  function StoredText(kept: seq<Chunk>, dropped: seq<Chunk>, stream: Stream): Bytes {
    if dropped != [] && dropped[0].stream == stream then StreamText(kept, stream) + Notice()
    else StreamText(kept, stream)
  }

  lemma {:induction false} TotalsGrow(a: seq<Chunk>, b: seq<Chunk>)
    ensures TotalBytes(a) <= TotalBytes(a + b) && TotalLines(a) <= TotalLines(a + b)
  {
    if b == [] {
      assert a + b == a;
    } else {
      TotalsGrow(a, b[..|b| - 1]);
      assert (a + b)[..|a + b| - 1] == a + b[..|b| - 1];
    }
  }

  /** No longer prefix fits, so the split into kept and dropped chunks is unique. */
  lemma LongestFitIsMaximal(kept: seq<Chunk>, dropped: seq<Chunk>, j: nat)
    requires LongestFit(kept, dropped) && j <= |kept + dropped|
    ensures Fits((kept + dropped)[..j]) <==> j <= |kept|
  {
    var chunks := kept + dropped;
    if j <= |kept| {
      assert chunks[..j] + kept[j..] == kept;
      TotalsGrow(chunks[..j], kept[j..]);
    } else {
      assert chunks[..j] == (kept + [dropped[0]]) + dropped[1..j - |kept|];
      TotalsGrow(kept + [dropped[0]], dropped[1..j - |kept|]);
    }
  }

  /** The text of one stream is the in-order concatenation of its kept chunks, plus one notice if
      anything was dropped, and the emitted events spell exactly the stored text. */
  ghost predicate HoldsText(o: Output, kept: seq<Chunk>, dropped: seq<Chunk>, stream: Stream) {
    && o.Text(stream) == StoredText(kept, dropped, stream)
    && StreamText(o.events, stream) == o.Text(stream)
  }

  /** `o` is what is stored when `kept` was kept and `dropped` was dropped. */
  ghost predicate Holds(o: Output, kept: seq<Chunk>, dropped: seq<Chunk>) {
    && LongestFit(kept, dropped)
    && (o.truncated <==> dropped != [])
    && o.bytes == TotalBytes(kept)
    && o.lines == TotalLines(kept)
    && HoldsText(o, kept, dropped, Stdout)
    && HoldsText(o, kept, dropped, Stderr)
  }

  lemma StoreText(o: Output, c: Chunk, stream: Stream)
    requires StreamText(o.events, stream) == o.Text(stream)
    ensures Store(o, c).Text(stream) == if c.stream == stream then o.Text(stream) + c.text else o.Text(stream)
    ensures StreamText(Store(o, c).events, stream) == Store(o, c).Text(stream)
  {
    assert Store(o, c).events[..|o.events|] == o.events;
  }

  /** A chunk that still fits is kept. */
  lemma AppendFitting(o: Output, kept: seq<Chunk>, c: Chunk)
    requires Holds(o, kept, []) && Fits(kept + [c])
    ensures Holds(Append(o, c), kept + [c], [])
  {
    assert (kept + [c])[..|kept|] == kept;
    if c.text == [] {
      assert Append(o, c) == o;
    } else {
      var counted := o.(bytes := TotalBytes(kept + [c]), lines := TotalLines(kept + [c]));
      assert Append(o, c) == Store(counted, c);
      StoreText(counted, c, Stdout);
      StoreText(counted, c, Stderr);
    }
  }

  /** The first chunk that does not fit leaves the notice instead. */
  lemma AppendOverflowing(o: Output, kept: seq<Chunk>, c: Chunk)
    requires Holds(o, kept, []) && !Fits(kept + [c])
    ensures Holds(Append(o, c), kept, [c])
  {
    assert (kept + [c])[..|kept|] == kept;
    var flagged, stored := o.(truncated := true), Chunk(c.stream, Notice());
    assert c.text != [];
    assert Append(o, c) == Store(flagged, stored);
    StoreText(flagged, stored, Stdout);
    StoreText(flagged, stored, Stderr);
  }

  /** The state after any sequence of chunks: the longest prefix that fits both limits is stored. */
  lemma {:induction false} OutputIsLongestFit(chunks: seq<Chunk>)
    returns (kept: seq<Chunk>, dropped: seq<Chunk>)
    ensures chunks == kept + dropped
    ensures Holds(Feed(chunks), kept, dropped)
  {
    if chunks == [] {
      kept, dropped := [], [];
    } else {
      var front, last := chunks[..|chunks| - 1], chunks[|chunks| - 1];
      kept, dropped := OutputIsLongestFit(front);
      assert chunks == (kept + dropped) + [last] == kept + (dropped + [last]);
      if dropped != [] {
        dropped := dropped + [last];
      } else if Fits(kept + [last]) {
        AppendFitting(Feed(front), kept, last);
        kept := kept + [last];
      } else {
        AppendOverflowing(Feed(front), kept, last);
        dropped := [last];
      }
    }
  }

  lemma {:induction false} StreamsPartitionBytes(chunks: seq<Chunk>)
    ensures |StreamText(chunks, Stdout)| + |StreamText(chunks, Stderr)| == TotalBytes(chunks)
  {
    if chunks != [] { StreamsPartitionBytes(chunks[..|chunks| - 1]); }
  }

  /** Whatever arrives, no more than 1 MiB and 5000 lines, plus one notice of 28 bytes, is stored. */
  lemma OutputIsBounded(chunks: seq<Chunk>)
    ensures |Feed(chunks).stdout| + |Feed(chunks).stderr| <= 1048576 + 28
    ensures Feed(chunks).bytes <= 1048576 && Feed(chunks).lines <= 5000
    ensures !Feed(chunks).truncated ==> TotalBytes(chunks) <= 1048576 && TotalLines(chunks) <= 5000
    ensures Feed(chunks).truncated ==> TotalBytes(chunks) > 1048576 || TotalLines(chunks) > 5000
  {
    var kept, dropped := OutputIsLongestFit(chunks);
    StreamsPartitionBytes(kept);
    if dropped == [] {
      assert kept + dropped == kept;
    } else {
      assert chunks == (kept + [dropped[0]]) + dropped[1..];
      TotalsGrow(kept + [dropped[0]], dropped[1..]);
    }
  }
}
