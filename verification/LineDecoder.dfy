/** The bridge's chat stream: newline-delimited chunks read through a bounded buffer. */
module LineDecoder {
  import opened Bytes
  import opened Wrappers
  import opened Errors

  const MAX_STREAM_LINE_BYTES: nat := 0x10_0000

  /** The size of the bufio.Reader's buffer. */
  const BUFFER_BYTES: nat := MAX_STREAM_LINE_BYTES + 1

  /** How much of the body Close drains. */
  const DRAIN_BYTES: nat := 0x1_0000

  datatype ToolCall = ToolCall(name: string, args: string)

  datatype Message = Message(role: string, content: string, toolCalls: seq<ToolCall>)

  datatype Chunk = Chunk(
    model: string,
    message: Message,
    thinking: string,
    done: bool,
    doneReason: string,
    promptEvalCount: int,
    evalCount: int,
    totalDuration: int)

  /** JSON decoding of one line; None when it fails. */
  type Parser = bytes -> Option<Chunk>

  function Wrap(cause: Error): Error {
    Bridge(0, Some(cause))
  }

  function TooLong(): Error {
    Wrap(Other("stream line exceeded 1048576 bytes", None))
  }

  function Undecodable(): Error {
    Wrap(Other("decode chunk", None))
  }

  // ---------------------------------------------------------------- whole-input decoding

  /** The input without its trailing LF and CR bytes. */
  function StripEOL(line: bytes): (s: bytes)
    ensures s <= line
    ensures s != [] ==> s[|s| - 1] != LF && s[|s| - 1] != CR
    ensures forall k :: |s| <= k < |line| ==> line[k] == LF || line[k] == CR
  {
    if line != [] && (line[|line| - 1] == LF || line[|line| - 1] == CR) then StripEOL(line[..|line| - 1]) else line
  }

  /** What one line contributes: nothing, a chunk, or the end of decoding. */
  datatype Item = Skip | Item(chunk: Chunk) | Stop(err: Error)

  function DecodeText(text: bytes, parse: Parser): Item {
    var s := StripEOL(text);
    if s == [] then Skip
    else match parse(s)
      case None => Stop(Undecodable())
      case Some(c) => Item(c)
  }

  function DecodeLine(line: bytes, parse: Parser): Item {
    if |line| > MAX_STREAM_LINE_BYTES then Stop(TooLong()) else DecodeText(line, parse)
  }

  /** The end of the body: its error `fin`, reported together with the last bytes when `eager`. */
  datatype Ending = Ending(fin: Error, eager: bool)

  /** Whether an unterminated rest leaves the reader room to see the end of the body. */
  predicate TailFits(tail: bytes, e: Ending) {
    |tail| < BUFFER_BYTES || (|tail| == BUFFER_BYTES && e.eager)
  }

  function DecodeTail(tail: bytes, e: Ending, parse: Parser): Item {
    if !TailFits(tail, e) then Stop(TooLong())
    else if e.fin != Eof then Stop(Wrap(e.fin))
    else DecodeText(tail, parse)
  }

  function DecodeLines(lines: seq<bytes>, parse: Parser): seq<Item> {
    seq(|lines|, i requires 0 <= i < |lines| => DecodeLine(lines[i], parse))
  }

  function SplitItems(split: Split, e: Ending, parse: Parser): seq<Item> {
    DecodeLines(split.lines, parse) + [DecodeTail(split.tail, e, parse)]
  }

  /** What the lines of a whole body contribute, in order. */
  function Items(input: bytes, e: Ending, parse: Parser): seq<Item> {
    SplitItems(SplitLF(input), e, parse)
  }

  /** The chunks a consumer gets, and the error that ends them: Eof when the body ran out. */
  datatype Decoded = Decoded(chunks: seq<Chunk>, end: Error)

  /** Everything up to the first Stop. */
  function Cut(items: seq<Item>): Decoded {
    if items == [] then Decoded([], Eof)
    else match items[0]
      case Stop(e) => Decoded([], e)
      case Skip => Cut(items[1..])
      case Item(c) => Cut(items[1..]).(chunks := [c] + Cut(items[1..]).chunks)
  }

  /** What an item leaves of the decoding of all that follows it. */
  function Consumed(item: Item, after: Decoded): Decoded {
    match item
    case Stop(err) => Decoded([], err)
    case Skip => after
    case Item(c) => Decoded([c] + after.chunks, after.end)
  }

  function Decode(input: bytes, e: Ending, parse: Parser): Decoded {
    Cut(Items(input, e, parse))
  }

  lemma DecodeLinesCons(line: bytes, rest: seq<bytes>, parse: Parser)
    ensures DecodeLines([line] + rest, parse) == [DecodeLine(line, parse)] + DecodeLines(rest, parse)
  {
  }

  /** A line is one item, and what follows it gives the others. */
  lemma ItemsCons(input: bytes, i: nat, rest: bytes, e: Ending, parse: Parser)
    requires i == IndexLF(input) < |input| && rest == input[i + 1..]
    ensures Items(input, e, parse) == [DecodeLine(input[..i], parse)] + Items(rest, e, parse)
  {
    SplitFirst(input, i, rest);
    SplitItemsCons(input[..i], SplitLF(rest), e, parse);
  }

  lemma SplitItemsCons(line: bytes, rest: Split, e: Ending, parse: Parser)
    ensures SplitItems(Split([line] + rest.lines, rest.tail), e, parse)
         == [DecodeLine(line, parse)] + SplitItems(rest, e, parse)
  {
    DecodeLinesCons(line, rest.lines, parse);
  }

  /** A line that decodes to a chunk, as an encoder of newline-delimited JSON writes it. */
  ghost predicate Encodes(line: bytes, c: Chunk, parse: Parser) {
    && LF !in line && 0 < |line| <= MAX_STREAM_LINE_BYTES && line[|line| - 1] != CR
    && parse(line) == Some(c)
  }

  lemma {:induction false} CutChunks(lines: seq<bytes>, chunks: seq<Chunk>, last: Item, parse: Parser)
    requires |lines| == |chunks| && forall i :: 0 <= i < |lines| ==> Encodes(lines[i], chunks[i], parse)
    requires last.Skip?
    ensures Cut(DecodeLines(lines, parse) + [last]) == Decoded(chunks, Eof)
  {
    if lines == [] {
      assert DecodeLines(lines, parse) + [last] == [last];
    } else {
      var line, rest := lines[0], lines[1..];
      EncodedItem(line, chunks[0], parse);
      FirstItem(lines, last, parse);
      CutChunks(rest, chunks[1..], last, parse);
      CutCons(Item(chunks[0]), DecodeLines(rest, parse) + [last]);
    }
  }

  lemma EncodedItem(line: bytes, c: Chunk, parse: Parser)
    requires Encodes(line, c, parse)
    ensures DecodeLine(line, parse) == Item(c)
  {
    assert StripEOL(line) == line;
  }

  lemma FirstItem(lines: seq<bytes>, last: Item, parse: Parser)
    requires lines != []
    ensures DecodeLines(lines, parse) + [last]
         == [DecodeLine(lines[0], parse)] + (DecodeLines(lines[1..], parse) + [last])
  {
    assert [lines[0]] + lines[1..] == lines;
    DecodeLinesCons(lines[0], lines[1..], parse);
  }

  /** Decoding undoes newline-delimited encoding. */
  lemma DecodeEncoded(lines: seq<bytes>, chunks: seq<Chunk>, e: Ending, parse: Parser)
    requires |lines| == |chunks| && forall i :: 0 <= i < |lines| ==> Encodes(lines[i], chunks[i], parse)
    requires e.fin == Eof
    ensures Decode(Joined(lines, []), e, parse) == Decoded(chunks, Eof)
  {
    SplitJoined(lines, []);
    CutChunks(lines, chunks, DecodeTail([], e, parse), parse);
  }

  lemma StripTerminator(line: bytes)
    ensures StripEOL(line + [LF]) == StripEOL(line)
  {
    assert (line + [LF])[..|line|] == line;
  }

  // ---------------------------------------------------------------- reading

  method TrimEOL(line: bytes) returns (text: bytes)
    ensures text == StripEOL(line)
  {
    text := line;
    while |text| > 0 && (text[|text| - 1] == LF || text[|text| - 1] == CR)
      invariant StripEOL(text) == StripEOL(line)
    {
      text := text[..|text| - 1];
    }
  }

  /** The response body: the reads the transport will serve, then its end. */
  class Body {
    const ending: Ending
    var pieces: seq<bytes>

    ghost predicate Valid()
      reads this
    {
      forall i :: 0 <= i < |pieces| ==> pieces[i] != []
    }

    function Unread(): bytes
      reads this
    {
      Concat(pieces)
    }

    constructor (pieces: seq<bytes>, ending: Ending)
      requires forall i :: 0 <= i < |pieces| ==> pieces[i] != []
      ensures Valid() && this.pieces == pieces && this.ending == ending
    {
      this.pieces, this.ending := pieces, ending;
    }

    /** io.Reader.Read into a buffer with `space` bytes left. */
    method Read(space: nat) returns (got: bytes, err: Option<Error>)
      requires Valid() && 0 < space
      modifies this
      ensures Valid()
      ensures got + Unread() == old(Unread()) && |got| <= space
      ensures old(Unread()) != [] ==> got != []
      ensures err == if old(Unread()) == [] || (ending.eager && Unread() == []) then Some(ending.fin) else None
    {
      if pieces == [] {
        return [], Some(ending.fin);
      }
      if |pieces[0]| <= space {
        got := pieces[0];
        pieces := pieces[1..];
        NonEmptyConcat(pieces);
        err := if ending.eager && pieces == [] then Some(ending.fin) else None;
      } else {
        got := pieces[0][..space];
        assert pieces[0] == got + pieces[0][space..];
        pieces := [pieces[0][space..]] + pieces[1..];
        err := None;
      }
    }

    /** io.Copy(io.Discard, io.LimitReader(body, limit)) */
    method Drain(limit: nat)
      requires Valid()
      modifies this
      ensures Valid()
      ensures Unread() == old(Unread())[if limit < |old(Unread())| then limit else |old(Unread())|..]
    {
      var left: nat := limit;
      while left > 0 && pieces != []
        invariant Valid() && left <= limit
        invariant limit - left <= |old(Unread())| && Unread() == old(Unread())[limit - left..]
        decreases left
      {
        NonEmptyConcat(pieces);
        var got, _ := Read(left);
        left := left - |got|;
      }
      NonEmptyConcat(pieces);
    }
  }

  lemma NonEmptyConcat(parts: seq<bytes>)
    requires forall i :: 0 <= i < |parts| ==> parts[i] != []
    ensures Concat(parts) == [] <==> parts == []
  {
  }

  datatype SliceEnd = Terminated | Full | ReadError(err: Error)

  /** The bufio.Reader in front of the body. */
  class BufReader {
    const body: Body
    var buffered: bytes
    var pending: Option<Error>

    ghost predicate Valid()
      reads this, body
    {
      && body.Valid()
      && |buffered| <= BUFFER_BYTES
      && (pending.Some? ==> pending.value == body.ending.fin && body.Unread() == [])
      && (pending.Some? && !body.ending.eager ==> |buffered| < BUFFER_BYTES)
      && (body.ending.eager && body.Unread() == [] && buffered != [] ==> pending.Some?)
    }

    /** Everything not yet handed out. */
    function Remaining(): bytes
      reads this, body
    {
      buffered + body.Unread()
    }

    constructor (body: Body)
      requires body.Valid()
      ensures Valid() && this.body == body && Remaining() == body.Unread()
    {
      this.body := body;
      buffered, pending := [], None;
    }

    /** One read into the free part of the buffer; its error waits until the buffer has been handed out. */
    method Fill()
      requires Valid() && pending.None? && |buffered| < BUFFER_BYTES
      modifies this, body
      ensures Valid() && Remaining() == old(Remaining())
      ensures |body.Unread()| < |old(body.Unread())| || (|body.Unread()| == |old(body.Unread())| && pending.Some?)
    {
      var got, err := body.Read(BUFFER_BYTES - |buffered|);
      Regroup(buffered, got, body.Unread());
      buffered, pending := buffered + got, err;
    }

    /** ReadSlice('\n') */
    method ReadSlice() returns (line: bytes, end: SliceEnd)
      requires Valid()
      modifies this, body
      ensures Valid() && line + Remaining() == old(Remaining())
      ensures Sliced(old(Remaining()), body.ending, line, end)
    {
      ghost var rest := Remaining();
      while true
        invariant Valid() && Remaining() == rest
        decreases |body.Unread()|, pending.None?
      {
        var i := IndexLF(buffered);
        if i < |buffered| {
          SlicedLine(buffered, body.Unread(), i + 1, body.ending);
          TakeFront(buffered, body.Unread(), i + 1);
          line, end := buffered[..i + 1], Terminated;
          buffered := buffered[i + 1..];
          return;
        }
        if pending.Some? {
          SlicedRest(buffered, body.Unread(), body.ending);
          line, end := buffered, ReadError(pending.value);
          buffered, pending := [], None;
          return;
        }
        if |buffered| >= BUFFER_BYTES {
          SlicedFull(buffered, body.Unread(), body.ending);
          line, end := buffered, Full;
          buffered := [];
          return;
        }
        Fill();
      }
    }
  }

  /** What ReadSlice reports about the bytes not yet handed out. */
  ghost predicate Sliced(rest: bytes, e: Ending, line: bytes, end: SliceEnd) {
    var i := IndexLF(rest);
    if i < |rest| && i < BUFFER_BYTES then end == Terminated && line == rest[..i + 1]
    else if i == |rest| && TailFits(rest, e) then end == ReadError(e.fin) && line == rest
    else end == Full && |line| == BUFFER_BYTES
  }

  lemma TakeFront(a: bytes, b: bytes, n: nat)
    requires n <= |a|
    ensures (a + b)[..n] == a[..n] && a[..n] + (a[n..] + b) == a + b
  {
  }

  lemma SlicedLine(buffered: bytes, unread: bytes, n: nat, e: Ending)
    requires IndexLF(buffered) + 1 == n <= |buffered| <= BUFFER_BYTES
    ensures Sliced(buffered + unread, e, buffered[..n], Terminated)
  {
    PrefixIndex(buffered, unread);
    TakeFront(buffered, unread, n);
  }

  lemma SlicedRest(buffered: bytes, unread: bytes, e: Ending)
    requires IndexLF(buffered) == |buffered| && unread == [] && TailFits(buffered, e)
    ensures Sliced(buffered + unread, e, buffered, ReadError(e.fin))
  {
    assert buffered + unread == buffered;
  }

  lemma SlicedFull(buffered: bytes, unread: bytes, e: Ending)
    requires IndexLF(buffered) == |buffered| == BUFFER_BYTES && (unread == [] ==> !e.eager)
    ensures Sliced(buffered + unread, e, buffered, Full)
  {
    PrefixIndex(buffered, unread);
  }

  lemma Regroup(a: bytes, b: bytes, c: bytes)
    ensures a + (b + c) == (a + b) + c
  {
  }

  /** Where the first LF of `a + b` is. */
  lemma PrefixIndex(a: bytes, b: bytes)
    ensures IndexLF(a + b) == if IndexLF(a) < |a| then IndexLF(a) else |a| + IndexLF(b)
  {
    if a == [] {
      assert a + b == b;
    } else {
      assert (a + b)[1..] == a[1..] + b;
      PrefixIndex(a[1..], b);
    }
  }

  /** The iterator over the chunks of a streaming chat. */
  class ChatStream {
    const body: Body
    const reader: BufReader
    const parse: Parser
    var closed: bool

    ghost predicate Valid()
      reads this, reader, body
    {
      reader.body == body && body.Valid() && (!closed ==> reader.Valid())
    }

    /** The chunks still to come, and the error after them. */
    ghost function Pending(): Decoded
      requires Valid()
      reads this, reader, body
    {
      if closed then Decoded([], Eof) else Decode(reader.Remaining(), body.ending, parse)
    }

    constructor (body: Body, parse: Parser)
      requires body.Valid()
      ensures Valid() && !closed && fresh(reader) && this.body == body && this.parse == parse
      ensures Pending() == Decode(body.Unread(), body.ending, parse)
    {
      this.body, this.parse, closed := body, parse, false;
      reader := new BufReader(body);
    }

    /** The next chunk, or the error that ends the stream: one step of the whole-input decoding. */
    method Next() returns (chunk: Option<Chunk>, err: Error)
      requires Valid()
      modifies reader, body
      ensures Valid()
      ensures chunk.Some? ==> old(Pending()) == Decoded([chunk.value] + Pending().chunks, Pending().end)
      ensures chunk.Some? ==> |reader.Remaining()| < |old(reader.Remaining())|
      ensures chunk.None? ==> old(Pending()) == Decoded([], err)
    {
      if closed {
        return None, Eof;
      }
      ghost var decoded := Pending();
      while true
        invariant Valid() && Pending() == decoded
        invariant |reader.Remaining()| <= |old(reader.Remaining())|
        decreases |reader.Remaining()|
      {
        ghost var rest := reader.Remaining();
        var line, end := reader.ReadSlice();
        ghost var left := reader.Remaining();
        if end.Full? {
          NextFull(rest, body.ending, parse);
          return None, TooLong();
        }
        if end.ReadError? && end.err != Eof {
          DecodeRest(rest, body.ending, parse);
          return None, Wrap(end.err);
        }
        var text := TrimEOL(line);
        if end.ReadError? {
          NextLast(rest, left, body.ending, parse);
        } else {
          NextLine(rest, line, left, body.ending, parse);
        }
        TextConsumed(line, text, decoded, Pending(), parse);
        if |text| == 0 {
          if end.ReadError? {
            return None, Eof;
          }
          continue;
        }
        var parsed := parse(text);
        if parsed.None? {
          return None, Undecodable();
        }
        return parsed, Eof;
      }
    }

    /** Closing twice is closing once; afterwards Next reports the end of the stream. */
    method Close()
      requires Valid()
      modifies this, body
      ensures Valid() && closed && Pending() == Decoded([], Eof)
      // the first Close drains up to 64 KiB of what the reader has not taken
      ensures
        var left := old(body.Unread());
        body.Unread() == left[if old(closed) then 0 else if 65_536 < |left| then 65_536 else |left|..]
    {
      if closed {
        return;
      }
      closed := true;
      body.Drain(DRAIN_BYTES);
    }
  }

  /** An unterminated rest is one item. */
  lemma DecodeRest(input: bytes, e: Ending, parse: Parser)
    requires IndexLF(input) == |input|
    ensures Decode(input, e, parse) == Cut([DecodeTail(input, e, parse)])
  {
    var none: seq<bytes> := [];
    assert SplitLF(input) == Split(none, input);
    assert DecodeLines(none, parse) == [];
    assert Items(input, e, parse) == [DecodeTail(input, e, parse)];
  }

  lemma CutCons(item: Item, items: seq<Item>)
    ensures Cut([item] + items) == Consumed(item, Cut(items))
  {
    assert ([item] + items)[1..] == items;
  }

  /** What an item consumed amounts to, told by the text of its line. */
  lemma TextConsumed(line: bytes, text: bytes, decoded: Decoded, pending: Decoded, parse: Parser)
    requires text == StripEOL(line) && decoded == Consumed(DecodeText(line, parse), pending)
    ensures text == [] ==> decoded == pending
    ensures text != [] ==>
      decoded == match parse(text)
                 case None => Decoded([], Undecodable())
                 case Some(c) => Decoded([c] + pending.chunks, pending.end)
    ensures |text| <= |line|
  {
  }

  /** A line that fits the buffer decodes as the slice that holds its LF too. */
  lemma LineIsText(line: bytes, i: nat, parse: Parser)
    requires i <= MAX_STREAM_LINE_BYTES && |line| == i + 1 && line[i] == LF
    ensures DecodeLine(line[..i], parse) == DecodeText(line, parse)
  {
    assert line == line[..i] + [LF];
    StripTerminator(line[..i]);
  }

  /** What a slice that ends in LF tells about the whole input. */
  lemma NextLine(before: bytes, line: bytes, after: bytes, e: Ending, parse: Parser)
    requires IndexLF(before) < |before| && IndexLF(before) < BUFFER_BYTES
    requires line == before[..IndexLF(before) + 1] && line + after == before
    ensures Decode(before, e, parse) == Consumed(DecodeText(line, parse), Decode(after, e, parse))
    ensures |after| < |before|
  {
    var i := IndexLF(before);
    Halves(line, after, before, i);
    ItemsCons(before, i, after, e, parse);
    LineIsText(line, i, parse);
    CutCons(DecodeText(line, parse), Items(after, e, parse));
  }

  lemma Halves(line: bytes, after: bytes, before: bytes, i: nat)
    requires i < |line| == i + 1 && line + after == before
    ensures after == before[i + 1..] && line[..i] == before[..i] && line[i] == before[i]
  {
  }

  /** After the last item nothing is left but the end of the stream. */
  lemma NextLast(before: bytes, after: bytes, e: Ending, parse: Parser)
    requires IndexLF(before) == |before| && TailFits(before, e)
    requires after == [] && e.fin == Eof
    ensures Decode(before, e, parse) == Consumed(DecodeText(before, parse), Decode(after, e, parse))
    ensures Decode(after, e, parse) == Decoded([], Eof)
  {
    DecodeRest(before, e, parse);
    DecodeRest(after, e, parse);
    CutCons(DecodeText(before, parse), []);
    assert [DecodeText(before, parse)] + [] == [DecodeText(before, parse)];
  }

  /** A full buffer without LF stops the decoding, whether a LF comes later ... */
  lemma NextOverflow(before: bytes, i: nat, e: Ending, parse: Parser)
    requires BUFFER_BYTES <= i == IndexLF(before) < |before|
    ensures Decode(before, e, parse) == Decoded([], TooLong())
  {
    var line, rest := before[..i], before[i + 1..];
    assert DecodeLine(line, parse) == Stop(TooLong());
    ItemsCons(before, i, rest, e, parse);
    CutCons(Stop(TooLong()), Items(rest, e, parse));
  }

  /** ... or none does. */
  lemma NextUnterminated(before: bytes, e: Ending, parse: Parser)
    requires IndexLF(before) == |before| && !TailFits(before, e)
    ensures Decode(before, e, parse) == Decoded([], TooLong())
  {
    DecodeRest(before, e, parse);
  }

  lemma NextFull(before: bytes, e: Ending, parse: Parser)
    requires BUFFER_BYTES <= IndexLF(before)
    requires IndexLF(before) < |before| || !TailFits(before, e)
    ensures Decode(before, e, parse) == Decoded([], TooLong())
  {
    if IndexLF(before) < |before| {
      NextOverflow(before, IndexLF(before), e, parse);
    } else {
      NextUnterminated(before, e, parse);
    }
  }

  // ---------------------------------------------------------------- where the limit lies

  /** The reader gives up exactly when the next LF, or the end of the body, is beyond its buffer. */
  lemma FullIff(rest: bytes, e: Ending, line: bytes, end: SliceEnd)
    requires Sliced(rest, e, line, end)
    ensures end == Full <==>
      && 1_048_577 <= IndexLF(rest)
      && (IndexLF(rest) < |rest| || |rest| > 1_048_577 || !e.eager)
  {
  }

  /** A terminated line is decoded up to exactly 1 MiB, and a longer one ends the stream. */
  lemma LineLimit(line: bytes, after: bytes, e: Ending, parse: Parser)
    requires LF !in line
    ensures Decode(line + [LF] + after, e, parse) ==
            if |line| <= 1_048_576 then Consumed(DecodeText(line, parse), Decode(after, e, parse))
            else Decoded([], TooLong())
  {
    var body := line + [LF] + after;
    IndexLFOf(line, after);
    assert body[..|line|] == line && body[|line| + 1..] == after;
    ItemsCons(body, |line|, after, e, parse);
    CutCons(DecodeLine(line, parse), Items(after, e, parse));
  }

  /**
   What a terminated line does, by what is left of it without its CR bytes: a blank line is skipped, a line
   that cannot be parsed ends the stream, and any other is one chunk before those of the lines after it.
  */
  lemma LineByLine(line: bytes, text: bytes, ending: bytes, after: bytes, e: Ending, parse: Parser)
    requires LF !in line && |line| <= 1_048_576
    requires line == text + ending && (forall i :: 0 <= i < |ending| ==> ending[i] == CR)
    requires text != [] ==> text[|text| - 1] != CR
    ensures
      var d, rest := Decode(line + [LF] + after, e, parse), Decode(after, e, parse);
      if text == [] then d == rest
      else match parse(text)
           case None => d.chunks == [] && d.end == Undecodable()
           case Some(c) => d == Decoded([c] + rest.chunks, rest.end)
  {
    LineLimit(line, after, e, parse);
    StripIs(text, ending);
  }

  lemma {:induction false} StripIs(text: bytes, ending: bytes)
    requires forall i :: 0 <= i < |ending| ==> ending[i] == CR
    requires text != [] ==> text[|text| - 1] != CR && text[|text| - 1] != LF
    ensures StripEOL(text + ending) == text
    decreases |ending|
  {
    if ending == [] {
      assert text + ending == text;
    } else {
      var k := |ending| - 1;
      assert (text + ending)[..|text| + k] == text + ending[..k];
      StripIs(text, ending[..k]);
    }
  }

  /**
   What the end of the body does: an unterminated rest is one more line, unless the transport failed, or the
   reader has no room left to see the end.
  */
  lemma LastLine(line: bytes, text: bytes, ending: bytes, e: Ending, parse: Parser)
    requires LF !in line
    requires line == text + ending && (forall i :: 0 <= i < |ending| ==> ending[i] == CR)
    requires text != [] ==> text[|text| - 1] != CR
    ensures
      var d := Decode(line, e, parse);
      if |line| > 1_048_577 || (|line| == 1_048_577 && !e.eager) then d == Decoded([], TooLong())
      else if e.fin != Eof then d == Decoded([], Bridge(0, Some(e.fin)))
      else if text == [] then d == Decoded([], Eof)
      else match parse(text)
           case None => d == Decoded([], Undecodable())
           case Some(c) => d == Decoded([c], Eof)
  {
    IndexNone(line);
    DecodeRest(line, e, parse);
    StripIs(text, ending);
    CutCons(DecodeTail(line, e, parse), []);
    assert [DecodeTail(line, e, parse)] + [] == [DecodeTail(line, e, parse)];
  }

  lemma {:induction false} IndexNone(s: bytes)
    requires LF !in s
    ensures IndexLF(s) == |s|
  {
    if s != [] {
      assert s[0] in s;
      IndexNone(s[1..]);
    }
  }

  /** The errors that end a stream carry no status of the bridge. */
  lemma StreamErrors(cause: Error)
    ensures AsBridge(Wrap(cause)) == Some(Bridge(0, Some(cause))) && IsEof(Wrap(cause)) == IsEof(cause)
    ensures !IsEof(TooLong()) && !IsEof(Undecodable())
    ensures AsBridge(TooLong()).Some? && AsBridge(TooLong()).value.status == 0
    ensures AsBridge(Undecodable()).Some? && AsBridge(Undecodable()).value.status == 0
  {
  }
}
