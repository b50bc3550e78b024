/** Server-Sent Events: the frames the gateway writes, and how a client reads them back. */
module Sse {
  import opened Bytes
  import opened Wrappers

  const COLON: byte := 58

  /** "event", "data" and "message" in ASCII. */
  const EVENT: bytes := [101, 118, 101, 110, 116]
  const DATA: bytes := [100, 97, 116, 97]
  const MESSAGE: bytes := [109, 101, 115, 115, 97, 103, 101]

  datatype Frame = Frame(kind: bytes, data: bytes)

  predicate NoBreak(s: bytes) {
    LF !in s && CR !in s
  }

  predicate WellFormed(f: Frame) {
    f.kind != [] && NoBreak(f.kind) && NoBreak(f.data)
  }

  // ---------------------------------------------------------------- writing

  /** The three writes of one frame. */
  function Head(kind: bytes): bytes {
    EVENT + [COLON, SPACE] + kind + [LF] + DATA + [COLON, SPACE]
  }

  function FrameBytes(f: Frame): bytes {
    Head(f.kind) + (f.data + [LF]) + [LF]
  }

  function Wire(frames: seq<Frame>): bytes {
    if frames == [] then [] else FrameBytes(frames[0]) + Wire(frames[1..])
  }

  /** What arrives of `sent` at a client whose connection breaks after `limit` bytes. */
  function Delivered(sent: bytes, limit: Option<nat>): bytes {
    if limit.None? || |sent| <= limit.value then sent else sent[..limit.value]
  }

  lemma Names()
    ensures EVENT == Ascii("event") && DATA == Ascii("data") && MESSAGE == Ascii("message") && [COLON] == Ascii(":")
  {
  }

  /** A frame is an event line, a data line and a blank line. */
  lemma FrameText(f: Frame)
    ensures FrameBytes(f) == Ascii("event: ") + f.kind + Ascii("\ndata: ") + f.data + Ascii("\n\n")
  {
    assert Ascii("event: ") == EVENT + [COLON, SPACE];
    assert Ascii("\ndata: ") == [LF] + DATA + [COLON, SPACE];
    assert Ascii("\n\n") == [LF] + [LF];
  }

  // ---------------------------------------------------------------- reading

  /** The position of the first CR or LF, or the length. */
  function IndexBreak(s: bytes): (i: nat)
    ensures i <= |s|
    ensures i < |s| ==> s[i] == LF || s[i] == CR
  {
    if s == [] || s[0] == LF || s[0] == CR then 0 else 1 + IndexBreak(s[1..])
  }

  function IndexColon(s: bytes): (i: nat)
    ensures i <= |s|
    ensures i < |s| ==> s[i] == COLON
    ensures forall k :: 0 <= k < i ==> s[k] != COLON
  {
    if s == [] || s[0] == COLON then 0 else 1 + IndexColon(s[1..])
  }

  function DropSpace(s: bytes): bytes {
    if s != [] && s[0] == SPACE then s[1..] else s
  }

  /** Field name and value of a line; a comment, which starts with a colon, has the empty name. */
  function Field(line: bytes): (bytes, bytes) {
    var i := IndexColon(line);
    if i == |line| then (line, []) else (line[..i], DropSpace(line[i + 1..]))
  }

  /** The event type buffer after a line. */
  function NextKind(line: bytes, kind: bytes): bytes {
    if Field(line).0 == EVENT then Field(line).1 else kind
  }

  /** The data buffer after a line. */
  function NextData(line: bytes, data: bytes): bytes {
    if Field(line).0 == DATA then data + Field(line).1 + [LF] else data
  }

  /** What a blank line dispatches. */
  function Dispatch(kind: bytes, data: bytes): seq<Frame> {
    if data == [] then [] else [Frame(if kind == [] then MESSAGE else kind, data[..|data| - 1])]
  }

  /**
   Section 9.2.6 of the WHATWG HTML standard: lines end in CR LF, CR or LF, and what is still
   buffered when the input ends is discarded.
  */
  function Interpret(s: bytes, kind: bytes, data: bytes): seq<Frame>
    decreases |s|
  {
    var i := IndexBreak(s);
    if i == |s| then []
    else
      var rest := s[i + (if s[i] == CR && i + 1 < |s| && s[i + 1] == LF then 2 else 1)..];
      if i == 0 then Dispatch(kind, data) + Interpret(rest, [], [])
      else Interpret(rest, NextKind(s[..i], kind), NextData(s[..i], data))
  }

  /** One leading byte order mark is dropped. */
  function DropMark(s: bytes): bytes {
    if |s| >= 3 && s[0] == 239 && s[1] == 187 && s[2] == 191 then s[3..] else s
  }

  function Parse(s: bytes): seq<Frame> {
    Interpret(DropMark(s), [], [])
  }

  // ---------------------------------------------------------------- round trip

  lemma {:induction false} BreakAfter(line: bytes, s: bytes)
    requires NoBreak(line) && line <= s
    ensures |s| == |line| || s[|line|] == LF ==> IndexBreak(s) == |line|
  {
    if line != [] {
      assert s[0] == line[0] && line[0] in line;
      assert line[1..] <= s[1..];
      BreakAfter(line[1..], s[1..]);
    }
  }

  lemma LineStep(s: bytes, line: bytes, rest: bytes, kind: bytes, data: bytes)
    requires NoBreak(line) && line != [] && s == line + [LF] + rest
    ensures Interpret(s, kind, data) == Interpret(rest, NextKind(line, kind), NextData(line, data))
  {
    BreakAfter(line, s);
    assert s[|line|] == LF && s[..|line|] == line && s[|line| + 1..] == rest;
  }

  lemma BlankStep(s: bytes, rest: bytes, kind: bytes, data: bytes)
    requires s == [LF] + rest
    ensures Interpret(s, kind, data) == Dispatch(kind, data) + Interpret(rest, [], [])
  {
    assert s[1..] == rest;
  }

  lemma NoLine(s: bytes, kind: bytes, data: bytes)
    requires NoBreak(s)
    ensures Interpret(s, kind, data) == []
  {
    BreakAfter(s, s);
  }

  lemma FieldOf(name: bytes, value: bytes)
    requires COLON !in name
    ensures Field(name + [COLON, SPACE] + value) == (name, value)
  {
    var line := name + [COLON, SPACE] + value;
    assert line[|name|] == COLON;
    assert forall k :: 0 <= k < |name| ==> line[k] == name[k];
    assert IndexColon(line) == |name|;
    assert line[..|name|] == name;
    assert line[|name| + 1..] == [SPACE] + value;
  }

  function EventLine(f: Frame): bytes { EVENT + [COLON, SPACE] + f.kind }
  function DataLine(f: Frame): bytes { DATA + [COLON, SPACE] + f.data }

  lemma FrameShape(f: Frame)
    requires WellFormed(f)
    ensures FrameBytes(f) == EventLine(f) + [LF] + DataLine(f) + [LF] + [LF]
    ensures NoBreak(EventLine(f)) && NoBreak(DataLine(f)) && EventLine(f) != [] && DataLine(f) != []
  {
  }

  lemma FrameFields(f: Frame)
    ensures NextKind(EventLine(f), []) == f.kind && NextData(EventLine(f), []) == []
    ensures NextKind(DataLine(f), f.kind) == f.kind && NextData(DataLine(f), []) == f.data + [LF]
    ensures Dispatch(f.kind, f.data + [LF]) == [Frame(if f.kind == [] then MESSAGE else f.kind, f.data)]
  {
    FieldOf(EVENT, f.kind);
    FieldOf(DATA, f.data);
    assert |DATA| != |EVENT|;
    assert (f.data + [LF])[..|f.data|] == f.data;
    assert [] + f.data + [LF] == f.data + [LF];
  }

  /** A whole frame is dispatched, and what follows it is read from empty buffers. */
  lemma FrameStep(s: bytes, f: Frame, rest: bytes)
    requires WellFormed(f) && s == FrameBytes(f) + rest
    ensures Interpret(s, [], []) == [f] + Interpret(rest, [], [])
  {
    var a, b := EventLine(f), DataLine(f);
    var s2 := [LF] + rest;
    var s1 := b + [LF] + s2;
    FrameShape(f);
    FrameFields(f);
    assert s == a + [LF] + s1;
    LineStep(s, a, s1, [], []);
    LineStep(s1, b, s2, f.kind, []);
    BlankStep(s2, rest, f.kind, f.data + [LF]);
  }

  /** Part of one line, or the whole of it, dispatches nothing. */
  lemma CutLine(b: bytes, s: bytes, kind: bytes, data: bytes)
    requires NoBreak(b) && b != [] && s <= b + [LF]
    ensures Interpret(s, kind, data) == []
  {
    if |s| <= |b| {
      assert s == b[..|s|];
      NoLine(s, kind, data);
    } else {
      assert s == b + [LF] + [];
      LineStep(s, b, [], kind, data);
    }
  }

  /** Nor do two lines that are not followed by a blank one. */
  lemma CutLines(a: bytes, b: bytes, s: bytes)
    requires NoBreak(a) && NoBreak(b) && a != [] && b != []
    requires s <= (a + [LF]) + (b + [LF])
    ensures Interpret(s, [], []) == []
  {
    if |s| <= |a| + 1 {
      assert s == (a + [LF])[..|s|];
      CutLine(a, s, [], []);
    } else {
      var part := (b + [LF])[..|s| - |a| - 1];
      assert s == a + [LF] + part;
      LineStep(s, a, part, [], []);
      CutLine(b, part, NextKind(a, []), NextData(a, []));
    }
  }

  /** A frame that is cut anywhere before its last byte is not seen at all. */
  lemma CutFrame(f: Frame, n: nat)
    requires WellFormed(f) && n < |FrameBytes(f)|
    ensures Interpret(FrameBytes(f)[..n], [], []) == []
  {
    FrameShape(f);
    assert FrameBytes(f)[..n] <= (EventLine(f) + [LF]) + (DataLine(f) + [LF]);
    CutLines(EventLine(f), DataLine(f), FrameBytes(f)[..n]);
  }

  /** The number of frames that arrive whole within `n` bytes. */
  function Whole(frames: seq<Frame>, n: nat): (m: nat)
    ensures m <= |frames|
  {
    if frames == [] || n < |FrameBytes(frames[0])| then 0
    else 1 + Whole(frames[1..], n - |FrameBytes(frames[0])|)
  }

  ghost predicate AllWellFormed(frames: seq<Frame>) {
    forall i :: 0 <= i < |frames| ==> WellFormed(frames[i])
  }

  lemma WholeCons(frames: seq<Frame>, m: nat)
    requires frames != [] && m <= |frames[1..]|
    ensures frames[..m + 1] == [frames[0]] + frames[1..][..m]
  {
  }

  /** Cutting a concatenation cuts its first part, or leaves that whole. */
  lemma CutWire(a: bytes, b: bytes, n: nat)
    requires n <= |a + b|
    ensures (a + b)[..n] == if n < |a| then a[..n] else a + b[..n - |a|]
  {
  }

  /** A first frame that is cut is not seen ... */
  lemma FirstCut(frames: seq<Frame>, n: nat)
    requires frames != [] && WellFormed(frames[0]) && n < |FrameBytes(frames[0])|
    ensures Interpret(Wire(frames)[..n], [], []) == []
  {
    CutWire(FrameBytes(frames[0]), Wire(frames[1..]), n);
    CutFrame(frames[0], n);
  }

  /** ... and one that arrived whole is read before what follows it. */
  lemma FirstWhole(frames: seq<Frame>, n: nat)
    requires frames != [] && WellFormed(frames[0])
    requires |FrameBytes(frames[0])| <= n <= |Wire(frames)|
    ensures Interpret(Wire(frames)[..n], [], [])
         == [frames[0]] + Interpret(Wire(frames[1..])[..n - |FrameBytes(frames[0])|], [], [])
  {
    var after := Wire(frames[1..])[..n - |FrameBytes(frames[0])|];
    CutWire(FrameBytes(frames[0]), Wire(frames[1..]), n);
    FrameStep(Wire(frames)[..n], frames[0], after);
  }

  lemma {:induction false} InterpretCut(frames: seq<Frame>, n: nat)
    requires AllWellFormed(frames) && n <= |Wire(frames)|
    ensures Interpret(Wire(frames)[..n], [], []) == frames[..Whole(frames, n)]
  {
    if frames == [] {
      NoLine([], [], []);
    } else if n < |FrameBytes(frames[0])| {
      FirstCut(frames, n);
    } else {
      var rest, left := frames[1..], n - |FrameBytes(frames[0])|;
      InterpretCut(rest, left);
      FirstWhole(frames, n);
      WholeCons(frames, Whole(rest, left));
    }
  }

  lemma {:induction false} WholeAll(frames: seq<Frame>, n: nat)
    requires |Wire(frames)| <= n
    ensures Whole(frames, n) == |frames|
  {
    if frames != [] {
      WholeAll(frames[1..], n - |FrameBytes(frames[0])|);
    }
  }

  lemma NoMark(frames: seq<Frame>, n: nat)
    requires n <= |Wire(frames)|
    ensures DropMark(Wire(frames)[..n]) == Wire(frames)[..n]
  {
    if n > 0 {
      assert Wire(frames)[0] == EVENT[0];
    }
  }

  /**
   Round trip: a client gets exactly the frames written, in order; if the connection breaks after any
   number of bytes it gets exactly the frames that arrived whole.
  */
  lemma RoundTrip(frames: seq<Frame>, limit: Option<nat>)
    requires AllWellFormed(frames)
    ensures Parse(Delivered(Wire(frames), limit)) ==
            if limit.None? then frames else frames[..Whole(frames, limit.value)]
  {
    var size := |Wire(frames)|;
    var n := if limit.None? || size <= limit.value then size else limit.value;
    assert Delivered(Wire(frames), limit) == Wire(frames)[..n];
    NoMark(frames, n);
    InterpretCut(frames, n);
    if limit.None? || size <= limit.value {
      WholeAll(frames, size);
      if limit.Some? {
        WholeAll(frames, limit.value);
      }
    }
  }
}
