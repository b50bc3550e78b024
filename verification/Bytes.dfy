/** Byte strings and their division into LF-terminated lines. */
module Bytes {
  newtype byte = x: int | 0 <= x < 256

  type bytes = seq<byte>

  const TAB: byte := 9
  const LF: byte := 10
  const CR: byte := 13
  const SPACE: byte := 32

  /** The bytes of an ASCII text. */
  function Ascii(s: string): bytes
    requires forall i :: 0 <= i < |s| ==> s[i] as int < 128
  {
    seq(|s|, i requires 0 <= i < |s| => s[i] as byte)
  }

  lemma Codes()
    ensures Ascii("\t") == [TAB] && Ascii("\n") == [LF] && Ascii("\r") == [CR] && Ascii(" ") == [SPACE]
  {
  }

  /** The complete lines of an input, without their LF, and the unterminated rest. */
  datatype Split = Split(lines: seq<bytes>, tail: bytes)

  /** The position of the first LF, or the length when there is none. */
  function IndexLF(s: bytes): (i: nat)
    ensures i <= |s|
    ensures forall k :: 0 <= k < i ==> s[k] != LF
    ensures i < |s| ==> s[i] == LF
  {
    if s == [] || s[0] == LF then 0
    else 1 + IndexLF(s[1..])
  }

  function SplitLF(s: bytes): Split
    decreases |s|
  {
    var i := IndexLF(s);
    if i == |s| then Split([], s)
    else
      var rest := SplitLF(s[i + 1..]);
      Split([s[..i]] + rest.lines, rest.tail)
  }

  /** The byte string whose lines are `lines` and whose unterminated rest is `tail`. */
  function Joined(lines: seq<bytes>, tail: bytes): bytes {
    if lines == [] then tail else lines[0] + [LF] + Joined(lines[1..], tail)
  }

  ghost predicate NoLF(lines: seq<bytes>) {
    forall l :: l in lines ==> LF !in l
  }

  lemma IndexLFOf(line: bytes, rest: bytes)
    requires LF !in line
    ensures IndexLF(line + [LF] + rest) == |line|
  {
    var s := line + [LF] + rest;
    assert s[|line|] == LF;
    assert forall k :: 0 <= k < |line| ==> s[k] == line[k];
  }

  /** What SplitLF does at the first LF. */
  lemma SplitFirst(s: bytes, i: nat, rest: bytes)
    requires i == IndexLF(s) < |s| && rest == s[i + 1..]
    ensures SplitLF(s) == Split([s[..i]] + SplitLF(rest).lines, SplitLF(rest).tail)
  {
  }

  lemma CutAt(s: bytes, i: nat)
    requires i < |s|
    ensures s == s[..i] + [s[i]] + s[i + 1..]
  {
  }

  lemma SplitNone(s: bytes)
    requires IndexLF(s) == |s|
    ensures SplitLF(s) == Split([], s) && LF !in s
  {
    assert s[..|s|] == s;
  }

  lemma JoinedCons(line: bytes, lines: seq<bytes>, tail: bytes)
    ensures Joined([line] + lines, tail) == line + [LF] + Joined(lines, tail)
  {
    assert ([line] + lines)[1..] == lines;
  }

  /** Splitting is the only division of an input into LF-free pieces: it loses nothing ... */
  lemma {:induction false} SplitSound(s: bytes)
    ensures Joined(SplitLF(s).lines, SplitLF(s).tail) == s
    ensures NoLF(SplitLF(s).lines) && LF !in SplitLF(s).tail
    decreases |s|
  {
    var i := IndexLF(s);
    if i == |s| {
      SplitNone(s);
    } else {
      var line, rest := s[..i], s[i + 1..];
      SplitFirst(s, i, rest);
      CutAt(s, i);
      SplitSound(rest);
      JoinedCons(line, SplitLF(rest).lines, SplitLF(rest).tail);
    }
  }

  /** ... and it recovers every sequence of LF-free lines that was joined. */
  lemma {:induction false} SplitJoined(lines: seq<bytes>, tail: bytes)
    requires NoLF(lines) && LF !in tail
    ensures SplitLF(Joined(lines, tail)) == Split(lines, tail)
    decreases |lines|
  {
    var s := Joined(lines, tail);
    if lines == [] {
      assert s == tail;
    } else {
      var rest := Joined(lines[1..], tail);
      IndexLFOf(lines[0], rest);
      assert s[..|lines[0]|] == lines[0];
      assert s[|lines[0]| + 1..] == rest;
      SplitFirst(s, |lines[0]|, rest);
      SplitJoined(lines[1..], tail);
      assert lines == [lines[0]] + lines[1..];
    }
  }

  lemma {:induction false} JoinedAppend(lines: seq<bytes>, line: bytes)
    ensures Joined(lines + [line], []) == Joined(lines, []) + line + [LF]
  {
    if lines == [] {
      assert lines + [line] == [line];
      assert Joined([line], []) == line + [LF] + Joined([], []);
    } else {
      assert (lines + [line])[1..] == lines[1..] + [line];
      JoinedAppend(lines[1..], line);
      assert Joined(lines + [line], []) == lines[0] + [LF] + Joined(lines[1..] + [line], []);
    }
  }

  /** The concatenation of a sequence of byte strings. */
  function Concat(parts: seq<bytes>): bytes {
    if parts == [] then [] else parts[0] + Concat(parts[1..])
  }
}
