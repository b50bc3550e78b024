/** Request IDs: which are accepted from callers, which are made, and where they can be found again. */
module RequestId {
  import opened Bytes
  import opened Wrappers

  const MAX_CALLER_ID_LEN: nat := 128

  const HASH: byte := 35

  /** 0-9 a-z A-Z - _ . : / */
  predicate IdByte(c: byte) {
    48 <= c <= 57 || 97 <= c <= 122 || 65 <= c <= 90 || c == 45 || c == 95 || c == 46 || c == 58 || c == 47
  }

  ghost predicate ValidId(id: bytes) {
    0 < |id| <= MAX_CALLER_ID_LEN && forall c :: c in id ==> IdByte(c)
  }

  method ValidCallerId(id: bytes) returns (ok: bool)
    ensures ok <==> ValidId(id)
    ensures ok <==> 1 <= |id| <= 128 && forall i :: 0 <= i < |id| ==>
      var c := id[i] as char;
      '0' <= c <= '9' || 'a' <= c <= 'z' || 'A' <= c <= 'Z' || c in ['-', '_', '.', ':', '/']
  {
    if id == [] || |id| > MAX_CALLER_ID_LEN {
      return false;
    }
    for i := 0 to |id|
      invariant forall k :: 0 <= k < i ==> IdByte(id[k])
    {
      if !IdByte(id[i]) {
        assert id[i] in id;
        return false;
      }
    }
    return true;
  }

  function HexDigit(d: nat): (c: byte)
    requires d < 16
    ensures 48 <= c <= 57 || 97 <= c <= 102
  {
    if d < 10 then 48 + d as byte else 87 + d as byte
  }

  /** Lower-case hexadecimal of exactly 2 * |random| digits. */
  function EncodeHex(random: bytes): (id: bytes)
    ensures |id| == 2 * |random|
    ensures forall c :: c in id ==> 48 <= c <= 57 || 97 <= c <= 102
  {
    if random == [] then []
    else [HexDigit(random[0] as nat / 16), HexDigit(random[0] as nat % 16)] + EncodeHex(random[1..])
  }

  /** `%016x`: the hexadecimal digits of a 64-bit number, padded to `width`. */
  function PaddedHex(n: nat, width: nat): (id: bytes)
    ensures |id| == width
    ensures forall c :: c in id ==> 48 <= c <= 57 || 97 <= c <= 102
  {
    if width == 0 then [] else PaddedHex(n / 16, width - 1) + [HexDigit(n % 16)]
  }

  /** The number that hexadecimal digits denote. */
  function HexValue(id: bytes): nat {
    if id == [] then 0
    else
      var c := id[|id| - 1] as int;
      16 * HexValue(id[..|id| - 1]) + if 48 <= c <= 57 then c - 48 else if 97 <= c <= 102 then c - 87 else 0
  }

  /** The number that bytes denote, most significant first. */
  function BigEndian(b: bytes): nat {
    if b == [] then 0 else 256 * BigEndian(b[..|b| - 1]) + b[|b| - 1] as nat
  }

  function Pow16(k: nat): nat {
    if k == 0 then 1 else 16 * Pow16(k - 1)
  }

  lemma HexAppend(id: bytes, d: nat)
    requires d < 16
    ensures HexValue(id + [HexDigit(d)]) == 16 * HexValue(id) + d
  {
    assert (id + [HexDigit(d)])[..|id|] == id;
  }

  lemma {:induction false} EncodeHexAppend(b: bytes, c: byte)
    ensures EncodeHex(b + [c]) == EncodeHex(b) + [HexDigit(c as nat / 16)] + [HexDigit(c as nat % 16)]
  {
    if b == [] {
      assert b + [c] == [c] && [c][1..] == [];
    } else {
      assert (b + [c])[1..] == b[1..] + [c];
      EncodeHexAppend(b[1..], c);
    }
  }

  /** No randomness is lost in the encoding ... */
  lemma {:induction false} EncodeHexValue(b: bytes)
    ensures HexValue(EncodeHex(b)) == BigEndian(b)
  {
    if b != [] {
      var init, c := b[..|b| - 1], b[|b| - 1];
      assert b == init + [c];
      EncodeHexAppend(init, c);
      EncodeHexValue(init);
      HexAppend(EncodeHex(init), c as nat / 16);
      HexAppend(EncodeHex(init) + [HexDigit(c as nat / 16)], c as nat % 16);
    }
  }

  /** ... nor is any of a number that fits the width. */
  lemma {:induction false} PaddedHexValue(n: nat, width: nat)
    requires n < Pow16(width)
    ensures HexValue(PaddedHex(n, width)) == n
  {
    if width > 0 {
      PaddedHexValue(n / 16, width - 1);
      HexAppend(PaddedHex(n / 16, width - 1), n % 16);
    }
  }

  /** New: eight random bytes, or the clock when there are none; sixteen hexadecimal digits either way. */
  method New(random: Option<bytes>, nanos: nat) returns (id: bytes)
    requires random.Some? ==> |random.value| == 8
    requires nanos < 0x1_0000_0000_0000_0000
    ensures |id| == 16 && forall c :: c in id ==> 48 <= c <= 57 || 97 <= c <= 102
    ensures ValidId(id)
    ensures HexValue(id) == if random.None? then nanos else BigEndian(random.value)
  {
    if random.None? {
      assert Pow16(8) == 0x1_0000_0000;
      assert Pow16(16) == 0x1_0000_0000_0000_0000;
      PaddedHexValue(nanos, 16);
      return PaddedHex(nanos, 16);
    }
    EncodeHexValue(random.value);
    return EncodeHex(random.value);
  }

  /** The ID that goes on the response header and the request context. */
  method Assign(header: bytes, random: Option<bytes>, nanos: nat) returns (id: bytes)
    requires random.Some? ==> |random.value| == 8
    requires nanos < 0x1_0000_0000_0000_0000
    ensures ValidId(id) && (ValidId(header) ==> id == header)
    ensures !ValidId(header) ==>
      |id| == 16 && HexValue(id) == if random.None? then nanos else BigEndian(random.value)
  {
    id := header;
    var ok := ValidCallerId(id);
    if !ok {
      id := New(random, nanos);
    }
  }

  /** The instance of a problem document, section 3.1 of RFC 7807. */
  function InstanceUri(path: bytes, id: bytes): bytes {
    if id == [] then path else path + [HASH] + id
  }

  /** The part before and after the last '#'. */
  function CutLastHash(s: bytes): (r: Option<(bytes, bytes)>)
    ensures r.None? <==> HASH !in s
    ensures r.Some? ==> s == r.value.0 + [HASH] + r.value.1 && HASH !in r.value.1
  {
    if s == [] then None
    else if s[|s| - 1] == HASH then Some((s[..|s| - 1], []))
    else match CutLastHash(s[..|s| - 1])
      case None => None
      case Some((before, after)) => Some((before, after + [s[|s| - 1]]))
  }

  /** Path and ID are recovered from the instance, whatever the path contains. */
  lemma {:induction false} InstanceRecovered(path: bytes, id: bytes)
    requires HASH !in id
    ensures CutLastHash(path + [HASH] + id) == Some((path, id))
  {
    var s := path + [HASH] + id;
    if id == [] {
      assert s[..|s| - 1] == path;
    } else {
      var init, last := id[..|id| - 1], id[|id| - 1];
      assert last in id;
      assert s[..|s| - 1] == path + [HASH] + init;
      InstanceRecovered(path, init);
      assert init + [last] == id;
    }
  }

  lemma HashCode()
    ensures [HASH] == Ascii("#")
  {
  }

  /** Without an ID the instance is the bare path. */
  lemma BareInstance(path: bytes)
    ensures InstanceUri(path, []) == path
  {
  }

  /** Which applies to every ID the gateway assigns. */
  lemma AssignedIdRecovered(path: bytes, id: bytes)
    requires ValidId(id)
    ensures CutLastHash(InstanceUri(path, id)) == Some((path, id))
  {
    assert HASH !in id;
    InstanceRecovered(path, id);
  }
}
