/** The file-backed bearer-token cache: what one call reads, stores and answers. */
module TokenCache {
  import opened Bytes
  import opened Wrappers

  /** What os.Stat reports and the cache keys on. */
  datatype Stamp = Stamp(mtime: int, size: nat)

  datatype Verdict = Accepted | InvalidToken | NoToken

  /** The fields of a Source, as a value. */
  datatype Cache = Cache(loaded: bool, token: bytes, stamp: Stamp)

  predicate InCutset(b: byte) {
    b == CR || b == LF || b == TAB || b == SPACE
  }

  /** The longest prefix that does not end in CR, LF, TAB or SPACE. */
  function TrimRight(raw: bytes): (token: bytes)
    ensures token <= raw
    ensures token != [] ==> token[|token| - 1] !in [CR, LF, TAB, SPACE]
    ensures forall k :: |token| <= k < |raw| ==> raw[k] in [CR, LF, TAB, SPACE]
  {
    if raw != [] && InCutset(raw[|raw| - 1]) then TrimRight(raw[..|raw| - 1]) else raw
  }

  /** The direct comparison of a candidate with a token. */
  function Judge(candidate: bytes, token: bytes): (v: Verdict)
    ensures v == NoToken <==> token == []
    ensures v == Accepted <==> token != [] && candidate == token
    ensures v == InvalidToken <==> token != [] && candidate != token
  {
    if token == [] then NoToken
    else if candidate == token then Accepted
    else InvalidToken
  }

  predicate Unchanged(c: Cache, stamp: Stamp) {
    c.loaded && stamp == c.stamp
  }

  /** The cache after storing `raw` under the stamp that was taken before it was read. */
  function Refreshed(stamp: Stamp, raw: bytes): Cache {
    Cache(true, TrimRight(raw), stamp)
  }

  class Source {
    var token: bytes
    var mtime: int
    var size: nat
    var loaded: bool

    function Snapshot(): Cache
      reads this
    {
      Cache(loaded, token, Stamp(mtime, size))
    }

    constructor ()
      ensures !loaded && token == []
    {
      token, mtime, size, loaded := [], 0, 0, false;
    }

    /** One reload check; `stat` and `file` are what the file system answers, None being an error. */
    method ReloadIfChanged(stat: Option<Stamp>, file: Option<bytes>) returns (ok: bool)
      modifies this
      ensures stat.None? ==> ok == (old(token) != [])
      ensures stat.Some? ==> ok == (Unchanged(old(Snapshot()), stat.value) || file.Some?)
      ensures Snapshot() ==
              if stat.Some? && !Unchanged(old(Snapshot()), stat.value) && file.Some?
              then Refreshed(stat.value, file.value) else old(Snapshot())
    {
      if stat.None? {
        return |token| > 0;
      }
      if loaded && stat.value == Stamp(mtime, size) {
        return true;
      }
      if file.None? {
        return false;
      }
      token := TrimRight(file.value);
      mtime, size := stat.value.mtime, stat.value.size;
      loaded := true;
      return true;
    }

    /** A whole call that nothing interrupts. */
    method Validate(candidate: bytes, stat: Option<Stamp>, file: Option<bytes>) returns (verdict: Verdict)
      modifies this
      ensures (Snapshot(), verdict) == Alone(old(Snapshot()), candidate, stat, file)
      // a call that sees the file, or has to make do with the cache, compares with the token it leaves
      ensures stat.None? || file.Some? || Unchanged(old(Snapshot()), stat.value) ==>
        && (verdict == NoToken <==> token == [])
        && (verdict == Accepted <==> token != [] && candidate == token)
        && (verdict == InvalidToken <==> token != [] && candidate != token)
      // a file that changed and cannot be read is like no token at all
      ensures stat.Some? && file.None? && !Unchanged(old(Snapshot()), stat.value) ==> verdict == NoToken
    {
      var ok := ReloadIfChanged(stat, file);
      if !ok {
        return NoToken;
      }
      if token == [] {
        return NoToken;
      }
      if candidate != token {
        return InvalidToken;
      }
      return Accepted;
    }
  }

  /** The new cache and the verdict of an uninterrupted call. */
  function Alone(c: Cache, candidate: bytes, stat: Option<Stamp>, file: Option<bytes>): (r: (Cache, Verdict))
    // the answer always agrees with the cache the call leaves behind, or the file could not be read
    ensures r.1 == Judge(candidate, r.0.token) || r.1 == NoToken
    ensures stat.Some? && file.Some? ==> r.1 == Judge(candidate, r.0.token) && Unchanged(r.0, stat.value)
    // an error never disturbs the cache
    ensures stat.None? || file.None? ==> r.0 == c
    ensures stat.None? ==> r.1 == Judge(candidate, c.token)
  {
    match stat
    case None => (c, Judge(candidate, c.token))
    case Some(stamp) =>
      if Unchanged(c, stamp) then (c, Judge(candidate, c.token))
      else match file
        case None => (c, NoToken)
        case Some(raw) => (Refreshed(stamp, raw), Judge(candidate, TrimRight(raw)))
  }
}
