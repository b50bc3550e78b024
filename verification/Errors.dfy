/** Go error chains: errors.Is and errors.As walk them from the outside in. */
module Errors {
  import opened Wrappers

  /** `Bridge` is a *bridge.Error; `Other` is any other error, with what it wraps. */
  datatype Error =
    | Eof
    | Bridge(status: int, cause: Option<Error>)
    | Other(text: string, cause: Option<Error>)

  /** errors.Is(e, io.EOF) */
  predicate IsEof(e: Error) {
    match e
    case Eof => true
    case Bridge(_, cause) => cause.Some? && IsEof(cause.value)
    case Other(_, cause) => cause.Some? && IsEof(cause.value)
  }

  /** errors.As(e, &bErr): the outermost *bridge.Error of the chain. */
  function AsBridge(e: Error): (r: Option<Error>)
    ensures r.Some? ==> r.value.Bridge?
  {
    match e
    case Eof => None
    case Bridge(_, _) => Some(e)
    case Other(_, cause) => if cause.None? then None else AsBridge(cause.value)
  }

  /** The error and everything it wraps, from the outside in. */
  function Chain(e: Error): (c: seq<Error>)
    ensures c != [] && c[0] == e
  {
    match e
    case Eof => [e]
    case Bridge(_, cause) => if cause.None? then [e] else [e] + Chain(cause.value)
    case Other(_, cause) => if cause.None? then [e] else [e] + Chain(cause.value)
  }

  /** Position `k` of the chain holds its outermost *bridge.Error. */
  ghost predicate FirstBridge(e: Error, k: nat) {
    k < |Chain(e)| && Chain(e)[k].Bridge? && forall j :: 0 <= j < k ==> !Chain(e)[j].Bridge?
  }

  lemma {:induction false} AsBridgeAt(e: Error, k: nat)
    requires FirstBridge(e, k)
    ensures AsBridge(e) == Some(Chain(e)[k])
  {
    if k > 0 {
      var inner := e.cause.value;
      assert Chain(e) == [e] + Chain(inner);
      assert forall j :: 0 <= j < |Chain(inner)| ==> Chain(inner)[j] == Chain(e)[j + 1];
      AsBridgeAt(inner, k - 1);
    }
  }

  lemma {:induction false} AsBridgeFound(e: Error) returns (k: nat)
    requires AsBridge(e).Some?
    ensures FirstBridge(e, k)
  {
    if e.Bridge? {
      k := 0;
    } else {
      var inner := e.cause.value;
      var j := AsBridgeFound(inner);
      assert Chain(e) == [e] + Chain(inner);
      assert forall i :: 0 < i < |Chain(e)| ==> Chain(e)[i] == Chain(inner)[i - 1];
      k := j + 1;
    }
  }

  lemma {:induction false} AsBridgeMissed(e: Error, k: nat)
    requires AsBridge(e).None? && k < |Chain(e)|
    ensures !Chain(e)[k].Bridge?
  {
    if k > 0 {
      var inner := e.cause.value;
      assert Chain(e) == [e] + Chain(inner);
      AsBridgeMissed(inner, k - 1);
    }
  }

  /** AsBridge finds the first *bridge.Error of the chain, and nothing only when there is none. */
  lemma AsBridgeIsFirst(e: Error)
    ensures forall k: nat :: FirstBridge(e, k) ==> AsBridge(e) == Some(Chain(e)[k])
    ensures AsBridge(e).None? <==> forall k :: 0 <= k < |Chain(e)| ==> !Chain(e)[k].Bridge?
  {
    forall k: nat | FirstBridge(e, k)
      ensures AsBridge(e) == Some(Chain(e)[k])
    {
      AsBridgeAt(e, k);
    }
    if AsBridge(e).None? {
      forall k | 0 <= k < |Chain(e)|
        ensures !Chain(e)[k].Bridge?
      {
        AsBridgeMissed(e, k);
      }
    } else {
      var k := AsBridgeFound(e);
    }
  }

  /** What an error wraps. */
  function Cause(e: Error): Option<Error> {
    if e.Eof? then None else e.cause
  }

  lemma {:induction false} ChainIs(e: Error)
    ensures forall i :: 0 < i < |Chain(e)| ==> Cause(Chain(e)[i - 1]) == Some(Chain(e)[i])
    ensures Cause(Chain(e)[|Chain(e)| - 1]).None?
  {
    if Cause(e).Some? {
      ChainIs(Cause(e).value);
      assert Chain(e) == [e] + Chain(Cause(e).value);
    }
  }

  /** errors.Is(e, io.EOF): it is somewhere in the chain. */
  lemma {:induction false} IsEofIff(e: Error)
    ensures IsEof(e) <==> Eof in Chain(e)
  {
    if Cause(e).Some? {
      IsEofIff(Cause(e).value);
      assert Chain(e) == [e] + Chain(Cause(e).value);
    }
  }
}
