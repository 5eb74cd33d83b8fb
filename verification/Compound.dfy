/**
Compound frames: `execute_compound_inner` chains sub-requests by `NextCommand`, and
`split_compound` takes a frame apart along the same chain.
*/
module Compound {
  import opened Bytes

  const HEADER_SIZE: nat := 64

  datatype FrameError =
    | Truncated(offset: nat)
    | Misaligned(offset: nat)
    | PastEnd(offset: nat, next: nat)
    | NoOperations

  /** Bytes 20..24 of the header at `off`. */
  function NextCommand(data: seq<byte>, off: nat): nat
    requires off + HEADER_SIZE <= |data|
  {
    U32FromLe(data[off + 20..off + 24])
  }

  // ---- Splitting.

  function Split(data: seq<byte>, off: nat): Result<seq<seq<byte>>, FrameError>
    requires off <= |data|
    decreases |data| - off
  {
    if off + HEADER_SIZE > |data| then Err(Truncated(off))
    else if off % 8 != 0 then Err(Misaligned(off))
    else
      var next := NextCommand(data, off);
      if next == 0 then Ok([data[off..]])
      else if off + next > |data| then Err(PastEnd(off, next))
      else match Split(data, off + next)
           case Ok(pieces) => Ok([data[off..off + next]] + pieces)
           case Err(e) => Err(e)
  }

  /** The loop of `split_compound`, with no read outside the frame whatever the bytes say. */
  method SplitCompound(data: seq<byte>) returns (r: Result<seq<seq<byte>>, FrameError>)
    ensures r == Split(data, 0)
  {
    var results: seq<seq<byte>> := [];
    var offset := 0;
    assert forall pieces: seq<seq<byte>> :: results + pieces == pieces;
    while true
      invariant offset <= |data|
      invariant results == [] ==> offset == 0
      invariant Split(data, 0) == match Split(data, offset) {
                                    case Ok(pieces) => Ok(results + pieces)
                                    case Err(e) => Err(e)
                                  }
      decreases |data| - offset
    {
      if offset + HEADER_SIZE > |data| {
        return Err(Truncated(offset));
      }
      if results != [] && offset % 8 != 0 {
        return Err(Misaligned(offset));
      }
      var next := NextCommand(data, offset);
      var end := if next > 0 then offset + next else |data|;
      if end > |data| {
        return Err(PastEnd(offset, next));
      }
      ghost var before := results;
      results := results + [data[offset..end]];
      if next == 0 {
        assert data[offset..end] == data[offset..];
        return Ok(results);
      }
      assert forall pieces :: before + ([data[offset..end]] + pieces) == results + pieces;
      offset := offset + next;
    }
  }

  /** A header fits at each start, each start is 8-aligned, and `NextCommand` leads from each to the next. */
  ghost predicate Chain(data: seq<byte>, starts: seq<nat>) {
    && starts != [] && starts[0] + HEADER_SIZE <= |data| && starts[0] % 8 == 0
    && var next := NextCommand(data, starts[0]);
       if |starts| == 1 then next == 0
       else next > 0 && starts[1] == starts[0] + next && Chain(data, starts[1..])
  }

  /** The stretches between consecutive starts, the last one running to the end. */
  ghost function Pieces(data: seq<byte>, starts: seq<nat>): seq<seq<byte>>
    requires Chain(data, starts)
  {
    if |starts| == 1 then [data[starts[0]..]]
    else assert Chain(data, starts[1..]); [data[starts[0]..starts[1]]] + Pieces(data, starts[1..])
  }

  lemma {:induction false} ChainSplits(data: seq<byte>, starts: seq<nat>)
    requires Chain(data, starts)
    ensures Split(data, starts[0]) == Ok(Pieces(data, starts))
  {
    if |starts| > 1 {
      ChainSplits(data, starts[1..]);
    }
  }

  lemma {:induction false} SplitsChain(data: seq<byte>, off: nat) returns (starts: seq<nat>)
    requires off <= |data| && Split(data, off).Ok?
    ensures Chain(data, starts) && starts[0] == off
    decreases |data| - off
  {
    var next := NextCommand(data, off);
    if next == 0 {
      starts := [off];
    } else {
      var rest := SplitsChain(data, off + next);
      starts := [off] + rest;
      assert starts[1..] == rest;
    }
  }

  lemma {:induction false} SplitConcatenates(data: seq<byte>, off: nat)
    requires off <= |data| && Split(data, off).Ok?
    ensures Concat(Split(data, off).value) == data[off..]
    decreases |data| - off
  {
    var next := NextCommand(data, off);
    if next == 0 {
      assert Concat([data[off..]]) == data[off..] + Concat([]);
    } else {
      SplitConcatenates(data, off + next);
      var pieces := Split(data, off + next).value;
      assert ([data[off..off + next]] + pieces)[1..] == pieces;
      assert data[off..] == data[off..off + next] + data[off + next..];
    }
  }

  /**
  For every byte string: splitting succeeds exactly when the chain from offset 0 is well formed,
  the pieces are the stretches of that chain, and laid end to end they are the input.
  */
  lemma SplitSpecification(data: seq<byte>)
    ensures Split(data, 0).Ok? <==> exists starts :: Chain(data, starts) && starts[0] == 0
    ensures forall starts :: Chain(data, starts) && starts[0] == 0 ==> Split(data, 0) == Ok(Pieces(data, starts))
    ensures Split(data, 0).Ok? ==> Concat(Split(data, 0).value) == data
  {
    forall starts | Chain(data, starts) && starts[0] == 0 ensures Split(data, 0) == Ok(Pieces(data, starts)) {
      ChainSplits(data, starts);
    }
    if Split(data, 0).Ok? {
      var starts := SplitsChain(data, 0);
      SplitConcatenates(data, 0);
      assert data[0..] == data;
    }
  }

  // ---- Building.

  function Pad(sub: seq<byte>): (r: seq<byte>)
    ensures |r| % 8 == 0 && |sub| <= |r| < |sub| + 8 && sub <= r
  {
    if |sub| % 8 == 0 then sub else sub + Zeros(8 - |sub| % 8)
  }

  /** Bytes 20..24 overwritten with the length, cast to u32. */
  function Patch(sub: seq<byte>): (r: seq<byte>)
    requires |sub| >= HEADER_SIZE
    ensures |r| == |sub|
  {
    sub[..20] + U32ToLe(|sub|) + sub[24..]
  }

  ghost predicate Packed(subs: seq<seq<byte>>) {
    forall i :: 0 <= i < |subs| ==> |subs[i]| >= HEADER_SIZE
  }

  /** `f` applied to all but the last. */
  function AllButLast<T>(f: T --> T, xs: seq<T>): (r: seq<T>)
    requires forall i :: 0 <= i < |xs| ==> f.requires(xs[i])
    ensures |r| == |xs|
  {
    if |xs| <= 1 then xs else [f(xs[0])] + AllButLast(f, xs[1..])
  }

  lemma {:induction false} AllButLastAt<T>(f: T --> T, xs: seq<T>, i: nat)
    requires forall i :: 0 <= i < |xs| ==> f.requires(xs[i])
    requires i < |xs|
    ensures AllButLast(f, xs)[i] == if i < |xs| - 1 then f(xs[i]) else xs[i]
    decreases |xs|
  {
    if |xs| > 1 && i > 0 {
      AllButLastAt(f, xs[1..], i - 1);
    }
  }

  /** A sub-request with more to follow. */
  function Linked(sub: seq<byte>): seq<byte>
    requires |sub| >= HEADER_SIZE
  {
    Patch(Pad(sub))
  }

  /** All sub-requests but the last padded and linked; the last as it is. */
  function Framed(subs: seq<seq<byte>>): (r: seq<seq<byte>>)
    requires Packed(subs)
    ensures |r| == |subs|
  {
    AllButLast(Linked, subs)
  }

  lemma FramedAt(subs: seq<seq<byte>>, i: nat)
    requires Packed(subs) && i < |subs|
    ensures Framed(subs)[i] == if i < |subs| - 1 then Patch(Pad(subs[i])) else subs[i]
  {
    AllButLastAt(Linked, subs, i);
  }

  /** The three passes of the builder: pad, link, lay end to end. */
  method BuildCompound(subs: seq<seq<byte>>) returns (r: Result<seq<byte>, FrameError>)
    requires Packed(subs)
    ensures r == if subs == [] then Err(NoOperations) else Ok(Concat(Framed(subs)))
    ensures subs != [] && Sendable(subs) ==>
              && Split(r.value, 0).Ok? && |Split(r.value, 0).value| == |subs|
              && forall i :: 0 <= i < |subs| ==> Carries(Split(r.value, 0).value[i], subs[i], i == |subs| - 1)
  {
    if subs == [] {
      return Err(NoOperations);
    }
    var parts := PadAndLink(subs);
    var buf := LayEndToEnd(parts);
    BuiltFrameCarriesAll(subs);
    return Ok(buf);
  }

  method PadAndLink(subs: seq<seq<byte>>) returns (parts: seq<seq<byte>>)
    requires Packed(subs) && subs != []
    ensures parts == Framed(subs)
  {
    var last := |subs| - 1;
    parts := subs;
    for i := 0 to last
      invariant |parts| == |subs|
      invariant forall k :: 0 <= k < |subs| ==> parts[k] == if k < i then Pad(subs[k]) else subs[k]
    {
      var rem := |parts[i]| % 8;
      if rem != 0 {
        parts := parts[i := parts[i] + Zeros(8 - rem)];
      }
    }
    for i := 0 to last
      invariant |parts| == |subs|
      invariant forall k :: 0 <= k < |subs| ==>
        parts[k] == if k < i then Patch(Pad(subs[k])) else if k < last then Pad(subs[k]) else subs[k]
    {
      parts := parts[i := parts[i][..20] + U32ToLe(|parts[i]|) + parts[i][24..]];
    }
    forall k | 0 <= k < |subs| ensures parts[k] == Framed(subs)[k] {
      FramedAt(subs, k);
    }
  }

  method LayEndToEnd(parts: seq<seq<byte>>) returns (buf: seq<byte>)
    ensures buf == Concat(parts)
  {
    buf := [];
    for i := 0 to |parts|
      invariant buf == Concat(parts[..i])
    {
      ConcatAppend(parts[..i], parts[i]);
      assert parts[..i + 1] == parts[..i] + [parts[i]];
      buf := buf + parts[i];
    }
    assert parts[..|parts|] == parts;
  }

  // ---- The round trip.

  /** Every length the builder links by fits its 32-bit field, and nothing follows the last sub-request. */
  ghost predicate Linkable(subs: seq<seq<byte>>)
    requires Packed(subs) && subs != []
  {
    && (forall i :: 0 <= i < |subs| - 1 ==> |Pad(subs[i])| < U32_LIMIT)
    && NextCommand(subs[|subs| - 1], 0) == 0
  }

  lemma PatchedNext(prefix: seq<byte>, sub: seq<byte>, rest: seq<byte>)
    requires |sub| >= HEADER_SIZE
    ensures NextCommand(prefix + Patch(sub) + rest, |prefix|) == |sub| % U32_LIMIT
  {
    var data := prefix + Patch(sub) + rest;
    assert data[|prefix| + 20..|prefix| + 24] == U32ToLe(|sub|);
    U32RoundTrip(|sub|);
  }

  lemma ConcatCons(first: seq<byte>, rest: seq<seq<byte>>)
    ensures Concat([first] + rest) == first + Concat(rest)
  {
    assert ([first] + rest)[1..] == rest;
  }

  lemma FramedTail(subs: seq<seq<byte>>)
    requires Packed(subs) && |subs| > 1
    ensures Framed(subs) == [Patch(Pad(subs[0]))] + Framed(subs[1..])
    ensures Concat(Framed(subs)) == Patch(Pad(subs[0])) + Concat(Framed(subs[1..]))
  {
    ConcatCons(Linked(subs[0]), Framed(subs[1..]));
  }

  lemma Regroup(a: seq<byte>, b: seq<byte>, c: seq<byte>)
    ensures a + (b + c) == a + b + c
  {
  }

  /** The first piece of a frame with more to come. */
  lemma FirstPiece(prefix: seq<byte>, subs: seq<seq<byte>>) returns (first: seq<byte>)
    requires Packed(subs) && |subs| > 1
    ensures Framed(subs) == [first] + Framed(subs[1..])
    ensures |first| == |Pad(subs[0])|
    ensures prefix + Concat(Framed(subs)) == prefix + first + Concat(Framed(subs[1..]))
    ensures NextCommand(prefix + first + Concat(Framed(subs[1..])), |prefix|) == |first| % U32_LIMIT
  {
    first := Patch(Pad(subs[0]));
    FramedTail(subs);
    Regroup(prefix, first, Concat(Framed(subs[1..])));
    PatchedNext(prefix, Pad(subs[0]), Concat(Framed(subs[1..])));
  }

  lemma RoundTripLast(prefix: seq<byte>, sub: seq<byte>)
    requires |sub| >= HEADER_SIZE && |prefix| % 8 == 0
    ensures Split(prefix + sub, |prefix|) == Ok([sub]) <==> NextCommand(sub, 0) == 0
  {
    var data := prefix + sub;
    assert data[|prefix|..] == sub;
    assert data[|prefix| + 20..|prefix| + 24] == sub[20..24];
    var next := NextCommand(data, |prefix|);
    if next != 0 && Split(data, |prefix|).Ok? {
      assert |Split(data, |prefix|).value| > 1;
    }
  }

  lemma RoundTripLink(data: seq<byte>, off: nat, first: seq<byte>, tail: seq<seq<byte>>)
    requires off % 8 == 0 && |first| >= HEADER_SIZE && off + |first| <= |data| && tail != []
    requires data[off..off + |first|] == first && NextCommand(data, off) == |first| % U32_LIMIT
    ensures Split(data, off) == Ok([first] + tail)
            <==> |first| < U32_LIMIT && Split(data, off + |first|) == Ok(tail)
  {
    if |first| < U32_LIMIT {
      LinkFollowed(data, off, |first|, tail);
    } else {
      WrongLinkIsNoticed(data, off, first, tail);
    }
  }

  lemma SliceInside(a: seq<byte>, b: seq<byte>, c: seq<byte>)
    ensures (a + b + c)[|a|..|a| + |b|] == b
  {
  }

  lemma LinkFollowed(data: seq<byte>, off: nat, len: nat, tail: seq<seq<byte>>)
    requires off % 8 == 0 && 0 < len && off + HEADER_SIZE <= |data| && off + len <= |data|
    requires NextCommand(data, off) == len
    ensures Split(data, off) == Ok([data[off..off + len]] + tail) <==> Split(data, off + len) == Ok(tail)
  {
    if Split(data, off) == Ok([data[off..off + len]] + tail) {
      assert Split(data, off).value[1..] == tail;
      assert Split(data, off + len).value == Split(data, off).value[1..];
    }
  }

  lemma Aligned(a: nat, b: nat)
    requires a % 8 == 0 && b % 8 == 0
    ensures (a + b) % 8 == 0
  {
  }

  lemma RoundTripStep(prefix: seq<byte>, first: seq<byte>, tail: seq<seq<byte>>, rest: seq<byte>)
    requires |prefix| % 8 == 0 && |first| >= HEADER_SIZE && tail != []
    requires NextCommand(prefix + first + rest, |prefix|) == |first| % U32_LIMIT
    ensures Split(prefix + first + rest, |prefix|) == Ok([first] + tail)
            <==> |first| < U32_LIMIT && Split(prefix + first + rest, |prefix + first|) == Ok(tail)
  {
    SliceInside(prefix, first, rest);
    RoundTripLink(prefix + first + rest, |prefix|, first, tail);
  }

  lemma RoundTripOne(prefix: seq<byte>, subs: seq<seq<byte>>)
    requires Packed(subs) && |subs| == 1 && |prefix| % 8 == 0
    ensures Split(prefix + Concat(Framed(subs)), |prefix|) == Ok(Framed(subs)) <==> Linkable(subs)
  {
    assert Framed(subs) == [subs[0]];
    assert Concat([subs[0]]) == subs[0] + Concat([]);
    assert Concat(Framed(subs)) == subs[0];
    RoundTripLast(prefix, subs[0]);
  }

  /** The chain is followed correctly from any aligned point of a frame on. */
  lemma {:induction false} RoundTripFrom(prefix: seq<byte>, subs: seq<seq<byte>>)
    requires Packed(subs) && subs != [] && |prefix| % 8 == 0
    ensures Split(prefix + Concat(Framed(subs)), |prefix|) == Ok(Framed(subs)) <==> Linkable(subs)
    decreases |subs|
  {
    if |subs| == 1 {
      RoundTripOne(prefix, subs);
    } else {
      var first := FirstPiece(prefix, subs);
      RoundTripStep(prefix, first, Framed(subs[1..]), Concat(Framed(subs[1..])));
      Aligned(|prefix|, |first|);
      RoundTripFrom(prefix + first, subs[1..]);
      LinkableTail(subs);
    }
  }

  lemma LinkableTail(subs: seq<seq<byte>>)
    requires Packed(subs) && |subs| > 1
    ensures Linkable(subs) <==> |Pad(subs[0])| < U32_LIMIT && Linkable(subs[1..])
  {
    assert forall i :: 1 <= i < |subs| ==> subs[i] == subs[1..][i - 1];
  }

  lemma WrongLinkIsNoticed(data: seq<byte>, off: nat, first: seq<byte>, tail: seq<seq<byte>>)
    requires off + HEADER_SIZE <= |data| && tail != []
    requires NextCommand(data, off) != |first|
    ensures Split(data, off) != Ok([first] + tail)
  {
    if Split(data, off) == Ok([first] + tail) {
      assert Split(data, off).value[0] == first;
    }
  }

  /**
  Splitting what the builder made returns its padded sub-requests in order, exactly when every
  padded length but the last fits 32 bits and the last sub-request's own `NextCommand` is zero.
  */
  lemma CompoundRoundTrip(subs: seq<seq<byte>>)
    requires Packed(subs) && subs != []
    ensures Split(Concat(Framed(subs)), 0) == Ok(Framed(subs)) <==> Linkable(subs)
  {
    RoundTripFrom([], subs);
    assert [] + Concat(Framed(subs)) == Concat(Framed(subs));
  }

  // ---- What travels.

  /**
  The piece a sub-request travels as: the request as it was packed but for the link field, zeros up to
  a multiple of 8, and in the link field the length of it all. The last travels as it is.
  */
  ghost predicate Carries(piece: seq<byte>, sub: seq<byte>, isLast: bool)
    requires |sub| >= HEADER_SIZE
  {
    if isLast then piece == sub
    else
      && |sub| <= |piece| < |sub| + 8 && |piece| % 8 == 0
      && (forall k :: 0 <= k < |sub| && !(20 <= k < 24) ==> piece[k] == sub[k])
      && (forall k :: |sub| <= k < |piece| ==> piece[k] == 0)
      && U32FromLe(piece[20..24]) == |piece|
  }

  /** Each padded length fits its link field, and nothing is said to follow the last sub-request. */
  ghost predicate Sendable(subs: seq<seq<byte>>)
    requires Packed(subs) && subs != []
  {
    && (forall i :: 0 <= i < |subs| - 1 ==> |subs[i]| <= U32_LIMIT - 8)
    && U32FromLe(subs[|subs| - 1][20..24]) == 0
  }

  lemma SplicedCarries(sub: seq<byte>, padded: seq<byte>, digits: seq<byte>)
    requires |sub| >= HEADER_SIZE && sub <= padded && |padded| < |sub| + 8 && |padded| % 8 == 0
    requires |digits| == 4 && U32FromLe(digits) == |padded|
    requires forall k :: |sub| <= k < |padded| ==> padded[k] == 0
    ensures Carries(padded[..20] + digits + padded[24..], sub, false)
  {
    var piece := padded[..20] + digits + padded[24..];
    assert piece[20..24] == digits;
  }

  lemma LinkedPieceCarries(sub: seq<byte>)
    requires |sub| >= HEADER_SIZE && |sub| <= U32_LIMIT - 8
    ensures Carries(Patch(Pad(sub)), sub, false)
  {
    U32RoundTrip(|Pad(sub)|);
    SplicedCarries(sub, Pad(sub), U32ToLe(|Pad(sub)|));
  }

  lemma SendableIsLinkable(subs: seq<seq<byte>>)
    requires Packed(subs) && subs != [] && Sendable(subs)
    ensures Linkable(subs)
  {
    forall i | 0 <= i < |subs| - 1 ensures |Pad(subs[i])| < U32_LIMIT {
      PadFits(|subs[i]|, |Pad(subs[i])|);
    }
  }

  lemma PadFits(n: nat, padded: nat)
    requires n <= U32_LIMIT - 8 && n <= padded < n + 8
    ensures padded < U32_LIMIT
  {
  }

  /** Taken apart by the receiver's splitter, a built frame yields one piece for each sub-request, which carries it. */
  lemma BuiltFrameCarriesEverySubRequest(subs: seq<seq<byte>>, i: nat)
    requires Packed(subs) && i < |subs| && Sendable(subs)
    ensures var pieces := Split(Concat(Framed(subs)), 0);
            pieces.Ok? && |pieces.value| == |subs| && Carries(pieces.value[i], subs[i], i == |subs| - 1)
  {
    SendableIsLinkable(subs);
    CompoundRoundTrip(subs);
    FramedAt(subs, i);
    if i < |subs| - 1 {
      LinkedPieceCarries(subs[i]);
    }
  }

  lemma BuiltFrameCarriesAll(subs: seq<seq<byte>>)
    requires Packed(subs) && subs != []
    ensures var pieces := Split(Concat(Framed(subs)), 0);
            Sendable(subs) ==>
              && pieces.Ok? && |pieces.value| == |subs|
              && forall i :: 0 <= i < |subs| ==> Carries(pieces.value[i], subs[i], i == |subs| - 1)
  {
    if Sendable(subs) {
      BuiltFrameCarriesEverySubRequest(subs, 0);
      forall i | 0 <= i < |subs|
        ensures Carries(Split(Concat(Framed(subs)), 0).value[i], subs[i], i == |subs| - 1)
      {
        BuiltFrameCarriesEverySubRequest(subs, i);
      }
    }
  }

  // ---- Why a frame is refused.

  /** The links lead from `off` over `starts`, each with room for a header and aligned, to `last`. */
  ghost predicate LeadsTo(data: seq<byte>, off: nat, starts: seq<nat>, last: nat)
    decreases |starts|
  {
    if starts == [] then off == last
    else
      && starts[0] == off && off + HEADER_SIZE <= |data| && off % 8 == 0
      && NextCommand(data, off) > 0 && LeadsTo(data, off + NextCommand(data, off), starts[1..], last)
  }

  /** What is wrong at `at`. */
  ghost predicate Faulty(data: seq<byte>, at: nat, e: FrameError) {
    match e
    case Truncated(o) => o == at && at + HEADER_SIZE > |data|
    case Misaligned(o) => o == at && at + HEADER_SIZE <= |data| && at % 8 != 0
    case PastEnd(o, next) =>
      && o == at && at + HEADER_SIZE <= |data| && at % 8 == 0
      && next == NextCommand(data, at) && at + next > |data|
    case NoOperations => false
  }

  /** Every refusal names the first place the chain leads to where something is wrong, and what. */
  lemma {:induction false} RefusalsAreExact(data: seq<byte>, off: nat) returns (starts: seq<nat>, at: nat)
    requires off <= |data| && Split(data, off).Err?
    ensures LeadsTo(data, off, starts, at) && Faulty(data, at, Split(data, off).error)
    decreases |data| - off
  {
    if off + HEADER_SIZE > |data| || off % 8 != 0 || off + NextCommand(data, off) > |data| {
      starts, at := [], off;
    } else {
      var rest;
      rest, at := RefusalsAreExact(data, off + NextCommand(data, off));
      starts := [off] + rest;
      assert starts[1..] == rest;
    }
  }
}
