/**
Server-side copy (src/client/copy.rs): batching a byte range into copy requests within the
server's limits, and renegotiating the limits when a request is rejected.
*/
module Copy {
  import opened Bytes

  datatype Limits = Limits(maxChunks: nat, maxChunkSize: nat, maxDataSize: nat)

  const CONSERVATIVE := Limits(16, 1024 * 1024, 16 * 1024 * 1024)

  datatype Chunk = Chunk(sourceOffset: nat, targetOffset: nat, length: nat)

  function AtLeast(n: nat, low: nat): nat {
    if n < low then low else n
  }

  function Sanitized(l: Limits): (r: Limits)
    ensures Sane(r)
    ensures Sane(l) ==> r == l
  {
    var size := AtLeast(l.maxChunkSize, 1);
    Limits(AtLeast(l.maxChunks, 1), size, AtLeast(l.maxDataSize, size))
  }

  /** Sanitizing raises each limit no further than progress needs. */
  lemma SanitizedIsLeast(l: Limits, m: Limits)
    ensures var r := Sanitized(l);
            l.maxChunks <= r.maxChunks && l.maxChunkSize <= r.maxChunkSize && l.maxDataSize <= r.maxDataSize
    ensures Sane(m) && l.maxChunks <= m.maxChunks && l.maxChunkSize <= m.maxChunkSize && l.maxDataSize <= m.maxDataSize
            ==> var r := Sanitized(l);
                r.maxChunks <= m.maxChunks && r.maxChunkSize <= m.maxChunkSize && r.maxDataSize <= m.maxDataSize
  {
  }

  /** Batching within these limits always makes progress. */
  predicate Sane(l: Limits) {
    1 <= l.maxChunks && 1 <= l.maxChunkSize <= l.maxDataSize
  }

  /** How much one request can move. */
  function Capacity(l: Limits): nat {
    Min(l.maxDataSize, l.maxChunks * l.maxChunkSize)
  }

  // ---- One batch.

  /** The chunks lie end to end from `src` and `dst` and cover `len` bytes. */
  ghost predicate Contiguous(chunks: seq<Chunk>, src: nat, dst: nat, len: nat) {
    if chunks == [] then len == 0
    else
      var n := |chunks| - 1;
      var last := chunks[n];
      && 1 <= last.length <= len
      && last.sourceOffset == src + len - last.length && last.targetOffset == dst + len - last.length
      && Contiguous(chunks[..n], src, dst, len - last.length)
  }

  /** A batch covers exactly what is left or what the limits allow, whichever is less. */
  method BuildBatch(baseSrc: nat, baseDst: nat, remaining: nat, limits: Limits)
    returns (chunks: seq<Chunk>, len: nat)
    ensures len == Min(remaining, Min(limits.maxDataSize, limits.maxChunks * limits.maxChunkSize))
    ensures Contiguous(chunks, baseSrc, baseDst, len)
    ensures |chunks| <= limits.maxChunks
    ensures forall i :: 0 <= i < |chunks| ==> chunks[i].length <= limits.maxChunkSize
  {
    chunks, len := [], 0;
    while |chunks| < limits.maxChunks && len < remaining && len < limits.maxDataSize
      invariant len <= remaining && len <= limits.maxDataSize && len <= |chunks| * limits.maxChunkSize
      invariant len == |chunks| * limits.maxChunkSize || len == remaining || len == limits.maxDataSize
      invariant |chunks| <= limits.maxChunks
      invariant Contiguous(chunks, baseSrc, baseDst, len)
      invariant forall i :: 0 <= i < |chunks| ==> chunks[i].length <= limits.maxChunkSize
      decreases limits.maxChunks - |chunks|
    {
      var chunkLen := Min(Min(limits.maxChunkSize, remaining - len), limits.maxDataSize - len);
      if chunkLen == 0 {
        break;
      }
      ContiguousAppend(chunks, baseSrc, baseDst, len, chunkLen);
      OneMoreRow(|chunks|, limits.maxChunkSize);
      chunks := chunks + [Chunk(baseSrc + len, baseDst + len, chunkLen)];
      len := len + chunkLen;
    }
    CapacityReached(|chunks|, len, remaining, limits);
  }

  lemma ContiguousAppend(chunks: seq<Chunk>, src: nat, dst: nat, len: nat, more: nat)
    requires Contiguous(chunks, src, dst, len) && more >= 1
    ensures Contiguous(chunks + [Chunk(src + len, dst + len, more)], src, dst, len + more)
  {
    assert (chunks + [Chunk(src + len, dst + len, more)])[..|chunks|] == chunks;
  }

  lemma OneMoreRow(rows: nat, size: nat)
    ensures (rows + 1) * size == rows * size + size
  {
  }

  lemma CapacityReached(count: nat, len: nat, remaining: nat, limits: Limits)
    requires len <= remaining && len <= limits.maxDataSize && len <= count * limits.maxChunkSize
    requires len == count * limits.maxChunkSize || len == remaining || len == limits.maxDataSize
    requires count <= limits.maxChunks
    requires count == limits.maxChunks || len == remaining || len == limits.maxDataSize || limits.maxChunkSize == 0
    ensures len == Min(remaining, Capacity(limits))
  {
    assert count * limits.maxChunkSize <= limits.maxChunks * limits.maxChunkSize;
  }

  // ---- The server.

  type File = seq<byte>

  /** The byte at `i` after writing `n` bytes of `src` at `to`; writing past the end fills the gap with zeros. */
  function ByteAt(dest: File, src: File, from: nat, to: nat, n: nat, i: nat): byte
    requires n == 0 || from + n <= |src|
  {
    if to <= i < to + n then src[from + (i - to)] else if i < |dest| then dest[i] else 0
  }

  /** A file grown to `size` with zeros. */
  function Stretch(file: File, size: nat): (r: File)
    ensures |r| == Max(|file|, size)
    decreases size - |file|
  {
    if size <= |file| then file else Stretch(file + [0], size)
  }

  function Put(file: File, at: nat, b: byte): File {
    Stretch(file, at + 1)[at := b]
  }

  /** `dest` with `n` bytes of `src` written at `to`, one after the other. */
  function Overlay(dest: File, src: File, from: nat, to: nat, n: nat): File
    requires n == 0 || from + n <= |src|
  {
    if n == 0 then dest else Put(Overlay(dest, src, from, to, n - 1), to + n - 1, src[from + n - 1])
  }

  lemma {:induction false} StretchKeeps(file: File, size: nat, i: nat)
    requires i < Max(|file|, size)
    ensures Stretch(file, size)[i] == if i < |file| then file[i] else 0
    decreases size - |file|
  {
    if |file| < size {
      StretchKeeps(file + [0], size, i);
    }
  }

  /** Those bytes are written and nothing else is changed. */
  lemma {:induction false} OverlayWritesOnlyThat(dest: File, src: File, from: nat, to: nat, n: nat, i: nat)
    requires n == 0 || from + n <= |src|
    ensures var r := Overlay(dest, src, from, to, n);
            && |r| == (if n == 0 then |dest| else Max(|dest|, to + n))
            && (i < |r| ==> r[i] == ByteAt(dest, src, from, to, n, i))
  {
    if n > 0 {
      OverlayWritesOnlyThat(dest, src, from, to, n - 1, i);
      var before := Overlay(dest, src, from, to, n - 1);
      if i < Max(|before|, to + n) {
        StretchKeeps(before, to + n, i);
      }
    }
  }

  /** The first `n` bytes of the chunks are there to be copied. */
  predicate Present(src: File, chunks: seq<Chunk>, n: nat)
    decreases |chunks|
  {
    chunks == [] || n == 0
    || (var k := Min(n, chunks[0].length);
        chunks[0].sourceOffset + k <= |src| && Present(src, chunks[1..], n - k))
  }

  /** What a server that copies the first `n` bytes of a batch, chunk after chunk, leaves behind. */
  function CopyChunks(dest: File, src: File, chunks: seq<Chunk>, n: nat): File
    requires Present(src, chunks, n)
    decreases |chunks|
  {
    if chunks == [] || n == 0 then dest
    else
      var k := Min(n, chunks[0].length);
      CopyChunks(Overlay(dest, src, chunks[0].sourceOffset, chunks[0].targetOffset, k), src, chunks[1..], n - k)
  }

  /** The chunks from the front: the first starts at the base, the rest follow on. */
  lemma {:induction false} ContiguousFront(chunks: seq<Chunk>, src: nat, dst: nat, len: nat)
    requires Contiguous(chunks, src, dst, len) && chunks != []
    ensures 1 <= chunks[0].length <= len && chunks[0].sourceOffset == src && chunks[0].targetOffset == dst
    ensures Contiguous(chunks[1..], src + chunks[0].length, dst + chunks[0].length, len - chunks[0].length)
  {
    var n := |chunks| - 1;
    if n > 0 {
      var last := chunks[n];
      ContiguousFront(chunks[..n], src, dst, len - last.length);
      assert chunks[1..][..n - 1] == chunks[..n][1..];
      assert chunks[1..][n - 1] == last;
    }
  }

  lemma {:induction false} ContiguousPresent(file: File, chunks: seq<Chunk>, src: nat, dst: nat, len: nat, n: nat)
    requires Contiguous(chunks, src, dst, len) && n <= len && src + n <= |file|
    ensures Present(file, chunks, n)
    decreases |chunks|
  {
    if chunks != [] && n > 0 {
      ContiguousFront(chunks, src, dst, len);
      var k := Min(n, chunks[0].length);
      if k < n {
        ContiguousPresent(file, chunks[1..], src + k, dst + k, len - k, n - k);
      }
    }
  }

  lemma OverlayNothing(dest: File, src: File, from: nat, to: nat)
    ensures Overlay(dest, src, from, to, 0) == dest
  {
  }

  lemma {:induction false} OverlayTwice(dest: File, src: File, from: nat, to: nat, a: nat, b: nat)
    requires from + a + b <= |src|
    ensures Overlay(Overlay(dest, src, from, to, a), src, from + a, to + a, b) == Overlay(dest, src, from, to, a + b)
    decreases b
  {
    if b > 0 {
      OverlayTwice(dest, src, from, to, a, b - 1);
      assert a + (b - 1) == a + b - 1;
    }
  }

  /** The first chunk is more than is left to copy. */
  lemma PartOfAChunk(dest: File, src: File, chunks: seq<Chunk>, from: nat, to: nat, n: nat)
    requires chunks != [] && 0 < n <= chunks[0].length && from + n <= |src| && Present(src, chunks, n)
    requires chunks[0].sourceOffset == from && chunks[0].targetOffset == to
    ensures CopyChunks(dest, src, chunks, n) == Overlay(dest, src, from, to, n)
  {
    assert CopyChunks(Overlay(dest, src, from, to, n), src, chunks[1..], 0) == Overlay(dest, src, from, to, n);
  }

  /** The first chunk whole, and the rest of the batch after it. */
  lemma WholeChunk(dest: File, src: File, chunks: seq<Chunk>, from: nat, to: nat, n: nat)
    requires chunks != [] && 0 < chunks[0].length < n && from + n <= |src| && Present(src, chunks, n)
    requires chunks[0].sourceOffset == from && chunks[0].targetOffset == to
    ensures var first := chunks[0].length;
            && Present(src, chunks[1..], n - first)
            && CopyChunks(dest, src, chunks, n)
               == CopyChunks(Overlay(dest, src, from, to, first), src, chunks[1..], n - first)
  {
  }

  /** Copying a contiguous batch chunk by chunk moves one contiguous range. */
  lemma {:induction false} BatchMovesOneRange(
      dest: File, src: File, chunks: seq<Chunk>, from: nat, to: nat, len: nat, n: nat)
    requires Contiguous(chunks, from, to, len) && n <= len && (n == 0 || from + n <= |src|)
    requires Present(src, chunks, n)
    ensures CopyChunks(dest, src, chunks, n) == Overlay(dest, src, from, to, n)
    decreases |chunks|
  {
    if chunks == [] || n == 0 {
      OverlayNothing(dest, src, from, to);
    } else {
      ContiguousFront(chunks, from, to, len);
      var first := chunks[0].length;
      if n <= first {
        PartOfAChunk(dest, src, chunks, from, to, n);
      } else {
        var moved := Overlay(dest, src, from, to, first);
        WholeChunk(dest, src, chunks, from, to, n);
        BatchMovesOneRange(moved, src, chunks[1..], from + first, to + first, len - first, n - first);
        OverlayTwice(dest, src, from, to, first, n - first);
        assert first + (n - first) == n;
      }
    }
  }

  // ---- The copy loop.

  /** The answer to one copy request: `total` bytes written, limits advertised, or an error. */
  datatype Reply = Copied(total: nat) | Rejected(limits: Limits) | Refused

  datatype Progress = Running(copied: nat, limits: Limits) | Done(copied: nat) | WroteNothing | NoSmallerLimits | Failed

  function Begin(length: nat): Progress {
    if length == 0 then Done(0) else Running(0, Sanitized(CONSERVATIVE))
  }

  function Advance(p: Progress, length: nat, reply: Reply): Progress
    requires p.Running? && p.copied < length
  {
    match reply
    case Refused => Failed
    case Copied(total) =>
      if total == 0 then WroteNothing
      else
        var copied := p.copied + Written(p, length, total);
        if copied < length then Running(copied, p.limits) else Done(copied)
    case Rejected(advertised) =>
      if Sanitized(advertised) == p.limits then NoSmallerLimits else Running(p.copied, Sanitized(advertised))
  }

  ghost predicate Proper(p: Progress, length: nat) {
    && (p.Running? ==> p.copied < length && Sane(p.limits))
    && (p.Done? ==> p.copied == length)
  }

  lemma AdvanceIsProper(p: Progress, length: nat, reply: Reply)
    requires p.Running? && Proper(p, length)
    ensures Proper(Advance(p, length, reply), length)
    ensures Capacity(p.limits) >= 1
    ensures Advance(p, length, reply).Running? && reply.Copied? ==> Advance(p, length, reply).copied > p.copied
  {
    assert p.limits.maxChunks * p.limits.maxChunkSize >= 1;
  }

  function Run(p: Progress, length: nat, replies: seq<Reply>): Progress
    requires p.Running? ==> p.copied < length
    decreases |replies|
  {
    if !p.Running? || replies == [] then p
    else Run(Advance(p, length, replies[0]), length, replies[1..])
  }

  /** A server that says it wrote bytes had them to write: no accepted request claims more than `available`. */
  ghost predicate Honest(p: Progress, length: nat, replies: seq<Reply>, available: int)
    requires p.Running? ==> p.copied < length
    decreases |replies|
  {
    !p.Running? || replies == []
    || (&& (replies[0].Copied? ==> p.copied + Written(p, length, replies[0].total) <= available)
        && Honest(Advance(p, length, replies[0]), length, replies[1..], available))
  }

  /** What an accepted request counts for. */
  function Written(p: Progress, length: nat, total: nat): nat
    requires p.Running? && p.copied < length
  {
    Min(total, Min(length - p.copied, Capacity(p.limits)))
  }

  /** The limits in use after these answers: those of the last rejection, or the ones to begin with. */
  function InUse(replies: seq<Reply>): Limits {
    if replies == [] then Sanitized(CONSERVATIVE)
    else
      var n := |replies| - 1;
      if replies[n].Rejected? then Sanitized(replies[n].limits) else InUse(replies[..n])
  }

  /** An answer that ends a copy short, when it comes after `before`. */
  predicate EndsShort(before: seq<Reply>, last: Reply) {
    last == Refused || last == Copied(0) || (last.Rejected? && Sanitized(last.limits) == InUse(before))
  }

  /** How the loop stands is explained by what was copied and the last answer. */
  ghost predicate Accounted(p: Progress, copied: nat, length: nat, replies: seq<Reply>, used: nat)
    requires used <= |replies|
  {
    && (p.Done? <==> copied == length)
    && (p.Running? ==> copied < length && (used > 0 ==> !EndsShort(replies[..used - 1], replies[used - 1])))
    && (p.Failed? <==> copied < length && used > 0 && replies[used - 1] == Refused)
    && (p.WroteNothing? <==> copied < length && used > 0 && replies[used - 1] == Copied(0))
    && (p.NoSmallerLimits? <==>
          && copied < length && used > 0 && replies[used - 1].Rejected?
          && Sanitized(replies[used - 1].limits) == InUse(replies[..used - 1]))
  }

  lemma AdvanceIsAccounted(p: Progress, length: nat, replies: seq<Reply>, used: nat)
    requires p.Running? && Proper(p, length) && used < |replies| && p.limits == InUse(replies[..used])
    ensures var reply, q := replies[used], Advance(p, length, replies[used]);
            var copied := p.copied + if reply.Copied? then Written(p, length, reply.total) else 0;
            && Accounted(q, copied, length, replies, used + 1)
            && (q.Running? ==> q.limits == InUse(replies[..used + 1]))
  {
    AdvanceIsProper(p, length, replies[used]);
    assert replies[..used + 1][..used] == replies[..used];
  }

  /** One batch, and the server copying the first bytes of it that it answers for. */
  method CopyBatch(src: File, before: File, from: nat, to: nat, remaining: nat, limits: Limits, total: nat)
    returns (dest: File, n: nat)
    requires from + Min(total, Min(remaining, Capacity(limits))) <= |src|
    ensures n == Min(total, Min(remaining, Capacity(limits)))
    ensures dest == Overlay(before, src, from, to, n)
  {
    var chunks, batch := BuildBatch(from, to, remaining, limits);
    n := Min(total, batch);
    ContiguousPresent(src, chunks, from, to, batch, n);
    BatchMovesOneRange(before, src, chunks, from, to, batch, n);
    dest := CopyChunks(before, src, chunks, n);
  }

  /** The destination holds exactly the first `copied` bytes of the source range, and those were there. */
  ghost predicate Holds(dest: File, before: File, src: File, from: nat, to: nat, copied: nat) {
    (copied == 0 || from + copied <= |src|) && dest == Overlay(before, src, from, to, copied)
  }

  /** The next batch on top of what is copied already. */
  method CopyNext(
      src: File, ghost before: File, sofar: File, from: nat, to: nat, copied: nat, remaining: nat, limits: Limits,
      total: nat)
    returns (dest: File, n: nat)
    requires Holds(sofar, before, src, from, to, copied)
    requires from + copied + Min(total, Min(remaining, Capacity(limits))) <= |src|
    ensures n == Min(total, Min(remaining, Capacity(limits)))
    ensures Holds(dest, before, src, from, to, copied + n)
  {
    dest, n := CopyBatch(src, sofar, from + copied, to + copied, remaining, limits, total);
    OverlayTwice(before, src, from, to, copied, n);
  }

  /** No answer but the last ended the copy. */
  ghost predicate WentOn(replies: seq<Reply>, used: nat)
    requires used <= |replies|
  {
    forall i :: 0 <= i < used - 1 ==> !EndsShort(replies[..i], replies[i])
  }

  /** How the loop stands after `used` answers, as far as the answers go. */
  ghost predicate Told(p: Progress, copied: nat, length: nat, replies: seq<Reply>, used: nat, available: int) {
    && used <= |replies| && Proper(p, length)
    && Run(p, length, replies[used..]) == Run(Begin(length), length, replies)
    && Honest(p, length, replies[used..], available)
    && copied <= length && (p.Running? || p.Done? ==> p.copied == copied)
    && (p.Running? ==> p.limits == InUse(replies[..used]))
    && WentOn(replies, used) && Accounted(p, copied, length, replies, used)
  }

  lemma ToldAtFirst(length: nat, replies: seq<Reply>, available: int)
    requires Honest(Begin(length), length, replies, available)
    ensures Told(Begin(length), 0, length, replies, 0, available)
  {
    assert replies[0..] == replies && replies[..0] == [];
  }

  lemma RunUnfolds(p: Progress, length: nat, replies: seq<Reply>, available: int)
    requires p.Running? && Proper(p, length) && replies != [] && Honest(p, length, replies, available)
    ensures Proper(Advance(p, length, replies[0]), length)
    ensures Run(p, length, replies) == Run(Advance(p, length, replies[0]), length, replies[1..])
    ensures Honest(Advance(p, length, replies[0]), length, replies[1..], available)
    ensures replies[0].Copied? ==> p.copied + Written(p, length, replies[0].total) <= available
  {
    AdvanceIsProper(p, length, replies[0]);
  }

  lemma Rest(replies: seq<Reply>, used: nat)
    requires used < |replies|
    ensures replies[used..] != [] && replies[used..][0] == replies[used] && replies[used..][1..] == replies[used + 1..]
  {
  }

  lemma WentOnOneMore(p: Progress, copied: nat, length: nat, replies: seq<Reply>, used: nat)
    requires used < |replies| && p.Running? && WentOn(replies, used) && Accounted(p, copied, length, replies, used)
    ensures WentOn(replies, used + 1)
  {
  }

  lemma ToldOneMore(p: Progress, copied: nat, length: nat, replies: seq<Reply>, used: nat, available: int)
    requires Told(p, copied, length, replies, used, available) && p.Running? && used < |replies|
    ensures var reply := replies[used];
            var n := if reply.Copied? then Written(p, length, reply.total) else 0;
            && (reply.Copied? ==> copied + n <= available)
            && Told(Advance(p, length, reply), copied + n, length, replies, used + 1, available)
  {
    Rest(replies, used);
    RunUnfolds(p, length, replies[used..], available);
    WentOnOneMore(p, copied, length, replies, used);
    AdvanceIsAccounted(p, length, replies, used);
  }

  /** One turn of the loop. */
  method Turn(
      src: File, ghost before: File, sofar: File, from: nat, to: nat, length: nat, replies: seq<Reply>, used: nat,
      p: Progress, copied: nat)
    returns (q: Progress, dest: File, total: nat)
    requires Told(p, copied, length, replies, used, |src| - from) && p.Running? && used < |replies|
    requires Holds(sofar, before, src, from, to, copied)
    ensures Told(q, total, length, replies, used + 1, |src| - from)
    ensures Holds(dest, before, src, from, to, total)
  {
    var reply := replies[used];
    ToldOneMore(p, copied, length, replies, used, |src| - from);
    q, dest, total := Advance(p, length, reply), sofar, copied;
    if reply.Copied? {
      var n;
      dest, n := CopyNext(src, before, sofar, from, to, copied, length - copied, p.limits, reply.total);
      total := copied + n;
    }
  }

  /**
  The copy loop against any answers a server may give, honest in that an accepted request wrote
  the bytes it says, in order. The range asked for may reach past the end of the source. However
  the run ends, the destination holds exactly the first `copied` bytes of the source range and is
  otherwise as it was; a finished copy holds all of it, so all of it was there.
  */
  method ServerSideCopyRange(
      src: File, before: File, sourceOffset: nat, destOffset: nat, length: nat, replies: seq<Reply>)
    returns (p: Progress, dest: File, copied: nat, used: nat)
    requires Honest(Begin(length), length, replies, |src| - sourceOffset)
    ensures p == Run(Begin(length), length, replies)
    ensures copied <= length && (p.Done? ==> p.copied == copied == length) && (p.Running? ==> p.copied == copied)
    ensures copied == 0 || sourceOffset + copied <= |src|
    ensures dest == Overlay(before, src, sourceOffset, destOffset, copied)
    ensures used <= |replies| && (p.Running? ==> used == |replies|)
    // Why it ended: the range is done, or the last answer used says so.
    ensures p.Done? <==> copied == length
    ensures p.Failed? <==> copied < length && used > 0 && replies[used - 1] == Refused
    ensures p.WroteNothing? <==> copied < length && used > 0 && replies[used - 1] == Copied(0)
    ensures p.NoSmallerLimits? <==>
              && copied < length && used > 0 && replies[used - 1].Rejected?
              && Sanitized(replies[used - 1].limits) == InUse(replies[..used - 1])
    ensures forall i :: 0 <= i < used - 1 ==> !EndsShort(replies[..i], replies[i])
  {
    p, dest, copied, used := Begin(length), before, 0, 0;
    OverlayNothing(before, src, sourceOffset, destOffset);
    ToldAtFirst(length, replies, |src| - sourceOffset);
    while p.Running? && used < |replies|
      invariant Told(p, copied, length, replies, used, |src| - sourceOffset)
      invariant Holds(dest, before, src, sourceOffset, destOffset, copied)
      decreases |replies| - used
    {
      p, dest, copied := Turn(src, before, dest, sourceOffset, destOffset, length, replies, used, p, copied);
      used := used + 1;
    }
  }

  // ---- Termination.

  /** Every rejection in the run advertises the same limits. */
  ghost predicate Fixed(replies: seq<Reply>, advertised: Limits) {
    forall i :: 0 <= i < |replies| && replies[i].Rejected? ==> replies[i].limits == advertised
  }

  /** What is left to copy, and whether the server's limits are still to be learned. */
  function Unlearned(p: Progress, advertised: Limits): nat
    requires p.Running?
  {
    if p.limits == Sanitized(advertised) then 0 else 1
  }

  /** Against fixed limits every answer that does not end the copy makes the pair smaller. */
  lemma EveryAnswerCounts(p: Progress, length: nat, reply: Reply, advertised: Limits)
    requires p.Running? && Proper(p, length) && (reply.Rejected? ==> reply.limits == advertised)
    requires Advance(p, length, reply).Running?
    ensures var q := Advance(p, length, reply);
            length - q.copied < length - p.copied
            || (q.copied == p.copied && Unlearned(q, advertised) < Unlearned(p, advertised))
  {
    AdvanceIsProper(p, length, reply);
  }

  function Rejections(replies: seq<Reply>): nat {
    if replies == [] then 0 else (if replies[0].Rejected? then 1 else 0) + Rejections(replies[1..])
  }

  /** A copy still running has learned the limits at most once and moved a byte with every other answer. */
  lemma {:induction false} RunIsBounded(p: Progress, length: nat, replies: seq<Reply>, advertised: Limits)
    requires p.Running? && Proper(p, length) && Fixed(replies, advertised)
    ensures var q := Run(p, length, replies);
            q.Running? ==> && Rejections(replies) <= Unlearned(p, advertised)
                           && |replies| - Rejections(replies) <= q.copied - p.copied
                           && q.copied < length
    decreases |replies|
  {
    if replies != [] {
      var q := Advance(p, length, replies[0]);
      AdvanceIsProper(p, length, replies[0]);
      if q.Running? {
        EveryAnswerCounts(p, length, replies[0], advertised);
        assert Fixed(replies[1..], advertised);
        RunIsBounded(q, length, replies[1..], advertised);
      } else {
        assert Run(q, length, replies[1..]) == q;
      }
    }
  }

  /** So against fixed limits the copy is over after at most one rejection and one answer a byte. */
  lemma CopyTerminates(length: nat, replies: seq<Reply>, advertised: Limits)
    requires Fixed(replies, advertised) && |replies| > length
    ensures !Run(Begin(length), length, replies).Running?
  {
    if length > 0 {
      RunIsBounded(Begin(length), length, replies, advertised);
    }
  }

  /** No answer refuses, writes nothing, or advertises the limits already in use. */
  ghost predicate Smooth(current: Limits, replies: seq<Reply>)
    decreases |replies|
  {
    replies == []
    || (match replies[0]
        case Refused => false
        case Copied(total) => total > 0 && Smooth(current, replies[1..])
        case Rejected(l) => Sanitized(l) != current && Smooth(Sanitized(l), replies[1..]))
  }

  /** Against such answers the copy goes on until the range is done. */
  lemma {:induction false} SmoothRunsFinish(p: Progress, length: nat, replies: seq<Reply>)
    requires p.Running? && Proper(p, length) && Smooth(p.limits, replies)
    ensures var q := Run(p, length, replies); q.Running? || q == Done(length)
    decreases |replies|
  {
    if replies != [] {
      var q := Advance(p, length, replies[0]);
      AdvanceIsProper(p, length, replies[0]);
      if q.Running? {
        SmoothRunsFinish(q, length, replies[1..]);
      } else {
        assert Run(q, length, replies[1..]) == q;
      }
    }
  }

  lemma {:induction false} NoMoreRejections(current: Limits, replies: seq<Reply>)
    requires Rejections(replies) == 0
    requires forall i :: 0 <= i < |replies| ==> replies[i] != Refused && replies[i] != Copied(0)
    ensures Smooth(current, replies)
    decreases |replies|
  {
    if replies != [] {
      NoMoreRejections(current, replies[1..]);
    }
  }

  lemma {:induction false} OneRejectionIsSmooth(current: Limits, replies: seq<Reply>, advertised: Limits)
    requires Fixed(replies, advertised) && Rejections(replies) <= 1
    requires Rejections(replies) == 1 ==> Sanitized(advertised) != current
    requires forall i :: 0 <= i < |replies| ==> replies[i] != Refused && replies[i] != Copied(0)
    ensures Smooth(current, replies)
    decreases |replies|
  {
    if replies != [] {
      if replies[0].Rejected? {
        NoMoreRejections(Sanitized(advertised), replies[1..]);
      } else {
        assert Fixed(replies[1..], advertised);
        OneRejectionIsSmooth(current, replies[1..], advertised);
      }
    }
  }

  /**
  Against a server that refuses nothing, always writes something, and rejects at most once, with
  limits other than the first ones, `length` + 1 answers finish any copy.
  */
  lemma CopySucceeds(length: nat, replies: seq<Reply>, advertised: Limits)
    requires Fixed(replies, advertised) && Rejections(replies) <= 1 && |replies| > length
    requires Rejections(replies) == 1 ==> Sanitized(advertised) != CONSERVATIVE
    requires forall i :: 0 <= i < |replies| ==> replies[i] != Refused && replies[i] != Copied(0)
    ensures Run(Begin(length), length, replies) == Done(length)
  {
    CopyTerminates(length, replies, advertised);
    if length > 0 {
      OneRejectionIsSmooth(Sanitized(CONSERVATIVE), replies, advertised);
      SmoothRunsFinish(Begin(length), length, replies);
    }
  }

  /**
  A run of rejections goes on exactly as long as no two in a row advertise the same limits: the
  loop compares only with the limits it is using, so a server that alternates never ends it.
  */
  lemma {:induction false} RejectionsGoOnWhileLimitsChange(p: Progress, length: nat, offers: seq<Limits>)
    requires p.Running? && Proper(p, length)
    ensures Run(p, length, Rejecting(offers)).Running? <==> Changing(p.limits, offers)
    ensures Run(p, length, Rejecting(offers)).Running? ==> Run(p, length, Rejecting(offers)).copied == p.copied
    decreases |offers|
  {
    if offers != [] {
      assert Rejecting(offers)[1..] == Rejecting(offers[1..]);
      var q := Advance(p, length, Rejected(offers[0]));
      if q.Running? {
        RejectionsGoOnWhileLimitsChange(q, length, offers[1..]);
      }
    }
  }

  function Rejecting(offers: seq<Limits>): (r: seq<Reply>)
    ensures |r| == |offers|
  {
    seq(|offers|, i requires 0 <= i < |offers| => Rejected(offers[i]))
  }

  ghost predicate Changing(current: Limits, offers: seq<Limits>)
    decreases |offers|
  {
    offers == [] || (Sanitized(offers[0]) != current && Changing(Sanitized(offers[0]), offers[1..]))
  }
}
