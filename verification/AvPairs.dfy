/**
The target info of an NTLM challenge (src/auth/ntlm.rs, section 2.2.2.1 of MS-NLMP): a list of
attribute-value pairs, searched, parsed, and rewritten for the AUTHENTICATE message.
*/
module AvPairs {
  import opened Bytes

  const MSV_AV_EOL: nat := 0

  const MSV_AV_FLAGS: nat := 6

  datatype AvPair = AvPair(id: nat, value: seq<byte>)

  const EOL := AvPair(MSV_AV_EOL, [])

  function IdAt(info: seq<byte>, off: nat): nat
    requires off + 4 <= |info|
  {
    U16FromLe(info[off..off + 2])
  }

  function LenAt(info: seq<byte>, off: nat): nat
    requires off + 4 <= |info|
  {
    U16FromLe(info[off + 2..off + 4])
  }

  /** The pairs from `off` on, up to the terminator, the end, or a pair that does not fit. */
  function Pairs(info: seq<byte>, off: nat): seq<AvPair>
    decreases |info| - off
  {
    if off + 4 > |info| then []
    else
      var id, len := IdAt(info, off), LenAt(info, off);
      if id == MSV_AV_EOL then [EOL]
      else if off + 4 + len > |info| then []
      else [AvPair(id, info[off + 4..off + 4 + len])] + Pairs(info, off + 4 + len)
  }

  /** The first value under `id`, if there is one. */
  function First(pairs: seq<AvPair>, id: nat): Option<seq<byte>> {
    if pairs == [] then None
    else if pairs[0].id == id then Some(pairs[0].value)
    else First(pairs[1..], id)
  }

  method ParseAvPairs(info: seq<byte>) returns (pairs: seq<AvPair>)
    ensures pairs == Pairs(info, 0)
  {
    pairs := [];
    var offset := 0;
    ghost var rest := Pairs(info, 0);
    while offset + 4 <= |info|
      invariant rest == Pairs(info, offset) && pairs + rest == Pairs(info, 0)
      decreases |info| - offset
    {
      var id, len := IdAt(info, offset), LenAt(info, offset);
      if id == MSV_AV_EOL {
        return pairs + [EOL];
      }
      if offset + 4 + len > |info| {
        return;
      }
      var pair := AvPair(id, info[offset + 4..offset + 4 + len]);
      MoveOver(pairs, pair, rest);
      pairs := pairs + [pair];
      offset := offset + 4 + len;
      rest := rest[1..];
    }
  }

  lemma MoveOver(seen: seq<AvPair>, p: AvPair, rest: seq<AvPair>)
    requires rest != [] && rest[0] == p
    ensures seen + rest == seen + [p] + rest[1..]
  {
  }

  /** Searching the bytes finds what searching the parsed pairs would, for every id but the terminator's. */
  method FindAvPair(info: seq<byte>, wanted: nat) returns (value: Option<seq<byte>>)
    ensures wanted != MSV_AV_EOL ==> value == First(Pairs(info, 0), wanted)
  {
    var offset := 0;
    while offset + 4 <= |info|
      invariant wanted != MSV_AV_EOL ==> First(Pairs(info, offset), wanted) == First(Pairs(info, 0), wanted)
      decreases |info| - offset
    {
      var id, len := IdAt(info, offset), LenAt(info, offset);
      if id == wanted {
        if offset + 4 + len <= |info| {
          return Some(info[offset + 4..offset + 4 + len]);
        }
        return None;
      }
      if id == MSV_AV_EOL {
        break;
      }
      if offset + 4 + len <= |info| {
        var pair := AvPair(id, info[offset + 4..offset + 4 + len]);
        assert ([pair] + Pairs(info, offset + 4 + len))[1..] == Pairs(info, offset + 4 + len);
      }
      offset := offset + 4 + len;
    }
    return None;
  }

  // ---- Rewriting.

  function Encode(p: AvPair): seq<byte> {
    U16ToLe(p.id) + U16ToLe(|p.value|) + p.value
  }

  function EncodeAll(pairs: seq<AvPair>): seq<byte> {
    if pairs == [] then [] else Encode(pairs[0]) + EncodeAll(pairs[1..])
  }

  predicate Keeps(p: AvPair, hasTimestamp: bool) {
    p.id != MSV_AV_EOL && !(p.id == MSV_AV_FLAGS && hasTimestamp)
  }

  /** The pairs that are copied over, in order. */
  function Kept(pairs: seq<AvPair>, hasTimestamp: bool): seq<AvPair> {
    if pairs == [] then []
    else
      var kept, last := Kept(pairs[..|pairs| - 1], hasTimestamp), pairs[|pairs| - 1];
      if Keeps(last, hasTimestamp) then kept + [last] else kept
  }

  /** The flags already there: the first flags pair, if it holds four bytes. */
  function OldFlags(pairs: seq<AvPair>): nat {
    match First(pairs, MSV_AV_FLAGS)
    case Some(v) => if |v| >= 4 then U32FromLe(v[..4]) else 0
    case None => 0
  }

  /** `flags | 2`: the bit that announces a MIC. */
  function WithMic(flags: nat): nat {
    if flags / 2 % 2 == 1 then flags else flags + 2
  }

  function MicFlags(pairs: seq<AvPair>): AvPair {
    AvPair(MSV_AV_FLAGS, U32ToLe(WithMic(OldFlags(pairs))))
  }

  /** What the rewritten target info says. */
  function Rewritten(pairs: seq<AvPair>, hasTimestamp: bool): seq<AvPair> {
    Kept(pairs, hasTimestamp) + (if hasTimestamp then [MicFlags(pairs)] else [])
  }

  /** What the rewrite of `info` is, as bytes. */
  function RewrittenInfo(info: seq<byte>, hasTimestamp: bool): seq<byte> {
    EncodeAll(Rewritten(Pairs(info, 0), hasTimestamp)) + Encode(EOL)
  }

  method BuildAuthTargetInfo(info: seq<byte>, hasTimestamp: bool) returns (result: seq<byte>)
    ensures result == RewrittenInfo(info, hasTimestamp)
  {
    var pairs := ParseAvPairs(info);
    result := CopyKept(pairs, hasTimestamp);
    if hasTimestamp {
      EncodeAppend(Kept(pairs, hasTimestamp), MicFlags(pairs));
      result := result + U16ToLe(MSV_AV_FLAGS) + U16ToLe(4) + U32ToLe(WithMic(OldFlags(pairs)));
    } else {
      assert Rewritten(pairs, false) == Kept(pairs, false);
    }
    result := result + U16ToLe(MSV_AV_EOL) + U16ToLe(0);
  }

  /** The loop that copies the old pairs over. */
  method CopyKept(pairs: seq<AvPair>, hasTimestamp: bool) returns (result: seq<byte>)
    ensures result == EncodeAll(Kept(pairs, hasTimestamp))
  {
    result := [];
    for i := 0 to |pairs|
      invariant result == EncodeAll(Kept(pairs[..i], hasTimestamp))
    {
      assert pairs[..i + 1][..i] == pairs[..i];
      var p := pairs[i];
      if p.id != MSV_AV_EOL && !(p.id == MSV_AV_FLAGS && hasTimestamp) {
        EncodeAppend(Kept(pairs[..i], hasTimestamp), p);
        result := result + U16ToLe(p.id) + U16ToLe(|p.value|) + p.value;
      }
    }
    assert pairs[..|pairs|] == pairs;
  }

  lemma {:induction false} EncodeAppend(pairs: seq<AvPair>, p: AvPair)
    ensures EncodeAll(pairs + [p]) == EncodeAll(pairs) + U16ToLe(p.id) + U16ToLe(|p.value|) + p.value
  {
    if pairs == [] {
      assert pairs + [p] == [p];
      assert EncodeAll([p]) == Encode(p) + EncodeAll([]);
    } else {
      EncodeAppend(pairs[1..], p);
      assert (pairs + [p])[1..] == pairs[1..] + [p];
    }
  }

  /** A pair the encoding can carry, other than the terminator. */
  ghost predicate Carries(p: AvPair) {
    0 < p.id < U16_LIMIT && |p.value| < U16_LIMIT
  }

  lemma {:induction false} ParsedPairsCarry(info: seq<byte>, off: nat)
    ensures forall i :: 0 <= i < |Pairs(info, off)| ==> Carries(Pairs(info, off)[i]) || Pairs(info, off)[i] == EOL
    decreases |info| - off
  {
    if off + 4 <= |info| && IdAt(info, off) != MSV_AV_EOL && off + 4 + LenAt(info, off) <= |info| {
      ParsedPairsCarry(info, off + 4 + LenAt(info, off));
    }
  }

  lemma {:induction false} KeptPairsCarry(pairs: seq<AvPair>, hasTimestamp: bool)
    requires forall i :: 0 <= i < |pairs| ==> Carries(pairs[i]) || pairs[i] == EOL
    ensures forall i :: 0 <= i < |Kept(pairs, hasTimestamp)| ==> Carries(Kept(pairs, hasTimestamp)[i])
  {
    if pairs != [] {
      KeptPairsCarry(pairs[..|pairs| - 1], hasTimestamp);
    }
  }

  lemma OnePair(prefix: seq<byte>, p: AvPair, rest: seq<byte>)
    requires Carries(p)
    ensures Pairs(prefix + Encode(p) + rest, |prefix|)
            == [p] + Pairs(prefix + Encode(p) + rest, |prefix + Encode(p)|)
  {
    var info := prefix + Encode(p) + rest;
    var off := |prefix|;
    assert info[off..off + 2] == U16ToLe(p.id);
    assert info[off + 2..off + 4] == U16ToLe(|p.value|);
    assert info[off + 4..off + 4 + |p.value|] == p.value;
    ReadsId(info, off, p.id);
    ReadsLen(info, off, |p.value|);
  }

  lemma ReadsId(info: seq<byte>, off: nat, id: nat)
    requires off + 4 <= |info| && id < U16_LIMIT && info[off..off + 2] == U16ToLe(id)
    ensures IdAt(info, off) == id
  {
    U16RoundTrip(id);
  }

  lemma ReadsLen(info: seq<byte>, off: nat, len: nat)
    requires off + 4 <= |info| && len < U16_LIMIT && info[off + 2..off + 4] == U16ToLe(len)
    ensures LenAt(info, off) == len
  {
    U16RoundTrip(len);
  }

  lemma Terminator(prefix: seq<byte>, end: seq<byte>)
    requires |end| == 4 && end[..2] == U16ToLe(MSV_AV_EOL)
    ensures Pairs(prefix + end, |prefix|) == [EOL]
  {
    var info := prefix + end;
    assert info[|prefix|..|prefix| + 2] == end[..2];
    ReadsId(info, |prefix|, MSV_AV_EOL);
  }

  /** Encoded pairs parse back one by one, wherever in the buffer they start. */
  lemma {:induction false} EncodedPairsParse(prefix: seq<byte>, pairs: seq<AvPair>, end: seq<byte>)
    requires forall i :: 0 <= i < |pairs| ==> Carries(pairs[i])
    requires |end| == 4 && end[..2] == U16ToLe(MSV_AV_EOL)
    ensures Pairs(prefix + (EncodeAll(pairs) + end), |prefix|) == pairs + [EOL]
    decreases |pairs|
  {
    if pairs == [] {
      assert EncodeAll(pairs) + end == end;
      Terminator(prefix, end);
    } else {
      EncodedPairsParse(prefix + Encode(pairs[0]), pairs[1..], end);
      PairAndRest(prefix, pairs[0], EncodeAll(pairs[1..]) + end, pairs[1..] + [EOL]);
      HeadAndTail(pairs, end);
    }
  }

  lemma PairAndRest(prefix: seq<byte>, p: AvPair, tail: seq<byte>, rest: seq<AvPair>)
    requires Carries(p) && Pairs(prefix + Encode(p) + tail, |prefix + Encode(p)|) == rest
    ensures Pairs(prefix + (Encode(p) + tail), |prefix|) == [p] + rest
  {
    OnePair(prefix, p, tail);
    assert prefix + Encode(p) + tail == prefix + (Encode(p) + tail);
  }

  lemma HeadAndTail(pairs: seq<AvPair>, end: seq<byte>)
    requires pairs != []
    ensures EncodeAll(pairs) + end == Encode(pairs[0]) + (EncodeAll(pairs[1..]) + end)
    ensures pairs + [EOL] == [pairs[0]] + (pairs[1..] + [EOL])
  {
    Associative(Encode(pairs[0]), EncodeAll(pairs[1..]), end);
  }

  lemma Associative(a: seq<byte>, b: seq<byte>, c: seq<byte>)
    ensures a + b + c == a + (b + c)
  {
  }

  /** The elements that `keep` holds of, in order. */
  ghost function Filter(pairs: seq<AvPair>, keep: AvPair -> bool): seq<AvPair> {
    if pairs == [] then []
    else if keep(pairs[0]) then [pairs[0]] + Filter(pairs[1..], keep)
    else Filter(pairs[1..], keep)
  }

  lemma {:induction false} FilterAppend(pairs: seq<AvPair>, p: AvPair, keep: AvPair -> bool)
    ensures Filter(pairs + [p], keep) == if keep(p) then Filter(pairs, keep) + [p] else Filter(pairs, keep)
  {
    if pairs == [] {
      assert pairs + [p] == [p] && [p][1..] == [];
      assert Filter([], keep) == [];
    } else {
      FilterAppend(pairs[1..], p, keep);
      assert (pairs + [p])[1..] == pairs[1..] + [p];
    }
  }

  /** Everything is kept but the terminator, and the flags when a timestamp is there. */
  lemma {:induction false} KeptIsFiltered(pairs: seq<AvPair>, hasTimestamp: bool)
    ensures Kept(pairs, hasTimestamp) == Filter(pairs, (p: AvPair) => p.id != 0 && !(p.id == 6 && hasTimestamp))
  {
    if pairs != [] {
      var n := |pairs| - 1;
      KeptIsFiltered(pairs[..n], hasTimestamp);
      FilterAppend(pairs[..n], pairs[n], (p: AvPair) => p.id != 0 && !(p.id == 6 && hasTimestamp));
      assert pairs[..n] + [pairs[n]] == pairs;
    }
  }

  /** What the parse leaves unread at `n`: too little for a header, the terminator, or a pair that does not fit. */
  ghost predicate StopsAt(info: seq<byte>, n: nat, ended: bool) {
    && n <= |info|
    && if ended then n + 4 <= |info| && U16FromLe(info[n..n + 2]) == 0
       else n + 4 > |info|
            || (U16FromLe(info[n..n + 2]) != 0 && n + 4 + U16FromLe(info[n + 2..n + 4]) > |info|)
  }

  /** The pairs, but for the terminator, are these bytes. */
  ghost predicate Spells(pairs: seq<AvPair>, bytes: seq<byte>, ended: bool) {
    && (ended ==> pairs != [] && pairs[|pairs| - 1] == EOL)
    && var proper := if ended then pairs[..|pairs| - 1] else pairs;
       (forall i :: 0 <= i < |proper| ==> proper[i].id != 0) && EncodeAll(proper) == bytes
  }

  lemma SpellsCons(p: AvPair, pairs: seq<AvPair>, bytes: seq<byte>, ended: bool)
    requires p.id != 0 && Spells(pairs, bytes, ended)
    ensures Spells([p] + pairs, Encode(p) + bytes, ended)
  {
    var proper := if ended then pairs[..|pairs| - 1] else pairs;
    assert ([p] + proper)[1..] == proper;
    assert ended ==> ([p] + pairs)[..|pairs|] == [p] + proper;
  }

  /** Of every byte string the parsed pairs, written out, are what was read, and the parse stopped where it had to. */
  lemma {:induction false} PairsSpellTheInfo(info: seq<byte>, off: nat) returns (n: nat, ended: bool)
    requires off <= |info|
    ensures off <= n && StopsAt(info, n, ended) && Spells(Pairs(info, off), info[off..n], ended)
    decreases |info| - off
  {
    if off + 4 <= |info| && IdAt(info, off) != MSV_AV_EOL && off + 4 + LenAt(info, off) <= |info| {
      var next := off + 4 + LenAt(info, off);
      n, ended := PairsSpellTheInfo(info, next);
      SpellsStep(info, off, next, n, ended);
    } else {
      n, ended := off, off + 4 <= |info| && IdAt(info, off) == MSV_AV_EOL;
    }
  }

  lemma SpellsStep(info: seq<byte>, off: nat, next: nat, n: nat, ended: bool)
    requires off + 4 <= |info| && IdAt(info, off) != MSV_AV_EOL && next == off + 4 + LenAt(info, off)
    requires next <= n <= |info| && Spells(Pairs(info, next), info[next..n], ended)
    ensures Spells(Pairs(info, off), info[off..n], ended)
  {
    var p := AvPair(IdAt(info, off), info[off + 4..next]);
    OnePairOff(info, off);
    HeaderSpells(info, off);
    Seam(info, off, next, n);
    SpellsCons(p, Pairs(info, next), info[next..n], ended);
  }

  lemma OnePairOff(info: seq<byte>, off: nat)
    requires off + 4 <= |info| && IdAt(info, off) != MSV_AV_EOL && off + 4 + LenAt(info, off) <= |info|
    ensures var next := off + 4 + LenAt(info, off);
            Pairs(info, off) == [AvPair(IdAt(info, off), info[off + 4..next])] + Pairs(info, next)
  {
  }

  lemma Seam(info: seq<byte>, a: nat, b: nat, c: nat)
    requires a <= b <= c <= |info|
    ensures info[a..c] == info[a..b] + info[b..c]
  {
  }

  lemma HeaderSpells(info: seq<byte>, off: nat)
    requires off + 4 <= |info| && off + 4 + LenAt(info, off) <= |info|
    ensures Encode(AvPair(IdAt(info, off), info[off + 4..off + 4 + LenAt(info, off)]))
            == info[off..off + 4 + LenAt(info, off)]
  {
    U16WrittenBack(info[off..off + 2]);
    U16WrittenBack(info[off + 2..off + 4]);
  }

  lemma U16WrittenBack(b: seq<byte>)
    requires |b| == 2
    ensures U16ToLe(U16FromLe(b)) == b
  {
  }

  /**
  For every byte string: parsing the rebuilt target info yields the old pairs in order, without the
  terminator and, when a timestamp asks for a MIC, without the old flags; then the one new flags
  pair; then the terminator.
  */
  lemma RewriteParsesBack(info: seq<byte>, hasTimestamp: bool)
    ensures Pairs(RewrittenInfo(info, hasTimestamp), 0)
            == Kept(Pairs(info, 0), hasTimestamp)
               + (if hasTimestamp then [MicFlags(Pairs(info, 0))] else []) + [EOL]
    ensures Kept(Pairs(info, 0), hasTimestamp)
            == Filter(Pairs(info, 0), (p: AvPair) => p.id != 0 && !(p.id == 6 && hasTimestamp))
  {
    KeptIsFiltered(Pairs(info, 0), hasTimestamp);
    var pairs := Rewritten(Pairs(info, 0), hasTimestamp);
    ParsedPairsCarry(info, 0);
    KeptPairsCarry(Pairs(info, 0), hasTimestamp);
    EncodedPairsParse([], pairs, Encode(EOL));
    assert [] + (EncodeAll(pairs) + Encode(EOL)) == EncodeAll(pairs) + Encode(EOL);
  }

  /** Read back from the rewritten info, the flags are the first old ones with the MIC bit set. */
  lemma MicBitIsSet(info: seq<byte>)
    ensures var flags := OldFlags(Pairs(RewrittenInfo(info, true), 0));
            flags == WithMic(OldFlags(Pairs(info, 0))) && flags / 2 % 2 == 1
  {
    var pairs := Pairs(info, 0);
    RewriteParsesBack(info, true);
    FlagsRoundTrip(OldFlags(pairs));
    FirstAmongKept(pairs, MicFlags(pairs));
    assert Kept(pairs, true) + [MicFlags(pairs)] + [EOL] == Kept(pairs, true) + [MicFlags(pairs), EOL];
  }

  /** `k` is the first flags pair. */
  ghost predicate FirstFlags(pairs: seq<AvPair>, k: nat) {
    k < |pairs| && pairs[k].id == 6 && forall j :: 0 <= j < k ==> pairs[j].id != 6
  }

  /** The bytes of the new flags: those of the first old ones with one bit set in the first, or the bit alone. */
  lemma NewFlagsSetOneBit(pairs: seq<AvPair>, k: nat)
    ensures MicFlags(pairs).id == 6 && |MicFlags(pairs).value| == 4
    ensures FirstFlags(pairs, k) && |pairs[k].value| >= 4 ==>
              var v := pairs[k].value;
              MicFlags(pairs).value == [if v[0] / 2 % 2 == 1 then v[0] else v[0] + 2, v[1], v[2], v[3]]
    ensures (FirstFlags(pairs, k) && |pairs[k].value| < 4) || (forall j :: 0 <= j < |pairs| ==> pairs[j].id != 6)
            ==> MicFlags(pairs).value == [2, 0, 0, 0]
  {
    if FirstFlags(pairs, k) {
      FirstIsAt(pairs, k);
      if |pairs[k].value| >= 4 {
        BitInFirstByte(pairs[k].value[..4]);
      }
    } else if forall j :: 0 <= j < |pairs| ==> pairs[j].id != 6 {
      NoneIsFirst(pairs);
    }
  }

  lemma {:induction false} FirstIsAt(pairs: seq<AvPair>, k: nat)
    requires FirstFlags(pairs, k)
    ensures First(pairs, MSV_AV_FLAGS) == Some(pairs[k].value)
  {
    if k > 0 {
      FirstIsAt(pairs[1..], k - 1);
    }
  }

  lemma {:induction false} NoneIsFirst(pairs: seq<AvPair>)
    requires forall j :: 0 <= j < |pairs| ==> pairs[j].id != 6
    ensures First(pairs, MSV_AV_FLAGS) == None
  {
    if pairs != [] {
      NoneIsFirst(pairs[1..]);
    }
  }

  lemma BitInFirstByte(v: seq<byte>)
    requires |v| == 4
    ensures U32ToLe(WithMic(U32FromLe(v))) == [if v[0] / 2 % 2 == 1 then v[0] else v[0] + 2, v[1], v[2], v[3]]
  {
    var low := if v[0] / 2 % 2 == 1 then v[0] else v[0] + 2;
    WithMicLow(v[0], v[1] as int + 256 * v[2] as int + 0x1_0000 * v[3] as int);
    DigitsOf(low, v[1], v[2], v[3]);
  }

  lemma WithMicLow(low: byte, high: nat)
    ensures WithMic(low as int + 256 * high) == (if low / 2 % 2 == 1 then low as int else low as int + 2) + 256 * high
    ensures low / 2 % 2 != 1 ==> low + 2 < 256
  {
    SecondBit(low, high);
  }

  lemma SecondBit(low: byte, high: nat)
    ensures (low as int + 256 * high) / 2 % 2 == low as int / 2 % 2
  {
    assert (low as int + 256 * high) / 2 == low as int / 2 + 2 * (64 * high);
  }

  lemma LowestDigit(low: byte, high: nat)
    ensures (low as int + 256 * high) / 256 == high && (low as int + 256 * high) % 256 == low as int
  {
  }

  lemma DigitsOf(a: byte, b: byte, c: byte, d: byte)
    ensures U32ToLe(a as int + 256 * b as int + 0x1_0000 * c as int + 0x100_0000 * d as int) == [a, b, c, d]
  {
    var n3 := d as int;
    var n2 := c as int + 256 * n3;
    var n1 := b as int + 256 * n2;
    var n := a as int + 256 * n1;
    LowestDigit(c, n3);
    LowestDigit(b, n2);
    LowestDigit(a, n1);
    HigherDigits(n);
  }

  lemma HigherDigits(n: nat)
    ensures n / 0x1_0000 == n / 256 / 256 && n / 0x100_0000 == n / 256 / 256 / 256
  {
  }

  /** No old flags are left in front of the new ones. */
  lemma {:induction false} FirstAmongKept(pairs: seq<AvPair>, flags: AvPair)
    requires flags.id == MSV_AV_FLAGS
    ensures First(Kept(pairs, true) + [flags, EOL], MSV_AV_FLAGS) == Some(flags.value)
  {
    KeptHasNoFlags(pairs);
    FirstSkips(Kept(pairs, true), flags);
  }

  lemma {:induction false} KeptHasNoFlags(pairs: seq<AvPair>)
    ensures forall i :: 0 <= i < |Kept(pairs, true)| ==> Kept(pairs, true)[i].id != MSV_AV_FLAGS
  {
    if pairs != [] {
      KeptHasNoFlags(pairs[..|pairs| - 1]);
    }
  }

  lemma {:induction false} FirstSkips(before: seq<AvPair>, flags: AvPair)
    requires flags.id == MSV_AV_FLAGS && forall i :: 0 <= i < |before| ==> before[i].id != MSV_AV_FLAGS
    ensures First(before + [flags, EOL], MSV_AV_FLAGS) == Some(flags.value)
  {
    if before != [] {
      FirstSkips(before[1..], flags);
      assert (before + [flags, EOL])[1..] == before[1..] + [flags, EOL];
    }
  }

  /** Keeping twice keeps no less, and new flags and the terminator are not kept. */
  lemma {:induction false} KeptAgain(pairs: seq<AvPair>, hasTimestamp: bool)
    ensures Kept(Kept(pairs, hasTimestamp), hasTimestamp) == Kept(pairs, hasTimestamp)
  {
    if pairs != [] {
      var init, last := pairs[..|pairs| - 1], pairs[|pairs| - 1];
      KeptAgain(init, hasTimestamp);
      if Keeps(last, hasTimestamp) {
        KeptAppend(Kept(init, hasTimestamp), last, hasTimestamp);
      }
    }
  }

  lemma KeptAppend(pairs: seq<AvPair>, p: AvPair, hasTimestamp: bool)
    ensures Kept(pairs + [p], hasTimestamp)
            == if Keeps(p, hasTimestamp) then Kept(pairs, hasTimestamp) + [p] else Kept(pairs, hasTimestamp)
  {
    assert (pairs + [p])[..|pairs|] == pairs;
  }

  /** Rewriting the rewrite gives the same bytes, for every byte string. */
  lemma RewritingIsIdempotent(info: seq<byte>, hasTimestamp: bool)
    ensures RewrittenInfo(RewrittenInfo(info, hasTimestamp), hasTimestamp) == RewrittenInfo(info, hasTimestamp)
  {
    var pairs := Pairs(info, 0);
    var again := Pairs(RewrittenInfo(info, hasTimestamp), 0);
    RewriteParsesBack(info, hasTimestamp);
    KeptAgain(pairs, hasTimestamp);
    if hasTimestamp {
      MicBitIsSet(info);
      KeptAppend(Kept(pairs, true), MicFlags(pairs), true);
      KeptAppend(Kept(pairs, true) + [MicFlags(pairs)], EOL, true);
    } else {
      assert Kept(pairs, false) + [] == Kept(pairs, false);
      KeptAppend(Kept(pairs, false), EOL, false);
    }
    assert Kept(again, hasTimestamp) == Kept(pairs, hasTimestamp);
  }

  lemma FlagsRoundTrip(flags: nat)
    requires flags < U32_LIMIT
    ensures OldFlags([AvPair(MSV_AV_FLAGS, U32ToLe(WithMic(flags)))]) == WithMic(flags)
    ensures WithMic(flags) / 2 % 2 == 1
  {
    var mic := WithMic(flags);
    WithMicFits(flags);
    FlagsReadBack(mic);
  }

  lemma FlagsReadBack(mic: nat)
    requires mic < U32_LIMIT
    ensures OldFlags([AvPair(MSV_AV_FLAGS, U32ToLe(mic))]) == mic
  {
    U32RoundTrip(mic);
    FlagsOf(U32ToLe(mic));
  }

  lemma FlagsOf(v: seq<byte>)
    requires |v| == 4
    ensures OldFlags([AvPair(MSV_AV_FLAGS, v)]) == U32FromLe(v)
  {
    assert v[..4] == v;
  }

  lemma WithMicFits(flags: nat)
    requires flags < U32_LIMIT
    ensures WithMic(flags) < U32_LIMIT && WithMic(flags) / 2 % 2 == 1
    ensures WithMic(flags) / 4 == flags / 4 && WithMic(flags) % 2 == flags % 2
  {
  }
}
