/**
The layout of an NTLM AUTHENTICATE_MESSAGE (src/auth/ntlm.rs, section 2.2.1.3 of MS-NLMP): a
fixed header of length-and-offset fields, and the payloads they describe.
*/
module Authenticate {
  import opened Bytes

  const NTLM_SIGNATURE: seq<byte> := [0x4e, 0x54, 0x4c, 0x4d, 0x53, 0x53, 0x50, 0x00]

  const MSG_TYPE_AUTHENTICATE: nat := 3

  /** The payloads, in the order they are laid out. The workstation is always empty. */
  datatype Payloads = Payloads(domain: seq<byte>, user: seq<byte>, lm: seq<byte>, nt: seq<byte>, key: seq<byte>)

  function HeaderSize(includeMic: bool): nat {
    if includeMic then 88 else 72
  }

  /** Length, maximum length, offset; the casts keep the low 16 and 32 bits. */
  function Descriptor(len: nat, offset: nat): (r: seq<byte>)
    ensures |r| == 8
  {
    U16ToLe(len) + U16ToLe(len) + U32ToLe(offset)
  }

  function Payload(p: Payloads): seq<byte> {
    p.domain + p.user + [] + p.lm + p.nt + p.key
  }

  /** Where each payload starts. */
  datatype Offsets = Offsets(domain: nat, user: nat, workstation: nat, lm: nat, nt: nat, key: nat)

  function Place(p: Payloads, includeMic: bool): Offsets {
    var domain := HeaderSize(includeMic);
    var user := domain + |p.domain|;
    var workstation := user + |p.user|;
    var lm := workstation + 0;
    var nt := lm + |p.lm|;
    var key := nt + |p.nt|;
    Offsets(domain, user, workstation, lm, nt, key)
  }

  function Header(flags: nat, p: Payloads, includeMic: bool): (r: seq<byte>)
    ensures |r| == HeaderSize(includeMic)
  {
    var at := Place(p, includeMic);
    NTLM_SIGNATURE + U32ToLe(MSG_TYPE_AUTHENTICATE)
    + Descriptor(|p.lm|, at.lm) + Descriptor(|p.nt|, at.nt) + Descriptor(|p.domain|, at.domain)
    + Descriptor(|p.user|, at.user) + Descriptor(0, at.workstation) + Descriptor(|p.key|, at.key)
    + U32ToLe(flags) + Zeros(8) + (if includeMic then Zeros(16) else [])
  }

  function Message(flags: nat, p: Payloads, includeMic: bool): seq<byte> {
    Header(flags, p, includeMic) + Payload(p)
  }

  /** Built by appending, field after field. */
  method BuildAuthenticateMessage(flags: nat, p: Payloads, includeMic: bool) returns (buf: seq<byte>)
    ensures buf == Message(flags, p, includeMic)
  {
    var at := Place(p, includeMic);
    buf := NTLM_SIGNATURE;
    buf := buf + U32ToLe(MSG_TYPE_AUTHENTICATE);
    buf := buf + Descriptor(|p.lm|, at.lm);
    buf := buf + Descriptor(|p.nt|, at.nt);
    buf := buf + Descriptor(|p.domain|, at.domain);
    buf := buf + Descriptor(|p.user|, at.user);
    buf := buf + Descriptor(0, at.workstation);
    buf := buf + Descriptor(|p.key|, at.key);
    buf := buf + U32ToLe(flags);
    buf := buf + Zeros(8);
    buf := buf + if includeMic then Zeros(16) else [];
    assert buf == Header(flags, p, includeMic);
    var body := p.domain;
    body := body + p.user;
    body := body + [];
    body := body + p.lm;
    body := body + p.nt;
    body := body + p.key;
    buf := buf + body;
  }

  /** What a reader following the descriptor at `field` gets, if it stays inside the message. */
  function Read(msg: seq<byte>, field: nat): Option<seq<byte>>
    requires field + 8 <= |msg|
  {
    var len := U16FromLe(msg[field..field + 2]);
    var offset := U32FromLe(msg[field + 4..field + 8]);
    if offset + len <= |msg| then Some(msg[offset..offset + len]) else None
  }

  const LM_FIELD: nat := 12
  const NT_FIELD: nat := 20
  const DOMAIN_FIELD: nat := 28
  const USER_FIELD: nat := 36
  const WORKSTATION_FIELD: nat := 44
  const KEY_FIELD: nat := 52

  /** A descriptor that fits leads to its payload; one whose length needs more than 16 bits does not. */
  lemma FollowDescriptor(msg: seq<byte>, field: nat, offset: nat, payload: seq<byte>)
    requires field + 8 <= |msg| && msg[field..field + 8] == Descriptor(|payload|, offset)
    requires offset + |payload| <= |msg|
    requires msg[offset..offset + |payload|] == payload
    ensures |payload| >= U16_LIMIT ==> Read(msg, field) != Some(payload)
    ensures |payload| < U16_LIMIT && offset < U32_LIMIT ==> Read(msg, field) == Some(payload)
  {
    DescriptorParts(|payload|, offset);
    FollowBytes(msg, field, msg[field..field + 8], offset, payload);
  }

  lemma FollowBytes(msg: seq<byte>, field: nat, d: seq<byte>, offset: nat, payload: seq<byte>)
    requires field + 8 <= |msg| && d == msg[field..field + 8]
    requires U16FromLe(d[..2]) == |payload| % U16_LIMIT && U32FromLe(d[4..]) == offset % U32_LIMIT
    requires offset + |payload| <= |msg| && msg[offset..offset + |payload|] == payload
    ensures |payload| >= U16_LIMIT ==> Read(msg, field) != Some(payload)
    ensures |payload| < U16_LIMIT && offset < U32_LIMIT ==> Read(msg, field) == Some(payload)
  {
    ReadAt(msg, field);
  }

  /** What a descriptor's eight bytes say. */
  lemma ReadAt(msg: seq<byte>, field: nat)
    requires field + 8 <= |msg|
    ensures var d := msg[field..field + 8];
            var len, offset := U16FromLe(d[..2]), U32FromLe(d[4..]);
            Read(msg, field) == if offset + len <= |msg| then Some(msg[offset..offset + len]) else None
  {
    assert msg[field..field + 2] == msg[field..field + 8][..2];
    assert msg[field + 4..field + 8] == msg[field..field + 8][4..];
  }

  lemma DescriptorParts(len: nat, offset: nat)
    ensures U16FromLe(Descriptor(len, offset)[..2]) == len % U16_LIMIT
    ensures U32FromLe(Descriptor(len, offset)[4..]) == offset % U32_LIMIT
  {
    assert Descriptor(len, offset)[..2] == U16ToLe(len);
    assert Descriptor(len, offset)[4..] == U32ToLe(offset);
    U16RoundTrip(len);
    U32RoundTrip(offset);
  }

  /** The six descriptors, for payloads that start at `base`. */
  ghost predicate Describes(msg: seq<byte>, p: Payloads, base: nat)
    requires |msg| >= 60
  {
    var lm := base + |p.domain| + |p.user|;
    && msg[DOMAIN_FIELD..DOMAIN_FIELD + 8] == Descriptor(|p.domain|, base)
    && msg[USER_FIELD..USER_FIELD + 8] == Descriptor(|p.user|, base + |p.domain|)
    && msg[WORKSTATION_FIELD..WORKSTATION_FIELD + 8] == Descriptor(0, lm)
    && msg[LM_FIELD..LM_FIELD + 8] == Descriptor(|p.lm|, lm)
    && msg[NT_FIELD..NT_FIELD + 8] == Descriptor(|p.nt|, lm + |p.lm|)
    && msg[KEY_FIELD..KEY_FIELD + 8] == Descriptor(|p.key|, lm + |p.lm| + |p.nt|)
  }

  /** The payloads lie one after the other and fill the message from `base` on. */
  ghost predicate Tiles(msg: seq<byte>, p: Payloads, base: nat) {
    var lm := base + |p.domain| + |p.user|;
    var key := lm + |p.lm| + |p.nt|;
    && |msg| == key + |p.key|
    && msg[base..base + |p.domain|] == p.domain && msg[base + |p.domain|..lm] == p.user
    && msg[lm..lm + |p.lm|] == p.lm && msg[lm + |p.lm|..key] == p.nt && msg[key..] == p.key
  }

  predicate FitsHeader(p: Payloads) {
    |p.domain| < U16_LIMIT && |p.user| < U16_LIMIT && |p.lm| < U16_LIMIT && |p.nt| < U16_LIMIT && |p.key| < U16_LIMIT
  }

  ghost predicate ReadsBack(msg: seq<byte>, p: Payloads)
    requires |msg| >= 72
  {
    && Read(msg, DOMAIN_FIELD) == Some(p.domain) && Read(msg, USER_FIELD) == Some(p.user)
    && Read(msg, WORKSTATION_FIELD) == Some([])
    && Read(msg, LM_FIELD) == Some(p.lm) && Read(msg, NT_FIELD) == Some(p.nt) && Read(msg, KEY_FIELD) == Some(p.key)
  }

  /** The built message has its descriptors in place and its payloads end to end after the header. */
  lemma MessageLayout(flags: nat, p: Payloads, includeMic: bool)
    ensures var msg := Message(flags, p, includeMic);
            && |msg| == HeaderSize(includeMic) + |p.domain| + |p.user| + |p.lm| + |p.nt| + |p.key|
            && Describes(msg, p, HeaderSize(includeMic)) && Tiles(msg, p, HeaderSize(includeMic))
  {
    HeaderDescribes(flags, p, includeMic);
    var h := Header(flags, p, includeMic);
    SameDescriptors(h, Message(flags, p, includeMic), p, |h|);
    PayloadTiles(h, p);
  }

  /** The fixed fields: signature, message type, flags, and a MIC field of zeros when there is one. */
  lemma FixedFields(flags: nat, p: Payloads, includeMic: bool)
    ensures var msg := Message(flags, p, includeMic);
            && |msg| >= 72
            && msg[..8] == NTLM_SIGNATURE && msg[8..12] == U32ToLe(MSG_TYPE_AUTHENTICATE)
            && U32FromLe(msg[60..64]) == flags % U32_LIMIT && msg[64..72] == Zeros(8)
            && (includeMic ==> |msg| >= 88 && msg[72..88] == Zeros(16))
  {
    assert Message(flags, p, includeMic)[60..64] == U32ToLe(flags);
    U32RoundTrip(flags);
  }

  lemma HeaderDescribes(flags: nat, p: Payloads, includeMic: bool)
    ensures Describes(Header(flags, p, includeMic), p, HeaderSize(includeMic))
  {
  }

  lemma PayloadTiles(h: seq<byte>, p: Payloads)
    ensures Tiles(h + Payload(p), p, |h|)
  {
  }

  lemma SameDescriptors(a: seq<byte>, b: seq<byte>, p: Payloads, base: nat)
    requires |a| >= 60 && |b| >= 60 && a[..60] == b[..60] && Describes(a, p, base)
    ensures Describes(b, p, base)
  {
    SameSlice(a, b, DOMAIN_FIELD);
    SameSlice(a, b, USER_FIELD);
    SameSlice(a, b, WORKSTATION_FIELD);
    SameSlice(a, b, LM_FIELD);
    SameSlice(a, b, NT_FIELD);
    SameSlice(a, b, KEY_FIELD);
  }

  lemma SameSlice(a: seq<byte>, b: seq<byte>, field: nat)
    requires |a| >= 60 && |b| >= 60 && a[..60] == b[..60] && field <= 52
    ensures a[field..field + 8] == b[field..field + 8]
  {
    assert a[..60][field..field + 8] == a[field..field + 8];
    assert b[..60][field..field + 8] == b[field..field + 8];
  }

  /** All six fields read back exactly when every payload is below 64 KiB. */
  lemma LaidOutFieldsReadBack(msg: seq<byte>, p: Payloads, base: nat)
    requires 72 <= base <= 88 && Tiles(msg, p, base) && Describes(msg, p, base)
    ensures ReadsBack(msg, p) <==> FitsHeader(p)
  {
    NamesReadBack(msg, p, base);
    ResponsesReadBack(msg, p, base);
  }

  lemma NamesReadBack(msg: seq<byte>, p: Payloads, base: nat)
    requires 72 <= base <= 88 && Tiles(msg, p, base) && Describes(msg, p, base)
    ensures |p.domain| >= U16_LIMIT ==> Read(msg, DOMAIN_FIELD) != Some(p.domain)
    ensures |p.user| >= U16_LIMIT ==> Read(msg, USER_FIELD) != Some(p.user)
    ensures FitsHeader(p) ==>
              && Read(msg, DOMAIN_FIELD) == Some(p.domain) && Read(msg, USER_FIELD) == Some(p.user)
              && Read(msg, WORKSTATION_FIELD) == Some([])
  {
    FollowDescriptor(msg, DOMAIN_FIELD, base, p.domain);
    FollowDescriptor(msg, USER_FIELD, base + |p.domain|, p.user);
    FollowDescriptor(msg, WORKSTATION_FIELD, base + |p.domain| + |p.user|, []);
  }

  lemma ResponsesReadBack(msg: seq<byte>, p: Payloads, base: nat)
    requires 72 <= base <= 88 && Tiles(msg, p, base) && Describes(msg, p, base)
    ensures |p.lm| >= U16_LIMIT ==> Read(msg, LM_FIELD) != Some(p.lm)
    ensures |p.nt| >= U16_LIMIT ==> Read(msg, NT_FIELD) != Some(p.nt)
    ensures |p.key| >= U16_LIMIT ==> Read(msg, KEY_FIELD) != Some(p.key)
    ensures FitsHeader(p) ==>
              && Read(msg, LM_FIELD) == Some(p.lm) && Read(msg, NT_FIELD) == Some(p.nt)
              && Read(msg, KEY_FIELD) == Some(p.key)
  {
    var lm := base + |p.domain| + |p.user|;
    FollowDescriptor(msg, LM_FIELD, lm, p.lm);
    FollowDescriptor(msg, NT_FIELD, lm + |p.lm|, p.nt);
    FollowDescriptor(msg, KEY_FIELD, lm + |p.lm| + |p.nt|, p.key);
  }

  lemma FieldsReadBack(flags: nat, p: Payloads, includeMic: bool)
    ensures ReadsBack(Message(flags, p, includeMic), p) <==> FitsHeader(p)
  {
    MessageLayout(flags, p, includeMic);
    LaidOutFieldsReadBack(Message(flags, p, includeMic), p, HeaderSize(includeMic));
  }

  /** Writing the MIC over bytes 72..88. */
  function PatchMic(msg: seq<byte>, mic: seq<byte>): (r: seq<byte>)
    requires |msg| >= 88 && |mic| == 16
    ensures |r| == |msg|
  {
    msg[..72] + mic + msg[88..]
  }

  /** The MIC lands in its own field: every descriptor still leads to its payload. */
  lemma MicDisturbsNothing(flags: nat, p: Payloads, mic: seq<byte>)
    requires |mic| == 16
    ensures var msg := PatchMic(Message(flags, p, true), mic);
            && msg[72..88] == mic
            && msg[..72] == Message(flags, p, true)[..72]
            && (ReadsBack(msg, p) <==> FitsHeader(p))
  {
    var built := Message(flags, p, true);
    var msg := PatchMic(built, mic);
    MessageLayout(flags, p, true);
    assert msg[..60] == built[..60];
    SameDescriptors(built, msg, p, 88);
    SameTiles(built, msg, p);
    LaidOutFieldsReadBack(msg, p, 88);
  }

  lemma SameTiles(a: seq<byte>, b: seq<byte>, p: Payloads)
    requires |a| == |b| && |a| >= 88 && a[88..] == b[88..] && Tiles(a, p, 88)
    ensures Tiles(b, p, 88)
  {
    var user := 88 + |p.domain|;
    var lm := user + |p.user|;
    var nt := lm + |p.lm|;
    var key := nt + |p.nt|;
    SameBelow(a, b, 88, user);
    SameBelow(a, b, user, lm);
    SameBelow(a, b, lm, nt);
    SameBelow(a, b, nt, key);
    SameBelow(a, b, key, |a|);
  }

  lemma SameBelow(a: seq<byte>, b: seq<byte>, from: nat, to: nat)
    requires |a| == |b| && 88 <= from <= to <= |a| && a[88..] == b[88..]
    ensures a[from..to] == b[from..to] && (to == |a| ==> a[from..] == b[from..])
  {
    assert a[88..][from - 88..to - 88] == a[from..to];
    assert b[88..][from - 88..to - 88] == b[from..to];
  }
}
