/**
SPNEGO tokens (src/auth/spnego.rs, section 4.2 of RFC 4178): wrapping a mechanism token in its
DER layers, and finding it again in what a server sends.
*/
module Spnego {
  import opened Bytes
  import opened Der

  const OID_SPNEGO: seq<byte> := [0x06, 0x06, 0x2b, 0x06, 0x01, 0x05, 0x05, 0x02]

  const TAG_OID: byte := 0x06
  const TAG_SEQUENCE: byte := 0x30
  const TAG_OCTET_STRING: byte := 0x04
  const TAG_ENUMERATED: byte := 0x0a
  const TAG_APPLICATION_0: byte := 0x60
  const TAG_CONTEXT_0: byte := 0xa0
  const TAG_CONTEXT_1: byte := 0xa1
  const TAG_CONTEXT_2: byte := 0xa2
  const TAG_CONTEXT_3: byte := 0xa3

  datatype NegState = AcceptCompleted | AcceptIncomplete | Reject

  datatype NegTokenResp = NegTokenResp(negState: Option<NegState>, supportedMech: Option<seq<byte>>,
                                       responseToken: Option<seq<byte>>, mechListMic: Option<seq<byte>>)

  const NO_FIELDS := NegTokenResp(None, None, None, None)

  // ---- Wrapping.

  function RespContent(token: seq<byte>): seq<byte> {
    DerTlv(TAG_SEQUENCE, DerTlv(TAG_CONTEXT_2, DerTlv(TAG_OCTET_STRING, token)))
  }

  function WrapNegTokenResp(token: seq<byte>): seq<byte> {
    DerTlv(TAG_CONTEXT_1, RespContent(token))
  }

  function InitContent(mechList: seq<byte>, token: seq<byte>): seq<byte> {
    DerTlv(TAG_CONTEXT_0, DerTlv(TAG_SEQUENCE, mechList)) + DerTlv(TAG_CONTEXT_2, DerTlv(TAG_OCTET_STRING, token))
  }

  function ApplicationContent(mechList: seq<byte>, token: seq<byte>): seq<byte> {
    OID_SPNEGO + DerTlv(TAG_CONTEXT_0, DerTlv(TAG_SEQUENCE, InitContent(mechList, token)))
  }

  function WrapNegTokenInit(mechOids: seq<seq<byte>>, token: seq<byte>): seq<byte> {
    DerTlv(TAG_APPLICATION_0, ApplicationContent(Concat(mechOids), token))
  }

  // ---- Parsing.

  function StateOf(v: byte): Option<NegState> {
    if v == 0 then Some(AcceptCompleted)
    else if v == 1 then Some(AcceptIncomplete)
    else if v == 2 then Some(Reject)
    else None
  }

  function Octets(data: seq<byte>): Result<seq<byte>, DerError> {
    match ParseTlv(data)
    case Err(e) => Err(e)
    case Ok(t) => if t.tag != TAG_OCTET_STRING then Err(UnexpectedTag(t.tag)) else Ok(t.value)
  }

  /** One field of a NegTokenResp. */
  function RespField(t: Tlv, acc: NegTokenResp): Result<NegTokenResp, DerError> {
    if t.tag == TAG_CONTEXT_0 then
      match ParseTlv(t.value)
      case Err(e) => Err(e)
      case Ok(e) =>
        if e.tag != TAG_ENUMERATED then Err(UnexpectedTag(e.tag))
        else if e.value == [] then Err(EmptyEnumerated)
        else if StateOf(e.value[0]).None? then Err(UnknownState(e.value[0]))
        else Ok(acc.(negState := StateOf(e.value[0])))
    else if t.tag == TAG_CONTEXT_1 then Ok(acc.(supportedMech := Some(t.value)))
    else if t.tag == TAG_CONTEXT_2 then
      match Octets(t.value)
      case Err(e) => Err(e)
      case Ok(v) => Ok(acc.(responseToken := Some(v)))
    else if t.tag == TAG_CONTEXT_3 then
      match Octets(t.value)
      case Err(e) => Err(e)
      case Ok(v) => Ok(acc.(mechListMic := Some(v)))
    else Ok(acc)
  }

  /** The first mechanism of a list: nothing if the list is empty or does not start with an OID. */
  function FirstMech(mechList: seq<byte>, otherwise: Option<seq<byte>>): Result<Option<seq<byte>>, DerError> {
    if mechList == [] then Ok(otherwise)
    else match ParseTlv(mechList)
         case Err(e) => Err(e)
         case Ok(oid) => if oid.tag == TAG_OID then Ok(Some(mechList[..oid.total])) else Ok(otherwise)
  }

  /** One field of a NegTokenInit2. */
  function InitField(t: Tlv, acc: NegTokenResp): Result<NegTokenResp, DerError> {
    if t.tag == TAG_CONTEXT_0 then
      match ParseTlv(t.value)
      case Err(e) => Err(e)
      case Ok(list) =>
        if list.tag != TAG_SEQUENCE then Err(UnexpectedTag(list.tag))
        else match FirstMech(list.value, acc.supportedMech)
             case Err(e) => Err(e)
             case Ok(mech) => Ok(acc.(supportedMech := mech))
    else if t.tag == TAG_CONTEXT_2 then
      match ParseTlv(t.value)
      case Err(e) => Err(e)
      case Ok(o) => if o.tag == TAG_OCTET_STRING then Ok(acc.(responseToken := Some(o.value))) else Ok(acc)
    else Ok(acc)
  }

  datatype Kind = Resp | Init2

  function Field(kind: Kind, t: Tlv, acc: NegTokenResp): Result<NegTokenResp, DerError> {
    if kind.Resp? then RespField(t, acc) else InitField(t, acc)
  }

  /** The fields of a SEQUENCE body, first to last. */
  function Fields(kind: Kind, body: seq<byte>, acc: NegTokenResp): Result<NegTokenResp, DerError>
    decreases |body|
  {
    if body == [] then Ok(acc)
    else match ParseTlv(body)
         case Err(e) => Err(e)
         case Ok(t) =>
           match Field(kind, t, acc)
           case Err(e) => Err(e)
           case Ok(next) => Fields(kind, body[t.total..], next)
  }

  /** The SEQUENCE of a token and its fields. */
  function Inner(kind: Kind, data: seq<byte>): Result<NegTokenResp, DerError> {
    match ParseTlv(data)
    case Err(e) => Err(e)
    case Ok(t) => if t.tag != TAG_SEQUENCE then Err(UnexpectedTag(t.tag)) else Fields(kind, t.value, NO_FIELDS)
  }

  /** What one round of the inner parsers' loop leaves: the fields so far, and how far it moved. */
  datatype Round = Round(fields: NegTokenResp, consumed: nat)

  method ParseField(kind: Kind, rest: seq<byte>, acc: NegTokenResp) returns (r: Result<Round, DerError>)
    requires rest != []
    ensures r.Ok? ==> 1 <= r.value.consumed <= |rest|
                      && Fields(kind, rest, acc) == Fields(kind, rest[r.value.consumed..], r.value.fields)
    ensures r.Err? ==> Fields(kind, rest, acc) == Err(r.error)
  {
    var t := ParseTlv(rest);
    if t.Err? {
      return Err(t.error);
    }
    var next := Field(kind, t.value, acc);
    if next.Err? {
      return Err(next.error);
    }
    return Ok(Round(next.value, t.value.total));
  }

  /** The loop of the two inner parsers: a cursor moving over the SEQUENCE body. */
  method ParseFields(kind: Kind, body: seq<byte>) returns (r: Result<NegTokenResp, DerError>)
    ensures r == Fields(kind, body, NO_FIELDS)
  {
    var acc := NO_FIELDS;
    var pos := 0;
    ghost var rest := body;
    while pos < |body|
      invariant pos <= |body| && rest == body[pos..]
      invariant Fields(kind, rest, acc) == Fields(kind, body, NO_FIELDS)
      decreases |body| - pos
    {
      var next := ParseField(kind, body[pos..], acc);
      if next.Err? {
        return Err(next.error);
      }
      rest := rest[next.value.consumed..];
      acc, pos := next.value.fields, pos + next.value.consumed;
    }
    return Ok(acc);
  }

  method ParseInner(kind: Kind, data: seq<byte>) returns (r: Result<NegTokenResp, DerError>)
    ensures r == Inner(kind, data)
  {
    var outer := ParseTlv(data);
    if outer.Err? {
      return Err(outer.error);
    }
    if outer.value.tag != TAG_SEQUENCE {
      return Err(UnexpectedTag(outer.value.tag));
    }
    r := ParseFields(kind, outer.value.value);
  }

  /** The dispatch on the outermost layers. */
  function ParseToken(data: seq<byte>): Result<NegTokenResp, DerError> {
    if data == [] then Err(EmptyToken)
    else match ParseTlv(data)
         case Err(e) => Err(e)
         case Ok(t) =>
           if t.tag == TAG_CONTEXT_1 then Inner(Resp, t.value)
           else if t.tag == TAG_APPLICATION_0 then
             match ParseTlv(t.value)
             case Err(e) => Err(e)
             case Ok(oid) =>
               if oid.tag != TAG_OID then Err(UnexpectedTag(oid.tag))
               else match ParseTlv(t.value[oid.total..])
                    case Err(e) => Err(e)
                    case Ok(choice) =>
                      if choice.tag == TAG_CONTEXT_0 then Inner(Init2, choice.value)
                      else if choice.tag == TAG_CONTEXT_1 then Inner(Resp, choice.value)
                      else Err(UnexpectedTag(choice.tag))
           else Err(UnexpectedTag(t.tag))
  }

  method ParseNegTokenResp(data: seq<byte>) returns (r: Result<NegTokenResp, DerError>)
    ensures r == ParseToken(data)
  {
    if data == [] {
      return Err(EmptyToken);
    }
    var outer := ParseTlv(data);
    if outer.Err? {
      return Err(outer.error);
    }
    var Tlv(tag, value, _) := outer.value;
    if tag == TAG_CONTEXT_1 {
      r := ParseInner(Resp, value);
      return;
    }
    if tag != TAG_APPLICATION_0 {
      return Err(UnexpectedTag(tag));
    }
    var oid := ParseTlv(value);
    if oid.Err? {
      return Err(oid.error);
    }
    if oid.value.tag != TAG_OID {
      return Err(UnexpectedTag(oid.value.tag));
    }
    var choice := ParseTlv(value[oid.value.total..]);
    if choice.Err? {
      return Err(choice.error);
    }
    if choice.value.tag == TAG_CONTEXT_0 {
      r := ParseInner(Init2, choice.value.value);
    } else if choice.value.tag == TAG_CONTEXT_1 {
      r := ParseInner(Resp, choice.value.value);
    } else {
      return Err(UnexpectedTag(choice.value.tag));
    }
  }

  // ---- Round trips.

  lemma WholeTlv(tag: byte, data: seq<byte>)
    requires |data| < U16_LIMIT
    ensures ParseTlv(DerTlv(tag, data)) == Ok(Tlv(tag, data, |DerTlv(tag, data)|))
  {
    TlvRoundTrip(tag, data, []);
    assert DerTlv(tag, data) + [] == DerTlv(tag, data);
  }

  /** The mechanism token field, alone at the end of a body. */
  lemma TokenField(kind: Kind, token: seq<byte>, acc: NegTokenResp)
    requires |DerTlv(TAG_CONTEXT_2, DerTlv(TAG_OCTET_STRING, token))| < U16_LIMIT
    ensures Fields(kind, DerTlv(TAG_CONTEXT_2, DerTlv(TAG_OCTET_STRING, token)), acc)
            == Ok(acc.(responseToken := Some(token)))
  {
    var octets := DerTlv(TAG_OCTET_STRING, token);
    var body := DerTlv(TAG_CONTEXT_2, octets);
    WholeTlv(TAG_OCTET_STRING, token);
    WholeTlv(TAG_CONTEXT_2, octets);
    assert body[|body|..] == [];
  }

  lemma RespParses(token: seq<byte>)
    requires |RespContent(token)| < U16_LIMIT
    ensures ParseToken(WrapNegTokenResp(token)) == Ok(NO_FIELDS.(responseToken := Some(token)))
  {
    var field := DerTlv(TAG_CONTEXT_2, DerTlv(TAG_OCTET_STRING, token));
    TokenField(Resp, token, NO_FIELDS);
    WholeTlv(TAG_SEQUENCE, field);
    WholeTlv(TAG_CONTEXT_1, RespContent(token));
  }

  /** No field of a parsed token is longer than the bytes it was parsed from. */
  ghost predicate Within(r: NegTokenResp, bound: nat) {
    r.responseToken.Some? ==> |r.responseToken.value| <= bound
  }

  lemma {:induction false} FieldsWithin(kind: Kind, body: seq<byte>, acc: NegTokenResp, bound: nat)
    requires Within(acc, bound) && |body| <= bound && Fields(kind, body, acc).Ok?
    ensures Within(Fields(kind, body, acc).value, bound)
    decreases |body|
  {
    if body != [] {
      var t := ParseTlv(body).value;
      FieldsWithin(kind, body[t.total..], Field(kind, t, acc).value, bound);
    }
  }

  /** A token parses back from its NegTokenResp exactly when the innermost layers leave it room: at most 65523 bytes. */
  lemma RespRoundTrip(token: seq<byte>)
    ensures ParseToken(WrapNegTokenResp(token)) == Ok(NO_FIELDS.(responseToken := Some(token)))
            <==> |token| <= 65523
  {
    var content := RespContent(token);
    ContentSize(token);
    if |content| < U16_LIMIT {
      RespParses(token);
    } else {
      OversizedTlvIsCut(TAG_CONTEXT_1, content);
      var cut := content[..|content| % U16_LIMIT];
      assert |cut| < |token|;
      if Inner(Resp, cut).Ok? {
        FieldsWithin(Resp, ParseTlv(cut).value.value, NO_FIELDS, |cut|);
      }
    }
  }

  lemma ContentSize(token: seq<byte>)
    ensures |RespContent(token)| < U16_LIMIT <==> |token| <= 65523
    ensures |token| < |RespContent(token)| <= |token| + 12
  {
  }

  /** The mechanism list and the token come back out of all the layers of a NegTokenInit. */
  lemma InitRoundTrip(mechOids: seq<seq<byte>>, token: seq<byte>)
    requires |ApplicationContent(Concat(mechOids), token)| < U16_LIMIT
    ensures ParseToken(WrapNegTokenInit(mechOids, token))
            == match FirstMech(Concat(mechOids), None)
               case Err(e) => Err(e)
               case Ok(mech) => Ok(NegTokenResp(None, mech, Some(token), None))
  {
    var mechList := Concat(mechOids);
    var content := InitContent(mechList, token);
    var choice := DerTlv(TAG_CONTEXT_0, DerTlv(TAG_SEQUENCE, content));
    var app := ApplicationContent(mechList, token);
    InitFields(mechList, token);
    WholeTlv(TAG_SEQUENCE, content);
    WholeTlv(TAG_CONTEXT_0, DerTlv(TAG_SEQUENCE, content));
    WholeTlv(TAG_APPLICATION_0, app);
    SpnegoOid(choice);
  }

  lemma SpnegoOid(rest: seq<byte>)
    ensures ParseTlv(OID_SPNEGO + rest) == Ok(Tlv(TAG_OID, OID_SPNEGO[2..], 8))
    ensures (OID_SPNEGO + rest)[8..] == rest
  {
    assert DerTlv(TAG_OID, OID_SPNEGO[2..]) == OID_SPNEGO;
    TlvRoundTrip(TAG_OID, OID_SPNEGO[2..], rest);
  }

  lemma InitFields(mechList: seq<byte>, token: seq<byte>)
    requires |InitContent(mechList, token)| < U16_LIMIT
    ensures Fields(Init2, InitContent(mechList, token), NO_FIELDS)
            == match FirstMech(mechList, None)
               case Err(e) => Err(e)
               case Ok(mech) => Ok(NegTokenResp(None, mech, Some(token), None))
  {
    var list := DerTlv(TAG_SEQUENCE, mechList);
    var mechs := DerTlv(TAG_CONTEXT_0, list);
    var rest := DerTlv(TAG_CONTEXT_2, DerTlv(TAG_OCTET_STRING, token));
    WholeTlv(TAG_SEQUENCE, mechList);
    TlvRoundTrip(TAG_CONTEXT_0, list, rest);
    assert (mechs + rest)[|mechs|..] == rest;
    var first := FirstMech(mechList, None);
    if first.Ok? {
      TokenField(Init2, token, NO_FIELDS.(supportedMech := first.value));
    }
  }

  /** With a well-formed first OID, that OID and the token come back. */
  lemma InitRoundTripFirstOid(mechOids: seq<seq<byte>>, oid: seq<byte>, token: seq<byte>)
    requires |ApplicationContent(Concat(mechOids), token)| < U16_LIMIT
    requires mechOids != [] && mechOids[0] == DerTlv(TAG_OID, oid) && |oid| < U16_LIMIT
    ensures ParseToken(WrapNegTokenInit(mechOids, token))
            == Ok(NegTokenResp(None, Some(mechOids[0]), Some(token), None))
  {
    InitRoundTrip(mechOids, token);
    var rest := Concat(mechOids[1..]);
    assert Concat(mechOids) == mechOids[0] + rest;
    TlvRoundTrip(TAG_OID, oid, rest);
    assert Concat(mechOids)[..|mechOids[0]|] == mechOids[0];
  }

  // ---- A whole NegTokenResp.

  /** A field if there is something to put in it. */
  function Optional(tag: byte, content: Option<seq<byte>>): seq<byte> {
    match content
    case Some(v) => DerTlv(tag, v)
    case None => []
  }

  function OctetString(v: Option<seq<byte>>): Option<seq<byte>> {
    match v
    case Some(b) => Some(DerTlv(TAG_OCTET_STRING, b))
    case None => None
  }

  function Enumerated(v: Option<byte>): Option<seq<byte>> {
    match v
    case Some(b) => Some(DerTlv(TAG_ENUMERATED, [b]))
    case None => None
  }

  /** The fields of section 4.2.2 of RFC 4178, in order, each there or not. */
  function RespBody(
      state: Option<byte>, mech: Option<seq<byte>>, token: Option<seq<byte>>, mic: Option<seq<byte>>): seq<byte>
  {
    Optional(0xa0, Enumerated(state))
    + (Optional(0xa1, mech) + (Optional(0xa2, OctetString(token)) + Optional(0xa3, OctetString(mic))))
  }

  function FullResp(
      state: Option<byte>, mech: Option<seq<byte>>, token: Option<seq<byte>>, mic: Option<seq<byte>>): seq<byte>
  {
    DerTlv(0xa1, DerTlv(0x30, RespBody(state, mech, token, mic)))
  }

  /** One field in front of others is taken in, and parsing goes on behind it. */
  lemma OneField(kind: Kind, tag: byte, content: seq<byte>, rest: seq<byte>, acc: NegTokenResp)
    requires |content| < U16_LIMIT
    ensures var step := Field(kind, Tlv(tag, content, |DerTlv(tag, content)|), acc);
            Fields(kind, DerTlv(tag, content) + rest, acc)
            == if step.Err? then Err(step.error) else Fields(kind, rest, step.value)
  {
    TlvRoundTrip(tag, content, rest);
    assert (DerTlv(tag, content) + rest)[|DerTlv(tag, content)|..] == rest;
  }

  lemma OctetsParse(v: seq<byte>)
    requires |v| < U16_LIMIT
    ensures Octets(DerTlv(TAG_OCTET_STRING, v)) == Ok(v)
  {
    WholeTlv(TAG_OCTET_STRING, v);
  }

  lemma MicField(mic: Option<seq<byte>>, acc: NegTokenResp)
    requires |Optional(0xa3, OctetString(mic))| < U16_LIMIT && acc.mechListMic.None?
    ensures Fields(Resp, Optional(0xa3, OctetString(mic)), acc) == Ok(acc.(mechListMic := mic))
  {
    if mic.Some? {
      var octets := DerTlv(TAG_OCTET_STRING, mic.value);
      OctetsParse(mic.value);
      OneField(Resp, 0xa3, octets, [], acc);
      assert DerTlv(0xa3, octets) + [] == DerTlv(0xa3, octets);
    }
  }

  lemma TokenAndRest(token: Option<seq<byte>>, rest: seq<byte>, acc: NegTokenResp)
    requires |Optional(0xa2, OctetString(token))| < U16_LIMIT && acc.responseToken.None?
    ensures Fields(Resp, Optional(0xa2, OctetString(token)) + rest, acc)
            == Fields(Resp, rest, acc.(responseToken := token))
  {
    if token.Some? {
      OctetsParse(token.value);
      OneField(Resp, 0xa2, DerTlv(TAG_OCTET_STRING, token.value), rest, acc);
    } else {
      assert [] + rest == rest;
    }
  }

  lemma MechAndRest(mech: Option<seq<byte>>, rest: seq<byte>, acc: NegTokenResp)
    requires |Optional(0xa1, mech)| < U16_LIMIT && acc.supportedMech.None?
    ensures Fields(Resp, Optional(0xa1, mech) + rest, acc) == Fields(Resp, rest, acc.(supportedMech := mech))
  {
    if mech.Some? {
      OneField(Resp, 0xa1, mech.value, rest, acc);
    } else {
      assert [] + rest == rest;
    }
  }

  lemma EnumeratedParses(v: byte)
    ensures ParseTlv(DerTlv(TAG_ENUMERATED, [v])) == Ok(Tlv(TAG_ENUMERATED, [v], |DerTlv(TAG_ENUMERATED, [v])|))
  {
    WholeTlv(TAG_ENUMERATED, [v]);
  }

  /** The states of section 4.2.2 of RFC 4178. */
  lemma StateAndRest(state: Option<byte>, rest: seq<byte>, acc: NegTokenResp)
    requires acc.negState.None?
    ensures var r := Fields(Resp, Optional(0xa0, Enumerated(state)) + rest, acc);
            && (state == None ==> r == Fields(Resp, rest, acc))
            && (state == Some(0) ==> r == Fields(Resp, rest, acc.(negState := Some(AcceptCompleted))))
            && (state == Some(1) ==> r == Fields(Resp, rest, acc.(negState := Some(AcceptIncomplete))))
            && (state == Some(2) ==> r == Fields(Resp, rest, acc.(negState := Some(Reject))))
            && (state.Some? && state.value >= 3 ==> r == Err(UnknownState(state.value)))
  {
    if state.Some? {
      EnumeratedParses(state.value);
      OneField(Resp, 0xa0, DerTlv(TAG_ENUMERATED, [state.value]), rest, acc);
    } else {
      assert [] + rest == rest;
    }
  }

  /** What comes after the state comes back as it is. */
  lemma RestOfResp(mech: Option<seq<byte>>, token: Option<seq<byte>>, mic: Option<seq<byte>>, acc: NegTokenResp)
    requires |Optional(0xa1, mech)| < U16_LIMIT && |Optional(0xa2, OctetString(token))| < U16_LIMIT
    requires |Optional(0xa3, OctetString(mic))| < U16_LIMIT
    requires acc.supportedMech.None? && acc.responseToken.None? && acc.mechListMic.None?
    ensures Fields(Resp,
                   Optional(0xa1, mech) + (Optional(0xa2, OctetString(token)) + Optional(0xa3, OctetString(mic))),
                   acc)
            == Ok(NegTokenResp(acc.negState, mech, token, mic))
  {
    MechAndRest(mech, Optional(0xa2, OctetString(token)) + Optional(0xa3, OctetString(mic)), acc);
    TokenAndRest(token, Optional(0xa3, OctetString(mic)), acc.(supportedMech := mech));
    MicField(mic, acc.(supportedMech := mech, responseToken := token));
  }

  /**
  A whole NegTokenResp, with any of its four fields there or not, comes back field by field through
  all layers; a state other than the three is an error.
  */
  lemma WholeRespRoundTrip(
      state: Option<byte>, mech: Option<seq<byte>>, token: Option<seq<byte>>, mic: Option<seq<byte>>)
    requires |DerTlv(0x30, RespBody(state, mech, token, mic))| < U16_LIMIT
    ensures var r := ParseToken(FullResp(state, mech, token, mic));
            && (state == None ==> r == Ok(NegTokenResp(None, mech, token, mic)))
            && (state == Some(0) ==> r == Ok(NegTokenResp(Some(AcceptCompleted), mech, token, mic)))
            && (state == Some(1) ==> r == Ok(NegTokenResp(Some(AcceptIncomplete), mech, token, mic)))
            && (state == Some(2) ==> r == Ok(NegTokenResp(Some(Reject), mech, token, mic)))
            && (state.Some? && state.value >= 3 ==> r == Err(UnknownState(state.value)))
  {
    var body := RespBody(state, mech, token, mic);
    LayersOpen(body);
    RespBodyParses(state, mech, token, mic);
  }

  lemma LayersOpen(body: seq<byte>)
    requires |DerTlv(0x30, body)| < U16_LIMIT
    ensures ParseToken(DerTlv(0xa1, DerTlv(0x30, body))) == Fields(Resp, body, NO_FIELDS)
  {
    WholeTlv(0x30, body);
    WholeTlv(0xa1, DerTlv(0x30, body));
  }

  lemma RespBodyParses(state: Option<byte>, mech: Option<seq<byte>>, token: Option<seq<byte>>, mic: Option<seq<byte>>)
    requires |RespBody(state, mech, token, mic)| < U16_LIMIT
    ensures var r := Fields(Resp, RespBody(state, mech, token, mic), NO_FIELDS);
            && (state == None ==> r == Ok(NegTokenResp(None, mech, token, mic)))
            && (state == Some(0) ==> r == Ok(NegTokenResp(Some(AcceptCompleted), mech, token, mic)))
            && (state == Some(1) ==> r == Ok(NegTokenResp(Some(AcceptIncomplete), mech, token, mic)))
            && (state == Some(2) ==> r == Ok(NegTokenResp(Some(Reject), mech, token, mic)))
            && (state.Some? && state.value >= 3 ==> r == Err(UnknownState(state.value)))
  {
    var rest := Optional(0xa1, mech) + (Optional(0xa2, OctetString(token)) + Optional(0xa3, OctetString(mic)));
    StateAndRest(state, rest, NO_FIELDS);
    RestOfResp(mech, token, mic, NO_FIELDS);
    RestOfResp(mech, token, mic, NO_FIELDS.(negState := Some(AcceptCompleted)));
    RestOfResp(mech, token, mic, NO_FIELDS.(negState := Some(AcceptIncomplete)));
    RestOfResp(mech, token, mic, NO_FIELDS.(negState := Some(Reject)));
  }

  /** The same token inside the application layer of an initial message means the same. */
  lemma RespInsideApplication(body: seq<byte>)
    requires |OID_SPNEGO + DerTlv(0xa1, DerTlv(0x30, body))| < U16_LIMIT
    ensures ParseToken(DerTlv(0x60, OID_SPNEGO + DerTlv(0xa1, DerTlv(0x30, body))))
            == ParseToken(DerTlv(0xa1, DerTlv(0x30, body)))
  {
    var choice := DerTlv(0xa1, DerTlv(0x30, body));
    LayersOpen(body);
    WholeTlv(0x30, body);
    WholeTlv(0xa1, DerTlv(0x30, body));
    WholeTlv(0x60, OID_SPNEGO + choice);
    SpnegoOid(choice);
  }

  /** Nothing but a response or an application token is taken. */
  lemma OtherTokensAreRefused(data: seq<byte>)
    ensures data == [] ==> ParseToken(data) == Err(EmptyToken)
    ensures ParseTlv(data).Ok? && ParseTlv(data).value.tag !in {0xa1, 0x60}
            ==> ParseToken(data) == Err(UnexpectedTag(ParseTlv(data).value.tag))
  {
  }

  /** A field the protocol does not know changes nothing. */
  lemma UnknownFieldIsSkipped(tag: byte, content: seq<byte>, rest: seq<byte>, acc: NegTokenResp)
    requires |content| < U16_LIMIT && tag !in {0xa0, 0xa1, 0xa2, 0xa3}
    ensures Fields(Resp, DerTlv(tag, content) + rest, acc) == Fields(Resp, rest, acc)
    ensures Fields(Init2, DerTlv(tag, content) + rest, acc) == Fields(Init2, rest, acc)
  {
    OneField(Resp, tag, content, rest, acc);
    OneField(Init2, tag, content, rest, acc);
  }

  /** A field that holds something else than it should ends a response's parsing; an empty state does too. */
  lemma BadRespFieldsAreRefused(tag: byte, inner: byte, v: seq<byte>, rest: seq<byte>, acc: NegTokenResp)
    requires |DerTlv(inner, v)| < U16_LIMIT
    ensures (tag == 0xa0 && inner != 0x0a) || (tag in {0xa2, 0xa3} && inner != 0x04)
            ==> Fields(Resp, DerTlv(tag, DerTlv(inner, v)) + rest, acc) == Err(UnexpectedTag(inner))
    ensures tag == 0xa0 && inner == 0x0a && v == []
            ==> Fields(Resp, DerTlv(tag, DerTlv(inner, v)) + rest, acc) == Err(EmptyEnumerated)
  {
    WholeTlv(inner, v);
    OneField(Resp, tag, DerTlv(inner, v), rest, acc);
  }

  /** An initial message must list its mechanisms in a SEQUENCE; a token of another type is passed over. */
  lemma BadInitFieldsAreHandled(inner: byte, v: seq<byte>, rest: seq<byte>, acc: NegTokenResp)
    requires |DerTlv(inner, v)| < U16_LIMIT
    ensures inner != 0x30 ==> Fields(Init2, DerTlv(0xa0, DerTlv(inner, v)) + rest, acc) == Err(UnexpectedTag(inner))
    ensures inner != 0x04 ==> Fields(Init2, DerTlv(0xa2, DerTlv(inner, v)) + rest, acc) == Fields(Init2, rest, acc)
  {
    WholeTlv(inner, v);
    OneField(Init2, 0xa0, DerTlv(inner, v), rest, acc);
    OneField(Init2, 0xa2, DerTlv(inner, v), rest, acc);
  }
}
