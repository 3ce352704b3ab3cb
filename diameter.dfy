/**
 * The part of the Diameter base protocol (RFC 6733) and of the S6a application
 * (3GPP TS 29.272) that the test HSS's Update-Location handling relies on:
 * AVP codes, result codes, AVP values and grouped-AVP trees, and the answer
 * message that the handler fills in place.
 *
 * Wire encoding, AVP flag bits and vendor identifiers are not modelled: every
 * AVP the handler builds carries the M bit and the 3GPP vendor id, so they add
 * nothing that distinguishes one answer from another.
 */
module Diameter {
  import opened Wrappers

  type AvpCode = nat

  const UINT32_MODULUS: nat := 0x1_0000_0000

  type Uint32 = x: nat | x < UINT32_MODULUS
  type Uint64 = x: nat | x < 0x1_0000_0000_0000_0000

  /** Go's conversion of a uint64 to a 32-bit unsigned type keeps the low 32 bits. */
  function ToUint32(x: Uint64): (r: Uint32)
    ensures x < UINT32_MODULUS ==> r == x
    ensures x >= UINT32_MODULUS ==> r < x
    ensures (x - r) % UINT32_MODULUS == 0
  {
    x % UINT32_MODULUS
  }

  // Base-protocol AVP codes (section 4.5 of RFC 6733 and the RFCs it imports)
  const AVP_USER_NAME: AvpCode := 1
  const AVP_SESSION_ID: AvpCode := 263

  /** Service-Selection (section 6.2 of RFC 5778). */
  const AVP_SERVICE_SELECTION: AvpCode := 493

  // Max-Requested-Bandwidth-DL and -UL (sections 5.3.14 and 5.3.15 of 3GPP TS 29.214)
  const AVP_MAX_REQUESTED_BANDWIDTH_DL: AvpCode := 515
  const AVP_MAX_REQUESTED_BANDWIDTH_UL: AvpCode := 516

  /** MSISDN (section 6.3.2 of 3GPP TS 29.329). */
  const AVP_MSISDN: AvpCode := 701

  // Gx AVP codes that S6a reuses (section 5.3 of 3GPP TS 29.212)
  const AVP_QOS_CLASS_IDENTIFIER: AvpCode := 1028
  const AVP_RAT_TYPE: AvpCode := 1032
  const AVP_ALLOCATION_RETENTION_PRIORITY: AvpCode := 1034
  const AVP_PRIORITY_LEVEL: AvpCode := 1046
  const AVP_PRE_EMPTION_CAPABILITY: AvpCode := 1047
  const AVP_PRE_EMPTION_VULNERABILITY: AvpCode := 1048

  // S6a AVP codes (section 7.3 of 3GPP TS 29.272)
  const AVP_SUBSCRIPTION_DATA: AvpCode := 1400
  const AVP_ULR_FLAGS: AvpCode := 1405
  const AVP_ULA_FLAGS: AvpCode := 1406
  const AVP_VISITED_PLMN_ID: AvpCode := 1407
  const AVP_NETWORK_ACCESS_MODE: AvpCode := 1417
  const AVP_CONTEXT_IDENTIFIER: AvpCode := 1423
  const AVP_SUBSCRIBER_STATUS: AvpCode := 1424
  const AVP_ACCESS_RESTRICTION_DATA: AvpCode := 1426
  const AVP_ALL_APN_CONFIGURATIONS_INCLUDED_INDICATOR: AvpCode := 1428
  const AVP_APN_CONFIGURATION_PROFILE: AvpCode := 1429
  const AVP_APN_CONFIGURATION: AvpCode := 1430
  const AVP_EPS_SUBSCRIBED_QOS_PROFILE: AvpCode := 1431
  const AVP_AMBR: AvpCode := 1435
  const AVP_PDN_TYPE: AvpCode := 1456

  // Result-Code values (section 7.1.5 of RFC 6733)
  const DIAMETER_MISSING_AVP: Uint32 := 5005
  const DIAMETER_UNABLE_TO_COMPLY: Uint32 := 5012

  // Experimental-Result-Code values (section 7.4.3 of 3GPP TS 29.272); the
  // handler takes them from the error-code enumeration of the federation
  // gateway's shared protobuf package, whose values are these.
  const DIAMETER_ERROR_USER_UNKNOWN: Uint32 := 5001
  const DIAMETER_ERROR_UNKNOWN_EPS_SUBSCRIPTION: Uint32 := 5420

  datatype AvpValue =
    | Unsigned32(n: Uint32)
    | OctetString(octets: string)
    | UTF8String(text: string)

  /** An AVP is either a leaf carrying a value or a grouped AVP carrying an ordered list of AVPs. */
  datatype Avp =
    | Leaf(code: AvpCode, value: AvpValue)
    | Group(code: AvpCode, members: seq<Avp>)

  /** The origin identity the HSS puts on the answers it builds. */
  datatype ServerConfig = ServerConfig(originHost: string, originRealm: string)

  /**
   * How an answer was started: by the request's own `Answer(resultCode)`, or by
   * the HSS helpers that build a success answer or a permanent-failure answer
   * (carrying an Experimental-Result-Code) for a session.
   */
  datatype AnswerHeader =
    | ResultAnswer(resultCode: Uint32)
    | SuccessAnswer(sessionId: string, server: ServerConfig)
    | PermanentFailureAnswer(sessionId: string, server: ServerConfig, experimentalResultCode: Uint32)

  /** The value of an answer message: how it was started and the AVPs appended to it since. */
  datatype Answer = Answer(header: AnswerHeader, avps: seq<Avp>)

  /** An answer message under construction; AVPs are appended to it in place. */
  class Message {
    var header: AnswerHeader
    var avps: seq<Avp>

    function Value(): Answer
      reads this
    {
      Answer(header, avps)
    }

    /** A fresh answer with the given header and no appended AVPs. */
    constructor (h: AnswerHeader)
      ensures Value() == Answer(h, [])
    {
      header := h;
      avps := [];
    }

    /** Appends one AVP at the end of the message; the header is unchanged. */
    method NewAvp(a: Avp)
      modifies this
      ensures Value() == Answer(old(header), old(avps) + [a])
    {
      avps := avps + [a];
    }
  }

  /** The first AVP of the list with the given code. */
  function Child(avps: seq<Avp>, code: AvpCode): (r: Option<Avp>)
    ensures r.Some? ==> r.value in avps && r.value.code == code
    ensures r.None? ==> forall i :: 0 <= i < |avps| ==> avps[i].code != code
  {
    if avps == [] then None
    else if avps[0].code == code then Some(avps[0])
    else Child(avps[1..], code)
  }

  /**
   * Follows a path of codes down the grouped AVPs, taking the first AVP with
   * each code; every AVP on the way but the last must be grouped.
   */
  function Lookup(avps: seq<Avp>, path: seq<AvpCode>): (r: Option<Avp>)
    requires path != []
    ensures r.Some? ==> r.value.code == path[|path| - 1]
    decreases path
  {
    match Child(avps, path[0])
    case None => None
    case Some(a) =>
      if |path| == 1 then Some(a)
      else if a.Group? then Lookup(a.members, path[1..])
      else None
  }

  /** A path of two or more codes continues inside the first AVP with the path's first code. */
  lemma LookupThroughGroup(avps: seq<Avp>, path: seq<AvpCode>, g: Avp)
    requires |path| >= 2 && g.Group? && Child(avps, path[0]) == Some(g)
    ensures Lookup(avps, path) == Lookup(g.members, path[1..])
  {
  }

  /** All leaves of the tree, in depth-first order. */
  function Leaves(avps: seq<Avp>): (r: seq<Avp>)
    ensures forall i :: 0 <= i < |r| ==> r[i].Leaf?
    decreases avps
  {
    if avps == [] then [] else AvpLeaves(avps[0]) + Leaves(avps[1..])
  }

  function AvpLeaves(a: Avp): (r: seq<Avp>)
    ensures forall i :: 0 <= i < |r| ==> r[i].Leaf?
    decreases a
  {
    match a
    case Leaf(_, _) => [a]
    case Group(_, members) => Leaves(members)
  }

  /** The first AVP with a code is the one at position k when no earlier AVP has that code. */
  lemma {:induction false} ChildAt(avps: seq<Avp>, code: AvpCode, k: nat)
    requires k < |avps| && avps[k].code == code
    requires forall j :: 0 <= j < k ==> avps[j].code != code
    ensures Child(avps, code) == Some(avps[k])
  {
    if k > 0 {
      ChildAt(avps[1..], code, k - 1);
    }
  }

  /** The leaves of a list from position i on are those of its i-th AVP followed by those of the rest. */
  lemma LeavesFrom(avps: seq<Avp>, i: nat)
    requires i < |avps|
    ensures Leaves(avps[i..]) == AvpLeaves(avps[i]) + Leaves(avps[i + 1..])
  {
    assert avps[i..][1..] == avps[i + 1..];
  }
}
