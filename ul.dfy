/**
 * The test HSS's handling of an S6a Update-Location-Request (section 5.2.1.1
 * of 3GPP TS 29.272): validation of the mandatory AVPs, the choice of answer
 * through a chain of early exits, and the successful Update-Location-Answer.
 */
module UpdateLocation {
  import opened Wrappers
  import opened Diameter

  // The fixed contents of a successful ULA
  const ALL_APN_CONFIGURATIONS_INCLUDED_INDICATOR: Uint32 := 0
  const APN_CONTEXT_IDENTIFIER: Uint32 := 0
  const APN_NETWORK_ACCESS_MODE: Uint32 := 2
  const APN_SERVICE_SELECTION: string := "oai.ipv4"
  const APN_QOS_CLASS_IDENTIFIER: Uint32 := 9
  const EPS_PRIORITY_LEVEL: Uint32 := 15
  const EPS_PREEMPTION_CAPABILITY: Uint32 := 1
  const EPS_PREEMPTION_VULNERABILITY: Uint32 := 0
  const ULA_FLAGS: Uint32 := 0
  const MSISDN: string := "12345"
  const ACCESS_RESTRICTION_DATA: Uint32 := 47
  const SUBSCRIBER_STATUS: Uint32 := 0
  /**
   * PDN-Type IPv4: the handler takes it from an enumeration of the federation
   * gateway's shared protobuf package, whose value agrees with section 7.3.62
   * of 3GPP TS 29.272.
   */
  const PDN_TYPE_IPV4: Uint32 := 0

  /** The decoded fields of a ULR that the handler uses. */
  datatype Ulr = Ulr(userName: string, sessionId: string)

  /**
   * A received ULR: the codes of the AVPs it carries, and its decoding, which
   * is None when decoding the message fails.
   */
  datatype Request = Request(avps: set<AvpCode>, decoded: Option<Ulr>)

  /** A subscription profile: the aggregate maximum bit rates of the subscriber. */
  datatype Profile = Profile(maxUlBitRate: Uint64, maxDlBitRate: Uint64)

  datatype SubscriberData = SubscriberData(subProfile: string)

  /**
   * The HSS configuration. A profile name may be mapped to a nil profile
   * (None), and the default profile may be nil.
   */
  datatype HssConfig = HssConfig(
    server: ServerConfig,
    subProfiles: map<string, Option<Profile>>,
    defaultSubProfile: Option<Profile>)

  /** The server: its subscriber store, keyed by user name (the IMSI), and its configuration. */
  datatype HomeSubscriberServer = HomeSubscriberServer(
    store: map<string, SubscriberData>,
    config: HssConfig)

  /** The first mandatory AVP found missing, and the error text reported for it. */
  datatype ValidationError = ValidationError(missing: AvpCode, message: string)

  datatype UlaError =
    | InvalidRequest(cause: ValidationError)
    | DecodeFailed
    | SubscriberLookupFailed(userName: string)
    | UnknownSubscriberProfile(subProfile: string)

  /** What NewUla returns: the answer, and the error (None for Go's nil error). */
  datatype Outcome = Outcome(answer: Answer, err: Option<UlaError>)

  /** The mandatory AVPs of a ULR (Table 5.2.1.1.1/1 of 3GPP TS 29.272), in the order they are checked. */
  const MANDATORY_ULR_AVPS: seq<AvpCode> :=
    [AVP_USER_NAME, AVP_VISITED_PLMN_ID, AVP_ULR_FLAGS, AVP_RAT_TYPE, AVP_SESSION_ID]

  /**
   * Checks the mandatory AVPs in order and reports the first one missing:
   * no error exactly when all are present, and otherwise an error naming a
   * missing AVP every one of whose predecessors in the order is present.
   */
  function ValidateUlr(msg: Request): (r: Option<ValidationError>)
    ensures r.None? <==> forall k :: 0 <= k < |MANDATORY_ULR_AVPS| ==> MANDATORY_ULR_AVPS[k] in msg.avps
    ensures r.Some? ==>
      exists k :: 0 <= k < |MANDATORY_ULR_AVPS| && MANDATORY_ULR_AVPS[k] == r.value.missing
        && MANDATORY_ULR_AVPS[k] !in msg.avps
        && forall j :: 0 <= j < k ==> MANDATORY_ULR_AVPS[j] in msg.avps
  {
    if AVP_USER_NAME !in msg.avps then
      assert MANDATORY_ULR_AVPS[0] == AVP_USER_NAME;
      Some(ValidationError(AVP_USER_NAME, "Missing IMSI in message"))
    else if AVP_VISITED_PLMN_ID !in msg.avps then
      assert MANDATORY_ULR_AVPS[1] == AVP_VISITED_PLMN_ID;
      Some(ValidationError(AVP_VISITED_PLMN_ID, "Missing Visited PLMN ID in message"))
    else if AVP_ULR_FLAGS !in msg.avps then
      assert MANDATORY_ULR_AVPS[2] == AVP_ULR_FLAGS;
      Some(ValidationError(AVP_ULR_FLAGS, "Missing ULR flags in message"))
    else if AVP_RAT_TYPE !in msg.avps then
      assert MANDATORY_ULR_AVPS[3] == AVP_RAT_TYPE;
      Some(ValidationError(AVP_RAT_TYPE, "Missing RAT type in message"))
    else if AVP_SESSION_ID !in msg.avps then
      assert MANDATORY_ULR_AVPS[4] == AVP_SESSION_ID;
      Some(ValidationError(AVP_SESSION_ID, "Missing SessionID in message"))
    else
      None
  }

  /**
   * The profile a subscriber is served with: its own when configured and
   * non-nil, otherwise the default profile, which may itself be nil.
   */
  function ChooseProfile(config: HssConfig, subProfile: string): Option<Profile>
  {
    if subProfile in config.subProfiles && config.subProfiles[subProfile].Some? then
      config.subProfiles[subProfile]
    else
      config.defaultSubProfile
  }

  /** An AMBR group carrying the profile's bit rates as 32-bit values. */
  function Ambr(profile: Profile): Avp
  {
    Group(AVP_AMBR, [
      Leaf(AVP_MAX_REQUESTED_BANDWIDTH_DL, Unsigned32(ToUint32(profile.maxDlBitRate))),
      Leaf(AVP_MAX_REQUESTED_BANDWIDTH_UL, Unsigned32(ToUint32(profile.maxUlBitRate)))])
  }

  function AllocationRetentionPriority(): Avp
  {
    Group(AVP_ALLOCATION_RETENTION_PRIORITY, [
      Leaf(AVP_PRIORITY_LEVEL, Unsigned32(EPS_PRIORITY_LEVEL)),
      Leaf(AVP_PRE_EMPTION_CAPABILITY, Unsigned32(EPS_PREEMPTION_CAPABILITY)),
      Leaf(AVP_PRE_EMPTION_VULNERABILITY, Unsigned32(EPS_PREEMPTION_VULNERABILITY))])
  }

  function EpsSubscribedQosProfile(): Avp
  {
    Group(AVP_EPS_SUBSCRIBED_QOS_PROFILE, [
      Leaf(AVP_QOS_CLASS_IDENTIFIER, Unsigned32(APN_QOS_CLASS_IDENTIFIER)),
      AllocationRetentionPriority()])
  }

  /** The single APN configuration of a successful ULA, ending with the APN-level AMBR. */
  function ApnConfiguration(profile: Profile): Avp
  {
    Group(AVP_APN_CONFIGURATION, [
      Leaf(AVP_CONTEXT_IDENTIFIER, Unsigned32(APN_CONTEXT_IDENTIFIER)),
      Leaf(AVP_PDN_TYPE, Unsigned32(PDN_TYPE_IPV4)),
      Leaf(AVP_SERVICE_SELECTION, UTF8String(APN_SERVICE_SELECTION)),
      EpsSubscribedQosProfile(),
      Ambr(profile)])
  }

  function ApnConfigurationProfile(profile: Profile): Avp
  {
    Group(AVP_APN_CONFIGURATION_PROFILE, [
      Leaf(AVP_CONTEXT_IDENTIFIER, Unsigned32(APN_CONTEXT_IDENTIFIER)),
      Leaf(AVP_ALL_APN_CONFIGURATIONS_INCLUDED_INDICATOR, Unsigned32(ALL_APN_CONFIGURATIONS_INCLUDED_INDICATOR)),
      ApnConfiguration(profile)])
  }

  /** The Subscription-Data of a successful ULA, ending with the subscription-level AMBR. */
  function SubscriptionData(profile: Profile): Avp
  {
    Group(AVP_SUBSCRIPTION_DATA, [
      Leaf(AVP_MSISDN, OctetString(MSISDN)),
      Leaf(AVP_ACCESS_RESTRICTION_DATA, Unsigned32(ACCESS_RESTRICTION_DATA)),
      Leaf(AVP_SUBSCRIBER_STATUS, Unsigned32(SUBSCRIBER_STATUS)),
      Leaf(AVP_NETWORK_ACCESS_MODE, Unsigned32(APN_NETWORK_ACCESS_MODE)),
      ApnConfigurationProfile(profile),
      Ambr(profile)])
  }

  /** The AVPs appended to a successful ULA, in order. */
  function SuccessfulUlaAvps(profile: Profile): seq<Avp>
  {
    [Leaf(AVP_ULA_FLAGS, Unsigned32(ULA_FLAGS)), SubscriptionData(profile)]
  }

  /** The successful ULA for a session, served with the given profile. */
  function SuccessfulUla(sessionId: string, server: ServerConfig, profile: Profile): Answer
  {
    Answer(SuccessAnswer(sessionId, server), SuccessfulUlaAvps(profile))
  }

  /** The permanent-failure answer for a session, with the given Experimental-Result-Code. */
  function PermanentFailure(sessionId: string, server: ServerConfig, code: Uint32): Answer
  {
    Answer(PermanentFailureAnswer(sessionId, server, code), [])
  }

  /**
   * The answer and error the HSS gives a ULR, as a chain of early exits:
   * a missing mandatory AVP, a ULR that cannot be decoded, an unknown user,
   * no usable profile, and otherwise success.
   */
  function UlaOutcome(hss: HomeSubscriberServer, msg: Request): Outcome
  {
    match ValidateUlr(msg)
    case Some(e) =>
      Outcome(Answer(ResultAnswer(DIAMETER_MISSING_AVP), []), Some(InvalidRequest(e)))
    case None =>
      match msg.decoded
      case None =>
        Outcome(Answer(ResultAnswer(DIAMETER_UNABLE_TO_COMPLY), []), Some(DecodeFailed))
      case Some(ulr) =>
        if ulr.userName !in hss.store then
          Outcome(PermanentFailure(ulr.sessionId, hss.config.server, DIAMETER_ERROR_USER_UNKNOWN),
                  Some(SubscriberLookupFailed(ulr.userName)))
        else
          var subscriber := hss.store[ulr.userName];
          match ChooseProfile(hss.config, subscriber.subProfile)
          case None =>
            Outcome(PermanentFailure(ulr.sessionId, hss.config.server, DIAMETER_ERROR_UNKNOWN_EPS_SUBSCRIPTION),
                    Some(UnknownSubscriberProfile(subscriber.subProfile)))
          case Some(profile) =>
            Outcome(SuccessfulUla(ulr.sessionId, hss.config.server, profile), None)
  }

  /** Builds a successful ULA by appending the ULA flags and the subscription data to a fresh success answer. */
  method NewSuccessfulUla(sessionId: string, server: ServerConfig, profile: Profile) returns (ula: Message)
    ensures fresh(ula)
    ensures ula.Value() == SuccessfulUla(sessionId, server, profile)
  {
    ula := new Message(SuccessAnswer(sessionId, server));
    ula.NewAvp(Leaf(AVP_ULA_FLAGS, Unsigned32(ULA_FLAGS)));
    ula.NewAvp(SubscriptionData(profile));
  }

  /** Answers a ULR; the new message and the error are those UlaOutcome describes. */
  method NewUla(hss: HomeSubscriberServer, msg: Request) returns (ula: Message, err: Option<UlaError>)
    ensures fresh(ula)
    ensures Outcome(ula.Value(), err) == UlaOutcome(hss, msg)
  {
    var invalid := ValidateUlr(msg);
    if invalid.Some? {
      ula := new Message(ResultAnswer(DIAMETER_MISSING_AVP));
      return ula, Some(InvalidRequest(invalid.value));
    }

    if msg.decoded.None? {
      ula := new Message(ResultAnswer(DIAMETER_UNABLE_TO_COMPLY));
      return ula, Some(DecodeFailed);
    }
    var ulr := msg.decoded.value;

    if ulr.userName !in hss.store {
      ula := new Message(PermanentFailureAnswer(ulr.sessionId, hss.config.server, DIAMETER_ERROR_USER_UNKNOWN));
      return ula, Some(SubscriberLookupFailed(ulr.userName));
    }
    var subscriber := hss.store[ulr.userName];

    var profile: Option<Profile> := None;
    if subscriber.subProfile in hss.config.subProfiles {
      profile := hss.config.subProfiles[subscriber.subProfile];
    }
    if profile.None? {
      profile := hss.config.defaultSubProfile;
      if profile.None? {
        ula := new Message(PermanentFailureAnswer(ulr.sessionId, hss.config.server, DIAMETER_ERROR_UNKNOWN_EPS_SUBSCRIPTION));
        return ula, Some(UnknownSubscriberProfile(subscriber.subProfile));
      }
    }

    ula := NewSuccessfulUla(ulr.sessionId, hss.config.server, profile.value);
    return ula, None;
  }
}
