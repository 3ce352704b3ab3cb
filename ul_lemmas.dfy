/**
 * Properties of the Update-Location handling: the validation order, each
 * early exit of the answer chain, the profile fallback, and the contents of
 * the successful ULA.
 */
module UpdateLocationLemmas {
  import opened Wrappers
  import opened Diameter
  import opened UpdateLocation

  // ---------------------------------------------------------------------------
  // Validation
  // ---------------------------------------------------------------------------

  /** Reference definition: the first code of `order` that is not present. */
  function FirstMissing(order: seq<AvpCode>, present: set<AvpCode>): Option<AvpCode>
  {
    if order == [] then None
    else if order[0] !in present then Some(order[0])
    else FirstMissing(order[1..], present)
  }

  /** The code a validation error names, or None when validation passes. */
  function MissingCode(r: Option<ValidationError>): Option<AvpCode>
  {
    match r
    case None => None
    case Some(e) => Some(e.missing)
  }

  lemma {:induction false} FirstMissingAt(order: seq<AvpCode>, present: set<AvpCode>, k: nat)
    requires k < |order| && order[k] !in present
    requires forall j :: 0 <= j < k ==> order[j] in present
    ensures FirstMissing(order, present) == Some(order[k])
  {
    if k > 0 {
      FirstMissingAt(order[1..], present, k - 1);
    }
  }

  lemma {:induction false} FirstMissingNone(order: seq<AvpCode>, present: set<AvpCode>)
    requires forall j :: 0 <= j < |order| ==> order[j] in present
    ensures FirstMissing(order, present) == None
  {
    if order != [] {
      FirstMissingNone(order[1..], present);
    }
  }

  /**
   * ValidateUlr reports exactly the first mandatory AVP missing, in the order
   * User-Name, Visited-PLMN-Id, ULR-Flags, RAT-Type, Session-Id.
   */
  lemma ValidateUlrReportsFirstMissing(msg: Request)
    ensures MissingCode(ValidateUlr(msg)) == FirstMissing(MANDATORY_ULR_AVPS, msg.avps)
  {
    var r := ValidateUlr(msg);
    if r.Some? {
      var k :| 0 <= k < |MANDATORY_ULR_AVPS| && MANDATORY_ULR_AVPS[k] == r.value.missing
        && MANDATORY_ULR_AVPS[k] !in msg.avps
        && forall j :: 0 <= j < k ==> MANDATORY_ULR_AVPS[j] in msg.avps;
      FirstMissingAt(MANDATORY_ULR_AVPS, msg.avps, k);
    } else {
      FirstMissingNone(MANDATORY_ULR_AVPS, msg.avps);
    }
  }

  /** AVPs other than the mandatory ones do not affect validation. */
  lemma ValidateUlrIgnoresOtherAvps(msg: Request, other: Request)
    requires forall k :: 0 <= k < |MANDATORY_ULR_AVPS| ==>
      (MANDATORY_ULR_AVPS[k] in msg.avps <==> MANDATORY_ULR_AVPS[k] in other.avps)
    ensures ValidateUlr(msg) == ValidateUlr(other)
  {
    assert MANDATORY_ULR_AVPS[0] == AVP_USER_NAME;
    assert MANDATORY_ULR_AVPS[1] == AVP_VISITED_PLMN_ID;
    assert MANDATORY_ULR_AVPS[2] == AVP_ULR_FLAGS;
    assert MANDATORY_ULR_AVPS[3] == AVP_RAT_TYPE;
    assert MANDATORY_ULR_AVPS[4] == AVP_SESSION_ID;
  }

  // ---------------------------------------------------------------------------
  // The answer chain
  // ---------------------------------------------------------------------------

  /**
   * A request missing a mandatory AVP is answered DIAMETER_MISSING_AVP with
   * the validation error, whatever the store and the configuration hold.
   */
  lemma InvalidUlrGivesMissingAvp(hss: HomeSubscriberServer, other: HomeSubscriberServer, msg: Request)
    requires ValidateUlr(msg).Some?
    ensures UlaOutcome(hss, msg) ==
      Outcome(Answer(ResultAnswer(DIAMETER_MISSING_AVP), []), Some(InvalidRequest(ValidateUlr(msg).value)))
    ensures UlaOutcome(other, msg) == UlaOutcome(hss, msg)
  {
  }

  /**
   * A valid request that cannot be decoded is answered
   * DIAMETER_UNABLE_TO_COMPLY with an error, whatever the store and the
   * configuration hold.
   */
  lemma UndecodableUlrGivesUnableToComply(hss: HomeSubscriberServer, other: HomeSubscriberServer, msg: Request)
    requires ValidateUlr(msg).None? && msg.decoded.None?
    ensures UlaOutcome(hss, msg) ==
      Outcome(Answer(ResultAnswer(DIAMETER_UNABLE_TO_COMPLY), []), Some(DecodeFailed))
    ensures UlaOutcome(other, msg) == UlaOutcome(hss, msg)
  {
  }

  /**
   * A decoded request for a user the store does not know is a permanent
   * failure with DIAMETER_ERROR_USER_UNKNOWN for the request's session; the
   * profile table and the default profile play no part.
   */
  lemma UnknownUserGivesUserUnknown(hss: HomeSubscriberServer, profiles: map<string, Option<Profile>>,
                                    default: Option<Profile>, msg: Request)
    requires ValidateUlr(msg).None? && msg.decoded.Some?
    requires msg.decoded.value.userName !in hss.store
    ensures UlaOutcome(hss, msg) ==
      Outcome(PermanentFailure(msg.decoded.value.sessionId, hss.config.server, DIAMETER_ERROR_USER_UNKNOWN),
              Some(SubscriberLookupFailed(msg.decoded.value.userName)))
    ensures UlaOutcome(hss.(config := hss.config.(subProfiles := profiles, defaultSubProfile := default)), msg)
      == UlaOutcome(hss, msg)
  {
  }

  /**
   * A known subscriber whose profile is not configured, or is configured as
   * nil, is served with the default profile; when the default is nil too the
   * answer is a permanent failure with DIAMETER_ERROR_UNKNOWN_EPS_SUBSCRIPTION.
   */
  lemma MissingProfileFallsBackToDefault(hss: HomeSubscriberServer, msg: Request)
    requires ValidateUlr(msg).None? && msg.decoded.Some?
    requires msg.decoded.value.userName in hss.store
    requires var name := hss.store[msg.decoded.value.userName].subProfile;
      name !in hss.config.subProfiles || hss.config.subProfiles[name].None?
    ensures var ulr := msg.decoded.value;
      hss.config.defaultSubProfile.Some? ==>
        UlaOutcome(hss, msg) == Outcome(SuccessfulUla(ulr.sessionId, hss.config.server, hss.config.defaultSubProfile.value), None)
    ensures var ulr := msg.decoded.value;
      hss.config.defaultSubProfile.None? ==>
        UlaOutcome(hss, msg) ==
          Outcome(PermanentFailure(ulr.sessionId, hss.config.server, DIAMETER_ERROR_UNKNOWN_EPS_SUBSCRIPTION),
                  Some(UnknownSubscriberProfile(hss.store[ulr.userName].subProfile)))
  {
  }

  /** A known subscriber with a configured, non-nil profile is served with that profile and no error. */
  lemma ConfiguredProfileGivesSuccess(hss: HomeSubscriberServer, msg: Request)
    requires ValidateUlr(msg).None? && msg.decoded.Some?
    requires msg.decoded.value.userName in hss.store
    requires var name := hss.store[msg.decoded.value.userName].subProfile;
      name in hss.config.subProfiles && hss.config.subProfiles[name].Some?
    ensures var ulr := msg.decoded.value;
      var name := hss.store[ulr.userName].subProfile;
      UlaOutcome(hss, msg) == Outcome(SuccessfulUla(ulr.sessionId, hss.config.server, hss.config.subProfiles[name].value), None)
  {
  }

  /**
   * The error is nil exactly when the answer is a success answer, and that
   * happens exactly when the request is valid and decodes, the user is known
   * and some profile (its own or the default) is available.
   */
  lemma SuccessIffNoError(hss: HomeSubscriberServer, msg: Request)
    ensures var out := UlaOutcome(hss, msg);
      out.err.None? <==> out.answer.header.SuccessAnswer?
    ensures UlaOutcome(hss, msg).err.None? <==>
      && ValidateUlr(msg).None?
      && msg.decoded.Some?
      && msg.decoded.value.userName in hss.store
      && ChooseProfile(hss.config, hss.store[msg.decoded.value.userName].subProfile).Some?
  {
  }

  // ---------------------------------------------------------------------------
  // The successful ULA
  // ---------------------------------------------------------------------------

  /** The leaves of a successful ULA, in depth-first order: fixed constants, and the rates in two AMBR groups. */
  function SuccessfulUlaLeafList(profile: Profile): seq<Avp>
  {
    var dl := Leaf(AVP_MAX_REQUESTED_BANDWIDTH_DL, Unsigned32(ToUint32(profile.maxDlBitRate)));
    var ul := Leaf(AVP_MAX_REQUESTED_BANDWIDTH_UL, Unsigned32(ToUint32(profile.maxUlBitRate)));
    [ Leaf(AVP_ULA_FLAGS, Unsigned32(0)),
      Leaf(AVP_MSISDN, OctetString("12345")),
      Leaf(AVP_ACCESS_RESTRICTION_DATA, Unsigned32(47)),
      Leaf(AVP_SUBSCRIBER_STATUS, Unsigned32(0)),
      Leaf(AVP_NETWORK_ACCESS_MODE, Unsigned32(2)),
      Leaf(AVP_CONTEXT_IDENTIFIER, Unsigned32(0)),
      Leaf(AVP_ALL_APN_CONFIGURATIONS_INCLUDED_INDICATOR, Unsigned32(0)),
      Leaf(AVP_CONTEXT_IDENTIFIER, Unsigned32(0)),
      Leaf(AVP_PDN_TYPE, Unsigned32(0)),
      Leaf(AVP_SERVICE_SELECTION, UTF8String("oai.ipv4")),
      Leaf(AVP_QOS_CLASS_IDENTIFIER, Unsigned32(9)),
      Leaf(AVP_PRIORITY_LEVEL, Unsigned32(15)),
      Leaf(AVP_PRE_EMPTION_CAPABILITY, Unsigned32(1)),
      Leaf(AVP_PRE_EMPTION_VULNERABILITY, Unsigned32(0)),
      dl, ul,
      dl, ul ]
  }

  // The lemmas below collect the leaves of a successful ULA one grouping level
  // at a time, unfolding Leaves once at each position of a member list.

  lemma AmbrLeaves(profile: Profile)
    ensures AvpLeaves(Ambr(profile)) == Ambr(profile).members
  {
    var m := Ambr(profile).members;
    assert m[2..] == [];
    LeavesFrom(m, 1);
    LeavesFrom(m, 0);
    assert m[0..] == m;
  }

  lemma AllocationRetentionPriorityLeaves()
    ensures AvpLeaves(AllocationRetentionPriority()) == AllocationRetentionPriority().members
  {
    var m := AllocationRetentionPriority().members;
    assert m[3..] == [];
    LeavesFrom(m, 2);
    LeavesFrom(m, 1);
    LeavesFrom(m, 0);
    assert m[0..] == m;
  }

  lemma EpsSubscribedQosProfileLeaves()
    ensures AvpLeaves(EpsSubscribedQosProfile()) ==
      [EpsSubscribedQosProfile().members[0]] + AllocationRetentionPriority().members
  {
    var m := EpsSubscribedQosProfile().members;
    AllocationRetentionPriorityLeaves();
    assert m[2..] == [];
    LeavesFrom(m, 1);
    LeavesFrom(m, 0);
    assert m[0..] == m;
  }

  lemma ApnConfigurationLeaves(profile: Profile)
    ensures var m := ApnConfiguration(profile).members;
      AvpLeaves(ApnConfiguration(profile)) ==
        [m[0], m[1], m[2]] + AvpLeaves(EpsSubscribedQosProfile()) + Ambr(profile).members
  {
    var m := ApnConfiguration(profile).members;
    AmbrLeaves(profile);
    assert m[5..] == [];
    LeavesFrom(m, 4);
    LeavesFrom(m, 3);
    LeavesFrom(m, 2);
    LeavesFrom(m, 1);
    LeavesFrom(m, 0);
    assert m[0..] == m;
  }

  lemma ApnConfigurationProfileLeaves(profile: Profile)
    ensures var m := ApnConfigurationProfile(profile).members;
      AvpLeaves(ApnConfigurationProfile(profile)) == [m[0], m[1]] + AvpLeaves(ApnConfiguration(profile))
  {
    var m := ApnConfigurationProfile(profile).members;
    assert m[3..] == [];
    LeavesFrom(m, 2);
    LeavesFrom(m, 1);
    LeavesFrom(m, 0);
    assert m[0..] == m;
  }

  lemma SubscriptionDataLeaves(profile: Profile)
    ensures var m := SubscriptionData(profile).members;
      AvpLeaves(SubscriptionData(profile)) ==
        [m[0], m[1], m[2], m[3]] + AvpLeaves(ApnConfigurationProfile(profile)) + Ambr(profile).members
  {
    var m := SubscriptionData(profile).members;
    AmbrLeaves(profile);
    assert m[6..] == [];
    LeavesFrom(m, 5);
    LeavesFrom(m, 4);
    LeavesFrom(m, 3);
    LeavesFrom(m, 2);
    LeavesFrom(m, 1);
    LeavesFrom(m, 0);
    assert m[0..] == m;
  }

  /** The leaves of a successful ULA are the fixed constants, with the profile's rates in two AMBR groups. */
  lemma SuccessfulUlaLeaves(profile: Profile)
    ensures Leaves(SuccessfulUlaAvps(profile)) == SuccessfulUlaLeafList(profile)
  {
    var m := SuccessfulUlaAvps(profile);
    EpsSubscribedQosProfileLeaves();
    ApnConfigurationLeaves(profile);
    ApnConfigurationProfileLeaves(profile);
    SubscriptionDataLeaves(profile);
    assert m[2..] == [];
    LeavesFrom(m, 1);
    LeavesFrom(m, 0);
    assert m[0..] == m;
  }

  /**
   * The subscription-level AMBR (Subscription-Data / AMBR) carries the
   * profile's downlink and uplink bit rates.
   */
  lemma SubscriptionAmbr(profile: Profile)
    ensures Lookup(SuccessfulUlaAvps(profile), [AVP_SUBSCRIPTION_DATA, AVP_AMBR]) == Some(Ambr(profile))
    ensures Ambr(profile).members ==
      [Leaf(AVP_MAX_REQUESTED_BANDWIDTH_DL, Unsigned32(ToUint32(profile.maxDlBitRate))),
       Leaf(AVP_MAX_REQUESTED_BANDWIDTH_UL, Unsigned32(ToUint32(profile.maxUlBitRate)))]
  {
    var path := [AVP_SUBSCRIPTION_DATA, AVP_AMBR];
    ChildAt(SuccessfulUlaAvps(profile), AVP_SUBSCRIPTION_DATA, 1);
    LookupThroughGroup(SuccessfulUlaAvps(profile), path, SubscriptionData(profile));
    assert path[1..] == [AVP_AMBR];
    ChildAt(SubscriptionData(profile).members, AVP_AMBR, 5);
  }

  /**
   * The APN-level AMBR (Subscription-Data / APN-Configuration-Profile /
   * APN-Configuration / AMBR) carries the same rates.
   */
  lemma ApnAmbr(profile: Profile)
    ensures Lookup(SuccessfulUlaAvps(profile),
                   [AVP_SUBSCRIPTION_DATA, AVP_APN_CONFIGURATION_PROFILE, AVP_APN_CONFIGURATION, AVP_AMBR])
      == Some(Ambr(profile))
  {
    var path := [AVP_SUBSCRIPTION_DATA, AVP_APN_CONFIGURATION_PROFILE, AVP_APN_CONFIGURATION, AVP_AMBR];
    ChildAt(SuccessfulUlaAvps(profile), AVP_SUBSCRIPTION_DATA, 1);
    LookupThroughGroup(SuccessfulUlaAvps(profile), path, SubscriptionData(profile));
    assert path[1..] == [AVP_APN_CONFIGURATION_PROFILE, AVP_APN_CONFIGURATION, AVP_AMBR];
    AmbrInSubscriptionData(profile);
  }

  // The three lemmas below take the APN AMBR lookup one grouping level at a time.

  lemma AmbrInSubscriptionData(profile: Profile)
    ensures Lookup(SubscriptionData(profile).members,
                   [AVP_APN_CONFIGURATION_PROFILE, AVP_APN_CONFIGURATION, AVP_AMBR])
      == Some(Ambr(profile))
  {
    var path := [AVP_APN_CONFIGURATION_PROFILE, AVP_APN_CONFIGURATION, AVP_AMBR];
    ChildAt(SubscriptionData(profile).members, AVP_APN_CONFIGURATION_PROFILE, 4);
    LookupThroughGroup(SubscriptionData(profile).members, path, ApnConfigurationProfile(profile));
    assert path[1..] == [AVP_APN_CONFIGURATION, AVP_AMBR];
    AmbrInApnConfigurationProfile(profile);
  }

  lemma AmbrInApnConfigurationProfile(profile: Profile)
    ensures Lookup(ApnConfigurationProfile(profile).members, [AVP_APN_CONFIGURATION, AVP_AMBR])
      == Some(Ambr(profile))
  {
    var path := [AVP_APN_CONFIGURATION, AVP_AMBR];
    ChildAt(ApnConfigurationProfile(profile).members, AVP_APN_CONFIGURATION, 2);
    LookupThroughGroup(ApnConfigurationProfile(profile).members, path, ApnConfiguration(profile));
    assert path[1..] == [AVP_AMBR];
    AmbrInApnConfiguration(profile);
  }

  lemma AmbrInApnConfiguration(profile: Profile)
    ensures Lookup(ApnConfiguration(profile).members, [AVP_AMBR]) == Some(Ambr(profile))
  {
    ChildAt(ApnConfiguration(profile).members, AVP_AMBR, 4);
  }

  /** Two profiles give the same ULA exactly when their bit rates agree in their low 32 bits. */
  lemma SuccessfulUlaDeterminedByRates(p: Profile, q: Profile)
    ensures SuccessfulUlaAvps(p) == SuccessfulUlaAvps(q) <==>
      ToUint32(p.maxDlBitRate) == ToUint32(q.maxDlBitRate) && ToUint32(p.maxUlBitRate) == ToUint32(q.maxUlBitRate)
  {
    if SuccessfulUlaAvps(p) == SuccessfulUlaAvps(q) {
      SuccessfulUlaLeaves(p);
      SuccessfulUlaLeaves(q);
      assert SuccessfulUlaLeafList(p)[14] == SuccessfulUlaLeafList(q)[14];
      assert SuccessfulUlaLeafList(p)[15] == SuccessfulUlaLeafList(q)[15];
    }
  }
}
