# Test HSS: Update-Location handling

This project models how the test Home Subscriber Server (HSS) of the
federation gateway answers an S6a Update-Location-Request (ULR). The
procedure is in section 5.2.1.1 of 3GPP TS 29.272. The model also covers the
byte-slice helper `AllZero` that the HSS servicers share.

Update-Location handling (`servicers/ul.go`):

- `ValidateUlr` checks that the five mandatory AVPs are present. The order is
  User-Name, Visited-PLMN-Id, ULR-Flags, RAT-Type, Session-Id. It reports the
  first one missing, with the same error text as the Go code.
- `NewUla` answers a ULR through a chain of early exits:
  - a missing mandatory AVP gives DIAMETER_MISSING_AVP;
  - a ULR that cannot be decoded gives DIAMETER_UNABLE_TO_COMPLY;
  - a user the store does not know gives a permanent failure with
    DIAMETER_ERROR_USER_UNKNOWN;
  - a subscriber profile that is not configured, or is configured as nil,
    falls back to the default profile;
  - if the default profile is nil too, the answer is a permanent failure with
    DIAMETER_ERROR_UNKNOWN_EPS_SUBSCRIPTION;
  - otherwise the answer is a successful Update-Location-Answer (ULA) and the
    error is nil.
- `NewSuccessfulUla` builds that ULA. It starts a success answer and appends
  two AVPs in place: the ULA-Flags and the Subscription-Data tree. Every leaf
  of the tree is a fixed constant except the downlink and uplink bit rates.
  The rates appear twice: in the subscription-level AMBR and in the APN-level
  AMBR.

Both methods are written imperatively over a `Message` class whose AVP list
they extend. Each is proved equal to a pure specification: `SuccessfulUla`
and `UlaOutcome`. The lemmas in `UpdateLocationLemmas` state what the
specification promises.

`AllZero` (`servicers/util.go`) is a read-only scan of a byte array that stops
at the first non-zero byte. It is proved against the recursive predicate
`IsAllZero`.

Files:

- `wrappers.dfy`: `Option`.
- `diameter.dfy`:
  - AVP and result codes;
  - AVP trees;
  - the answer `Message` class;
  - lookup and leaf enumeration over AVP trees.
- `ul.dfy`: validation, the answer chain and the successful ULA.
- `ul_lemmas.dfy`: properties of the above.
- `util.dfy`: `AllZero`.

Numeric codes are not defined in `ul.go`. The handler takes AVP codes and
Result-Code values from go-diameter, and the Experimental-Result-Codes and
the PDN type from the federation gateway's shared protobuf package
(`magma/feg/cloud/go/protos`). The model writes each
value out and names the standard that defines it:

- User-Name, Session-Id and the Result-Code values: RFC 6733.
- Service-Selection: RFC 5778.
- Max-Requested-Bandwidth-DL (515) and -UL (516): 3GPP TS 29.214.
- MSISDN: 3GPP TS 29.329.
- QoS-Class-Identifier, RAT-Type, Allocation-Retention-Priority,
  Priority-Level, Pre-emption-Capability and Pre-emption-Vulnerability:
  3GPP TS 29.212, which S6a reuses.
- The other S6a AVP codes, the Experimental-Result-Code values and PDN-Type
  IPv4: 3GPP TS 29.272 (sections 7.3 and 7.4.3).

## Model

| member | source | states |
|---|---|---|
| Diameter.ToUint32 | feg/gateway/services/testcore/hss/servicers/ul.go:109-110 | Converting a 64-bit rate to Unsigned32 keeps values below 2^32. Larger values are reduced by a multiple of 2^32. |
| Diameter.Message.constructor | feg/gateway/services/testcore/hss/servicers/ul.go:78 | A new answer has the given header and no AVPs. |
| Diameter.Message.NewAvp | feg/gateway/services/testcore/hss/servicers/ul.go:79-80 | Appending an AVP adds it at the end of the message. The header and the earlier AVPs are unchanged. |
| UpdateLocation.ValidateUlr | feg/gateway/services/testcore/hss/servicers/ul.go:130-152 | No error exactly when all five mandatory AVPs are present. Otherwise the error names a missing AVP whose predecessors in the checking order are all present. |
| UpdateLocation.NewSuccessfulUla | feg/gateway/services/testcore/hss/servicers/ul.go:77-126 | The built message is fresh and equals `SuccessfulUla`: a success answer for the session, followed by the ULA-Flags and the Subscription-Data tree. |
| UpdateLocation.NewUla | feg/gateway/services/testcore/hss/servicers/ul.go:44-72 | The returned answer and error are exactly those of the early-exit chain `UlaOutcome`, in a fresh message. |
| UpdateLocationLemmas.ValidateUlrReportsFirstMissing | feg/gateway/services/testcore/hss/servicers/ul.go:130-152 | The code the validation error names equals the first missing code in the order User-Name, Visited-PLMN-Id, ULR-Flags, RAT-Type, Session-Id. The reference is an independent recursive definition. |
| UpdateLocationLemmas.ValidateUlrIgnoresOtherAvps | feg/gateway/services/testcore/hss/servicers/ul.go:130-152 | Two requests that agree on which mandatory AVPs they carry validate identically. |
| UpdateLocationLemmas.InvalidUlrGivesMissingAvp | feg/gateway/services/testcore/hss/servicers/ul.go:45-48 | A request failing validation gets DIAMETER_MISSING_AVP with the validation error. This holds whatever the store and the configuration are. |
| UpdateLocationLemmas.UndecodableUlrGivesUnableToComply | feg/gateway/services/testcore/hss/servicers/ul.go:50-53 | A valid request that does not decode gets DIAMETER_UNABLE_TO_COMPLY and an error. The store and the configuration are not consulted. |
| UpdateLocationLemmas.UnknownUserGivesUserUnknown | feg/gateway/services/testcore/hss/servicers/ul.go:55-58 | An unknown user gets a permanent failure with DIAMETER_ERROR_USER_UNKNOWN for the request's session. The profile table and the default profile play no part. |
| UpdateLocationLemmas.MissingProfileFallsBackToDefault | feg/gateway/services/testcore/hss/servicers/ul.go:60-68 | For a known user whose profile is missing or nil: with a default profile the answer is the successful ULA built from it, with a nil error. Without one it is a permanent failure with DIAMETER_ERROR_UNKNOWN_EPS_SUBSCRIPTION and an error naming the profile. |
| UpdateLocationLemmas.ConfiguredProfileGivesSuccess | feg/gateway/services/testcore/hss/servicers/ul.go:60-71 | A known user with a configured non-nil profile gets the successful ULA built from that profile, with a nil error. |
| UpdateLocationLemmas.SuccessIffNoError | feg/gateway/services/testcore/hss/servicers/ul.go:44-72 | The error is nil iff the answer is a success answer. That holds iff the request validates and decodes, the user is known and a profile (its own or the default) is available. |
| UpdateLocationLemmas.SuccessfulUlaLeaves | feg/gateway/services/testcore/hss/servicers/ul.go:79-122 | The leaves of a successful ULA, in depth-first order, are the fixed constants, followed by the DL and UL rates twice. The constants are ULA flags 0, MSISDN "12345", access restriction 47, subscriber status 0, access mode 2, context ids 0, All-APN-Configurations-Included-Indicator 0, PDN type IPv4, service selection "oai.ipv4", QCI 9, priority level 15, pre-emption capability 1 and vulnerability 0. |
| UpdateLocationLemmas.SubscriptionAmbr | feg/gateway/services/testcore/hss/servicers/ul.go:117-122 | The AMBR found under Subscription-Data carries the profile's DL then UL bit rate. |
| UpdateLocationLemmas.ApnAmbr | feg/gateway/services/testcore/hss/servicers/ul.go:107-112 | The AMBR found under Subscription-Data / APN-Configuration-Profile / APN-Configuration is the same AMBR. |
| UpdateLocationLemmas.SuccessfulUlaDeterminedByRates | feg/gateway/services/testcore/hss/servicers/ul.go:109-120 | Two profiles produce the same ULA AVPs iff their DL and UL rates agree after conversion to Unsigned32. Nothing else in the profile affects the answer. |
| Util.IsAllZeroIff | feg/gateway/services/testcore/hss/servicers/util.go:11-19 | A byte sequence is all zero iff every byte equals 0. Both directions hold, and the empty sequence qualifies. |
| Util.NonzeroByteMeansNotAllZero | feg/gateway/services/testcore/hss/servicers/util.go:13-15 | A non-zero byte at any position makes the result false. |
| Util.IsAllZeroConcat | feg/gateway/services/testcore/hss/servicers/util.go:11-19 | A concatenation is all zero iff both parts are. |
| Util.AllZero | feg/gateway/services/testcore/hss/servicers/util.go:11-19 | The loop with early exit returns true iff every byte of the array is 0, and agrees with `IsAllZero`. It has no modifies clause, so it changes nothing. |

## Left out

- `handleULR` (ul.go:156-170) is left out: it calls `NewULA`, logs the error and writes the answer to the connection. Logging and network I/O are outside the model.
- The glog message on the default-profile fallback is left out; it is logging only.
- Wire encoding, AVP flag bits (M, V) and vendor ids of the built AVPs are left out. go-diameter's message internals and the dictionary are not part of this model.
- A received ULR is modelled as the set of AVP codes that `FindAVP` finds in it, plus its decoding. How go-diameter searches the message and matches vendor ids is not part of this model.
- `Unmarshal` is modelled as a decoding that either fails or yields the user name and session id. Its own failure causes are not modelled.
- The subscriber store is modelled as a map: lookup fails exactly when the user is absent. Store failures other than "not found" are not modelled.
- `msg.Answer`, `ConstructSuccessAnswer` and `ConstructPermanentFailureAnswer` are defined outside `ul.go` and are not part of this model. They are modelled as answer headers carrying the result code, or the session id, the server identity and the Experimental-Result-Code. The AVPs they copy from the request are not modelled.
- UpdateLocation.NewUla: the formatted error texts of the decode, store and profile failures are modelled as error constructors carrying the user name or the profile name. Only the validation errors keep their exact text.
- UpdateLocation.NewUla: the store's own error object is not modelled. The user-unknown case returns `SubscriberLookupFailed` with the user name.
- Diameter.ToUint32: the profile's rate fields are declared in a protobuf file that is not part of this model. They are assumed to be 64-bit unsigned, so the conversion to `Unsigned32` may truncate. If they are 32-bit, the conversion is the identity and every lemma still holds.
- The Python test, the NMS web components and the rest of the repository are outside the Update-Location core.
