/**
 * The supportedAppProtocol handshake messages as the EVCC sees them: the
 * entries the vehicle offered in its own SupportedAppProtocolReq, the
 * charging station's SupportedAppProtocolRes, and the first-match scan that
 * pairs the two.
 */
module AppProtocol {
  import opened Wrappers

  /**
   * The agreed protocol. sap_states.py names only `Protocol.ISO_15118_2`;
   * every other value comes out of the namespace resolver and is kept opaque.
   */
  datatype Protocol = Iso15118_2 | OtherProtocol(name: string)

  /** The response codes of the supportedAppProtocol handshake (ISO 15118-2, section 8.2). */
  datatype ResponseCode =
    | OkSuccessfulNegotiation
    | OkSuccessfulNegotiationWithMinorDeviation
    | FailedNoNegotiation

  /** One entry of the vehicle's own offer list: a namespace and the schema id it was offered under. */
  datatype Offer = Offer(protocolNs: string, schemaId: nat)

  /**
   * The charging station's SupportedAppProtocolRes. Its SchemaID is optional
   * (it is absent when negotiation failed), hence `None`.
   */
  datatype SapResponse = SapResponse(responseCode: ResponseCode, schemaId: Option<nat>)

  /** The message kinds the state can be handed. */
  datatype Incoming =
    | AppProtocolReq(offered: seq<Offer>)
    | AppProtocolRes(res: SapResponse)
    | V2GMessageV2
    | V2GMessageV20

  /**
   * The shared message-kind check: only a SupportedAppProtocolRes gets
   * through; any other kind yields nothing.
   */
  function CheckMsg(m: Incoming): (r: Option<SapResponse>)
    ensures r.Some? <==> m.AppProtocolRes?
    ensures r.Some? ==> m == AppProtocolRes(r.value)
  {
    match m
    case AppProtocolRes(res) => Some(res)
    case _ => None
  }

  /** Python's `str.startswith`: every string starts with the empty prefix. */
  predicate StartsWith(s: string, prefix: string)
  {
    |prefix| <= |s| && s[..|prefix|] == prefix
  }

  /**
   * Python's `offer.schema_id == sap_res.schema_id`: an absent response
   * schema id equals no offer's.
   */
  predicate SameSchema(offer: Offer, id: Option<nat>)
  {
    id == Some(offer.schemaId)
  }

  /** `k` is the lowest index whose offer carries schema id `id`. */
  predicate IsFirstMatch(offers: seq<Offer>, id: Option<nat>, k: nat)
  {
    && k < |offers|
    && SameSchema(offers[k], id)
    && forall j | 0 <= j < k :: !SameSchema(offers[j], id)
  }

  /** No offer carries schema id `id` (always so when `id` is absent). */
  predicate NoMatch(offers: seq<Offer>, id: Option<nat>)
  {
    forall j | 0 <= j < |offers| :: !SameSchema(offers[j], id)
  }

  /**
   * The scan of the offer list in declaration order, stopping at the first
   * entry whose schema id is the response's.
   */
  function FirstMatch(offers: seq<Offer>, id: Option<nat>): (r: Option<nat>)
    ensures r.Some? ==> IsFirstMatch(offers, id, r.value)
    ensures r.None? <==> NoMatch(offers, id)
  {
    if offers == [] then None
    else if SameSchema(offers[0], id) then Some(0)
    else
      match FirstMatch(offers[1..], id)
      case None => None
      case Some(k) => Some(k + 1)
  }

  /** At most one index is the first match, and it is the one the scan returns. */
  lemma FirstMatchUnique(offers: seq<Offer>, id: Option<nat>, k: nat)
    requires IsFirstMatch(offers, id, k)
    ensures FirstMatch(offers, id) == Some(k)
    ensures forall m: nat | IsFirstMatch(offers, id, m) :: m == k
  {
  }

  /** Offers after the first match are never examined: appending more changes nothing. */
  lemma FirstMatchIgnoresSuffix(offers: seq<Offer>, rest: seq<Offer>, id: Option<nat>)
    requires !NoMatch(offers, id)
    ensures FirstMatch(offers + rest, id) == FirstMatch(offers, id)
  {
    var k := FirstMatch(offers, id).value;
    FirstMatchUnique(offers + rest, id, k);
  }

  /** Offers that all miss only shift where the scan finds its match. */
  lemma {:induction false} FirstMatchSkipsMisses(misses: seq<Offer>, offers: seq<Offer>, id: Option<nat>)
    requires NoMatch(misses, id)
    ensures FirstMatch(misses + offers, id).None? <==> FirstMatch(offers, id).None?
    ensures FirstMatch(offers, id).Some? ==>
              FirstMatch(misses + offers, id) == Some(|misses| + FirstMatch(offers, id).value)
  {
    if misses != [] {
      assert !SameSchema(misses[0], id);
      assert (misses + offers)[0] == misses[0];
      assert (misses + offers)[1..] == misses[1..] + offers;
      FirstMatchSkipsMisses(misses[1..], offers, id);
    } else {
      assert misses + offers == offers;
    }
  }
}
