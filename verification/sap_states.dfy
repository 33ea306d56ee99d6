/**
 * The EVCC state that processes the charging station's
 * SupportedAppProtocolRes: it matches the response against the vehicle's own
 * offers, agrees on ISO 15118-2 or an ISO 15118-20 variant, and hands off to
 * that protocol's SessionSetup state (or stops, or raises).
 */
module SapStates {
  import opened Wrappers
  import opened AppProtocol
  import opened SessionIds

  /**
   * The collaborators whose definitions lie outside this model: the ISO
   * 15118-2 namespace string, the ISO 15118-20 namespace prefix, the
   * namespace-to-protocol lookup and the vehicle controller's EVCC id.
   */
  datatype Env = Env(
    iso2Ns: string,
    v20Base: string,
    getByNs: string -> Protocol,
    evccId: Protocol -> string)

  /** The states the handshake can schedule next; Terminate is only the placeholder default. */
  datatype StateName = Terminate | SessionSetupV2 | SessionSetupV20

  /** The namespace (EXI schema) the next message is encoded under. */
  datatype MsgNamespace = IsoV2MsgDef | IsoV20CommonMsg

  /** The timeout the next message waits under. */
  datatype Timeout = SessionSetupReqTimeout

  /** The ISO 15118-20 message header; the timestamp is the wall clock, taken as an input. */
  datatype Header = Header(sessionId: string, timestamp: real)

  /** The first message of the agreed protocol's session setup. */
  datatype NextMessage =
    | SessionSetupReqV2(evccId: string)
    | SessionSetupReqV20(header: Header, evccId: string)

  /** The exception the state raises, naming the message type at fault. */
  datatype ProcessingError = MessageProcessingError(messageName: string)

  /** How one call of the state ends. */
  datatype Outcome =
      /** The message was not a SupportedAppProtocolRes; this state did nothing further (whatever `check_msg` itself does is outside the model). */
    | Ignored
      /** create_next_message was called, once, with these arguments. */
    | Sent(state: StateName, message: NextMessage, timeout: Timeout, ns: MsgNamespace)
      /** An exception propagated out of the state. */
    | Raised(error: ProcessingError)
      /** stop_state_machine was called with the response code and the unmatched (or absent) schema id. */
    | Stopped(responseCode: ResponseCode, schemaId: Option<nat>)

  /**
   * The outcome together with the session and resume slot it leaves behind,
   * and the protocols the EVCC id was asked for, in call order.
   */
  datatype Step = Step(
    outcome: Outcome,
    session: CommSession,
    resume: Option<string>,
    evccIdQueries: seq<Protocol>)

  /** Neither the session nor the resume slot changed. */
  predicate Untouched(session: CommSession, resume: Option<string>, s: Step)
  {
    s.session == session && s.resume == resume
  }

  /** The session id was issued from the slot: the saved id (consumed) or a new session's "00". */
  predicate IdIssued(resume: Option<string>, s: Step)
  {
    if Resumable(resume) then s.session.sessionId == resume.value && s.resume == None
    else s.session.sessionId == "00" && s.resume == resume
  }

  /** The hand-off to ISO 15118-2: SessionSetupReq with the ISO 15118-2 EVCC id. */
  predicate Iso2HandOff(env: Env, resume: Option<string>, s: Step)
  {
    && s.outcome == Sent(SessionSetupV2, SessionSetupReqV2(env.evccId(Iso15118_2)),
                         SessionSetupReqTimeout, IsoV2MsgDef)
    && s.session.protocol == Some(Iso15118_2)
    && IdIssued(resume, s)
    && s.evccIdQueries == [Iso15118_2]
  }

  /**
   * The hand-off to ISO 15118-20: the protocol resolved from `ns`, and a
   * header carrying the very session id recorded in the session.
   */
  predicate Iso20HandOff(env: Env, ns: string, resume: Option<string>, now: real, s: Step)
  {
    var p := env.getByNs(ns);
    && s.outcome.Sent?
    && s.outcome.state == SessionSetupV20
    && s.outcome.message == SessionSetupReqV20(Header(s.session.sessionId, now), env.evccId(p))
    && s.outcome.timeout == SessionSetupReqTimeout
    && s.outcome.ns == IsoV20CommonMsg
    && s.session.protocol == Some(p)
    && IdIssued(resume, s)
    && s.evccIdQueries == [Iso15118_2, p]
  }

  /** What the state does once an offer with namespace `ns` has matched. */
  predicate Dispatched(env: Env, ns: string, session: CommSession, resume: Option<string>,
                       now: real, s: Step)
  {
    if ns == env.iso2Ns then Iso2HandOff(env, resume, s)
    else if StartsWith(ns, env.v20Base) then Iso20HandOff(env, ns, resume, now, s)
    else
      && s.outcome == Raised(MessageProcessingError("SupportedAppProtocolReq"))
      && Untouched(session, resume, s)
      && s.evccIdQueries == [Iso15118_2]
  }

  /**
   * One call of the state on message `msg`, given the vehicle's offers in
   * declaration order, the session, the resume slot and the wall clock.
   */
  function Negotiate(env: Env, offers: seq<Offer>, msg: Incoming, session: CommSession,
                     resume: Option<string>, now: real): (s: Step)
    ensures s.outcome.Ignored? <==> !msg.AppProtocolRes?
    ensures !msg.AppProtocolRes? ==> Untouched(session, resume, s) && s.evccIdQueries == []
    ensures msg.AppProtocolRes? ==> |s.evccIdQueries| > 0 && s.evccIdQueries[0] == Iso15118_2
    ensures s.outcome.Stopped? <==> msg.AppProtocolRes? && NoMatch(offers, msg.res.schemaId)
    ensures s.outcome.Stopped? ==>
              && s.outcome == Stopped(msg.res.responseCode, msg.res.schemaId)
              && Untouched(session, resume, s)
              && s.evccIdQueries == [Iso15118_2]
    ensures s.outcome.Raised? ==> Untouched(session, resume, s)
    ensures s.outcome.Sent? ==> s.outcome.state != Terminate
    ensures msg.AppProtocolRes? ==>
              forall k: nat | IsFirstMatch(offers, msg.res.schemaId, k) ::
                Dispatched(env, offers[k].protocolNs, session, resume, now, s)
  {
    match CheckMsg(msg)
    case None => Step(Ignored, session, resume, [])
    case Some(res) =>
      var v2Id := env.evccId(Iso15118_2);
      match FirstMatch(offers, res.schemaId)
      case None => Step(Stopped(res.responseCode, res.schemaId), session, resume, [Iso15118_2])
      case Some(k) =>
        FirstMatchUnique(offers, res.schemaId, k);
        var ns := offers[k].protocolNs;
        if ns == env.iso2Ns then
          var g := GetSessionId(session.(protocol := Some(Iso15118_2)), resume);
          Step(Sent(SessionSetupV2, SessionSetupReqV2(v2Id), SessionSetupReqTimeout, IsoV2MsgDef),
               g.session, g.resume, [Iso15118_2])
        else if StartsWith(ns, env.v20Base) then
          var p := env.getByNs(ns);
          var g := GetSessionId(session.(protocol := Some(p)), resume);
          Step(Sent(SessionSetupV20, SessionSetupReqV20(Header(g.id, now), env.evccId(p)),
                    SessionSetupReqTimeout, IsoV20CommonMsg),
               g.session, g.resume, [Iso15118_2, p])
        else
          Step(Raised(MessageProcessingError("SupportedAppProtocolReq")), session, resume, [Iso15118_2])
  }

  /**
   * The state as the source writes it: a scan of the offers that breaks at
   * the first schema-id match, with defaults set up before the loop.
   */
  method ProcessMessage(env: Env, offers: seq<Offer>, msg: Incoming, session: CommSession,
                        resume: Option<string>, now: real) returns (s: Step)
    ensures s == Negotiate(env, offers, msg, session, resume, now)
  {
    var checked := CheckMsg(msg);
    if checked.None? {
      return Step(Ignored, session, resume, []);
    }
    var res := checked.value;
    var queries := [Iso15118_2];
    var nextMsg := SessionSetupReqV2(env.evccId(Iso15118_2));
    var nextNs := IsoV2MsgDef;
    var nextState := Terminate;
    var matched := false;
    var current := session;
    var slot := resume;
    var i := 0;
    while i < |offers|
      invariant 0 <= i <= |offers|
      invariant forall j | 0 <= j < i :: !SameSchema(offers[j], res.schemaId)
      invariant !matched && current == session && slot == resume
      invariant queries == [Iso15118_2] && nextState == Terminate
    {
      var offer := offers[i];
      if SameSchema(offer, res.schemaId) {
        FirstMatchUnique(offers, res.schemaId, i);
        matched := true;
        if offer.protocolNs == env.iso2Ns {
          current := current.(protocol := Some(Iso15118_2));
          var g := GetSessionId(current, slot);
          current, slot := g.session, g.resume;
          current := current.(sessionId := g.id);
          nextState := SessionSetupV2;
        } else if StartsWith(offer.protocolNs, env.v20Base) {
          current := current.(protocol := Some(env.getByNs(offer.protocolNs)));
          var g := GetSessionId(current, slot);
          current, slot := g.session, g.resume;
          var header := Header(g.id, now);
          queries := queries + [current.protocol.value];
          nextMsg := SessionSetupReqV20(header, env.evccId(current.protocol.value));
          nextNs := IsoV20CommonMsg;
          nextState := SessionSetupV20;
        } else {
          return Step(Raised(MessageProcessingError("SupportedAppProtocolReq")), current, slot, queries);
        }
        break;
      }
      i := i + 1;
    }
    if matched {
      return Step(Sent(nextState, nextMsg, SessionSetupReqTimeout, nextNs), current, slot, queries);
    }
    return Step(Stopped(res.responseCode, res.schemaId), current, slot, queries);
  }

  /**
   * Only the first matching offer matters: two offer lists whose first match
   * for the response's schema id has the same namespace negotiate alike.
   */
  lemma OnlyFirstMatchMatters(env: Env, a: seq<Offer>, b: seq<Offer>, msg: Incoming,
                              session: CommSession, resume: Option<string>, now: real,
                              ka: nat, kb: nat)
    requires msg.AppProtocolRes?
    requires IsFirstMatch(a, msg.res.schemaId, ka) && IsFirstMatch(b, msg.res.schemaId, kb)
    requires a[ka].protocolNs == b[kb].protocolNs
    ensures Negotiate(env, a, msg, session, resume, now) == Negotiate(env, b, msg, session, resume, now)
  {
  }

  /** Offers after the first match are never examined. */
  lemma LaterOffersNeverExamined(env: Env, offers: seq<Offer>, rest: seq<Offer>, msg: Incoming,
                                 session: CommSession, resume: Option<string>, now: real)
    requires msg.AppProtocolRes? && !NoMatch(offers, msg.res.schemaId)
    ensures Negotiate(env, offers + rest, msg, session, resume, now)
         == Negotiate(env, offers, msg, session, resume, now)
  {
    var id := msg.res.schemaId;
    var k := FirstMatch(offers, id).value;
    FirstMatchIgnoresSuffix(offers, rest, id);
    assert (offers + rest)[k] == offers[k];
  }

  /** Offers before the first match, all with other schema ids, change nothing. */
  lemma EarlierMissesChangeNothing(env: Env, misses: seq<Offer>, offers: seq<Offer>, msg: Incoming,
                                   session: CommSession, resume: Option<string>, now: real)
    requires msg.AppProtocolRes? && NoMatch(misses, msg.res.schemaId)
    ensures Negotiate(env, misses + offers, msg, session, resume, now)
         == Negotiate(env, offers, msg, session, resume, now)
  {
    var id := msg.res.schemaId;
    FirstMatchSkipsMisses(misses, offers, id);
    if FirstMatch(offers, id).Some? {
      var k := FirstMatch(offers, id).value;
      assert (misses + offers)[|misses| + k] == offers[k];
    }
  }

  /**
   * The resume slot is consumed only by a hand-off: a state that stops,
   * raises or ignores its message leaves a saved id for the next attempt.
   */
  lemma ResumeConsumedOnlyByHandOff(env: Env, offers: seq<Offer>, msg: Incoming,
                                    session: CommSession, saved: string, now: real)
    requires saved != ""
    ensures var s := Negotiate(env, offers, msg, session, Some(saved), now);
            (s.resume == None <==> s.outcome.Sent?)
            && (s.outcome.Sent? ==> s.session.sessionId == saved)
            && (!s.outcome.Sent? ==> s.resume == Some(saved))
  {
  }

  /**
   * A second negotiation in the same process after a resumed one starts a
   * new session: the first hands off with the saved id, the second with "00".
   */
  lemma SecondAttemptStartsFresh(env: Env, offers: seq<Offer>, msg: Incoming,
                                 session: CommSession, saved: string, now: real,
                                 offers2: seq<Offer>, msg2: Incoming, session2: CommSession,
                                 now2: real)
    requires saved != ""
    requires Negotiate(env, offers, msg, session, Some(saved), now).outcome.Sent?
    ensures var s1 := Negotiate(env, offers, msg, session, Some(saved), now);
            var s2 := Negotiate(env, offers2, msg2, session2, s1.resume, now2);
            s1.session.sessionId == saved
            && (s2.outcome.Sent? ==> s2.session.sessionId == "00")
  {
  }
}
