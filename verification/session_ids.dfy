/**
 * The session identifier manager of the EVCC: the process-wide one-shot
 * resume slot and the session fields the negotiation writes.
 */
module SessionIds {
  import opened Wrappers
  import opened Hex
  import opened AppProtocol

  /** The part of the communication session the handshake reads and writes. */
  datatype CommSession = CommSession(protocol: Option<Protocol>, sessionId: string)

  /** The id of a new session: one zero byte, upper-case hex. */
  const NewSessionId: string := HexUpper([0])

  /**
   * Python truthiness of the resume slot: it holds a session to resume only
   * when it is set AND non-empty; an empty string counts as unset.
   */
  predicate Resumable(resume: Option<string>)
  {
    resume.Some? && resume.value != ""
  }

  /** What one call of the manager leaves behind: the id, the session and the slot. */
  datatype Grant = Grant(id: string, session: CommSession, resume: Option<string>)

  /**
   * Resume the saved session id if there is one, clearing the slot; otherwise
   * start a new session. Either way the id is recorded in the session.
   */
  function GetSessionId(session: CommSession, resume: Option<string>): (g: Grant)
    ensures g.session.sessionId == g.id
    ensures g.session.protocol == session.protocol
    ensures Resumable(resume) ==> g.id == resume.value && g.resume == None
    ensures !Resumable(resume) ==> g.id == "00" && g.resume == resume
    ensures !Resumable(g.resume)
  {
    ZeroByteHex();
    if Resumable(resume) then
      Grant(resume.value, session.(sessionId := resume.value), None)
    else
      Grant(NewSessionId, session.(sessionId := NewSessionId), resume)
  }

  /**
   * The slot is one-shot: two calls in a row after a resume give the saved id
   * and then a new session's "00", whatever the session held in between.
   */
  lemma ResumeIsOneShot(session: CommSession, other: CommSession, saved: string)
    requires saved != ""
    ensures GetSessionId(session, Some(saved)).id == saved
    ensures GetSessionId(other, GetSessionId(session, Some(saved)).resume).id == "00"
  {
  }
}
