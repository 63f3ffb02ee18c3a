/** The video-call endpoints of backend/app/api/v1/endpoints/video_sessions.py: open a
    session on a disclosure, list and fetch sessions, update one during the call, end it
    (with a summary of a long enough transcript) and delete it. The summariser's answer
    and the clock are inputs. */
module VideoSessions {
  import opened Wrappers
  import opened Json
  import opened Domain
  import opened Database
  import Ordering

  /** The call's participants: the inventor, then the assigned lawyer, each only when the
      id is truthy (present and not 0). */
  function Participants(d: Disclosure): (r: seq<int>)
    ensures |r| <= 2
    ensures forall x :: x in r <==> (x == d.inventorId && x != 0) || (d.assignedLawyerId == Some(x) && x != 0)
    ensures d.inventorId != 0 ==> r != [] && r[0] == d.inventorId
    ensures forall x :: x in r ==> x != 0
  {
    (if d.inventorId != 0 then [d.inventorId] else [])
    + (if d.assignedLawyerId.Some? && d.assignedLawyerId.value != 0 then [d.assignedLawyerId.value] else [])
  }

  /** The row `create_video_session` inserts: not ended, no transcript or summary, `{}`
      metadata; the start time is the database clock. */
  function NewSession(disclosureId: int, d: Disclosure, now: int): (s: SessionRow)
    ensures s.disclosureId == disclosureId && s.participants == Participants(d) && s.startedAt == now
    ensures s.transcript.None? && s.aiSummary.None? && s.endedAt.None? && s.metadata == Some(map[])
  {
    SessionRow(0, disclosureId, Participants(d), None, None, Some(map[]), now, None)
  }

  /** `create_video_session`: 404 before 403, then the session row. */
  method CreateVideoSession(db: Db, user: User, disclosureId: int, now: int) returns (r: Outcome<SessionRow>)
    requires db.Valid()
    modifies db
    ensures db.Valid()
    ensures r.Fail? <==> CheckAccess(user, FindDisclosure(old(db.disclosures), disclosureId)).Fail?
    ensures r.Fail? ==> (db.Snapshot() == old(db.Snapshot())
                         && r.status == CheckAccess(user, FindDisclosure(old(db.disclosures), disclosureId)).status
                         && r.detail == CheckAccess(user, FindDisclosure(old(db.disclosures), disclosureId)).detail)
    ensures r.Ok? ==>
      var d := FindDisclosure(old(db.disclosures), disclosureId).value;
      r.value == NewSession(disclosureId, d, now).(id := old(db.nextId))
      && db.Snapshot() == old(db.Snapshot()).(sessions := old(db.sessions) + [r.value], nextId := old(db.nextId) + 1)
  {
    var access := CheckAccess(user, FindDisclosure(db.disclosures, disclosureId));
    if access.Fail? {
      return access.Forward();
    }
    var s := db.AddSession(NewSession(disclosureId, access.value, now));
    return Ok(s);
  }

  function OnDisclosure(id: int): SessionRow -> bool {
    (s: SessionRow) => s.disclosureId == id
  }

  /** Sorting key for `order_by(started_at.desc())`. */
  function Newest(s: SessionRow): int {
    -s.startedAt
  }

  /** `get_disclosure_sessions`: the access check, then the disclosure's sessions, most
      recently started first. */
  function GetDisclosureSessions(t: Tables, user: User, disclosureId: int): (r: Outcome<seq<SessionRow>>)
    ensures r.Fail? <==> CheckAccess(user, FindDisclosure(t.disclosures, disclosureId)).Fail?
    ensures r.Fail? ==> r.status == CheckAccess(user, FindDisclosure(t.disclosures, disclosureId)).status
                        && r.detail == CheckAccess(user, FindDisclosure(t.disclosures, disclosureId)).detail
    ensures r.Ok? ==> forall i, j :: 0 <= i < j < |r.value| ==> r.value[i].startedAt >= r.value[j].startedAt
    ensures r.Ok? ==> multiset(r.value) == multiset(Where(t.sessions, OnDisclosure(disclosureId)))
  {
    match CheckAccess(user, FindDisclosure(t.disclosures, disclosureId))
    case Fail(status, detail) => Fail(status, detail)
    case Ok(_) =>
      var rows := Where(t.sessions, OnDisclosure(disclosureId));
      Ordering.SortBySorted(rows, Newest);
      var sorted := Ordering.SortBy(rows, Newest);
      assert forall i, j :: 0 <= i < j < |sorted| ==> Newest(sorted[i]) <= Newest(sorted[j]);
      Ok(sorted)
  }

  /** The access check of the endpoints reached by session id: 404 for the session, then
      the rule on its disclosure, which is not tested for existence (a missing one raises
      for an inventor or a lawyer). */
  function SessionAccess(t: Tables, user: User, sessionId: int): (r: Outcome<nat>)
    ensures IndexOf(t.sessions, SessionId, sessionId).None? ==> r == Fail(NotFound, "Session not found")
    ensures IndexOf(t.sessions, SessionId, sessionId).Some? ==>
      var gate := CheckLinkedAccess(user, FindDisclosure(t.disclosures, t.sessions[IndexOf(t.sessions, SessionId, sessionId).value].disclosureId));
      (r.Ok? <==> gate.Ok?)
      && (r.Ok? ==> r.value == IndexOf(t.sessions, SessionId, sessionId).value)
      && (r.Fail? ==> r.status == gate.status && r.detail == gate.detail)
  {
    match IndexOf(t.sessions, SessionId, sessionId)
    case None => Fail(NotFound, "Session not found")
    case Some(k) =>
      match CheckLinkedAccess(user, FindDisclosure(t.disclosures, t.sessions[k].disclosureId))
      case Fail(status, detail) => Fail(status, detail)
      case Ok(_) => Ok(k)
  }

  /** `get_video_session`. */
  function GetVideoSession(t: Tables, user: User, sessionId: int): (r: Outcome<SessionRow>)
    ensures r.Ok? <==> SessionAccess(t, user, sessionId).Ok?
    ensures r.Ok? ==> r.value in t.sessions && r.value.id == sessionId
    ensures r.Fail? ==> r.status == SessionAccess(t, user, sessionId).status
                        && r.detail == SessionAccess(t, user, sessionId).detail
  {
    match SessionAccess(t, user, sessionId)
    case Fail(status, detail) => Fail(status, detail)
    case Ok(k) => Ok(t.sessions[k])
  }

  /** `VideoSessionUpdate`: a field left out (or null) is not touched. */
  datatype SessionUpdate = SessionUpdate(transcript: Option<string>, metadata: Option<map<string, Json>>)

  function Updated(s: SessionRow, u: SessionUpdate): (r: SessionRow)
    ensures r.transcript == (if u.transcript.Some? then u.transcript else s.transcript)
    ensures r.metadata == (if u.metadata.Some? then u.metadata else s.metadata)
    ensures r.(transcript := s.transcript, metadata := s.metadata) == s
  {
    s.(transcript := if u.transcript.Some? then u.transcript else s.transcript,
       metadata := if u.metadata.Some? then u.metadata else s.metadata)
  }

  /** An empty update changes nothing, and applying the same update twice is applying it
      once. */
  lemma UpdatedLaws(s: SessionRow, u: SessionUpdate)
    ensures Updated(s, SessionUpdate(None, None)) == s
    ensures Updated(Updated(s, u), u) == Updated(s, u)
  {
  }

  /** `update_video_session`. */
  method UpdateVideoSession(db: Db, user: User, sessionId: int, u: SessionUpdate) returns (r: Outcome<SessionRow>)
    requires db.Valid()
    modifies db
    ensures db.Valid()
    ensures r.Fail? ==> db.Snapshot() == old(db.Snapshot())
    ensures r.Ok? <==> SessionAccess(old(db.Snapshot()), user, sessionId).Ok?
    ensures r.Fail? ==> r.status == SessionAccess(old(db.Snapshot()), user, sessionId).status
                        && r.detail == SessionAccess(old(db.Snapshot()), user, sessionId).detail
    ensures r.Ok? ==>
      var k := SessionAccess(old(db.Snapshot()), user, sessionId).value;
      r.value == Updated(old(db.sessions)[k], u)
      && db.Snapshot() == old(db.Snapshot()).(sessions := old(db.sessions)[k := r.value])
  {
    var access := SessionAccess(db.Snapshot(), user, sessionId);
    if access.Fail? {
      return access.Forward();
    }
    var s := Updated(db.sessions[access.value], u);
    db.SetSession(access.value, s);
    return Ok(s);
  }

  /** How the summariser answered, when it was called. */
  datatype SummaryCall = Summarized(text: string) | SummaryRaised(message: string)

  /** A summary is asked for exactly when the transcript is longer than 50 characters. */
  predicate WantsSummary(transcript: string) {
    transcript != [] && |transcript| > 50
  }

  function SummaryText(call: SummaryCall): string {
    match call
    case Summarized(text) => text
    case SummaryRaised(message) => "Error generating summary: " + message
  }

  /** `VideoSessionEnd`: the transcript is required, the metadata optional. */
  datatype SessionEnd = SessionEnd(transcript: string, metadata: Option<map<string, Json>>)

  /** The session once ended: transcript and end time always written; the metadata only
      replaced by a non-empty dict; the summary written only for a long transcript, with
      the summariser's text or the error message. */
  function Ended(s: SessionRow, e: SessionEnd, now: int, call: SummaryCall): (r: SessionRow)
    ensures r.transcript == Some(e.transcript) && r.endedAt == Some(now)
    ensures r.metadata == if e.metadata.Some? && e.metadata.value != map[] then e.metadata else s.metadata
    ensures WantsSummary(e.transcript) ==> r.aiSummary == Some(SummaryText(call))
    ensures !WantsSummary(e.transcript) ==> r.aiSummary == s.aiSummary
    ensures r.id == s.id && r.disclosureId == s.disclosureId && r.participants == s.participants && r.startedAt == s.startedAt
  {
    s.(transcript := Some(e.transcript),
       endedAt := Some(now),
       metadata := if e.metadata.Some? && e.metadata.value != map[] then e.metadata else s.metadata,
       aiSummary := if WantsSummary(e.transcript) then Some(SummaryText(call)) else s.aiSummary)
  }

  /** Ending a session twice with the same data and clock gives the same row; a short
      transcript never touches the summary. */
  lemma EndedLaws(s: SessionRow, e: SessionEnd, now: int, call: SummaryCall, other: SummaryCall)
    ensures Ended(Ended(s, e, now, call), e, now, call) == Ended(s, e, now, call)
    ensures !WantsSummary(e.transcript) ==> Ended(s, e, now, call) == Ended(s, e, now, other)
  {
  }

  /** A transcript of exactly 50 characters is not summarised; one of 51 is. */
  lemma SummaryThreshold(t: string)
    ensures |t| == 50 ==> !WantsSummary(t)
    ensures |t| == 51 ==> WantsSummary(t)
  {
  }

  /** `end_video_session`. */
  method EndVideoSession(db: Db, user: User, sessionId: int, e: SessionEnd, now: int, call: SummaryCall) returns (r: Outcome<SessionRow>)
    requires db.Valid()
    modifies db
    ensures db.Valid()
    ensures r.Fail? ==> db.Snapshot() == old(db.Snapshot())
    ensures r.Ok? <==> SessionAccess(old(db.Snapshot()), user, sessionId).Ok?
    ensures r.Fail? ==> r.status == SessionAccess(old(db.Snapshot()), user, sessionId).status
                        && r.detail == SessionAccess(old(db.Snapshot()), user, sessionId).detail
    ensures r.Ok? ==>
      var k := SessionAccess(old(db.Snapshot()), user, sessionId).value;
      r.value == Ended(old(db.sessions)[k], e, now, call)
      && db.Snapshot() == old(db.Snapshot()).(sessions := old(db.sessions)[k := r.value])
  {
    var access := SessionAccess(db.Snapshot(), user, sessionId);
    if access.Fail? {
      return access.Forward();
    }
    var s := Ended(db.sessions[access.value], e, now, call);
    db.SetSession(access.value, s);
    return Ok(s);
  }

  /** `delete_video_session`: the admin check comes first, so a non-admin gets 403 even
      for a session that does not exist. */
  method DeleteVideoSession(db: Db, user: User, sessionId: int) returns (r: Outcome<()>)
    requires db.Valid()
    modifies db
    ensures db.Valid()
    ensures r.Fail? ==> db.Snapshot() == old(db.Snapshot())
    ensures user.role != Admin ==> r == Fail(Forbidden, "Admin access required")
    ensures user.role == Admin && IndexOf(old(db.sessions), SessionId, sessionId).None?
      ==> r == Fail(NotFound, "Session not found")
    ensures r.Ok? <==> user.role == Admin && IndexOf(old(db.sessions), SessionId, sessionId).Some?
    ensures r.Ok? ==> db.Snapshot() == old(db.Snapshot()).(sessions := Where(old(db.sessions), Except(SessionId, sessionId)))
  {
    if user.role != Admin {
      return Fail(Forbidden, "Admin access required");
    }
    if IndexOf(db.sessions, SessionId, sessionId).None? {
      return Fail(NotFound, "Session not found");
    }
    db.DeleteSession(sessionId);
    return Ok(());
  }
}
