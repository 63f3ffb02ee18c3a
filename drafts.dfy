/** The patent-draft endpoints of backend/app/api/v1/endpoints/drafts.py: fetch (creating
    an empty draft on first access), edit a section or the full text, approve, and send
    back for revision. */
module Drafts {
  import opened Wrappers
  import opened Json
  import opened Domain
  import opened Database
  import Dependencies

  /** The row `get_patent_draft` inserts: PENDING, `{}` sections and figure index. */
  function EmptyDraft(id: int, disclosureId: int): (d: Draft)
    ensures d.id == id && d.disclosureId == disclosureId && d.status == Pending
    ensures d.sections == EmptyObj && d.figureIndex == EmptyObj
    ensures d.fullText.None? && d.aiModelUsed.None? && d.processingError.None?
  {
    Draft.Draft(id, disclosureId, Pending, JObj(map[]), JObj(map[]), None, None, None)
  }

  /** `get_patent_draft`: the access check on the disclosure, then its draft, inserted
      empty when there is none yet. Afterwards the draft is there to be found, so a second
      call returns the same row and changes nothing. */
  method GetPatentDraft(db: Db, user: User, disclosureId: int) returns (r: Outcome<Draft>)
    requires db.Valid()
    modifies db
    ensures db.Valid()
    ensures r.Fail? <==> CheckAccess(user, FindDisclosure(old(db.disclosures), disclosureId)).Fail?
    ensures r.Fail? ==> (db.Snapshot() == old(db.Snapshot())
                         && r.status == CheckAccess(user, FindDisclosure(old(db.disclosures), disclosureId)).status
                         && r.detail == CheckAccess(user, FindDisclosure(old(db.disclosures), disclosureId)).detail)
    ensures r.Ok? && IndexOf(old(db.drafts), DraftDisclosure, disclosureId).Some? ==>
      r.value == old(db.drafts)[IndexOf(old(db.drafts), DraftDisclosure, disclosureId).value]
      && db.Snapshot() == old(db.Snapshot())
    ensures r.Ok? && IndexOf(old(db.drafts), DraftDisclosure, disclosureId).None? ==>
      r.value == EmptyDraft(old(db.nextId), disclosureId)
      && db.Snapshot() == old(db.Snapshot()).(drafts := old(db.drafts) + [r.value], nextId := old(db.nextId) + 1)
    ensures r.Ok? ==> (IndexOf(db.drafts, DraftDisclosure, disclosureId).Some?
                       && db.drafts[IndexOf(db.drafts, DraftDisclosure, disclosureId).value] == r.value)
  {
    var access := CheckAccess(user, FindDisclosure(db.disclosures, disclosureId));
    if access.Fail? {
      return access.Forward();
    }
    var found := IndexOf(db.drafts, DraftDisclosure, disclosureId);
    if found.Some? {
      return Ok(db.drafts[found.value]);
    }
    var d := db.AddDraft(EmptyDraft(0, disclosureId));
    IndexOfAppended(old(db.drafts), DraftDisclosure, disclosureId, d);
    return Ok(d);
  }

  /** The assignment check of the editing endpoints: a lawyer must be the disclosure's
      assigned lawyer; an admin passes. The disclosure is reached through the draft and
      not tested for existence, so for a lawyer a missing one raises (500). */
  function CheckAssigned(u: User, found: Option<Disclosure>): (r: Outcome<()>)
    ensures r.Ok? <==> u.role != Lawyer || (found.Some? && found.value.assignedLawyerId == Some(u.id))
    ensures r.Fail? && found.None? ==> r == Fail(ServerError, "Internal Server Error")
    ensures r.Fail? && found.Some? ==> r == Fail(Forbidden, "Not assigned to this disclosure")
  {
    if u.role != Lawyer then Ok(())
    else if found.None? then Fail(ServerError, "Internal Server Error")
    else if found.value.assignedLawyerId != Some(u.id) then Fail(Forbidden, "Not assigned to this disclosure")
    else Ok(())
  }

  /** The sections once one section is written: a non-dict value is first replaced by
      `{}`, then the one key is set and every other key keeps its value. */
  function WithSection(sections: Json, name: string, content: Json): (r: Json)
    ensures r.JObj? && name in r.fields && r.fields[name] == content
    ensures r.fields.Keys == (if sections.JObj? then sections.fields.Keys else {}) + {name}
    ensures sections.JObj? ==> forall k :: k in sections.fields && k != name ==> r.fields[k] == sections.fields[k]
  {
    match sections
    case JObj(m) => JObj(m[name := content])
    case _ => JObj(map[name := content])
  }

  /** Writing the same section twice is writing it once. */
  lemma WithSectionIdempotent(sections: Json, name: string, content: Json)
    ensures WithSection(WithSection(sections, name, content), name, content) == WithSection(sections, name, content)
  {
    var once := WithSection(sections, name, content);
    assert once.fields[name := content] == once.fields;
  }

  /** Writes to different sections commute. */
  lemma WithSectionCommutes(sections: Json, a: string, x: Json, b: string, y: Json)
    requires a != b
    ensures WithSection(WithSection(sections, a, x), b, y) == WithSection(WithSection(sections, b, y), a, x)
  {
    var m := if sections.JObj? then sections.fields else map[];
    assert WithSection(sections, a, x).fields == m[a := x];
    assert WithSection(sections, b, y).fields == m[b := y];
    assert m[a := x][b := y] == m[b := y][a := x];
  }

  /** The sections that reach the database as the endpoint is written. The column is a
      plain JSON column, which does not track in-place changes: when `sections` already
      holds a dict, the item assignment marks nothing as changed, the commit writes
      nothing and the refresh reads the old dict back. Only a non-dict value, replaced
      by a new `{}` object, is written, with the section in it. */
  function StoredSectionsAsWritten(sections: Json, name: string, content: Json): Json {
    match sections
    case JObj(_) => sections
    case _ => JObj(map[name := content])
  }

  /** As written, an edit of a draft whose sections are already a dict is lost: the stored
      sections differ from the edited ones whenever the section did not already hold the
      new content. The draft the job generates always has dict sections. */
  lemma SectionEditLost(m: map<string, Json>, name: string, content: Json)
    requires name !in m || m[name] != content
    ensures StoredSectionsAsWritten(JObj(m), name, content) != WithSection(JObj(m), name, content)
    ensures name !in StoredSectionsAsWritten(JObj(m), name, content).fields || StoredSectionsAsWritten(JObj(m), name, content).fields[name] != content
  {
  }

  /** An instance: a generated draft with a background section, edited to a new text. */
  lemma SectionEditLostExample()
    ensures StoredSectionsAsWritten(JObj(map["background" := JStr("old")]), "background", JStr("new"))
      == JObj(map["background" := JStr("old")])
  {
  }

  /** `update_draft_section`: lawyers and admins only; 404 when the draft is missing; the
      assignment check; then the section is written (into a fresh `{}` if the sections
      were not a dict) and nothing else of the row or the tables changes. */
  method UpdateDraftSection(db: Db, user: User, draftId: int, name: string, content: Json) returns (r: Outcome<Draft>)
    requires db.Valid()
    modifies db
    ensures db.Valid()
    ensures r.Fail? ==> db.Snapshot() == old(db.Snapshot())
    ensures user.role !in [Lawyer, Admin] ==> r == Fail(Forbidden, Dependencies.Denied([Lawyer, Admin], user))
    ensures user.role in [Lawyer, Admin] && IndexOf(old(db.drafts), DraftId, draftId).None?
      ==> r == Fail(NotFound, "Draft not found")
    ensures user.role in [Lawyer, Admin] && IndexOf(old(db.drafts), DraftId, draftId).Some? ==>
      var j := IndexOf(old(db.drafts), DraftId, draftId).value;
      var gate := CheckAssigned(user, FindDisclosure(old(db.disclosures), old(db.drafts)[j].disclosureId));
      (r.Ok? <==> gate.Ok?)
      && (r.Fail? ==> r.status == gate.status && r.detail == gate.detail)
      && (r.Ok? ==>
        r.value == old(db.drafts)[j].(sections := WithSection(old(db.drafts)[j].sections, name, content))
        && db.Snapshot() == old(db.Snapshot()).(drafts := old(db.drafts)[j := r.value]))
  {
    var role := Dependencies.RoleChecker([Lawyer, Admin], user);
    if role.Fail? {
      return role.Forward();
    }
    var found := IndexOf(db.drafts, DraftId, draftId);
    if found.None? {
      return Fail(NotFound, "Draft not found");
    }
    var j := found.value;
    var gate := CheckAssigned(user, FindDisclosure(db.disclosures, db.drafts[j].disclosureId));
    if gate.Fail? {
      return gate.Forward();
    }
    var d := db.drafts[j].(sections := WithSection(db.drafts[j].sections, name, content));
    db.SetDraft(j, d);
    return Ok(d);
  }

  /** `update_draft_full_text`: the same guards; only `full_text` changes. */
  method UpdateDraftFullText(db: Db, user: User, draftId: int, fullText: string) returns (r: Outcome<Draft>)
    requires db.Valid()
    modifies db
    ensures db.Valid()
    ensures r.Fail? ==> db.Snapshot() == old(db.Snapshot())
    ensures user.role !in [Lawyer, Admin] ==> r == Fail(Forbidden, Dependencies.Denied([Lawyer, Admin], user))
    ensures user.role in [Lawyer, Admin] && IndexOf(old(db.drafts), DraftId, draftId).None?
      ==> r == Fail(NotFound, "Draft not found")
    ensures user.role in [Lawyer, Admin] && IndexOf(old(db.drafts), DraftId, draftId).Some? ==>
      var j := IndexOf(old(db.drafts), DraftId, draftId).value;
      var gate := CheckAssigned(user, FindDisclosure(old(db.disclosures), old(db.drafts)[j].disclosureId));
      (r.Ok? <==> gate.Ok?)
      && (r.Fail? ==> r.status == gate.status && r.detail == gate.detail)
      && (r.Ok? ==>
        r.value == old(db.drafts)[j].(fullText := Some(fullText))
        && db.Snapshot() == old(db.Snapshot()).(drafts := old(db.drafts)[j := r.value]))
  {
    var role := Dependencies.RoleChecker([Lawyer, Admin], user);
    if role.Fail? {
      return role.Forward();
    }
    var found := IndexOf(db.drafts, DraftId, draftId);
    if found.None? {
      return Fail(NotFound, "Draft not found");
    }
    var j := found.value;
    var gate := CheckAssigned(user, FindDisclosure(db.disclosures, db.drafts[j].disclosureId));
    if gate.Fail? {
      return gate.Forward();
    }
    var d := db.drafts[j].(fullText := Some(fullText));
    db.SetDraft(j, d);
    return Ok(d);
  }

  /** The `dict` the review endpoints answer with. */
  datatype Ack = Ack(message: string, disclosureId: int, feedback: Option<string>)

  /** The guards and the status write shared by approve and request-revision: lawyers and
      admins only, 404, then a lawyer must be the assigned one. */
  method Review(db: Db, user: User, disclosureId: int, status: DisclosureStatus) returns (r: Outcome<()>)
    requires db.Valid()
    modifies db
    ensures db.Valid()
    ensures r.Fail? ==> db.Snapshot() == old(db.Snapshot())
    ensures user.role !in [Lawyer, Admin] ==> r == Fail(Forbidden, Dependencies.Denied([Lawyer, Admin], user))
    ensures user.role in [Lawyer, Admin] && IndexOf(old(db.disclosures), DisclosureId, disclosureId).None?
      ==> r == Fail(NotFound, "Disclosure not found")
    ensures user.role in [Lawyer, Admin] && IndexOf(old(db.disclosures), DisclosureId, disclosureId).Some? ==>
      var k := IndexOf(old(db.disclosures), DisclosureId, disclosureId).value;
      (r.Ok? <==> user.role == Admin || old(db.disclosures)[k].assignedLawyerId == Some(user.id))
      && (r.Fail? ==> r == Fail(Forbidden, "Not assigned to this disclosure"))
      && (r.Ok? ==> db.Snapshot() == old(db.Snapshot()).(disclosures := old(db.disclosures)[k := old(db.disclosures)[k].(status := status)]))
  {
    var role := Dependencies.RoleChecker([Lawyer, Admin], user);
    if role.Fail? {
      return role.Forward();
    }
    var found := IndexOf(db.disclosures, DisclosureId, disclosureId);
    if found.None? {
      return Fail(NotFound, "Disclosure not found");
    }
    var k := found.value;
    if user.role == Lawyer && db.disclosures[k].assignedLawyerId != Some(user.id) {
      return Fail(Forbidden, "Not assigned to this disclosure");
    }
    db.SetDisclosure(k, db.disclosures[k].(status := status));
    return Ok(());
  }

  /** `approve_draft`: the disclosure becomes APPROVED, whatever its status was. */
  method ApproveDraft(db: Db, user: User, disclosureId: int) returns (r: Outcome<Ack>)
    requires db.Valid()
    modifies db
    ensures db.Valid()
    ensures r.Fail? ==> db.Snapshot() == old(db.Snapshot())
    ensures user.role !in [Lawyer, Admin] ==> r == Fail(Forbidden, Dependencies.Denied([Lawyer, Admin], user))
    ensures user.role in [Lawyer, Admin] && IndexOf(old(db.disclosures), DisclosureId, disclosureId).None?
      ==> r == Fail(NotFound, "Disclosure not found")
    ensures user.role == Lawyer && IndexOf(old(db.disclosures), DisclosureId, disclosureId).Some?
      && old(db.disclosures)[IndexOf(old(db.disclosures), DisclosureId, disclosureId).value].assignedLawyerId != Some(user.id)
      ==> r == Fail(Forbidden, "Not assigned to this disclosure")
    ensures r.Ok? <==> (user.role in [Lawyer, Admin] && IndexOf(old(db.disclosures), DisclosureId, disclosureId).Some?
                        && (user.role == Admin
                            || old(db.disclosures)[IndexOf(old(db.disclosures), DisclosureId, disclosureId).value].assignedLawyerId == Some(user.id)))
    ensures r.Ok? ==>
      var k := IndexOf(old(db.disclosures), DisclosureId, disclosureId).value;
      r.value == Ack("Patent draft approved", disclosureId, None)
      && db.Snapshot() == old(db.Snapshot()).(disclosures := old(db.disclosures)[k := old(db.disclosures)[k].(status := Approved)])
  {
    var done := Review(db, user, disclosureId, Approved);
    if done.Fail? {
      return done.Forward();
    }
    return Ok(Ack("Patent draft approved", disclosureId, None));
  }

  /** `request_revision`: the disclosure becomes REVISION_REQUESTED and the feedback is
      echoed back; it is not stored anywhere. */
  method RequestRevision(db: Db, user: User, disclosureId: int, feedback: string) returns (r: Outcome<Ack>)
    requires db.Valid()
    modifies db
    ensures db.Valid()
    ensures r.Fail? ==> db.Snapshot() == old(db.Snapshot())
    ensures user.role !in [Lawyer, Admin] ==> r == Fail(Forbidden, Dependencies.Denied([Lawyer, Admin], user))
    ensures user.role in [Lawyer, Admin] && IndexOf(old(db.disclosures), DisclosureId, disclosureId).None?
      ==> r == Fail(NotFound, "Disclosure not found")
    ensures user.role == Lawyer && IndexOf(old(db.disclosures), DisclosureId, disclosureId).Some?
      && old(db.disclosures)[IndexOf(old(db.disclosures), DisclosureId, disclosureId).value].assignedLawyerId != Some(user.id)
      ==> r == Fail(Forbidden, "Not assigned to this disclosure")
    ensures r.Ok? <==> (user.role in [Lawyer, Admin] && IndexOf(old(db.disclosures), DisclosureId, disclosureId).Some?
                        && (user.role == Admin
                            || old(db.disclosures)[IndexOf(old(db.disclosures), DisclosureId, disclosureId).value].assignedLawyerId == Some(user.id)))
    ensures r.Ok? ==>
      var k := IndexOf(old(db.disclosures), DisclosureId, disclosureId).value;
      r.value == Ack("Revision requested", disclosureId, Some(feedback))
      && db.Snapshot() == old(db.Snapshot()).(disclosures := old(db.disclosures)[k := old(db.disclosures)[k].(status := RevisionRequested)])
  {
    var done := Review(db, user, disclosureId, RevisionRequested);
    if done.Fail? {
      return done.Forward();
    }
    return Ok(Ack("Revision requested", disclosureId, Some(feedback)));
  }
}
