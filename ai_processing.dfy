/** The background task of backend/app/tasks/ai_processing.py that turns a disclosure into
    a patent draft. The generator's answer (the sections, or the message of the exception
    it raised) and the model name are inputs. */
module AiProcessing {
  import opened Wrappers
  import opened Json
  import opened Domain
  import opened Database

  /** What `ai_service.generate_patent_draft` did: returned sections or raised. */
  datatype Generation = Generated(sections: Json) | Raised(message: string)

  /** A new draft row as the job inserts it: the column defaults (`{}` sections and
      figure index) and PROCESSING. */
  function FreshDraft(id: int, disclosureId: int): (d: Draft)
    ensures d.id == id && d.disclosureId == disclosureId && d.status == Processing
    ensures d.sections == EmptyObj && d.figureIndex == EmptyObj
    ensures d.fullText.None? && d.aiModelUsed.None? && d.processingError.None?
  {
    Draft.Draft(id, disclosureId, Processing, JObj(map[]), JObj(map[]), None, None, None)
  }

  /** The draft once the generator has answered. */
  predicate SettledBy(d: Draft, gen: Generation, model: string) {
    match gen
    case Generated(sections) => d.status == Completed && d.sections == sections && d.aiModelUsed == Some(model)
    case Raised(message) => d.status == Failed && d.processingError == Some(message)
  }

  /** The draft's last update: on success the sections, COMPLETED and the model; on an
      exception FAILED and its message. Nothing else of the row changes, so an earlier
      error message survives a later success. */
  function Settle(d: Draft, gen: Generation, model: string): (r: Draft)
    ensures SettledBy(r, gen, model)
    ensures r.id == d.id && r.disclosureId == d.disclosureId && r.figureIndex == d.figureIndex && r.fullText == d.fullText
    ensures gen.Generated? ==> r.processingError == d.processingError
    ensures gen.Raised? ==> r.sections == d.sections && r.aiModelUsed == d.aiModelUsed
  {
    match gen
    case Generated(sections) => d.(sections := sections, status := Completed, aiModelUsed := Some(model))
    case Raised(message) => d.(status := Failed, processingError := Some(message))
  }

  /** The disclosure's final status: READY_FOR_REVIEW on success, back to DRAFT on failure. */
  function FinalStatus(gen: Generation): (s: DisclosureStatus)
    ensures s == ReadyForReview <==> gen.Generated?
    ensures s != ReadyForReview ==> s == DisclosureStatus.Draft
  {
    if gen.Generated? then ReadyForReview else DisclosureStatus.Draft
  }

  /** The tables after the job has run to the end. */
  function Processed(t: Tables, id: int, gen: Generation, model: string): Tables {
    match IndexOf(t.disclosures, DisclosureId, id)
    case None => t
    case Some(k) =>
      var ds := t.disclosures[k := t.disclosures[k].(status := FinalStatus(gen))];
      match IndexOf(t.drafts, DraftDisclosure, id)
      case Some(j) => t.(disclosures := ds, drafts := t.drafts[j := Settle(t.drafts[j], gen, model)])
      case None => t.(disclosures := ds, drafts := t.drafts + [Settle(FreshDraft(t.nextId, id), gen, model)], nextId := t.nextId + 1)
  }

  /** The first commit: the disclosure at `k` in AI_PROCESSING. */
  function Marked(t: Tables, k: nat): Tables
    requires k < |t.disclosures|
  {
    t.(disclosures := t.disclosures[k := t.disclosures[k].(status := AiProcessing)])
  }

  /** Where the disclosure's draft is once the job has found or created it. */
  function PreparedIndex(t: Tables, id: int): (j: nat)
    ensures j <= |t.drafts|
  {
    match IndexOf(t.drafts, DraftDisclosure, id)
    case Some(j) => j
    case None => |t.drafts|
  }

  /** The second commit: the existing draft set to PROCESSING, or a new one inserted. */
  function Prepared(t: Tables, id: int): (r: Tables)
    ensures PreparedIndex(t, id) < |r.drafts| && r.drafts[PreparedIndex(t, id)].disclosureId == id
  {
    match IndexOf(t.drafts, DraftDisclosure, id)
    case Some(j) => t.(drafts := t.drafts[j := t.drafts[j].(status := Processing)])
    case None => t.(drafts := t.drafts + [FreshDraft(t.nextId, id)], nextId := t.nextId + 1)
  }

  /** The last commit: the generator's answer on the draft at `j` and the disclosure at `k`. */
  function Recorded(t: Tables, k: nat, j: nat, gen: Generation, model: string): Tables
    requires k < |t.disclosures| && j < |t.drafts|
  {
    t.(disclosures := t.disclosures[k := t.disclosures[k].(status := FinalStatus(gen))],
       drafts := t.drafts[j := Settle(t.drafts[j], gen, model)])
  }

  /** The three commits together leave the tables as `Processed` describes them. */
  lemma CommitsProcess(t: Tables, id: int, gen: Generation, model: string)
    requires IndexOf(t.disclosures, DisclosureId, id).Some?
    ensures
      var k := IndexOf(t.disclosures, DisclosureId, id).value;
      var m := Marked(t, k);
      Recorded(Prepared(m, id), k, PreparedIndex(m, id), gen, model) == Processed(t, id, gen, model)
  {
    var k := IndexOf(t.disclosures, DisclosureId, id).value;
    var m := Marked(t, k);
    assert m.drafts == t.drafts && m.nextId == t.nextId;
    var ds := t.disclosures[k := t.disclosures[k].(status := FinalStatus(gen))];
    assert Prepared(m, id).disclosures[k := t.disclosures[k].(status := FinalStatus(gen))] == ds;
    match IndexOf(t.drafts, DraftDisclosure, id)
    case Some(j) =>
      assert Settle(t.drafts[j].(status := Processing), gen, model) == Settle(t.drafts[j], gen, model);
    case None =>
  }

  /** `process_disclosure_async`, commit by commit: AI_PROCESSING, the draft found or
      created in PROCESSING, then the generator's answer recorded on both rows. */
  method ProcessDisclosure(db: Db, id: int, gen: Generation, model: string)
    requires db.Valid()
    modifies db
    ensures db.Valid()
    ensures db.Snapshot() == Processed(old(db.Snapshot()), id, gen, model)
  {
    var found := IndexOf(db.disclosures, DisclosureId, id);
    if found.None? {
      return;
    }
    var k := found.value;
    CommitsProcess(db.Snapshot(), id, gen, model);
    MarkProcessing(db, k);
    var j := PrepareDraft(db, id);
    Record(db, k, j, gen, model);
  }

  method MarkProcessing(db: Db, k: nat)
    requires db.Valid() && k < |db.disclosures|
    modifies db
    ensures db.Valid()
    ensures db.Snapshot() == Marked(old(db.Snapshot()), k)
  {
    db.SetDisclosure(k, db.disclosures[k].(status := AiProcessing));
  }

  /** The draft the job works on, put in PROCESSING: the existing one of the disclosure,
      or a new row with the column defaults. */
  method PrepareDraft(db: Db, id: int) returns (j: nat)
    requires db.Valid()
    modifies db
    ensures db.Valid()
    ensures j == PreparedIndex(old(db.Snapshot()), id)
    ensures db.Snapshot() == Prepared(old(db.Snapshot()), id)
  {
    var existing := IndexOf(db.drafts, DraftDisclosure, id);
    if existing.None? {
      var d := db.AddDraft(FreshDraft(0, id));
      j := |db.drafts| - 1;
    } else {
      j := existing.value;
      db.SetDraft(j, db.drafts[j].(status := Processing));
    }
  }

  method Record(db: Db, k: nat, j: nat, gen: Generation, model: string)
    requires db.Valid() && k < |db.disclosures| && j < |db.drafts|
    modifies db
    ensures db.Valid()
    ensures db.Snapshot() == Recorded(old(db.Snapshot()), k, j, gen, model)
  {
    db.SetDraft(j, Settle(db.drafts[j], gen, model));
    db.SetDisclosure(k, db.disclosures[k].(status := FinalStatus(gen)));
  }

  /** What the job leaves behind: with no such disclosure nothing; otherwise the
      disclosure is READY_FOR_REVIEW or DRAFT (never left in AI_PROCESSING), a draft of
      that disclosure carries the generator's answer, and no other disclosure, no
      version, comment, message, session, file or user changes. */
  lemma ProcessedEffect(t: Tables, id: int, gen: Generation, model: string)
    ensures IndexOf(t.disclosures, DisclosureId, id).None? ==> Processed(t, id, gen, model) == t
    ensures IndexOf(t.disclosures, DisclosureId, id).Some? ==>
      var k := IndexOf(t.disclosures, DisclosureId, id).value;
      var p := Processed(t, id, gen, model);
      |p.disclosures| == |t.disclosures|
      && p.disclosures[k] == t.disclosures[k].(status := FinalStatus(gen))
      && p.disclosures[k].status != AiProcessing
      && (forall i :: 0 <= i < |t.disclosures| && i != k ==> p.disclosures[i] == t.disclosures[i])
      && (exists j :: 0 <= j < |p.drafts| && p.drafts[j].disclosureId == id && SettledBy(p.drafts[j], gen, model))
      && p.(disclosures := t.disclosures, drafts := t.drafts, nextId := t.nextId) == t
  {
    var p := Processed(t, id, gen, model);
    if IndexOf(t.disclosures, DisclosureId, id).Some? {
      match IndexOf(t.drafts, DraftDisclosure, id)
      case Some(j) =>
        assert p.drafts[j].disclosureId == id && SettledBy(p.drafts[j], gen, model);
      case None =>
        var j := |t.drafts|;
        assert p.drafts[j].disclosureId == id && SettledBy(p.drafts[j], gen, model);
    }
  }

  /** The job keeps one draft per disclosure: it reuses the existing draft rather than
      adding a second one. */
  lemma ProcessedReusesDraft(t: Tables, id: int, gen: Generation, model: string)
    requires IndexOf(t.disclosures, DisclosureId, id).Some? && IndexOf(t.drafts, DraftDisclosure, id).Some?
    ensures |Processed(t, id, gen, model).drafts| == |t.drafts|
    ensures Processed(t, id, gen, model).nextId == t.nextId
  {
  }
}
