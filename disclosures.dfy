/** The disclosure endpoints of backend/app/api/v1/endpoints/disclosures.py over the
    in-memory tables. The authenticated user (the result of the token guard) is an
    argument; an endpoint guarded by a role checker checks the role first. Scheduling
    the background AI run is returned as a flag beside the response. */
module Disclosures {
  import opened Wrappers
  import opened Json
  import opened Domain
  import opened Database
  import Dependencies
  import Ordering

  /** A response, and whether `process_disclosure_async` was added as a background task. */
  datatype WithTask<T> = WithTask(value: T, scheduled: bool)

  function OwnedBy(id: int): Disclosure -> bool {
    (d: Disclosure) => d.inventorId == id
  }

  function AssignedTo(id: int): Disclosure -> bool {
    (d: Disclosure) => d.assignedLawyerId == Some(id)
  }

  /** `list_disclosures`: one query per role. */
  function ListDisclosures(ds: seq<Disclosure>, u: User): seq<Disclosure> {
    match u.role
    case Inventor => Where(ds, OwnedBy(u.id))
    case Lawyer => Where(ds, AssignedTo(u.id))
    case Admin => ds
  }

  /** The list holds exactly the disclosures the access rule lets the user see, so
      listing and fetching one by one agree. */
  lemma ListedAreViewable(ds: seq<Disclosure>, u: User, d: Disclosure)
    ensures d in ListDisclosures(ds, u) <==> d in ds && MayView(u, d)
    ensures d in ListDisclosures(ds, u) <==> d in ds && CheckAccess(u, Some(d)).Ok?
  {
    match u.role
    case Inventor => WhereMembers(ds, OwnedBy(u.id), d);
    case Lawyer => WhereMembers(ds, AssignedTo(u.id), d);
    case Admin =>
  }

  /** What `DisclosureCreate` carries. */
  datatype DisclosureCreate = DisclosureCreate(title: string, content: map<string, Json>, assignedLawyerId: Option<int>)

  /** Python truthiness of an optional id: `None` and `0` are false. */
  predicate IdGiven(x: Option<int>) {
    x.Some? && x.value != 0
  }

  predicate IsLawyer(users: seq<User>, id: int) {
    exists u :: u in users && u.id == id && u.role == Lawyer
  }

  /** `query(User).filter(User.id == id, User.role == LAWYER).first()`. */
  function FindLawyer(users: seq<User>, id: int): (r: Option<User>)
    ensures r.Some? <==> IsLawyer(users, id)
    ensures r.Some? ==> r.value in users && r.value.id == id && r.value.role == Lawyer
  {
    match First(users, (u: User) => u.id == id && u.role == Lawyer)
    case None => None
    case Some(k) => Some(users[k])
  }

  /** IN_REVIEW exactly when a lawyer is given, DRAFT otherwise. */
  function InitialStatus(req: DisclosureCreate): (s: DisclosureStatus)
    ensures s == InReview <==> IdGiven(req.assignedLawyerId)
    ensures s != InReview ==> s == DisclosureStatus.Draft
  {
    if IdGiven(req.assignedLawyerId) then InReview else DisclosureStatus.Draft
  }

  /** `create_disclosure`: inventors and admins only; a given lawyer id must name a lawyer
      (400, nothing stored); the disclosure belongs to the caller, and version 1 snapshots
      its content. AI processing is scheduled exactly when the content is not empty. */
  method CreateDisclosure(db: Db, user: User, req: DisclosureCreate) returns (r: Outcome<WithTask<Disclosure>>)
    requires db.Valid()
    modifies db
    ensures db.Valid()
    ensures r.Fail? ==> db.Snapshot() == old(db.Snapshot())
    ensures user.role !in [Inventor, Admin] ==> r == Fail(Forbidden, Dependencies.Denied([Inventor, Admin], user))
    ensures user.role in [Inventor, Admin] && IdGiven(req.assignedLawyerId) && !IsLawyer(old(db.users), req.assignedLawyerId.value)
      ==> r == Fail(BadRequest, "Invalid lawyer ID or user is not a lawyer")
    ensures r.Ok? <==> (user.role in [Inventor, Admin]
                        && (IdGiven(req.assignedLawyerId) ==> IsLawyer(old(db.users), req.assignedLawyerId.value)))
    ensures r.Ok? ==>
      var d := r.value.value;
      d == Disclosure(old(db.nextId), req.title, InitialStatus(req), user.id, req.assignedLawyerId, req.content)
      && db.Snapshot() == old(db.Snapshot()).(
        disclosures := old(db.disclosures) + [d],
        versions := old(db.versions) + [Version(old(db.nextId) + 1, d.id, 1, req.content, user.id)],
        nextId := old(db.nextId) + 2)
      && r.value.scheduled == (req.content != map[])
  {
    var gate := Dependencies.RoleChecker([Inventor, Admin], user);
    if gate.Fail? {
      return Fail(gate.status, gate.detail);
    }
    if IdGiven(req.assignedLawyerId) && FindLawyer(db.users, req.assignedLawyerId.value).None? {
      return Fail(BadRequest, "Invalid lawyer ID or user is not a lawyer");
    }
    var d := StoreDisclosure(db, user.id, req);
    return Ok(WithTask(d, req.content != map[]));
  }

  /** The two inserts of `create_disclosure`: the disclosure, then its version 1. */
  method StoreDisclosure(db: Db, inventorId: int, req: DisclosureCreate) returns (d: Disclosure)
    requires db.Valid()
    modifies db
    ensures db.Valid()
    ensures d == Disclosure(old(db.nextId), req.title, InitialStatus(req), inventorId, req.assignedLawyerId, req.content)
    ensures db.Snapshot() == old(db.Snapshot()).(
      disclosures := old(db.disclosures) + [d],
      versions := old(db.versions) + [Version(old(db.nextId) + 1, d.id, 1, req.content, inventorId)],
      nextId := old(db.nextId) + 2)
  {
    ghost var t0 := db.Snapshot();
    d := db.AddDisclosure(Disclosure(0, req.title, InitialStatus(req), inventorId, req.assignedLawyerId, req.content));
    ghost var t1 := db.Snapshot();
    var v := db.AddVersion(Version(0, d.id, 1, req.content, inventorId));
    assert db.Snapshot() == t1.(versions := t1.versions + [v], nextId := t1.nextId + 1);
  }

  /** `get_disclosure`: 404 before 403, then the access rule. */
  function GetDisclosure(ds: seq<Disclosure>, u: User, id: int): (r: Outcome<Disclosure>)
    ensures (forall d :: d in ds ==> d.id != id) <==> r == Fail(NotFound, "Disclosure not found")
    ensures r.Ok? ==> r.value in ds && r.value.id == id && MayView(u, r.value)
    ensures r.Fail? && r.status != NotFound ==> r == Fail(Forbidden, "Access denied")
    ensures u.role == Admin && (exists d :: d in ds && d.id == id) ==> r.Ok?
  {
    CheckAccess(u, FindDisclosure(ds, id))
  }

  /** What `DisclosureUpdate` carries: absent fields are left alone. */
  datatype DisclosureUpdate = DisclosureUpdate(title: Option<string>, content: Option<map<string, Json>>)

  function Edited(d: Disclosure, req: DisclosureUpdate): (e: Disclosure)
    ensures e.title == (if req.title.Some? then req.title.value else d.title)
    ensures e.content == (if req.content.Some? then req.content.value else d.content)
    ensures e.(title := d.title, content := d.content) == d
  {
    d.(title := req.title.GetOr(d.title), content := req.content.GetOr(d.content))
  }

  /** `update_disclosure`: 404, then only an admin or the disclosure's inventor may edit
      (403). A new content adds the next version, with that content; a title-only edit
      adds none. AI processing is scheduled when the new content is not empty and the
      disclosure is not approved. */
  method UpdateDisclosure(db: Db, user: User, id: int, req: DisclosureUpdate) returns (r: Outcome<WithTask<Disclosure>>)
    requires db.Valid()
    modifies db
    ensures db.Valid()
    ensures r.Fail? ==> db.Snapshot() == old(db.Snapshot())
    ensures IndexOf(old(db.disclosures), DisclosureId, id).None? ==> r == Fail(NotFound, "Disclosure not found")
    ensures IndexOf(old(db.disclosures), DisclosureId, id).Some? ==>
      var d := old(db.disclosures)[IndexOf(old(db.disclosures), DisclosureId, id).value];
      (r.Ok? <==> user.role == Admin || d.inventorId == user.id)
      && (r.Fail? ==> r == Fail(Forbidden, "Only inventor can edit disclosure"))
    ensures r.Ok? ==>
      var k := IndexOf(old(db.disclosures), DisclosureId, id).value;
      var e := Edited(old(db.disclosures)[k], req);
      r.value == WithTask(e, req.content.Some? && req.content.value != map[] && e.status != Approved)
      && db.Snapshot() == (
        if req.content.Some? then
          old(db.Snapshot()).(
            disclosures := old(db.disclosures)[k := e],
            versions := old(db.versions)
              + [Version(old(db.nextId), id, NextVersion(old(db.versions), id), req.content.value, user.id)],
            nextId := old(db.nextId) + 1)
        else old(db.Snapshot()).(disclosures := old(db.disclosures)[k := e]))
  {
    var found := IndexOf(db.disclosures, DisclosureId, id);
    if found.None? {
      return Fail(NotFound, "Disclosure not found");
    }
    var k := found.value;
    var d := db.disclosures[k];
    if user.role != Admin && d.inventorId != user.id {
      return Fail(Forbidden, "Only inventor can edit disclosure");
    }
    var e := Edited(d, req);
    db.SetDisclosure(k, e);
    if req.content.Some? {
      var v := db.AddVersion(Version(0, id, NextVersion(db.versions, id), req.content.value, user.id));
    }
    return Ok(WithTask(e, req.content.Some? && req.content.value != map[] && e.status != Approved));
  }

  /** `update_disclosure_status`: lawyers and admins set any status; no transition is
      checked, and the lawyer need not be the assigned one. */
  method UpdateDisclosureStatus(db: Db, user: User, id: int, status: DisclosureStatus) returns (r: Outcome<Disclosure>)
    requires db.Valid()
    modifies db
    ensures db.Valid()
    ensures r.Fail? ==> db.Snapshot() == old(db.Snapshot())
    ensures user.role !in [Lawyer, Admin] ==> r == Fail(Forbidden, Dependencies.Denied([Lawyer, Admin], user))
    ensures user.role in [Lawyer, Admin] && IndexOf(old(db.disclosures), DisclosureId, id).None?
      ==> r == Fail(NotFound, "Disclosure not found")
    ensures r.Ok? <==> user.role in [Lawyer, Admin] && IndexOf(old(db.disclosures), DisclosureId, id).Some?
    ensures r.Ok? ==>
      var k := IndexOf(old(db.disclosures), DisclosureId, id).value;
      r.value == old(db.disclosures)[k].(status := status)
      && db.Snapshot() == old(db.Snapshot()).(disclosures := old(db.disclosures)[k := r.value])
  {
    var gate := Dependencies.RoleChecker([Lawyer, Admin], user);
    if gate.Fail? {
      return Fail(gate.status, gate.detail);
    }
    var found := IndexOf(db.disclosures, DisclosureId, id);
    if found.None? {
      return Fail(NotFound, "Disclosure not found");
    }
    var d := db.disclosures[found.value].(status := status);
    db.SetDisclosure(found.value, d);
    return Ok(d);
  }

  /** `assign_lawyer`: admins only; 404, then the id must name a lawyer (400); the
      disclosure gets the lawyer and goes to IN_REVIEW whatever its status was. */
  method AssignLawyer(db: Db, user: User, id: int, lawyerId: int) returns (r: Outcome<Disclosure>)
    requires db.Valid()
    modifies db
    ensures db.Valid()
    ensures r.Fail? ==> db.Snapshot() == old(db.Snapshot())
    ensures user.role != Admin ==> r == Fail(Forbidden, Dependencies.Denied([Admin], user))
    ensures user.role == Admin && IndexOf(old(db.disclosures), DisclosureId, id).None?
      ==> r == Fail(NotFound, "Disclosure not found")
    ensures user.role == Admin && IndexOf(old(db.disclosures), DisclosureId, id).Some? && !IsLawyer(old(db.users), lawyerId)
      ==> r == Fail(BadRequest, "Invalid lawyer ID")
    ensures r.Ok? <==> (user.role == Admin && IndexOf(old(db.disclosures), DisclosureId, id).Some?
                        && IsLawyer(old(db.users), lawyerId))
    ensures r.Ok? ==>
      var k := IndexOf(old(db.disclosures), DisclosureId, id).value;
      r.value == old(db.disclosures)[k].(assignedLawyerId := Some(lawyerId), status := InReview)
      && db.Snapshot() == old(db.Snapshot()).(disclosures := old(db.disclosures)[k := r.value])
  {
    var gate := Dependencies.RoleChecker([Admin], user);
    if gate.Fail? {
      return Fail(gate.status, gate.detail);
    }
    var found := IndexOf(db.disclosures, DisclosureId, id);
    if found.None? {
      return Fail(NotFound, "Disclosure not found");
    }
    if FindLawyer(db.users, lawyerId).None? {
      return Fail(BadRequest, "Invalid lawyer ID");
    }
    var d := db.disclosures[found.value].(assignedLawyerId := Some(lawyerId), status := InReview);
    db.SetDisclosure(found.value, d);
    return Ok(d);
  }

  function Descending(v: Version): int {
    -v.versionNumber
  }

  /** `get_disclosure_versions`: the access check, then the disclosure's versions, highest
      number first. */
  function GetDisclosureVersions(t: Tables, u: User, id: int): (r: Outcome<seq<Version>>)
    ensures r.Fail? <==> CheckAccess(u, FindDisclosure(t.disclosures, id)).Fail?
    ensures r.Fail? ==> r.status == CheckAccess(u, FindDisclosure(t.disclosures, id)).status
                        && r.detail == CheckAccess(u, FindDisclosure(t.disclosures, id)).detail
    ensures r.Ok? ==> Ordering.SortedBy(r.value, Descending)
    ensures r.Ok? ==> multiset(r.value) == multiset(Where(t.versions, VersionOf(id)))
  {
    match CheckAccess(u, FindDisclosure(t.disclosures, id))
    case Fail(status, detail) => Fail(status, detail)
    case Ok(_) =>
      Ordering.SortBySorted(Where(t.versions, VersionOf(id)), Descending);
      Ok(Ordering.SortBy(Where(t.versions, VersionOf(id)), Descending))
  }

  /** `delete_disclosure`: admins only; 404; then the cascade. */
  method DeleteDisclosure(db: Db, user: User, id: int) returns (r: Outcome<()>)
    requires db.Valid()
    modifies db
    ensures db.Valid()
    ensures r.Fail? ==> db.Snapshot() == old(db.Snapshot())
    ensures user.role != Admin ==> r == Fail(Forbidden, Dependencies.Denied([Admin], user))
    ensures user.role == Admin && IndexOf(old(db.disclosures), DisclosureId, id).None?
      ==> r == Fail(NotFound, "Disclosure not found")
    ensures r.Ok? <==> user.role == Admin && IndexOf(old(db.disclosures), DisclosureId, id).Some?
    ensures r.Ok? ==> db.Snapshot() == Cascade(old(db.Snapshot()), id)
  {
    var gate := Dependencies.RoleChecker([Admin], user);
    if gate.Fail? {
      return Fail(gate.status, gate.detail);
    }
    if IndexOf(db.disclosures, DisclosureId, id).None? {
      return Fail(NotFound, "Disclosure not found");
    }
    db.DeleteDisclosure(id);
    return Ok(());
  }
}
