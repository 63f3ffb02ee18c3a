/** The database session the endpoints work through: one table per model, each a
    sequence of rows in insertion order, and one id allocator for the primary keys.
    `query(...).filter(...).first()` is `First`, `.all()` is `Where`, `order_by` is the
    stable sort of `Ordering`. */
module Database {
  import opened Wrappers
  import opened Json
  import opened Domain

  /** Index of the first element satisfying `p`. */
  function First<T>(s: seq<T>, p: T -> bool): (r: Option<nat>)
    ensures r.Some? ==> r.value < |s| && p(s[r.value])
    ensures r.Some? ==> forall j :: 0 <= j < r.value ==> !p(s[j])
    ensures r.None? ==> forall j :: 0 <= j < |s| ==> !p(s[j])
  {
    if s == [] then None
    else if p(s[0]) then Some(0)
    else match First(s[1..], p)
      case None => None
      case Some(k) => Some(k + 1)
  }

  /** The elements satisfying `p`, in order. */
  function Where<T>(s: seq<T>, p: T -> bool): (r: seq<T>)
    ensures |r| <= |s|
  {
    if s == [] then [] else (if p(s[0]) then [s[0]] else []) + Where(s[1..], p)
  }

  /** `Where` keeps exactly the elements satisfying `p`. */
  lemma {:induction false} WhereMembers<T>(s: seq<T>, p: T -> bool, x: T)
    ensures x in Where(s, p) <==> x in s && p(x)
  {
    if s != [] {
      WhereMembers(s[1..], p, x);
      assert s == [s[0]] + s[1..];
    }
  }

  lemma {:induction false} WhereAppend<T>(a: seq<T>, b: seq<T>, p: T -> bool)
    ensures Where(a + b, p) == Where(a, p) + Where(b, p)
  {
    if a == [] {
      assert a + b == b;
    } else {
      var head := if p(a[0]) then [a[0]] else [];
      calc {
        Where(a + b, p);
        { assert (a + b)[0] == a[0] && (a + b)[1..] == a[1..] + b; }
        head + Where(a[1..] + b, p);
        { WhereAppend(a[1..], b, p); }
        head + (Where(a[1..], p) + Where(b, p));
        (head + Where(a[1..], p)) + Where(b, p);
        Where(a, p) + Where(b, p);
      }
    }
  }

  /** The row with a given primary key, as `filter(Model.id == id).first()` returns it. */
  function FindUser(s: seq<User>, id: int): (r: Option<User>)
    ensures r.Some? ==> r.value in s && r.value.id == id
    ensures r.None? ==> forall u :: u in s ==> u.id != id
  {
    match First(s, (u: User) => u.id == id)
    case None => None
    case Some(k) => Some(s[k])
  }

  function FindDisclosure(s: seq<Disclosure>, id: int): (r: Option<Disclosure>)
    ensures r.Some? ==> r.value in s && r.value.id == id
    ensures r.None? ==> forall d :: d in s ==> d.id != id
  {
    match First(s, (d: Disclosure) => d.id == id)
    case None => None
    case Some(k) => Some(s[k])
  }

  function UserId(u: User): int { u.id }
  function DisclosureId(d: Disclosure): int { d.id }
  function VersionId(v: Version): int { v.id }
  function DraftId(d: Draft): int { d.id }
  function CommentId(c: CommentRow): int { c.id }
  function MessageId(m: MessageRow): int { m.id }
  function SessionId(s: SessionRow): int { s.id }
  function FileId(f: FileRow): int { f.id }

  /** Every key is below `bound`: the allocator never hands out a key again. */
  predicate KeysBelow<T>(s: seq<T>, key: T -> int, bound: int) {
    forall i :: 0 <= i < |s| ==> key(s[i]) < bound
  }

  /** The version numbers of one disclosure, in insertion order. */
  function VersionNumbers(vs: seq<Version>, did: int): seq<int> {
    if vs == [] then []
    else (if vs[0].disclosureId == did then [vs[0].versionNumber] else []) + VersionNumbers(vs[1..], did)
  }

  /** `1, 2, …, n`. */
  function Upto(n: nat): (r: seq<int>)
    ensures |r| == n
    ensures forall i :: 0 <= i < n ==> r[i] == i + 1
  {
    if n == 0 then [] else Upto(n - 1) + [n]
  }

  /** Each disclosure's versions are numbered 1, 2, … in the order they were written. */
  ghost predicate VersionsConsecutive(vs: seq<Version>) {
    forall did :: VersionNumbers(vs, did) == Upto(|VersionNumbers(vs, did)|)
  }

  /** The highest version number of a disclosure, as `order_by(version_number.desc()).first()`
      finds it. */
  function LatestVersion(vs: seq<Version>, did: int): (r: Option<int>)
    ensures r.None? <==> VersionNumbers(vs, did) == []
    ensures r.Some? ==> r.value in VersionNumbers(vs, did)
    ensures r.Some? ==> forall n :: n in VersionNumbers(vs, did) ==> n <= r.value
  {
    if vs == [] then None
    else
      var rest := LatestVersion(vs[1..], did);
      if vs[0].disclosureId != did then rest
      else match rest
        case None => Some(vs[0].versionNumber)
        case Some(m) => Some(if vs[0].versionNumber >= m then vs[0].versionNumber else m)
  }

  /** The number a new version gets: the latest plus one, or 1 when there is none. */
  function NextVersion(vs: seq<Version>, did: int): int {
    match LatestVersion(vs, did)
    case None => 1
    case Some(m) => m + 1
  }

  lemma {:induction false} VersionNumbersAppend(vs: seq<Version>, v: Version, did: int)
    ensures VersionNumbers(vs + [v], did)
      == VersionNumbers(vs, did) + (if v.disclosureId == did then [v.versionNumber] else [])
  {
    if vs == [] {
      assert vs + [v] == [v];
    } else {
      VersionNumbersAppend(vs[1..], v, did);
      assert (vs + [v])[0] == vs[0] && (vs + [v])[1..] == vs[1..] + [v];
    }
  }

  /** With consecutive numbering, the next version of a disclosure with `n` versions is `n + 1`. */
  lemma NextIsCount(vs: seq<Version>, did: int)
    requires VersionNumbers(vs, did) == Upto(|VersionNumbers(vs, did)|)
    ensures NextVersion(vs, did) == |VersionNumbers(vs, did)| + 1
  {
    var ns := VersionNumbers(vs, did);
    if ns != [] {
      var m := LatestVersion(vs, did).value;
      assert ns[|ns| - 1] == |ns| && ns[|ns| - 1] in ns;
      var k :| 0 <= k < |ns| && ns[k] == m;
    }
  }

  /** Appending the next version of one disclosure keeps every disclosure's numbering consecutive. */
  lemma AppendNextKeepsConsecutive(vs: seq<Version>, v: Version)
    requires VersionsConsecutive(vs)
    requires v.versionNumber == NextVersion(vs, v.disclosureId)
    ensures VersionsConsecutive(vs + [v])
  {
    forall did ensures VersionNumbers(vs + [v], did) == Upto(|VersionNumbers(vs + [v], did)|) {
      VersionNumbersAppend(vs, v, did);
      if v.disclosureId == did {
        NextIsCount(vs, did);
      }
    }
  }

  /** A table's rows of one disclosure, as `filter(Model.disclosure_id == id).all()` lists them;
      the same filter with `!=` is what a cascading delete leaves. */
  function VersionOf(did: int): Version -> bool {
    (v: Version) => v.disclosureId == did
  }

  function VersionNotOf(did: int): Version -> bool {
    (v: Version) => v.disclosureId != did
  }

  lemma {:induction false} NumbersAfterDelete(vs: seq<Version>, gone: int, did: int)
    requires did != gone
    ensures VersionNumbers(Where(vs, VersionNotOf(gone)), did) == VersionNumbers(vs, did)
    ensures VersionNumbers(Where(vs, VersionNotOf(gone)), gone) == []
  {
    if vs != [] {
      NumbersAfterDelete(vs[1..], gone, did);
      var p := VersionNotOf(gone);
      var head := if p(vs[0]) then [vs[0]] else [];
      assert Where(vs, p) == head + Where(vs[1..], p);
      assert VersionNumbers(head + Where(vs[1..], p), did)
        == VersionNumbers(head, did) + VersionNumbers(Where(vs[1..], p), did) by {
        VersionNumbersConcat(head, Where(vs[1..], p), did);
      }
      assert VersionNumbers(head + Where(vs[1..], p), gone)
        == VersionNumbers(head, gone) + VersionNumbers(Where(vs[1..], p), gone) by {
        VersionNumbersConcat(head, Where(vs[1..], p), gone);
      }
    }
  }

  lemma {:induction false} VersionNumbersConcat(a: seq<Version>, b: seq<Version>, did: int)
    ensures VersionNumbers(a + b, did) == VersionNumbers(a, did) + VersionNumbers(b, did)
  {
    if a == [] {
      assert a + b == b;
    } else {
      VersionNumbersConcat(a[1..], b, did);
      assert (a + b)[0] == a[0] && (a + b)[1..] == a[1..] + b;
    }
  }

  /** Removing every version of one disclosure keeps the others' numbering consecutive. */
  lemma DeleteKeepsConsecutive(vs: seq<Version>, gone: int)
    requires VersionsConsecutive(vs)
    ensures VersionsConsecutive(Where(vs, VersionNotOf(gone)))
  {
    var w := Where(vs, VersionNotOf(gone));
    forall did ensures VersionNumbers(w, did) == Upto(|VersionNumbers(w, did)|) {
      if did != gone {
        NumbersAfterDelete(vs, gone, did);
      } else {
        NumbersAfterDelete(vs, gone, gone + 1);
      }
    }
  }

  /** A snapshot of every table. */
  datatype Tables = Tables(
    users: seq<User>,
    disclosures: seq<Disclosure>,
    versions: seq<Version>,
    drafts: seq<Draft>,
    comments: seq<CommentRow>,
    messages: seq<MessageRow>,
    sessions: seq<SessionRow>,
    files: seq<FileRow>,
    nextId: int)

  /** Every primary key (and every version's disclosure key) is below the next key to be
      handed out, versions are numbered consecutively per disclosure and `disclosure_id`
      is unique among drafts, as the column's `unique=True` demands. */
  ghost predicate ValidTables(t: Tables) {
    KeysBelow(t.users, UserId, t.nextId) && KeysBelow(t.disclosures, DisclosureId, t.nextId)
    && KeysBelow(t.versions, VersionId, t.nextId) && KeysBelow(t.drafts, DraftId, t.nextId)
    && KeysBelow(t.comments, CommentId, t.nextId) && KeysBelow(t.messages, MessageId, t.nextId)
    && KeysBelow(t.sessions, SessionId, t.nextId) && KeysBelow(t.files, FileId, t.nextId)
    && KeysBelow(t.versions, VersionDisclosure, t.nextId)
    && VersionsConsecutive(t.versions)
    && DraftsUnique(t.drafts)
  }

  function VersionDisclosure(v: Version): int { v.disclosureId }

  function DraftDisclosure(d: Draft): int { d.disclosureId }
  function CommentDisclosure(c: CommentRow): int { c.disclosureId }
  function MessageDisclosure(m: MessageRow): int { m.disclosureId }
  function SessionDisclosure(s: SessionRow): int { s.disclosureId }
  function FileDisclosure(f: FileRow): int { f.disclosureId }

  /** A disclosure has at most one draft. */
  predicate DraftsUnique(ds: seq<Draft>) {
    forall i, j :: 0 <= i < |ds| && 0 <= j < |ds| && ds[i].disclosureId == ds[j].disclosureId ==> i == j
  }

  /** The rows whose `key` differs from `k`: what deleting the rows with that key leaves. */
  function Except<T>(key: T -> int, k: int): T -> bool {
    (x: T) => key(x) != k
  }

  /** The index of the row with key `k`, as `filter(Model.id == k).first()` finds it. */
  function IndexOf<T>(s: seq<T>, key: T -> int, k: int): (r: Option<nat>)
    ensures r.Some? ==> r.value < |s| && key(s[r.value]) == k
    ensures r.Some? ==> forall j :: 0 <= j < r.value ==> key(s[j]) != k
    ensures r.None? ==> forall j :: 0 <= j < |s| ==> key(s[j]) != k
  {
    First(s, (x: T) => key(x) == k)
  }

  /** A row appended with a key no earlier row has is found at the end. */
  lemma IndexOfAppended<T>(s: seq<T>, key: T -> int, k: int, x: T)
    requires IndexOf(s, key, k).None? && key(x) == k
    ensures IndexOf(s + [x], key, k) == Some(|s|)
  {
    assert (s + [x])[|s|] == x;
    assert forall j :: 0 <= j < |s| ==> (s + [x])[j] == s[j];
  }

  /** A comment's replies lose their parent when it is deleted (the `replies` back
      reference nulls `parent_comment_id` rather than cascading). */
  function Orphan(cs: seq<CommentRow>, gone: int): (r: seq<CommentRow>)
    ensures |r| == |cs|
    ensures forall i :: 0 <= i < |r| ==>
      r[i] == (if cs[i].parentCommentId == Some(gone) then cs[i].(parentCommentId := None) else cs[i])
  {
    if cs == [] then []
    else
      var c := cs[0];
      [if c.parentCommentId == Some(gone) then c.(parentCommentId := None) else c] + Orphan(cs[1..], gone)
  }

  /** A disclosure's versions when its key is not yet handed out: none. */
  lemma {:induction false} NoVersionsOfFreshKey(vs: seq<Version>, bound: int)
    requires KeysBelow(vs, VersionDisclosure, bound)
    ensures VersionNumbers(vs, bound) == []
  {
    if vs != [] {
      NoVersionsOfFreshKey(vs[1..], bound);
    }
  }

  /** Handing out keys from a higher bound keeps every table valid. */
  lemma RaiseValid(t: Tables, n: int)
    requires ValidTables(t) && t.nextId <= n
    ensures ValidTables(t.(nextId := n))
  {
  }

  lemma {:induction false} DraftsUniqueWhere(ds: seq<Draft>, p: Draft -> bool)
    requires DraftsUnique(ds)
    ensures DraftsUnique(Where(ds, p))
  {
    if ds != [] {
      var rest := ds[1..];
      assert DraftsUnique(rest) by {
        forall i, j | 0 <= i < |rest| && 0 <= j < |rest| && rest[i].disclosureId == rest[j].disclosureId
          ensures i == j
        {
          assert ds[i + 1] == rest[i] && ds[j + 1] == rest[j];
        }
      }
      DraftsUniqueWhere(rest, p);
      if p(ds[0]) {
        forall x | x in Where(rest, p) ensures x.disclosureId != ds[0].disclosureId {
          WhereMembers(rest, p, x);
          var k :| 0 <= k < |rest| && rest[k] == x;
          assert ds[k + 1] == x;
        }
        ConsUnique(ds[0], Where(rest, p));
      }
    }
  }

  lemma ConsUnique(d: Draft, ds: seq<Draft>)
    requires DraftsUnique(ds) && forall x :: x in ds ==> x.disclosureId != d.disclosureId
    ensures DraftsUnique([d] + ds)
  {
    var r := [d] + ds;
    forall i, j | 0 <= i < |r| && 0 <= j < |r| && r[i].disclosureId == r[j].disclosureId ensures i == j {
      if i > 0 && j > 0 {
        assert r[i] == ds[i - 1] && r[j] == ds[j - 1];
      }
    }
  }

  /** The session: every table, updated in place by the endpoints. */
  class Db {
    var users: seq<User>
    var disclosures: seq<Disclosure>
    var versions: seq<Version>
    var drafts: seq<Draft>
    var comments: seq<CommentRow>
    var messages: seq<MessageRow>
    var sessions: seq<SessionRow>
    var files: seq<FileRow>
    var nextId: int

    function Snapshot(): Tables
      reads this
    {
      Tables(users, disclosures, versions, drafts, comments, messages, sessions, files, nextId)
    }

    /** Fresh keys stay fresh, every disclosure's versions are numbered 1, 2, …, and a
        disclosure has at most one draft. */
    ghost predicate Valid()
      reads this
    {
      ValidTables(Snapshot())
    }

    constructor (seedUsers: seq<User>, firstId: int)
      requires KeysBelow(seedUsers, UserId, firstId)
      ensures Valid()
      ensures Snapshot() == Tables(seedUsers, [], [], [], [], [], [], [], firstId)
    {
      users, disclosures, versions, drafts := seedUsers, [], [], [];
      comments, messages, sessions, files := [], [], [], [];
      nextId := firstId;
    }

    /** Replaces every table at once. */
    method Load(t: Tables)
      modifies this
      ensures Snapshot() == t
    {
      users, disclosures, versions, drafts := t.users, t.disclosures, t.versions, t.drafts;
      comments, messages, sessions, files := t.comments, t.messages, t.sessions, t.files;
      nextId := t.nextId;
    }

    /** `db.add(row)` then `commit`: the new disclosure gets the next key. */
    method AddDisclosure(d0: Disclosure) returns (d: Disclosure)
      requires Valid()
      modifies this
      ensures Valid()
      ensures d == d0.(id := old(nextId))
      ensures VersionNumbers(versions, d.id) == []
      ensures Snapshot() == old(Snapshot()).(disclosures := old(disclosures) + [d], nextId := old(nextId) + 1)
    {
      d := d0.(id := nextId);
      NoVersionsOfFreshKey(versions, nextId);
      RaiseValid(Snapshot(), nextId + 1);
      KeysAppend(disclosures, DisclosureId, nextId, d, nextId + 1);
      disclosures := disclosures + [d];
      nextId := nextId + 1;
    }

    /** Adds a version row; the caller numbers it after the disclosure's latest version. */
    method AddVersion(v0: Version) returns (v: Version)
      requires Valid() && v0.disclosureId < nextId
      requires v0.versionNumber == NextVersion(versions, v0.disclosureId)
      modifies this
      ensures Valid()
      ensures v == v0.(id := old(nextId))
      ensures Snapshot() == old(Snapshot()).(versions := old(versions) + [v], nextId := old(nextId) + 1)
    {
      v := v0.(id := nextId);
      RaiseValid(Snapshot(), nextId + 1);
      KeysAppend(versions, VersionId, nextId, v, nextId + 1);
      KeysAppend(versions, VersionDisclosure, nextId, v, nextId + 1);
      AppendNextKeepsConsecutive(versions, v);
      versions := versions + [v];
      nextId := nextId + 1;
    }

    /** Adds a draft for a disclosure that has none. */
    method AddDraft(d0: Draft) returns (d: Draft)
      requires Valid() && forall x :: x in drafts ==> x.disclosureId != d0.disclosureId
      modifies this
      ensures Valid()
      ensures d == d0.(id := old(nextId))
      ensures Snapshot() == old(Snapshot()).(drafts := old(drafts) + [d], nextId := old(nextId) + 1)
    {
      d := d0.(id := nextId);
      RaiseValid(Snapshot(), nextId + 1);
      KeysAppend(drafts, DraftId, nextId, d, nextId + 1);
      SnocUnique(drafts, d);
      drafts := drafts + [d];
      nextId := nextId + 1;
    }

    method AddComment(c0: CommentRow) returns (c: CommentRow)
      requires Valid()
      modifies this
      ensures Valid()
      ensures c == c0.(id := old(nextId))
      ensures Snapshot() == old(Snapshot()).(comments := old(comments) + [c], nextId := old(nextId) + 1)
    {
      c := c0.(id := nextId);
      RaiseValid(Snapshot(), nextId + 1);
      KeysAppend(comments, CommentId, nextId, c, nextId + 1);
      comments := comments + [c];
      nextId := nextId + 1;
    }

    method AddMessage(m0: MessageRow) returns (m: MessageRow)
      requires Valid()
      modifies this
      ensures Valid()
      ensures m == m0.(id := old(nextId))
      ensures Snapshot() == old(Snapshot()).(messages := old(messages) + [m], nextId := old(nextId) + 1)
    {
      m := m0.(id := nextId);
      RaiseValid(Snapshot(), nextId + 1);
      KeysAppend(messages, MessageId, nextId, m, nextId + 1);
      messages := messages + [m];
      nextId := nextId + 1;
    }

    method AddSession(s0: SessionRow) returns (s: SessionRow)
      requires Valid()
      modifies this
      ensures Valid()
      ensures s == s0.(id := old(nextId))
      ensures Snapshot() == old(Snapshot()).(sessions := old(sessions) + [s], nextId := old(nextId) + 1)
    {
      s := s0.(id := nextId);
      RaiseValid(Snapshot(), nextId + 1);
      KeysAppend(sessions, SessionId, nextId, s, nextId + 1);
      sessions := sessions + [s];
      nextId := nextId + 1;
    }

    method AddFile(f0: FileRow) returns (f: FileRow)
      requires Valid()
      modifies this
      ensures Valid()
      ensures f == f0.(id := old(nextId))
      ensures Snapshot() == old(Snapshot()).(files := old(files) + [f], nextId := old(nextId) + 1)
    {
      f := f0.(id := nextId);
      RaiseValid(Snapshot(), nextId + 1);
      KeysAppend(files, FileId, nextId, f, nextId + 1);
      files := files + [f];
      nextId := nextId + 1;
    }

    /** Writes back a changed disclosure row (same key). */
    method SetDisclosure(k: nat, d: Disclosure)
      requires Valid() && k < |disclosures| && d.id == disclosures[k].id
      modifies this`disclosures
      ensures Valid()
      ensures Snapshot() == old(Snapshot()).(disclosures := old(disclosures)[k := d])
    {
      KeysUpdate(disclosures, DisclosureId, nextId, k, d);
      disclosures := disclosures[k := d];
    }

    /** Writes back a changed draft row (same key, same disclosure). */
    method SetDraft(k: nat, d: Draft)
      requires Valid() && k < |drafts| && d.id == drafts[k].id && d.disclosureId == drafts[k].disclosureId
      modifies this`drafts
      ensures Valid()
      ensures Snapshot() == old(Snapshot()).(drafts := old(drafts)[k := d])
    {
      KeysUpdate(drafts, DraftId, nextId, k, d);
      DraftsUniqueUpdate(drafts, k, d);
      drafts := drafts[k := d];
    }

    method SetComment(k: nat, c: CommentRow)
      requires Valid() && k < |comments| && c.id == comments[k].id
      modifies this`comments
      ensures Valid()
      ensures Snapshot() == old(Snapshot()).(comments := old(comments)[k := c])
    {
      KeysUpdate(comments, CommentId, nextId, k, c);
      comments := comments[k := c];
    }

    method SetMessage(k: nat, m: MessageRow)
      requires Valid() && k < |messages| && m.id == messages[k].id
      modifies this`messages
      ensures Valid()
      ensures Snapshot() == old(Snapshot()).(messages := old(messages)[k := m])
    {
      KeysUpdate(messages, MessageId, nextId, k, m);
      messages := messages[k := m];
    }

    method SetSession(k: nat, s: SessionRow)
      requires Valid() && k < |sessions| && s.id == sessions[k].id
      modifies this`sessions
      ensures Valid()
      ensures Snapshot() == old(Snapshot()).(sessions := old(sessions)[k := s])
    {
      KeysUpdate(sessions, SessionId, nextId, k, s);
      sessions := sessions[k := s];
    }

    /** `db.delete(comment)`: the row goes and its replies lose their parent. */
    method DeleteComment(id: int)
      requires Valid()
      modifies this`comments
      ensures Valid()
      ensures Snapshot() == old(Snapshot()).(comments := Orphan(Where(old(comments), Except(CommentId, id)), id))
    {
      var kept := Where(comments, Except(CommentId, id));
      KeysWhere(comments, CommentId, nextId, Except(CommentId, id));
      KeysOrphan(kept, id, nextId);
      comments := Orphan(kept, id);
    }

    method DeleteSession(id: int)
      requires Valid()
      modifies this`sessions
      ensures Valid()
      ensures Snapshot() == old(Snapshot()).(sessions := Where(old(sessions), Except(SessionId, id)))
    {
      KeysWhere(sessions, SessionId, nextId, Except(SessionId, id));
      sessions := Where(sessions, Except(SessionId, id));
    }

    method DeleteFile(id: int)
      requires Valid()
      modifies this`files
      ensures Valid()
      ensures Snapshot() == old(Snapshot()).(files := Where(old(files), Except(FileId, id)))
    {
      KeysWhere(files, FileId, nextId, Except(FileId, id));
      files := Where(files, Except(FileId, id));
    }

    /** `db.delete(disclosure)`: the row goes, and with it, by the relationships'
        `delete-orphan` cascade, its versions, draft, files, comments, messages and
        video sessions. */
    method DeleteDisclosure(id: int)
      requires Valid()
      modifies this
      ensures Valid()
      ensures Snapshot() == Cascade(old(Snapshot()), id)
    {
      CascadeValid(Snapshot(), id);
      Load(Cascade(Snapshot(), id));
    }
  }

  /** The tables after deleting a disclosure and everything that hangs off it. */
  function Cascade(t: Tables, id: int): Tables {
    t.(disclosures := Where(t.disclosures, Except(DisclosureId, id)),
       versions := Where(t.versions, VersionNotOf(id)),
       drafts := Where(t.drafts, Except(DraftDisclosure, id)),
       files := Where(t.files, Except(FileDisclosure, id)),
       comments := Where(t.comments, Except(CommentDisclosure, id)),
       messages := Where(t.messages, Except(MessageDisclosure, id)),
       sessions := Where(t.sessions, Except(SessionDisclosure, id)))
  }

  /** After the cascade nothing refers to the deleted disclosure. */
  lemma CascadeRemovesAll(t: Tables, id: int)
    ensures forall d :: d in Cascade(t, id).disclosures ==> d.id != id
    ensures VersionNumbers(Cascade(t, id).versions, id) == []
    ensures forall x :: x in Cascade(t, id).drafts ==> x.disclosureId != id
    ensures forall x :: x in Cascade(t, id).files ==> x.disclosureId != id
    ensures forall x :: x in Cascade(t, id).comments ==> x.disclosureId != id
    ensures forall x :: x in Cascade(t, id).messages ==> x.disclosureId != id
    ensures forall x :: x in Cascade(t, id).sessions ==> x.disclosureId != id
  {
    var c := Cascade(t, id);
    forall d | d in c.disclosures ensures d.id != id { WhereMembers(t.disclosures, Except(DisclosureId, id), d); }
    NumbersAfterDelete(t.versions, id, id + 1);
    forall x | x in c.drafts ensures x.disclosureId != id { WhereMembers(t.drafts, Except(DraftDisclosure, id), x); }
    forall x | x in c.files ensures x.disclosureId != id { WhereMembers(t.files, Except(FileDisclosure, id), x); }
    forall x | x in c.comments ensures x.disclosureId != id { WhereMembers(t.comments, Except(CommentDisclosure, id), x); }
    forall x | x in c.messages ensures x.disclosureId != id { WhereMembers(t.messages, Except(MessageDisclosure, id), x); }
    forall x | x in c.sessions ensures x.disclosureId != id { WhereMembers(t.sessions, Except(SessionDisclosure, id), x); }
  }

  /** The rows of other disclosures are kept, in order. */
  lemma CascadeKeepsOthers(t: Tables, id: int, x: Disclosure)
    requires x in t.disclosures && x.id != id
    ensures x in Cascade(t, id).disclosures
  {
    WhereMembers(t.disclosures, Except(DisclosureId, id), x);
  }

  lemma CascadeValid(t: Tables, id: int)
    requires ValidTables(t)
    ensures ValidTables(Cascade(t, id))
  {
    var n := t.nextId;
    KeysWhere(t.disclosures, DisclosureId, n, Except(DisclosureId, id));
    KeysWhere(t.versions, VersionId, n, VersionNotOf(id));
    KeysWhere(t.versions, VersionDisclosure, n, VersionNotOf(id));
    DeleteKeepsConsecutive(t.versions, id);
    KeysWhere(t.drafts, DraftId, n, Except(DraftDisclosure, id));
    DraftsUniqueWhere(t.drafts, Except(DraftDisclosure, id));
    KeysWhere(t.files, FileId, n, Except(FileDisclosure, id));
    KeysWhere(t.comments, CommentId, n, Except(CommentDisclosure, id));
    KeysWhere(t.messages, MessageId, n, Except(MessageDisclosure, id));
    KeysWhere(t.sessions, SessionId, n, Except(SessionDisclosure, id));
  }

  lemma KeysOrphan(cs: seq<CommentRow>, gone: int, bound: int)
    requires KeysBelow(cs, CommentId, bound)
    ensures KeysBelow(Orphan(cs, gone), CommentId, bound)
  {
    var r := Orphan(cs, gone);
    forall i | 0 <= i < |r| ensures CommentId(r[i]) < bound {
      assert r[i].id == cs[i].id;
    }
  }

  lemma SnocUnique(ds: seq<Draft>, d: Draft)
    requires DraftsUnique(ds) && forall x :: x in ds ==> x.disclosureId != d.disclosureId
    ensures DraftsUnique(ds + [d])
  {
    var r := ds + [d];
    forall i, j | 0 <= i < |r| && 0 <= j < |r| && r[i].disclosureId == r[j].disclosureId ensures i == j {
      if i < |ds| && j < |ds| {
        assert r[i] == ds[i] && r[j] == ds[j];
      }
    }
  }

  lemma DraftsUniqueUpdate(ds: seq<Draft>, k: nat, d: Draft)
    requires DraftsUnique(ds) && k < |ds| && d.disclosureId == ds[k].disclosureId
    ensures DraftsUnique(ds[k := d])
  {
    var r := ds[k := d];
    forall i, j | 0 <= i < |r| && 0 <= j < |r| && r[i].disclosureId == r[j].disclosureId ensures i == j {
      assert r[i].disclosureId == ds[i].disclosureId && r[j].disclosureId == ds[j].disclosureId;
    }
  }

  lemma KeysAppend<T>(s: seq<T>, key: T -> int, bound: int, x: T, newBound: int)
    requires KeysBelow(s, key, bound) && key(x) < newBound && bound <= newBound
    ensures KeysBelow(s + [x], key, newBound)
  {
  }

  lemma KeysUpdate<T>(s: seq<T>, key: T -> int, bound: int, i: nat, x: T)
    requires KeysBelow(s, key, bound) && i < |s| && key(x) == key(s[i])
    ensures KeysBelow(s[i := x], key, bound)
  {
  }

  lemma KeysWhere<T>(s: seq<T>, key: T -> int, bound: int, p: T -> bool)
    requires KeysBelow(s, key, bound)
    ensures KeysBelow(Where(s, p), key, bound)
  {
    forall i | 0 <= i < |Where(s, p)| ensures key(Where(s, p)[i]) < bound {
      var x := Where(s, p)[i];
      WhereMembers(s, p, x);
      var k :| 0 <= k < |s| && s[k] == x;
    }
  }
}
