/** The comment endpoints of backend/app/api/v1/endpoints/comments.py: list a disclosure's
    comments with their authors, add one, and edit or delete one's own. */
module Comments {
  import opened Wrappers
  import opened Domain
  import opened Database
  import Ordering

  function OnDisclosure(id: int): CommentRow -> bool {
    (c: CommentRow) => c.disclosureId == id
  }

  function CreatedAt(c: CommentRow): int {
    c.createdAt
  }

  /** `order_by(Comment.created_at.asc())` on the disclosure's comments. SQL leaves the
      order of equal timestamps open; the model keeps them in table order. */
  function Thread(cs: seq<CommentRow>, id: int): (r: seq<CommentRow>)
    ensures Ordering.SortedBy(r, CreatedAt)
    ensures multiset(r) == multiset(Where(cs, OnDisclosure(id)))
    ensures |r| == |Where(cs, OnDisclosure(id))|
  {
    Ordering.SortBySorted(Where(cs, OnDisclosure(id)), CreatedAt);
    Ordering.SortBy(Where(cs, OnDisclosure(id)), CreatedAt)
  }

  /** The listing holds exactly the disclosure's comments. */
  lemma ThreadMembers(cs: seq<CommentRow>, id: int, c: CommentRow)
    ensures c in Thread(cs, id) <==> c in cs && c.disclosureId == id
  {
    WhereMembers(cs, OnDisclosure(id), c);
    assert c in Thread(cs, id) <==> c in multiset(Thread(cs, id));
    assert c in Where(cs, OnDisclosure(id)) <==> c in multiset(Where(cs, OnDisclosure(id)));
  }

  /** `CommentResponse` with the author's name and role filled in. */
  datatype CommentView = CommentView(row: CommentRow, authorName: Option<string>, authorRole: Option<string>)

  /** The enrichment of one comment: the author's `full_name` and `role.value`, or `None`
      for both when no user has the author id. */
  function WithAuthor(c: CommentRow, users: seq<User>): (v: CommentView)
    ensures v.row == c
    ensures FindUser(users, c.authorId).None? ==> v.authorName.None? && v.authorRole.None?
    ensures FindUser(users, c.authorId).Some? ==>
      v.authorName == FindUser(users, c.authorId).value.fullName
      && v.authorRole == Some(RoleValue(FindUser(users, c.authorId).value.role))
  {
    match FindUser(users, c.authorId)
    case None => CommentView(c, None, None)
    case Some(a) => CommentView(c, a.fullName, Some(RoleValue(a.role)))
  }

  /** `get_comments`: 404 before 403, then the comments oldest first, each with its
      author, built up one by one as the endpoint's loop does. Nothing is written. */
  method GetComments(db: Db, user: User, id: int) returns (r: Outcome<seq<CommentView>>)
    ensures r.Fail? <==> CheckAccess(user, FindDisclosure(db.disclosures, id)).Fail?
    ensures r.Fail? ==> r.status == CheckAccess(user, FindDisclosure(db.disclosures, id)).status
                        && r.detail == CheckAccess(user, FindDisclosure(db.disclosures, id)).detail
    ensures r.Ok? ==> |r.value| == |Thread(db.comments, id)|
    ensures r.Ok? ==> forall i :: 0 <= i < |r.value| ==> r.value[i] == WithAuthor(Thread(db.comments, id)[i], db.users)
    ensures r.Ok? ==> forall i, j :: 0 <= i < j < |r.value| ==> r.value[i].row.createdAt <= r.value[j].row.createdAt
  {
    var access := CheckAccess(user, FindDisclosure(db.disclosures, id));
    if access.Fail? {
      return access.Forward();
    }
    var rows := Thread(db.comments, id);
    var result: seq<CommentView> := [];
    var i := 0;
    while i < |rows|
      invariant 0 <= i <= |rows|
      invariant |result| == i
      invariant forall j :: 0 <= j < i ==> result[j] == WithAuthor(rows[j], db.users)
    {
      result := result + [WithAuthor(rows[i], db.users)];
      i := i + 1;
    }
    assert forall a, b :: 0 <= a < b < |rows| ==> CreatedAt(rows[a]) <= CreatedAt(rows[b]);
    return Ok(result);
  }

  /** What a new comment carries: its text, its parent and the highlighted selection. */
  datatype CommentCreate = CommentCreate(
    content: string,
    parentCommentId: Option<int>,
    selectedText: Option<string>,
    selectionStart: Option<int>,
    selectionEnd: Option<int>)

  /** `create_comment`: the access check, then a row authored by the caller, the other
      fields stored as given (no check that the parent exists or that the selection is
      a range of the text); the timestamp is the database clock, an input here. */
  method CreateComment(db: Db, user: User, id: int, req: CommentCreate, now: int) returns (r: Outcome<CommentView>)
    requires db.Valid()
    modifies db
    ensures db.Valid()
    ensures r.Fail? <==> CheckAccess(user, FindDisclosure(old(db.disclosures), id)).Fail?
    ensures r.Fail? ==> (db.Snapshot() == old(db.Snapshot())
                         && r.status == CheckAccess(user, FindDisclosure(old(db.disclosures), id)).status
                         && r.detail == CheckAccess(user, FindDisclosure(old(db.disclosures), id)).detail)
    ensures r.Ok? ==>
      var row := CommentRow(old(db.nextId), id, user.id, req.content, req.parentCommentId,
                            req.selectedText, req.selectionStart, req.selectionEnd, now);
      r.value == CommentView(row, user.fullName, Some(RoleValue(user.role)))
      && db.Snapshot() == old(db.Snapshot()).(comments := old(db.comments) + [row], nextId := old(db.nextId) + 1)
  {
    var access := CheckAccess(user, FindDisclosure(db.disclosures, id));
    if access.Fail? {
      return access.Forward();
    }
    var c := db.AddComment(CommentRow(0, id, user.id, req.content, req.parentCommentId,
                                      req.selectedText, req.selectionStart, req.selectionEnd, now));
    return Ok(CommentView(c, user.fullName, Some(RoleValue(user.role))));
  }

  /** A newly added comment shows up in its disclosure's listing. */
  lemma CreatedIsListed(cs: seq<CommentRow>, row: CommentRow)
    ensures row in Thread(cs + [row], row.disclosureId)
  {
    ThreadMembers(cs + [row], row.disclosureId, row);
  }

  /** Who may edit or delete a comment: its author, or an admin. */
  predicate MayChange(u: User, c: CommentRow) {
    c.authorId == u.id || u.role == Admin
  }

  /** `update_comment`: 404, then author or admin (403); only the text changes. The
      response carries no author fields. */
  method UpdateComment(db: Db, user: User, commentId: int, content: string) returns (r: Outcome<CommentView>)
    requires db.Valid()
    modifies db
    ensures db.Valid()
    ensures r.Fail? ==> db.Snapshot() == old(db.Snapshot())
    ensures IndexOf(old(db.comments), CommentId, commentId).None? ==> r == Fail(NotFound, "Comment not found")
    ensures IndexOf(old(db.comments), CommentId, commentId).Some? ==>
      var k := IndexOf(old(db.comments), CommentId, commentId).value;
      (r.Ok? <==> MayChange(user, old(db.comments)[k]))
      && (r.Fail? ==> r == Fail(Forbidden, "Can only edit your own comments"))
      && (r.Ok? ==>
        r.value == CommentView(old(db.comments)[k].(content := content), None, None)
        && db.Snapshot() == old(db.Snapshot()).(comments := old(db.comments)[k := r.value.row]))
  {
    var found := IndexOf(db.comments, CommentId, commentId);
    if found.None? {
      return Fail(NotFound, "Comment not found");
    }
    var k := found.value;
    if db.comments[k].authorId != user.id && user.role != Admin {
      return Fail(Forbidden, "Can only edit your own comments");
    }
    var c := db.comments[k].(content := content);
    db.SetComment(k, c);
    return Ok(CommentView(c, None, None));
  }

  /** `delete_comment`: 404, then author or admin (403); the row goes and its replies
      lose their parent. */
  method DeleteComment(db: Db, user: User, commentId: int) returns (r: Outcome<()>)
    requires db.Valid()
    modifies db
    ensures db.Valid()
    ensures r.Fail? ==> db.Snapshot() == old(db.Snapshot())
    ensures IndexOf(old(db.comments), CommentId, commentId).None? ==> r == Fail(NotFound, "Comment not found")
    ensures IndexOf(old(db.comments), CommentId, commentId).Some? ==>
      var k := IndexOf(old(db.comments), CommentId, commentId).value;
      (r.Ok? <==> MayChange(user, old(db.comments)[k]))
      && (r.Fail? ==> r == Fail(Forbidden, "Can only delete your own comments"))
      && (r.Ok? ==> db.Snapshot() == old(db.Snapshot()).(comments := Remaining(old(db.comments), commentId)))
  {
    var found := IndexOf(db.comments, CommentId, commentId);
    if found.None? {
      return Fail(NotFound, "Comment not found");
    }
    if db.comments[found.value].authorId != user.id && user.role != Admin {
      return Fail(Forbidden, "Can only delete your own comments");
    }
    db.DeleteComment(commentId);
    return Ok(());
  }

  /** The comments table after a delete. */
  function Remaining(cs: seq<CommentRow>, gone: int): seq<CommentRow> {
    Orphan(Where(cs, Except(CommentId, gone)), gone)
  }

  /** After a delete no row has the deleted id and no reply points to it. */
  lemma RemainingGone(cs: seq<CommentRow>, gone: int, c: CommentRow)
    requires c in Remaining(cs, gone)
    ensures c.id != gone && c.parentCommentId != Some(gone)
  {
    var kept := Where(cs, Except(CommentId, gone));
    var rest := Orphan(kept, gone);
    var i :| 0 <= i < |rest| && rest[i] == c;
    assert kept[i] in kept;
    WhereMembers(cs, Except(CommentId, gone), kept[i]);
    assert Except(CommentId, gone)(kept[i]);
    assert CommentId(kept[i]) != gone;
  }

  /** Every other comment survives a delete, its parent link cleared exactly when it was
      a reply to the deleted one. */
  lemma RemainingKeeps(cs: seq<CommentRow>, gone: int, c: CommentRow)
    requires c in cs && c.id != gone
    ensures (if c.parentCommentId == Some(gone) then c.(parentCommentId := None) else c) in Remaining(cs, gone)
  {
    var kept := Where(cs, Except(CommentId, gone));
    WhereMembers(cs, Except(CommentId, gone), c);
    var i :| 0 <= i < |kept| && kept[i] == c;
    var rest := Orphan(kept, gone);
    assert rest[i] == (if c.parentCommentId == Some(gone) then c.(parentCommentId := None) else c);
  }
}
