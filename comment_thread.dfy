/** The comment popup (frontend/src/components/CommentThread.tsx): the replies shown under a
    comment, the reply form, and the relative timestamps, which the inventor's disclosure
    page (frontend/src/pages/inventor/DisclosureDetail.tsx) formats the same way. */
module CommentThread {
  import opened Wrappers
  import opened Strings
  import opened ClientTypes

  /** `allComments.filter((c) => c.parent_comment_id === comment.id)`. */
  function Replies(all: seq<Comment>, parent: Comment): (r: seq<Comment>)
    ensures |r| <= |all|
    ensures forall c :: c in r ==> c in all && c.parentCommentId == Some(parent.id)
  {
    if all == [] then []
    else (if all[0].parentCommentId == Some(parent.id) then [all[0]] else []) + Replies(all[1..], parent)
  }

  /** The replies are exactly the comments whose parent is the given one. */
  lemma {:induction false} RepliesMembers(all: seq<Comment>, parent: Comment, c: Comment)
    ensures c in Replies(all, parent) <==> c in all && c.parentCommentId == Some(parent.id)
  {
    if all != [] {
      RepliesMembers(all[1..], parent, c);
      assert all == [all[0]] + all[1..];
    }
  }

  /** The filter keeps the list order: the replies among two runs of comments are those of
      the first run, then those of the second. */
  lemma {:induction false} RepliesAppend(a: seq<Comment>, b: seq<Comment>, parent: Comment)
    ensures Replies(a + b, parent) == Replies(a, parent) + Replies(b, parent)
  {
    if a == [] {
      assert a + b == b;
    } else {
      assert (a + b)[0] == a[0] && (a + b)[1..] == a[1..] + b;
      RepliesAppend(a[1..], b, parent);
    }
  }

  /** How long ago a timestamp was, as `formatTimestamp` buckets it. */
  datatype Age = JustNow | MinutesAgo(minutes: int) | HoursAgo(hours: int) | OnDate

  const MsPerMinute := 60000

  /** With `m = Math.floor((now - then) / 60000)` (Dafny's division by a positive number
      rounds down, as `Math.floor` does): 'Just now' below one minute, which includes
      every timestamp in the future, minutes below an hour, whole hours below a day, then
      the date. */
  function AgeOf(nowMs: int, thenMs: int): (r: Age)
    ensures r == JustNow <==> nowMs - thenMs < MsPerMinute
    ensures r.MinutesAgo? ==> 1 <= r.minutes < 60
                              && r.minutes * MsPerMinute <= nowMs - thenMs < (r.minutes + 1) * MsPerMinute
    ensures r.HoursAgo? ==> 1 <= r.hours <= 23
                            && r.hours * 60 * MsPerMinute <= nowMs - thenMs < (r.hours + 1) * 60 * MsPerMinute
    ensures r == OnDate <==> nowMs - thenMs >= 1440 * MsPerMinute
  {
    var minutes := (nowMs - thenMs) / MsPerMinute;
    if minutes < 1 then JustNow
    else if minutes < 60 then MinutesAgo(minutes)
    else if minutes < 1440 then HoursAgo(minutes / 60)
    else OnDate
  }

  /** The rendered text; `localeDate` is `date.toLocaleDateString()`, which depends on the
      browser's locale. */
  function FormatTimestamp(nowMs: int, thenMs: int, localeDate: string): (r: string)
    ensures AgeOf(nowMs, thenMs) == JustNow ==> r == "Just now"
    ensures AgeOf(nowMs, thenMs).MinutesAgo? ==> r == NatToString(AgeOf(nowMs, thenMs).minutes) + "m ago"
    ensures AgeOf(nowMs, thenMs).HoursAgo? ==> r == NatToString(AgeOf(nowMs, thenMs).hours) + "h ago"
    ensures AgeOf(nowMs, thenMs) == OnDate ==> r == localeDate
  {
    match AgeOf(nowMs, thenMs)
    case JustNow => "Just now"
    case MinutesAgo(m) => NatToString(m) + "m ago"
    case HoursAgo(h) => NatToString(h) + "h ago"
    case OnDate => localeDate
  }

  /** A later clock never makes a timestamp look newer: the bucket only moves on. */
  lemma AgeMonotone(now1: int, now2: int, thenMs: int)
    requires now1 <= now2
    ensures AgeOf(now1, thenMs) == OnDate ==> AgeOf(now2, thenMs) == OnDate
    ensures AgeOf(now2, thenMs) == JustNow ==> AgeOf(now1, thenMs) == JustNow
    ensures AgeOf(now1, thenMs).MinutesAgo? && AgeOf(now2, thenMs).MinutesAgo? ==>
      AgeOf(now1, thenMs).minutes <= AgeOf(now2, thenMs).minutes
  {
  }

  /** The reply form of one comment thread. */
  class ReplyBox {
    const commentId: int
    var replyContent: string
    var isSubmitting: bool

    constructor(commentId: int)
      ensures this.commentId == commentId && replyContent == [] && !isSubmitting
    {
      this.commentId := commentId;
      replyContent := [];
      isSubmitting := false;
    }

    /** `handleSubmitReply`: nothing for a blank reply; otherwise `onReply` gets the
        comment id and the reply as typed, the box is cleared only when it succeeds, and
        the form is no longer submitting in either case. The second result says whether
        the form was marked submitting while `onReply` ran. */
    method SubmitReply(succeeds: bool) returns (sent: Option<(int, string)>, submittingDuringCall: bool)
      modifies this
      ensures IsBlank(old(replyContent)) ==>
        sent.None? && replyContent == old(replyContent) && isSubmitting == old(isSubmitting)
      ensures !IsBlank(old(replyContent)) ==>
        sent == Some((commentId, old(replyContent))) && submittingDuringCall && !isSubmitting
        && replyContent == (if succeeds then [] else old(replyContent))
    {
      if JsTrim(replyContent) == [] {
        return None, false;
      }
      isSubmitting := true;
      sent := Some((commentId, replyContent));
      submittingDuringCall := isSubmitting;
      if succeeds {
        replyContent := [];
      }
      isSubmitting := false;
    }
  }
}
