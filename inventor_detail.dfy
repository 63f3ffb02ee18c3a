/** The inventor's disclosure page (frontend/src/pages/inventor/DisclosureDetail.tsx):
    selecting text of the draft to comment on it, adding that comment, and the chat with
    the attorney, which posts plain comments. The page shows the draft `PatentTemplate`
    builds and formats chat times as `CommentThread.FormatTimestamp` does. Each request
    to the API is a parameter saying how it ends. */
module InventorDetail {
  import opened Wrappers
  import opened Strings

  /** How `commentService.createComment` ends: it succeeds, or it throws with an
      `err.response?.data?.detail` that may be missing. */
  datatype Response = Succeeded | Failed(detail: Option<string>)

  /** The alert shown when a request fails: the detail, or the fallback when it is
      missing or empty. */
  function FailureAlert(prefix: string, detail: Option<string>): (r: string)
    ensures detail.Some? && detail.value != [] ==> r == prefix + detail.value
    ensures detail.None? || detail.value == [] ==> r == prefix + "Unknown error"
  {
    prefix + (if detail.Some? && detail.value != [] then detail.value else "Unknown error")
  }

  const CommentFailure := "Failed to add comment: "
  const MessageFailure := "Failed to send message: "

  /** The quote put in front of a comment on selected text. */
  function QuotePrefix(selected: string): string {
    "[Comment on: \"" + selected + "\"]\n\n"
  }

  /** The content sent for a comment: quoted selection first when there is one. */
  function FullComment(selected: string, content: string): (r: string)
    ensures selected == [] ==> r == content
    ensures selected != [] ==> r == QuotePrefix(selected) + content
  {
    if selected != [] then QuotePrefix(selected) + content else content
  }

  /** The comment typed is always the tail of what is sent, and with a selection the
      selection is quoted at its head: the backend receives both in one text. */
  lemma FullCommentParts(selected: string, content: string)
    ensures EndsWith(FullComment(selected, content), content)
    ensures selected != [] ==> StartsWith(FullComment(selected, content), "[Comment on: \"" + selected + "\"]")
    ensures |FullComment(selected, content)| == |content| + (if selected == [] then 0 else |selected| + 18)
  {
    var r := FullComment(selected, content);
    if selected != [] {
      var q := "[Comment on: \"" + selected + "\"]";
      assert QuotePrefix(selected) == q + "\n\n";
      assert r == q + ("\n\n" + content);
      assert r[|r| - |content|..] == content;
    } else {
      assert r[|r| - |content|..] == content;
    }
  }

  /** Two comments on the same selection that are sent the same were typed the same. */
  lemma FullCommentInjective(selected: string, c1: string, c2: string)
    requires FullComment(selected, c1) == FullComment(selected, c2)
    ensures c1 == c2
  {
    var n := if selected == [] then 0 else |QuotePrefix(selected)|;
    assert c1 == FullComment(selected, c1)[n..];
  }

  class InventorPage {
    var selectedText: string
    var showCommentDialog: bool
    var commentContent: string
    var newMessage: string
    var isSendingMessage: bool

    constructor()
      ensures selectedText == [] && !showCommentDialog && commentContent == []
      ensures newMessage == [] && !isSendingMessage
    {
      selectedText := [];
      showCommentDialog := false;
      commentContent := [];
      newMessage := [];
      isSendingMessage := false;
    }

    /** `handleTextSelection`: a selection whose trimmed text is not empty is kept,
        trimmed, and opens the comment dialog; anything else (no selection, only
        whitespace) changes nothing. */
    method HandleTextSelection(selection: Option<string>)
      modifies this
      ensures selection.Some? && JsTrim(selection.value) != [] ==>
        selectedText == JsTrim(selection.value) && showCommentDialog
      ensures selection.None? || JsTrim(selection.value) == [] ==>
        selectedText == old(selectedText) && showCommentDialog == old(showCommentDialog)
      ensures commentContent == old(commentContent) && newMessage == old(newMessage)
      ensures isSendingMessage == old(isSendingMessage)
    {
      if selection.Some? {
        var text := JsTrim(selection.value);
        if |text| > 0 {
          selectedText := text;
          showCommentDialog := true;
        }
      }
    }

    /** `handleAddComment`: nothing without an id or with a blank comment. Otherwise the
        comment, quoting the selection when there is one, is sent; on success the comment,
        the selection and the dialog are reset, on failure everything stays and an alert
        says why. */
    method HandleAddComment(hasId: bool, response: Response) returns (sent: Option<string>, alert: Option<string>)
      modifies this
      ensures IsBlank(old(commentContent)) || !hasId ==>
        sent.None? && alert.None? && commentContent == old(commentContent)
        && selectedText == old(selectedText) && showCommentDialog == old(showCommentDialog)
      ensures !IsBlank(old(commentContent)) && hasId ==>
        sent == Some(FullComment(old(selectedText), old(commentContent)))
      ensures !IsBlank(old(commentContent)) && hasId && response.Succeeded? ==>
        alert.None? && commentContent == [] && selectedText == [] && !showCommentDialog
      ensures !IsBlank(old(commentContent)) && hasId && response.Failed? ==>
        alert == Some(FailureAlert(CommentFailure, response.detail))
        && commentContent == old(commentContent) && selectedText == old(selectedText)
        && showCommentDialog == old(showCommentDialog)
      ensures newMessage == old(newMessage) && isSendingMessage == old(isSendingMessage)
    {
      if JsTrim(commentContent) == [] || !hasId {
        return None, None;
      }
      var fullComment := if selectedText != [] then QuotePrefix(selectedText) + commentContent else commentContent;
      sent := Some(fullComment);
      match response {
        case Succeeded =>
          commentContent := [];
          selectedText := [];
          showCommentDialog := false;
          alert := None;
        case Failed(detail) =>
          alert := Some(FailureAlert(CommentFailure, detail));
      }
    }

    /** `handleSendMessage`: nothing without an id or with a blank message. Otherwise the
        message is sent as typed while the page shows it is sending; the input is cleared
        only on success, and the page is no longer sending in either case. */
    method HandleSendMessage(hasId: bool, response: Response)
      returns (sent: Option<string>, alert: Option<string>, sendingDuringCall: bool)
      modifies this
      ensures IsBlank(old(newMessage)) || !hasId ==>
        sent.None? && alert.None? && newMessage == old(newMessage) && isSendingMessage == old(isSendingMessage)
      ensures !IsBlank(old(newMessage)) && hasId ==>
        sent == Some(old(newMessage)) && sendingDuringCall && !isSendingMessage
        && (response.Succeeded? ==> alert.None? && newMessage == [])
        && (response.Failed? ==> alert == Some(FailureAlert(MessageFailure, response.detail)) && newMessage == old(newMessage))
      ensures selectedText == old(selectedText) && showCommentDialog == old(showCommentDialog)
      ensures commentContent == old(commentContent)
    {
      if JsTrim(newMessage) == [] || !hasId {
        return None, None, false;
      }
      isSendingMessage := true;
      sent := Some(newMessage);
      sendingDuringCall := isSendingMessage;
      match response {
        case Succeeded =>
          newMessage := [];
          alert := None;
        case Failed(detail) =>
          alert := Some(FailureAlert(MessageFailure, detail));
      }
      isSendingMessage := false;
    }
  }
}
