/** The comment highlighter of a disclosure's text (frontend/src/components/HighlightableText.tsx):
    the resolver from comment ranges to plain and highlighted segments, and the offset
    arithmetic of a text selection. */
module HighlightableText {
  import opened Wrappers
  import opened Strings
  import opened ClientTypes
  import Ordering

  /** One rendered span: its text, the comment it belongs to when highlighted, and the
      range `[start, end)` of the base text it was cut from. */
  datatype Segment = Segment(text: string, commentId: Option<int>, isHighlight: bool, start: int, end: int)

  function Clamp(i: int, n: nat): (r: nat)
    ensures r <= n
    ensures 0 <= i <= n ==> r == i
  {
    if i < 0 then 0 else if i > n then n else i
  }

  /** JavaScript `s.substring(a, b)`: both indices clamped to `[0, |s|]` and swapped when
      the first is the larger. */
  function Substring(s: string, a: int, b: int): (r: string)
    ensures |r| <= |s|
    ensures 0 <= a <= b <= |s| ==> r == s[a..b]
    ensures 0 <= b <= a <= |s| ==> r == s[b..a]
  {
    var lo := Clamp(a, |s|);
    var hi := Clamp(b, |s|);
    if lo <= hi then s[lo..hi] else s[hi..lo]
  }

  /** A top-level comment anchored to a range: a non-empty `selected_text`, both offsets
      present, and a `parent_comment_id` that is absent or 0 (the falsy values). */
  predicate IsHighlightComment(c: Comment) {
    c.selectedText.Some? && c.selectedText.value != []
    && c.selectionStart.Some? && c.selectionEnd.Some?
    && (c.parentCommentId.None? || c.parentCommentId.value == 0)
  }

  /** A comment that `!c.parent_comment_id` lets through. */
  predicate IsTopLevel(c: Comment) {
    c.parentCommentId.None? || c.parentCommentId.value == 0
  }

  function StartOf(c: Comment): int {
    c.selectionStart.GetOr(0)
  }

  function EndOf(c: Comment): int {
    c.selectionEnd.GetOr(0)
  }

  /** The comments that become highlights, in input order. */
  function HighlightComments(cs: seq<Comment>): (r: seq<Comment>)
    ensures |r| <= |cs|
    ensures forall c :: c in r <==> c in cs && IsHighlightComment(c)
  {
    if cs == [] then []
    else (if IsHighlightComment(cs[0]) then [cs[0]] else []) + HighlightComments(cs[1..])
  }

  /** The comments without their replies. */
  function TopLevel(cs: seq<Comment>): (r: seq<Comment>)
    ensures forall c :: c in r <==> c in cs && IsTopLevel(c)
  {
    if cs == [] then []
    else (if IsTopLevel(cs[0]) then [cs[0]] else []) + TopLevel(cs[1..])
  }

  /** The highlights in the order the loop visits them: ascending start offset, stable. */
  function SortedHighlights(cs: seq<Comment>): seq<Comment> {
    Ordering.SortBy(HighlightComments(cs), StartOf)
  }

  /** The segment a highlight comment produces. */
  function HighlightOf(text: string, c: Comment): Segment {
    Segment(Substring(text, StartOf(c), EndOf(c)), Some(c.id), true, StartOf(c), EndOf(c))
  }

  /** The plain segment between the cursor and a highlight's start, when the cursor is behind it. */
  function Gap(text: string, pos: int, start: int): seq<Segment> {
    if pos < start then [Segment(Substring(text, pos, start), None, false, pos, start)] else []
  }

  /** The plain segment from the cursor to the end of the text, when the cursor is before it. */
  function Tail(text: string, pos: int): seq<Segment> {
    if pos < |text| then [Segment(Substring(text, pos, |text|), None, false, pos, |text|)] else []
  }

  /** The cursor after visiting the first `i` highlights: 0, then the end of the last one
      visited. */
  function Cursor(cs: seq<Comment>, i: nat): int
    requires i <= |cs|
  {
    if i == 0 then 0 else EndOf(cs[i - 1])
  }

  /** The segments pushed while visiting the first `i` highlights: for each, the gap from
      the cursor to its start and then the highlight itself. */
  function Emitted(text: string, cs: seq<Comment>, i: nat): seq<Segment>
    requires i <= |cs|
  {
    if i == 0 then []
    else Emitted(text, cs, i - 1) + Gap(text, Cursor(cs, i - 1), StartOf(cs[i - 1])) + [HighlightOf(text, cs[i - 1])]
  }

  /** The segments `getTextSegments` returns for `text` and `comments`. */
  function Segments(text: string, comments: seq<Comment>): seq<Segment> {
    var sorted := SortedHighlights(comments);
    if HighlightComments(comments) == [] then [Segment(text, None, false, 0, |text|)]
    else Emitted(text, sorted, |sorted|) + Tail(text, Cursor(sorted, |sorted|))
  }

  /** `getTextSegments`: filter, sort, then one pass with a cursor. */
  method GetTextSegments(text: string, comments: seq<Comment>) returns (segments: seq<Segment>)
    ensures segments == Segments(text, comments)
  {
    var highlightComments := HighlightComments(comments);
    if |highlightComments| == 0 {
      return [Segment(text, None, false, 0, |text|)];
    }
    var sortedComments := Ordering.SortBy(highlightComments, StartOf);
    segments := [];
    var currentPos := 0;
    for i := 0 to |sortedComments|
      invariant segments == Emitted(text, sortedComments, i)
      invariant currentPos == Cursor(sortedComments, i)
    {
      var comment := sortedComments[i];
      var start := StartOf(comment);
      var end := EndOf(comment);
      ghost var before := segments;
      if currentPos < start {
        segments := segments + [Segment(Substring(text, currentPos, start), None, false, currentPos, start)];
      }
      assert segments == before + Gap(text, currentPos, start);
      segments := segments + [Segment(Substring(text, start, end), Some(comment.id), true, start, end)];
      assert segments == Emitted(text, sortedComments, i) + Gap(text, currentPos, start) + [HighlightOf(text, comment)];
      currentPos := end;
    }
    if currentPos < |text| {
      segments := segments + [Segment(Substring(text, currentPos, |text|), None, false, currentPos, |text|)];
    }
  }

  /** The concatenated texts of some segments: what the page shows. */
  function Texts(segs: seq<Segment>): string {
    if segs == [] then [] else segs[0].text + Texts(segs[1..])
  }

  /** The comment ids of the highlighted segments, in order. */
  function HighlightIds(segs: seq<Segment>): seq<int> {
    if segs == [] then []
    else
      (if segs[0].isHighlight && segs[0].commentId.Some? then [segs[0].commentId.value] else [])
      + HighlightIds(segs[1..])
  }

  /** The ids of the first `i` comments, in order. */
  function Ids(cs: seq<Comment>, i: nat): seq<int>
    requires i <= |cs|
  {
    if i == 0 then [] else Ids(cs, i - 1) + [cs[i - 1].id]
  }

  function EndAt(segs: seq<Segment>, k: nat): int
    requires k < |segs|
  {
    segs[k].end
  }

  function StartAt(segs: seq<Segment>, k: nat): int
    requires k < |segs|
  {
    segs[k].start
  }

  /** Each segment ends where the next begins. */
  predicate Adjacent(segs: seq<Segment>) {
    forall k :: 0 <= k < |segs| - 1 ==> EndAt(segs, k) == StartAt(segs, k + 1)
  }

  /** The ranges lie inside the text and, in the order given, each ends no later than the
      next begins. The code relies on this and never checks it. */
  predicate NonOverlapping(text: string, cs: seq<Comment>) {
    (forall i :: 0 <= i < |cs| ==> 0 <= StartOf(cs[i]) <= EndOf(cs[i]) <= |text|)
    && (forall i, j :: 0 <= i < j < |cs| ==> EndOf(cs[i]) <= StartOf(cs[j]))
  }

  lemma {:induction false} TextsAppend(a: seq<Segment>, b: seq<Segment>)
    ensures Texts(a + b) == Texts(a) + Texts(b)
  {
    if a != [] {
      TextsAppend(a[1..], b);
      assert (a + b)[0] == a[0];
      assert (a + b)[1..] == a[1..] + b;
    } else {
      assert a + b == b;
    }
  }

  lemma {:induction false} HighlightIdsAppend(a: seq<Segment>, b: seq<Segment>)
    ensures HighlightIds(a + b) == HighlightIds(a) + HighlightIds(b)
  {
    if a != [] {
      HighlightIdsAppend(a[1..], b);
      assert (a + b)[0] == a[0];
      assert (a + b)[1..] == a[1..] + b;
    } else {
      assert a + b == b;
    }
  }

  lemma TextsOne(seg: Segment)
    ensures Texts([seg]) == seg.text
  {
    assert Texts([seg]) == seg.text + Texts([seg][1..]);
  }

  lemma AdjacentAppend(a: seq<Segment>, b: seq<Segment>)
    requires Adjacent(a) && Adjacent(b)
    requires a != [] && b != [] ==> a[|a| - 1].end == b[0].start
    ensures Adjacent(a + b)
  {
    forall k | 0 <= k < |a + b| - 1 ensures EndAt(a + b, k) == StartAt(a + b, k + 1) {
      if k < |a| - 1 {
        assert EndAt(a, k) == StartAt(a, k + 1);
      } else if k == |a| - 1 {
      } else {
        assert EndAt(b, k - |a|) == StartAt(b, k - |a| + 1);
      }
    }
  }

  /** Under `NonOverlapping`, the cursor stays inside the text and is never past the start
      of the next highlight. */
  lemma CursorBounds(text: string, cs: seq<Comment>, i: nat)
    requires i <= |cs| && NonOverlapping(text, cs)
    ensures 0 <= Cursor(cs, i) <= |text|
    ensures i < |cs| ==> Cursor(cs, i) <= StartOf(cs[i])
  {
    if i > 0 {
      assert 0 <= StartOf(cs[i - 1]) <= EndOf(cs[i - 1]) <= |text|;
    }
    if 0 < i < |cs| {
      assert EndOf(cs[i - 1]) <= StartOf(cs[i]);
    }
    if i == 0 < |cs| {
      assert 0 <= StartOf(cs[0]);
    }
  }

  /** A segment cut from its own range, labelled exactly when it carries an id, and then
      the highlight of one of `cs`; a plain segment is never empty. */
  predicate WellLabelled(text: string, cs: seq<Comment>, seg: Segment) {
    seg.text == Substring(text, seg.start, seg.end)
    && (seg.isHighlight <==> seg.commentId.Some?)
    && (seg.isHighlight ==> (exists c :: c in cs && seg == HighlightOf(text, c)))
    && (!seg.isHighlight ==> seg.start < seg.end)
  }

  lemma ExtendLabels(text: string, cs: seq<Comment>, e: seq<Segment>, c: Comment, pos: int)
    requires c in cs
    requires forall seg :: seg in e ==> WellLabelled(text, cs, seg)
    ensures forall seg :: seg in e + Gap(text, pos, StartOf(c)) + [HighlightOf(text, c)] ==>
      WellLabelled(text, cs, seg)
  {
    assert WellLabelled(text, cs, HighlightOf(text, c));
  }

  /** Every segment pushed so far is well labelled by the walked comments. */
  lemma {:induction false} EmittedLabels(text: string, cs: seq<Comment>, i: nat)
    requires i <= |cs|
    ensures forall seg :: seg in Emitted(text, cs, i) ==> WellLabelled(text, cs, seg)
  {
    if i > 0 {
      EmittedLabels(text, cs, i - 1);
      ExtendLabels(text, cs, Emitted(text, cs, i - 1), cs[i - 1], Cursor(cs, i - 1));
    }
  }

  /** Relabelling by a larger set of comments keeps segments well labelled. */
  lemma LabelsWiden(text: string, a: seq<Comment>, b: seq<Comment>, segs: seq<Segment>)
    requires forall c :: c in a ==> c in b
    requires forall seg :: seg in segs ==> WellLabelled(text, a, seg)
    ensures forall seg :: seg in segs ==> WellLabelled(text, b, seg)
  {
  }

  /** Label fidelity: once there is a highlight comment, every segment's text is the
      substring of its range; a segment is highlighted exactly when it carries a comment
      id, and then it is the range, id and text of a top-level highlight comment; no plain
      segment is empty. (With no highlight comment, see `NoHighlightsWholeText`.) */
  lemma SegmentLabels(text: string, comments: seq<Comment>)
    requires HighlightComments(comments) != []
    ensures forall seg :: seg in Segments(text, comments) ==>
      WellLabelled(text, HighlightComments(comments), seg)
  {
    var hs := HighlightComments(comments);
    var sorted := SortedHighlights(comments);
    var e := Emitted(text, sorted, |sorted|);
    var t := Tail(text, Cursor(sorted, |sorted|));
    EmittedLabels(text, sorted, |sorted|);
    Ordering.SortBySorted(hs, StartOf);
    forall c | c in sorted ensures c in hs {
      assert c in multiset(sorted);
    }
    LabelsWiden(text, sorted, hs, e);
    assert forall seg :: seg in t ==> WellLabelled(text, hs, seg);
  }

  /** With no highlight comment, the result is one plain segment holding the whole text. */
  lemma NoHighlightsWholeText(text: string, comments: seq<Comment>)
    requires forall c :: c in comments ==> !IsHighlightComment(c)
    ensures Segments(text, comments) == [Segment(text, None, false, 0, |text|)]
  {
    var hs := HighlightComments(comments);
    assert forall i :: 0 <= i < |hs| ==> hs[i] in hs;
  }

  lemma {:induction false} HighlightsAppend(a: seq<Comment>, b: seq<Comment>)
    ensures HighlightComments(a + b) == HighlightComments(a) + HighlightComments(b)
  {
    if a != [] {
      HighlightsAppend(a[1..], b);
      assert (a + b)[0] == a[0];
      assert (a + b)[1..] == a[1..] + b;
    } else {
      assert a + b == b;
    }
  }

  lemma {:induction false} HighlightsOfTopLevel(cs: seq<Comment>)
    ensures HighlightComments(TopLevel(cs)) == HighlightComments(cs)
  {
    if cs != [] {
      HighlightsOfTopLevel(cs[1..]);
      var head := if IsTopLevel(cs[0]) then [cs[0]] else [];
      assert TopLevel(cs) == head + TopLevel(cs[1..]);
      HighlightsAppend(head, TopLevel(cs[1..]));
    }
  }

  /** Replies never produce highlights: dropping every reply leaves the segments unchanged. */
  lemma RepliesIgnored(text: string, comments: seq<Comment>)
    ensures Segments(text, TopLevel(comments)) == Segments(text, comments)
  {
    HighlightsOfTopLevel(comments);
  }

  /** One visit over an in-bounds range shows `text[pos..end)` in its gap and highlight. */
  lemma StepTexts(text: string, c: Comment, pos: int)
    requires 0 <= pos <= StartOf(c) <= EndOf(c) <= |text|
    ensures Texts(Gap(text, pos, StartOf(c)) + [HighlightOf(text, c)]) == text[pos..EndOf(c)]
  {
    var g := Gap(text, pos, StartOf(c));
    TextsAppend(g, [HighlightOf(text, c)]);
    TextsOne(HighlightOf(text, c));
    if pos < StartOf(c) {
      TextsOne(g[0]);
    }
    assert text[pos..EndOf(c)] == text[pos..StartOf(c)] + text[StartOf(c)..EndOf(c)];
  }

  /** Extending a prefix rendering of `text[..pos)` by one visit renders `text[..end)`. */
  lemma ExtendTexts(text: string, e: seq<Segment>, c: Comment, pos: int)
    requires 0 <= pos <= StartOf(c) <= EndOf(c) <= |text|
    requires Texts(e) == text[..pos]
    ensures Texts(e + Gap(text, pos, StartOf(c)) + [HighlightOf(text, c)]) == text[..EndOf(c)]
  {
    var step := Gap(text, pos, StartOf(c)) + [HighlightOf(text, c)];
    calc {
      Texts(e + Gap(text, pos, StartOf(c)) + [HighlightOf(text, c)]);
      { assert e + Gap(text, pos, StartOf(c)) + [HighlightOf(text, c)] == e + step; }
      Texts(e + step);
      { TextsAppend(e, step); }
      Texts(e) + Texts(step);
      { StepTexts(text, c, pos); }
      text[..pos] + text[pos..EndOf(c)];
      { SliceJoin(text, pos, EndOf(c)); }
      text[..EndOf(c)];
    }
  }

  /** The segments pushed so far show the text up to the cursor. */
  lemma {:induction false} EmittedTexts(text: string, cs: seq<Comment>, i: nat)
    requires i <= |cs| && NonOverlapping(text, cs)
    ensures 0 <= Cursor(cs, i) <= |text|
    ensures Texts(Emitted(text, cs, i)) == text[..Cursor(cs, i)]
  {
    CursorBounds(text, cs, i);
    if i > 0 {
      EmittedTexts(text, cs, i - 1);
      CursorBounds(text, cs, i - 1);
      ExtendTexts(text, Emitted(text, cs, i - 1), cs[i - 1], Cursor(cs, i - 1));
    }
  }

  lemma SliceJoin(text: string, a: nat, b: nat)
    requires a <= b <= |text|
    ensures text[..b] == text[..a] + text[a..b]
  {
  }

  /** The shape of a prefix: empty, or starting at 0 and ending at `pos` without holes. */
  predicate PrefixShape(e: seq<Segment>, pos: int) {
    (e != [] ==> e[0].start == 0 && e[|e| - 1].end == pos) && Adjacent(e)
  }

  lemma ExtendShape(text: string, e: seq<Segment>, c: Comment, pos: int)
    requires PrefixShape(e, pos) && (e == [] ==> pos == 0) && 0 <= pos <= StartOf(c)
    ensures PrefixShape(e + Gap(text, pos, StartOf(c)) + [HighlightOf(text, c)], EndOf(c))
  {
    var g := Gap(text, pos, StartOf(c));
    AdjacentAppend(e, g);
    AdjacentAppend(e + g, [HighlightOf(text, c)]);
  }

  /** The segments pushed so far start at 0, end at the cursor and have no holes. */
  lemma {:induction false} EmittedShape(text: string, cs: seq<Comment>, i: nat)
    requires i <= |cs| && NonOverlapping(text, cs)
    ensures Emitted(text, cs, i) == [] <==> i == 0
    ensures PrefixShape(Emitted(text, cs, i), Cursor(cs, i))
  {
    if i > 0 {
      var prev, pos, c := Emitted(text, cs, i - 1), Cursor(cs, i - 1), cs[i - 1];
      EmittedShape(text, cs, i - 1);
      CursorBounds(text, cs, i - 1);
      ExtendShape(text, prev, c, pos);
      assert Emitted(text, cs, i) == prev + Gap(text, pos, StartOf(c)) + [HighlightOf(text, c)];
      assert Cursor(cs, i) == EndOf(c);
    }
  }

  /** Closing a non-empty prefix rendering of `text[..pos)` with the tail renders the
      whole text, from 0 to its end without holes. */
  lemma FinishTiling(text: string, e: seq<Segment>, pos: int)
    requires 0 <= pos <= |text| && e != []
    requires Texts(e) == text[..pos] && PrefixShape(e, pos)
    ensures Texts(e + Tail(text, pos)) == text
    ensures PrefixShape(e + Tail(text, pos), |text|)
  {
    var t := Tail(text, pos);
    TextsAppend(e, t);
    if t != [] {
      TextsOne(t[0]);
    }
    assert text == text[..pos] + text[pos..];
    AdjacentAppend(e, t);
  }

  /** For in-bounds, non-overlapping ranges the segments tile the text: their texts
      concatenate to it, the first starts at 0, the last ends at its length, and each ends
      where the next begins. */
  lemma Tiling(text: string, comments: seq<Comment>)
    requires NonOverlapping(text, SortedHighlights(comments))
    ensures Texts(Segments(text, comments)) == text
    ensures |Segments(text, comments)| >= 1
    ensures Segments(text, comments)[0].start == 0
    ensures Segments(text, comments)[|Segments(text, comments)| - 1].end == |text|
    ensures Adjacent(Segments(text, comments))
  {
    var hs := HighlightComments(comments);
    if hs == [] {
      TextsOne(Segment(text, None, false, 0, |text|));
    } else {
      var sorted := SortedHighlights(comments);
      var n := |sorted|;
      Ordering.SortBySorted(hs, StartOf);
      EmittedTexts(text, sorted, n);
      EmittedShape(text, sorted, n);
      FinishTiling(text, Emitted(text, sorted, n), Cursor(sorted, n));
    }
  }

  lemma HighlightIdsOne(seg: Segment)
    ensures HighlightIds([seg]) == if seg.isHighlight && seg.commentId.Some? then [seg.commentId.value] else []
  {
    assert [seg][1..] == [];
  }

  lemma GapIds(text: string, pos: int, start: int)
    ensures HighlightIds(Gap(text, pos, start)) == []
  {
    if pos < start {
      HighlightIdsOne(Gap(text, pos, start)[0]);
    }
  }

  lemma {:induction false} EmittedIds(text: string, cs: seq<Comment>, i: nat)
    requires i <= |cs|
    ensures HighlightIds(Emitted(text, cs, i)) == Ids(cs, i)
  {
    if i > 0 {
      var e := Emitted(text, cs, i - 1);
      var g := Gap(text, Cursor(cs, i - 1), StartOf(cs[i - 1]));
      var h := HighlightOf(text, cs[i - 1]);
      calc {
        HighlightIds(Emitted(text, cs, i));
        HighlightIds(e + g + [h]);
        { HighlightIdsAppend(e + g, [h]); }
        HighlightIds(e + g) + HighlightIds([h]);
        { HighlightIdsAppend(e, g); HighlightIdsOne(h); GapIds(text, Cursor(cs, i - 1), StartOf(cs[i - 1])); }
        HighlightIds(e) + [cs[i - 1].id];
        { EmittedIds(text, cs, i - 1); }
        Ids(cs, i - 1) + [cs[i - 1].id];
        Ids(cs, i);
      }
    }
  }

  /** Highlights appear in ascending start offset, comments with equal starts in their
      input order, and every highlight comment appears exactly once. */
  lemma HighlightOrder(text: string, comments: seq<Comment>)
    requires HighlightComments(comments) != []
    ensures HighlightIds(Segments(text, comments)) == Ids(SortedHighlights(comments), |SortedHighlights(comments)|)
    ensures Ordering.SortedBy(SortedHighlights(comments), StartOf)
    ensures multiset(SortedHighlights(comments)) == multiset(HighlightComments(comments))
    ensures forall k ::
      (Ordering.KeyFilter(SortedHighlights(comments), StartOf, k)
       == Ordering.KeyFilter(HighlightComments(comments), StartOf, k))
  {
    var sorted := SortedHighlights(comments);
    var t := Tail(text, Cursor(sorted, |sorted|));
    EmittedIds(text, sorted, |sorted|);
    HighlightIdsAppend(Emitted(text, sorted, |sorted|), t);
    Ordering.SortBySorted(HighlightComments(comments), StartOf);
    forall k ensures (Ordering.KeyFilter(SortedHighlights(comments), StartOf, k)
                      == Ordering.KeyFilter(HighlightComments(comments), StartOf, k))
    {
      Ordering.SortByStable(HighlightComments(comments), StartOf, k);
    }
  }

  function RangeComment(id: int, start: int, end: int): Comment {
    Comment(id, 1, 1, "note", None, 0, Some("x"), Some(start), Some(end))
  }

  /** The cursor jumps to each highlight's end, so an overlapping range moves it back:
      over "abcd", ranges [0,3) and [1,2) show "abc" + "b" + "cd". */
  lemma OverlapBreaksCoverage()
    ensures Texts(Segments("abcd", [RangeComment(1, 0, 3), RangeComment(2, 1, 2)])) == "abcbcd"
  {
    var a, b := RangeComment(1, 0, 3), RangeComment(2, 1, 2);
    var cs := [a, b];
    assert cs[1..] == [b];
    assert HighlightComments([b]) == [b];
    assert HighlightComments(cs) == cs;
    assert Ordering.SortBy([b], StartOf) == [b];
    assert Ordering.SortBy(cs, StartOf) == cs;
    var ha := Segment("abc", Some(1), true, 0, 3);
    var hb := Segment("b", Some(2), true, 1, 2);
    var tl := Segment("cd", None, false, 2, 4);
    assert "abcd"[0..3] == "abc" && "abcd"[1..2] == "b" && "abcd"[2..4] == "cd";
    assert Emitted("abcd", cs, 1) == [ha];
    assert Emitted("abcd", cs, 2) == [ha] + [hb];
    assert Tail("abcd", Cursor(cs, 2)) == [tl];
    assert Segments("abcd", cs) == [ha] + [hb] + [tl];
    TextsAppend([ha] + [hb], [tl]);
    TextsAppend([ha], [hb]);
    TextsOne(ha);
    TextsOne(hb);
    TextsOne(tl);
  }

  /** A selection reported to the page: the trimmed text and its offsets. */
  datatype Selection = Selection(text: string, start: int, end: int)

  /** `handleMouseUp` as written. `selection` is the selected string and `prefixLen` the
      length of the text before the selection's start. The start is taken before trimming
      and the length after it. */
  function MouseUpAsWritten(selection: string, prefixLen: nat): (r: Option<Selection>)
    ensures r.None? <==> IsBlank(selection)
    ensures r.Some? ==>
      r.value.text == JsTrim(selection) && r.value.start == prefixLen && r.value.end == r.value.start + |r.value.text|
  {
    var selectedText := JsTrim(selection);
    if selectedText == [] then None
    else Some(Selection(selectedText, prefixLen, prefixLen + |selectedText|))
  }

  /** A selection that starts with whitespace is reported one character early for each
      blank it starts with: over "a b", selecting " b" reports [1,2), which is " ". */
  lemma MouseUpAsWrittenShifted()
    ensures MouseUpAsWritten("a b"[1..3], 1) == Some(Selection("b", 1, 2))
    ensures "a b"[1..2] != "b"
  {
    assert "a b"[1..3] == " b";
    assert IsJsSpace(' ') && !IsJsSpace('b');
    assert " b"[1..] == "b" && "b"[..0] == "";
    assert LeadCount("b", IsJsSpace) == 0;
    assert LeadCount(" b", IsJsSpace) == 1;
    assert TrailCount("b", IsJsSpace) == 0;
    assert JsTrim(" b") == "b";
  }

  /** `handleMouseUp` with the start moved past the leading whitespace the trim removes. */
  function MouseUp(selection: string, prefixLen: nat): (r: Option<Selection>)
    ensures r.None? <==> IsBlank(selection)
    ensures r.Some? ==>
      && r.value.text == JsTrim(selection)
      && r.value.start == prefixLen + LeadCount(selection, IsJsSpace)
      && r.value.end == r.value.start + |r.value.text|
  {
    var selectedText := JsTrim(selection);
    if selectedText == [] then None
    else
      var start := prefixLen + LeadCount(selection, IsJsSpace);
      Some(Selection(selectedText, start, start + |selectedText|))
  }

  /** When the selection is `text[s..e]`, the corrected offsets cut exactly the trimmed
      selection out of the text, inside the selected range. */
  lemma MouseUpOffsets(text: string, s: nat, e: nat)
    requires s <= e <= |text|
    ensures MouseUp(text[s..e], s).None? <==> IsBlank(text[s..e])
    ensures MouseUp(text[s..e], s).Some? ==>
      var sel := MouseUp(text[s..e], s).value;
      s <= sel.start <= sel.end <= e && text[sel.start..sel.end] == sel.text
  {
    TrimWithin(text, s, e, IsJsSpace);
  }
}
