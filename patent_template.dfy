/** `generatePatentTemplate`, which the inventor's and the lawyer's disclosure pages
    (frontend/src/pages/inventor/DisclosureDetail.tsx and
    frontend/src/pages/lawyer/DisclosureDetail.tsx) both define, word for word: a fixed text
    with seventeen places filled from the disclosure. The template is modelled as its
    literal fragments interleaved with the values of those places; `now` is what
    `new Date().toLocaleString()` gives. */
module PatentTemplate {
  import opened Wrappers
  import opened Strings
  import opened ClientTypes

  /** `value || fallback` on an optional text field: an absent or empty field gives way. */
  function OrElse(v: Option<string>, fallback: string): (r: string)
    ensures r == fallback || (v.Some? && r == v.value && r != [])
    ensures v.Some? && v.value != [] ==> r == v.value
    ensures r == [] <==> fallback == [] && (v.None? || v.value == [])
  {
    if v.Some? && v.value != [] then v.value else fallback
  }

  /** A literal piece of text followed by a value, then another literal, and so on:
      `frags[0] + vals[0] + frags[1] + ... + vals[n-1] + frags[n]`. */
  function Interleave(frags: seq<string>, vals: seq<string>): (r: string)
    requires |frags| == |vals| + 1
    decreases |vals|
  {
    if vals == [] then frags[0] else frags[0] + vals[0] + Interleave(frags[1..], vals[1..])
  }

  /** Where the `i`th value starts in the interleaving. */
  function SlotOffset(frags: seq<string>, vals: seq<string>, i: nat): nat
    requires |frags| == |vals| + 1 && i < |vals|
    decreases i
  {
    if i == 0 then |frags[0]| else |frags[0]| + |vals[0]| + SlotOffset(frags[1..], vals[1..], i - 1)
  }

  /** Every value appears verbatim at its offset. */
  lemma {:induction false} SlotAt(frags: seq<string>, vals: seq<string>, i: nat)
    requires |frags| == |vals| + 1 && i < |vals|
    ensures SlotOffset(frags, vals, i) + |vals[i]| <= |Interleave(frags, vals)|
    ensures Interleave(frags, vals)[SlotOffset(frags, vals, i)..SlotOffset(frags, vals, i) + |vals[i]|] == vals[i]
    decreases i
  {
    var rest := Interleave(frags[1..], vals[1..]);
    var head := frags[0] + vals[0];
    assert Interleave(frags, vals) == head + rest;
    if i > 0 {
      SlotAt(frags[1..], vals[1..], i - 1);
      var o := SlotOffset(frags[1..], vals[1..], i - 1);
      assert (head + rest)[|head| + o..|head| + o + |vals[i]|] == rest[o..o + |vals[i]|];
    }
  }

  /** The values appear in order and do not overlap, each separated from the next by the
      literal between them. */
  lemma {:induction false} SlotsInOrder(frags: seq<string>, vals: seq<string>, i: nat, j: nat)
    requires |frags| == |vals| + 1 && i < j < |vals|
    ensures SlotOffset(frags, vals, i) + |vals[i]| + |frags[i + 1]| <= SlotOffset(frags, vals, j)
    decreases i
  {
    if i > 0 {
      SlotsInOrder(frags[1..], vals[1..], i - 1, j - 1);
    } else {
      SlotOffsetAtLeast(frags[1..], vals[1..], j - 1);
    }
  }

  /** A value never starts before the first literal has ended. */
  lemma {:induction false} SlotOffsetAtLeast(frags: seq<string>, vals: seq<string>, i: nat)
    requires |frags| == |vals| + 1 && i < |vals|
    ensures SlotOffset(frags, vals, i) >= |frags[0]|
  {
  }

  /** The text begins with the first literal and the first value. */
  lemma InterleaveStart(frags: seq<string>, vals: seq<string>)
    requires |frags| == |vals| + 1 && vals != []
    ensures StartsWith(Interleave(frags, vals), frags[0] + vals[0])
  {
    var rest := Interleave(frags[1..], vals[1..]);
    assert Interleave(frags, vals) == frags[0] + vals[0] + rest;
    assert (frags[0] + vals[0] + rest)[..|frags[0] + vals[0]|] == frags[0] + vals[0];
  }

  const Heading := "PATENT APPLICATION\n\nTitle: "

  const SlotCount := 17

  /** The literal parts of the template, one more than the places. */
  function Fragment(i: nat): string
    requires i <= SlotCount
  {
    match i
    case 0 => Heading
    case 1 => "\n\nBACKGROUND OF THE INVENTION\n\nField of the Invention\n[AI Generated] This invention relates to "
    case 2 => ". More particularly, it relates to innovative solutions for "
    case 3 => ".\n\nDescription of Related Art\n"
    case 4 => "\n\nSUMMARY OF THE INVENTION\n\nBrief Summary\n[AI Generated] The present invention provides a novel solution to "
    case 5 => " through "
    case 6 => ".\n\nThe invention achieves the following advantages:\n"
    case 7 => "\n\nDETAILED DESCRIPTION OF THE INVENTION\n\nTechnical Problem\n"
    case 8 => "\n\nTechnical Solution\n"
    case 9 => "\n\nTechnical Details\n"
    case 10 => "\n\nAdvantages and Effects\n"
    case 11 => "\n\nCLAIMS\n\n1. [AI Generated] A method/system/apparatus for "
    case 12 =>
      ", comprising:\n   (a) [technical feature 1]\n   (b) [technical feature 2]\n   (c) [technical feature 3]\n\n"
      + "2. [AI Generated] The method/system/apparatus of claim 1, wherein...\n\n"
      + "3. [AI Generated] The method/system/apparatus of claim 1 or 2, further comprising...\n\n"
      + "ABSTRACT\n\n[AI Generated] The present invention relates to "
    case 13 => ". The invention addresses "
    case 14 => " by providing "
    case 15 => ", resulting in "
    case 16 => ".\n\n---\n[End of AI Generated Patent Draft]\n[Last updated: "
    case _ => "]\n"
  }

  /** What a place shows. */
  datatype Field = Title | LowerTitle | Problem | Solution | TechnicalDetails | Advantages | PriorArt | Clock

  /** The field behind each of the seventeen places, in the order they appear. */
  function FieldOf(i: nat): (f: Field)
    requires i < SlotCount
    ensures f == Title <==> i == 0
    ensures f == LowerTitle <==> i == 11 || i == 12
    ensures f == Clock <==> i == 16
  {
    match i
    case 0 => Title
    case 1 => TechnicalDetails
    case 2 => Problem
    case 3 => PriorArt
    case 4 => Problem
    case 5 => Solution
    case 6 => Advantages
    case 7 => Problem
    case 8 => Solution
    case 9 => TechnicalDetails
    case 10 => Advantages
    case 11 => LowerTitle
    case 12 => LowerTitle
    case 13 => Problem
    case 14 => Solution
    case 15 => Advantages
    case _ => Clock
  }

  /** The text a place falls back on when its field is absent or empty. */
  function Fallback(i: nat): (r: string)
    requires i < SlotCount
  {
    match i
    case 1 => "the field of technology"
    case 2 => "technical challenges in the industry"
    case 3 => "[AI Generated] Prior art in this field has addressed similar problems through various approaches, but limitations remain in terms of efficiency, cost, and scalability."
    case 4 => "existing technical problems"
    case 5 => "innovative technical means"
    case 6 => "[AI Generated] 1. Improved efficiency\n2. Reduced cost\n3. Enhanced scalability\n4. Better user experience"
    case 7 => "[AI Generated] The technical problem addressed by this invention involves..."
    case 8 => "[AI Generated] The present invention solves the aforementioned problem by..."
    case 9 => "[AI Generated] The invention comprises the following technical components and features..."
    case 10 => "[AI Generated] The present invention provides significant advantages over prior art..."
    case 13 => "technical challenges"
    case 14 => "innovative solutions"
    case 15 => "significant improvements"
    case _ => "-"
  }

  /** The optional content field a place reads, if it reads one. */
  function ContentField(c: DisclosureContent, f: Field): Option<string> {
    match f
    case Problem => c.problem
    case Solution => c.solution
    case TechnicalDetails => c.technicalDetails
    case Advantages => c.advantages
    case PriorArt => c.priorArt
    case _ => None
  }

  /** What fills place `i`: the title, the lower-cased title (first claim and abstract),
      the time of rendering, or a content field with its fallback. */
  function Fill(d: Disclosure, now: string, i: nat): string
    requires i < SlotCount
  {
    match FieldOf(i)
    case Title => d.title
    case LowerTitle => ToLower(d.title)
    case Clock => now
    case _ => OrElse(ContentField(d.content, FieldOf(i)), Fallback(i))
  }

  function Fragments(): (r: seq<string>)
    ensures |r| == SlotCount + 1
  {
    seq(SlotCount + 1, i requires 0 <= i <= SlotCount => Fragment(i))
  }

  function Slots(d: Disclosure, now: string): (r: seq<string>)
    ensures |r| == SlotCount
  {
    seq(SlotCount, i requires 0 <= i < SlotCount => Fill(d, now, i))
  }

  /** `generatePatentTemplate(disclosure)`. */
  function Template(d: Disclosure, now: string): string
  {
    Interleave(Fragments(), Slots(d, now))
  }

  /** The draft opens with the heading and the title as the disclosure has it. */
  lemma TemplateStartsWithTitle(d: Disclosure, now: string)
    ensures StartsWith(Template(d, now), Heading + d.title)
  {
    InterleaveStart(Fragments(), Slots(d, now));
    assert Fragments()[0] == Heading && Slots(d, now)[0] == d.title;
  }

  /** Every place holds its value verbatim, in order. */
  lemma TemplateShowsSlot(d: Disclosure, now: string, i: nat)
    requires i < SlotCount
    ensures var o := SlotOffset(Fragments(), Slots(d, now), i);
      o + |Fill(d, now, i)| <= |Template(d, now)|
      && Template(d, now)[o..o + |Fill(d, now, i)|] == Fill(d, now, i)
  {
    SlotAt(Fragments(), Slots(d, now), i);
  }

  /** A filled field is used as written in every place that reads it (the detailed
      description among them) and an absent or empty one falls back. */
  lemma FillLaws(d: Disclosure, now: string, i: nat)
    requires i < SlotCount
    ensures FieldOf(i) == Title ==> Fill(d, now, i) == d.title
    ensures FieldOf(i) == LowerTitle ==> Fill(d, now, i) == ToLower(d.title)
    ensures FieldOf(i) == Clock ==> Fill(d, now, i) == now
    ensures var v := ContentField(d.content, FieldOf(i));
      v.Some? && v.value != [] ==> Fill(d, now, i) == v.value
    ensures var v := ContentField(d.content, FieldOf(i));
      FieldOf(i) !in {Title, LowerTitle, Clock} && (v.None? || v.value == []) ==> Fill(d, now, i) == Fallback(i)
  {
  }

  /** Each content field is read in the places the template shows: the problem four times,
      the solution, the advantages three times each, the technical details twice and the
      prior art once. */
  lemma FieldPlaces(i: nat)
    requires i < SlotCount
    ensures FieldOf(i) == Problem <==> i in {2, 4, 7, 13}
    ensures FieldOf(i) == Solution <==> i in {5, 8, 14}
    ensures FieldOf(i) == Advantages <==> i in {6, 10, 15}
    ensures FieldOf(i) == TechnicalDetails <==> i in {1, 9}
    ensures FieldOf(i) == PriorArt <==> i == 3
  {
  }

  /** The places follow one another in the draft without overlapping: the title comes
      before the sections, the sections before the claims, the claims before the clock. */
  lemma TemplateInOrder(d: Disclosure, now: string, i: nat, j: nat)
    requires i < j < SlotCount
    ensures SlotOffset(Fragments(), Slots(d, now), i) + |Slots(d, now)[i]| + |Fragments()[i + 1]|
            <= SlotOffset(Fragments(), Slots(d, now), j)
  {
    SlotsInOrder(Fragments(), Slots(d, now), i, j);
  }

  /** The draft depends on the disclosure's title and content only, not on its id. */
  lemma TemplateIgnoresId(d: Disclosure, id: int, now: string)
    ensures Template(d.(id := id), now) == Template(d, now)
  {
    assert Slots(d.(id := id), now) == Slots(d, now);
  }
}
