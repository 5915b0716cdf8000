/**
 * The older home page: six sections built from a record, announcements split
 * into lines, and a worship-order screen that judges swipes on horizontal
 * movement alone.
 */
module LegacyHome {
  import opened Wrappers
  import opened Text
  import Praises
  import Store
  import opened Home

  // ---------------------------------------------------------------------------
  // Sections
  // ---------------------------------------------------------------------------

  /** The `lines` helper: the non-empty lines of `raw`, in order. */
  function Lines(raw: string): (lines: seq<string>)
    ensures forall i :: 0 <= i < |lines| ==> lines[i] != [] && '\n' !in lines[i]
  {
    Praises.DropEmpty(Split(raw, '\n'))
  }

  function LegacySermonBody(b: Store.Bulletin): Body
  {
    var c := b.content;
    SermonParts(
      (if c.sermonTitleMain != [] then [MainTitle(c.sermonTitleMain, None)] else [])
      + (if c.sermonTitleSub != [] then [SubTitle(c.sermonTitleSub, None)] else [])
      + (if c.sermonDescription != [] then [Description(c.sermonDescription)] else []))
  }

  function AnnouncementsBody(announcements: string): Body
  {
    if announcements != [] then Paragraphs(Lines(announcements)) else Paragraph("—")
  }

  /** `buildSectionsFromBulletin` of the older page: six sections, commitment included. */
  function LegacySections(b: Store.Bulletin): (sections: seq<Section>)
    ensures |sections| == 6
    ensures SectionIds(sections) == [Praises, Prayers, Passage, Sermon, Commitment, Announcements]
  {
    var r := [
      Section(Praises, "찬양", "[PRAISES]", Html(b.content.praises)),
      Section(Prayers, "기도", "[PRAYER TIME]", Html(b.content.prayers)),
      Section(Passage, "말씀", "[BIBLE PASSAGE]", Paragraph(OrDash(b.content.passage))),
      Section(Sermon, "설교", "[SERMON]", LegacySermonBody(b)),
      Section(Commitment, "헌신", "[COMMITMENT]", Html(b.content.commitment)),
      Section(Announcements, "광고", "[ANNOUNCEMENTS]", AnnouncementsBody(b.content.announcements))
    ];
    assert SectionIds(r) == [Praises, Prayers, Passage, Sermon, Commitment, Announcements];
    r
  }

  // ---------------------------------------------------------------------------
  // Worship-order screen
  // ---------------------------------------------------------------------------

  const LegacySwipeThreshold: real := 40.0

  /** The section a touch that started at `startX` and ended at `x` leads to. */
  function LegacySwipeTarget(index: nat, count: nat, startX: Option<real>, x: real): nat
  {
    match startX
    case None => index
    case Some(x0) =>
      var dx := x - x0;
      if dx > LegacySwipeThreshold && index > 0 then index - 1
      else if dx < -LegacySwipeThreshold && index + 1 < count then index + 1
      else index
  }

  class LegacyOrderScreen {
    var activeIndex: nat
    var touchStartX: Option<real>
    /** The font scale in tenths: 10 is 1.0. */
    var fontTenths: int
    const sectionCount: nat

    ghost predicate Valid()
      reads this
    {
      activeIndex < sectionCount && MinFontTenths <= fontTenths <= MaxFontTenths
    }

    constructor (count: nat)
      requires count > 0
      ensures Valid()
      ensures sectionCount == count && activeIndex == 0 && touchStartX == None && fontTenths == 10
    {
      sectionCount := count;
      activeIndex := 0;
      touchStartX := None;
      fontTenths := 10;
    }

    method TouchStart(x: real)
      requires Valid()
      modifies this
      ensures Valid()
      ensures touchStartX == Some(x)
      ensures activeIndex == old(activeIndex) && fontTenths == old(fontTenths)
    {
      touchStartX := Some(x);
    }

    /** `handleTouchEnd`: nothing happens without a start; otherwise judge the swipe, then clear the start. */
    method TouchEnd(x: real)
      requires Valid()
      modifies this
      ensures Valid()
      ensures touchStartX == None
      ensures activeIndex == LegacySwipeTarget(old(activeIndex), sectionCount, old(touchStartX), x)
      ensures fontTenths == old(fontTenths)
    {
      if touchStartX.None? {
        return;
      }
      var dx := x - touchStartX.value;
      if dx > LegacySwipeThreshold && activeIndex > 0 {
        activeIndex := activeIndex - 1;
      } else if dx < -LegacySwipeThreshold && activeIndex < sectionCount - 1 {
        activeIndex := activeIndex + 1;
      }
      touchStartX := None;
    }

    /** A tap on tab `i`. */
    method SelectTab(i: nat)
      requires Valid() && i < sectionCount
      modifies this
      ensures Valid()
      ensures activeIndex == i && touchStartX == old(touchStartX) && fontTenths == old(fontTenths)
    {
      activeIndex := i;
    }

    method DecreaseFont()
      requires Valid()
      modifies this
      ensures Valid()
      ensures fontTenths == if old(fontTenths) > MinFontTenths then old(fontTenths) - 1 else MinFontTenths
      ensures activeIndex == old(activeIndex) && touchStartX == old(touchStartX)
    {
      fontTenths := if fontTenths - 1 < MinFontTenths then MinFontTenths else fontTenths - 1;
    }

    method IncreaseFont()
      requires Valid()
      modifies this
      ensures Valid()
      ensures fontTenths == if old(fontTenths) < MaxFontTenths then old(fontTenths) + 1 else MaxFontTenths
      ensures activeIndex == old(activeIndex) && touchStartX == old(touchStartX)
    {
      fontTenths := if fontTenths + 1 > MaxFontTenths then MaxFontTenths else fontTenths + 1;
    }
  }

  // ---------------------------------------------------------------------------
  // Properties
  // ---------------------------------------------------------------------------

  /** The lines of two texts joined by a line break are the lines of each, in order. */
  lemma {:induction false} LinesAppend(a: string, b: string)
    ensures Lines(a + "\n" + b) == Lines(a) + Lines(b)
  {
    SplitAppend(a, b, '\n');
    Praises.DropEmptyAppend(Split(a, '\n'), Split(b, '\n'));
  }

  /** Text without blank lines keeps every line. */
  lemma LinesAllKept(raw: string)
    requires forall i :: 0 <= i < |Split(raw, '\n')| ==> Split(raw, '\n')[i] != []
    ensures Lines(raw) == Split(raw, '\n')
    ensures Join(Lines(raw), '\n') == raw
  {
    Praises.DropEmptyNone(Split(raw, '\n'));
    JoinSplit(raw, '\n');
  }

  /** Empty announcements show a dash; otherwise one paragraph per non-empty line. */
  lemma AnnouncementsShown(b: Store.Bulletin)
    ensures b.content.announcements == [] ==> LegacySections(b)[5].body == Paragraph("—")
    ensures b.content.announcements != [] ==> LegacySections(b)[5].body == Paragraphs(Lines(b.content.announcements))
  {
  }

  /**
   * Only horizontal movement counts: the section moves back after a swipe of
   * more than 40 to the right, forward after more than 40 to the left, and
   * never leaves the section range.
   */
  lemma LegacySwipe(index: nat, count: nat, startX: Option<real>, x: real)
    requires index < count
    ensures LegacySwipeTarget(index, count, startX, x) < count
    ensures startX.None? ==> LegacySwipeTarget(index, count, startX, x) == index
    ensures startX.Some? && x - startX.value > LegacySwipeThreshold && index > 0
      ==> LegacySwipeTarget(index, count, startX, x) == index - 1
    ensures startX.Some? && x - startX.value < -LegacySwipeThreshold && index + 1 < count
      ==> LegacySwipeTarget(index, count, startX, x) == index + 1
    ensures startX.Some? && -LegacySwipeThreshold <= x - startX.value <= LegacySwipeThreshold
      ==> LegacySwipeTarget(index, count, startX, x) == index
  {
  }

  /** The older page formats dates as the current one does: leading zeros of month and day are dropped. */
  lemma LegacyDateLabel(y: string, m: string, d: string, time: string)
    requires y != [] && m != [] && d != []
    requires '-' !in y && AllDigits(m) && AllDigits(d)
    ensures FormatDateLabel(y + "-0" + m + "-" + d, time) == FormatDateLabel(y + "-" + m + "-" + d, time)
    ensures FormatDateLabel(y + "-" + m + "-0" + d, time) == FormatDateLabel(y + "-" + m + "-" + d, time)
  {
    assert AllDigits("0" + m) && AllDigits("0" + d) by {
      assert forall i :: 0 < i < |"0" + m| ==> ("0" + m)[i] == m[i - 1];
      assert forall i :: 0 < i < |"0" + d| ==> ("0" + d)[i] == d[i - 1];
    }
    assert y + "-0" + m + "-" + d == y + "-" + ("0" + m) + "-" + d;
    assert y + "-" + m + "-0" + d == y + "-" + m + "-" + ("0" + d);
    DateLabelShape(y, "0" + m, d, time);
    DateLabelShape(y, m, "0" + d, time);
    DateLabelShape(y, m, d, time);
    DecimalValueLeadingZero(m);
    DecimalValueLeadingZero(d);
  }
}
