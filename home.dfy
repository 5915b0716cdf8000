/**
 * The public home screen: the date and option labels, the section list built
 * from a bulletin record, the worship-order screen (swipe, tab and font-size
 * state) and the read path's session-cache rule.
 */
module Home {
  import opened Wrappers
  import opened Text
  import opened Json
  import Praises
  import Store

  // ---------------------------------------------------------------------------
  // Labels
  // ---------------------------------------------------------------------------

  const DefaultDateLabel := "날짜 없음 · 오전 11시"
  const DefaultEventType := "주일 예배"

  /**
   * `${Number(m)}` for a date part: surrounding white space is ignored, the
   * empty string reads as 0, a digit string is printed as its exact value
   * without leading zeros (the rounding of a double is not modelled), and
   * anything else prints `NaN`.
   */
  function NumberText(m: string): (r: string)
    ensures r != []
  {
    var t := Trim(m);
    if t == [] then "0"
    else if AllDigits(t) then NatToDecimal(DecimalValue(t))
    else "NaN"
  }

  /** `dateStr.split("-")` has non-empty first, second and third parts. */
  predicate WellFormedDate(date: string)
  {
    var p := Split(date, '-');
    |p| >= 3 && p[0] != [] && p[1] != [] && p[2] != []
  }

  function TimeLabel(time: string): (r: string)
    ensures time == [] ==> r == "오전 11시"
    ensures time != [] ==> r == "오전 " + time
  {
    if time == [] then "오전 11시" else "오전 " + time
  }

  /**
   * `formatDateLabel`: `"{y}년 {m}월 {d}일 · {time}"`, or the default label,
   * which is given exactly for an empty or malformed date.
   */
  function FormatDateLabel(date: string, time: string): (text: string)
    ensures text == DefaultDateLabel <==> date == [] || !WellFormedDate(date)
  {
    if date == [] || !WellFormedDate(date) then DefaultDateLabel
    else
      var p := Split(date, '-');
      var text := p[0] + "년 " + NumberText(p[1]) + "월 " + NumberText(p[2]) + "일 · " + TimeLabel(time);
      assert text[|p[0]|] == '년';
      assert '년' !in DefaultDateLabel;
      text
  }

  /** `eventType && eventType.trim() ? eventType : "주일 예배"`. */
  function EventTypeLabel(eventType: Option<string>): string
  {
    if eventType.Some? && Trim(eventType.value) != [] then eventType.value else DefaultEventType
  }

  /**
   * `formatBulletinOption`: `"{y}년 {m}월 {d}일 {type}"`; `"—"` for no date,
   * and a non-empty date is shown as it is exactly when it is malformed.
   */
  function FormatBulletinOption(date: string, eventType: Option<string>): (text: string)
    ensures date == [] ==> text == "—"
    ensures date != [] ==> (text == date <==> !WellFormedDate(date))
  {
    if date == [] then "—"
    else if !WellFormedDate(date) then date
    else
      var p := Split(date, '-');
      var text := p[0] + "년 " + NumberText(p[1]) + "월 " + NumberText(p[2]) + "일 " + EventTypeLabel(eventType);
      SplitFirstPiece(date, '-');
      assert text[|p[0]|] == '년' && date[|p[0]|] == '-';
      text
  }

  // ---------------------------------------------------------------------------
  // Sections
  // ---------------------------------------------------------------------------

  datatype SectionId = Praises | Prayers | Passage | Sermon | Commitment | Announcements

  /** One praise card on screen: a link to its score when it has an image, a plain box otherwise. */
  datatype CardView =
    | ScoreLink(url: string, index: nat, date: string, caption: string)
    | PlainCard(caption: string)

  /** The parts of the sermon section that are shown, in order. */
  datatype SermonPart =
    | MainTitle(text: string, color: Option<string>)
    | SubTitle(text: string, color: Option<string>)
    | Description(html: string)

  datatype Body =
    | Html(html: string)
    | Cards(cards: seq<CardView>)
    | SermonParts(parts: seq<SermonPart>)
    | Paragraph(text: string)
    | Paragraphs(lines: seq<string>)

  datatype Section = Section(id: SectionId, tabLabel: string, title: string, body: Body)

  /** `raw.replace(/\n/g, "<br />")`. */
  function NewlinesToBr(s: string): (r: string)
    ensures '\n' !in r
  {
    if s == [] then []
    else (if s[0] == '\n' then "<br />" else [s[0]]) + NewlinesToBr(s[1..])
  }

  /** A style colour is applied only when it is a non-empty string. */
  function Color(c: Option<string>): (r: Option<string>)
    ensures r.Some? <==> c.Some? && c.value != []
  {
    if c.Some? && c.value != [] then c else None
  }

  function CardViewOf(card: Praises.PraiseCard, i: nat, date: string): CardView
  {
    if card.imageUrl != [] then ScoreLink(card.imageUrl, i, date, if card.title != [] then card.title else "찬양")
    else PlainCard(if card.title != [] then card.title else "—")
  }

  function CardViews(cards: seq<Praises.PraiseCard>, date: string): (views: seq<CardView>)
    ensures |views| == |cards|
  {
    seq(|cards|, i requires 0 <= i < |cards| => CardViewOf(cards[i], i, date))
  }

  function PraisesBody(b: Store.Bulletin): Body
  {
    var cards := Praises.Decode(b.content.praises);
    if |cards| > 0 then Cards(CardViews(cards, b.date)) else Html(NewlinesToBr(b.content.praises))
  }

  function SermonBody(b: Store.Bulletin): Body
  {
    var c := b.content;
    SermonParts(
      (if c.sermonTitleMain != [] then [MainTitle(c.sermonTitleMain, Color(b.extras.sermonTitleMainColor))] else [])
      + (if c.sermonTitleSub != [] then [SubTitle(c.sermonTitleSub, Color(b.extras.sermonTitleSubColor))] else [])
      + (if c.sermonDescription != [] then [Description(NewlinesToBr(c.sermonDescription))] else []))
  }

  /** `x || "—"`. */
  function OrDash(s: string): (r: string)
    ensures r != []
  {
    if s == [] then "—" else s
  }

  function SectionIds(sections: seq<Section>): (ids: seq<SectionId>)
    ensures |ids| == |sections|
  {
    seq(|sections|, i requires 0 <= i < |sections| => sections[i].id)
  }

  /** The five sections around a given praises body. */
  function SectionList(praises: Body, b: Store.Bulletin): (sections: seq<Section>)
    ensures |sections| == 5
    ensures SectionIds(sections) == [Praises, Prayers, Passage, Sermon, Announcements]
  {
    var r := [
      Section(Praises, "찬양", "[찬양]", praises),
      Section(Prayers, "주기도문", "[주기도문]", Html(NewlinesToBr(b.content.prayers))),
      Section(Passage, "말씀", "[말씀]", Html(NewlinesToBr(OrDash(b.content.passage)))),
      Section(Sermon, "나눔 질문", "[나눔 질문]", SermonBody(b)),
      Section(Announcements, "광고", "[광고]", Html(NewlinesToBr(OrDash(b.content.announcements))))
    ];
    assert SectionIds(r) == [Praises, Prayers, Passage, Sermon, Announcements];
    r
  }

  /** `buildSectionsFromBulletin`: the five sections of the order of worship. */
  function BuildSections(b: Store.Bulletin): (sections: seq<Section>)
    ensures |sections| == 5
    ensures SectionIds(sections) == [Praises, Prayers, Passage, Sermon, Announcements]
  {
    SectionList(PraisesBody(b), b)
  }

  // ---------------------------------------------------------------------------
  // Worship-order screen
  // ---------------------------------------------------------------------------

  datatype Point = Point(x: real, y: real)

  const SwipeThreshold: real := 36.0
  const MinFontTenths := 9
  const MaxFontTenths := 12

  function Abs(r: real): real
  {
    if r < 0.0 then -r else r
  }

  /**
   * The section a touch that started at `start` and ended at (`x`, `y`)
   * leads to: at most one section away, and never out of range.
   */
  function SwipeTarget(index: nat, count: nat, start: Option<Point>, x: real, y: real): (t: nat)
    ensures index < count ==> t < count
    ensures t == index || t + 1 == index || t == index + 1
  {
    match start
    case None => index
    case Some(p) =>
      var dx := x - p.x;
      var dy := y - p.y;
      if Abs(dx) < Abs(dy) || Abs(dx) < SwipeThreshold then index
      else if dx > SwipeThreshold && index > 0 then index - 1
      else if dx < -SwipeThreshold && index + 1 < count then index + 1
      else index
  }

  class OrderScreen {
    var activeIndex: nat
    var touchStart: Option<Point>
    /** The font scale in tenths: 10 is 1.0. */
    var fontTenths: int
    const sectionCount: nat

    ghost predicate Valid()
      reads this
    {
      activeIndex < sectionCount && MinFontTenths <= fontTenths <= MaxFontTenths
    }

    constructor (count: nat)
      requires count > 0
      ensures Valid()
      ensures sectionCount == count && activeIndex == 0 && touchStart == None && fontTenths == 10
    {
      sectionCount := count;
      activeIndex := 0;
      touchStart := None;
      fontTenths := 10;
    }

    method TouchStart(x: real, y: real)
      requires Valid()
      modifies this
      ensures Valid()
      ensures touchStart == Some(Point(x, y))
      ensures activeIndex == old(activeIndex) && fontTenths == old(fontTenths)
    {
      touchStart := Some(Point(x, y));
    }

    /** `handleTouchEnd`: the recorded start is cleared first, then the swipe is judged. */
    method TouchEnd(x: real, y: real)
      requires Valid()
      modifies this
      ensures Valid()
      ensures touchStart == None
      ensures activeIndex == SwipeTarget(old(activeIndex), sectionCount, old(touchStart), x, y)
      ensures fontTenths == old(fontTenths)
    {
      var start := touchStart;
      touchStart := None;
      if start.None? {
        return;
      }
      var dx := x - start.value.x;
      var dy := y - start.value.y;
      if Abs(dx) < Abs(dy) || Abs(dx) < SwipeThreshold {
        return;
      }
      if dx > SwipeThreshold && activeIndex > 0 {
        activeIndex := activeIndex - 1;
      } else if dx < -SwipeThreshold && activeIndex < sectionCount - 1 {
        activeIndex := activeIndex + 1;
      }
    }

    /** A tap on tab `i`. */
    method SelectTab(i: nat)
      requires Valid() && i < sectionCount
      modifies this
      ensures Valid()
      ensures activeIndex == i && touchStart == old(touchStart) && fontTenths == old(fontTenths)
    {
      activeIndex := i;
    }

    method DecreaseFont()
      requires Valid()
      modifies this
      ensures Valid()
      ensures fontTenths == if old(fontTenths) > MinFontTenths then old(fontTenths) - 1 else MinFontTenths
      ensures activeIndex == old(activeIndex) && touchStart == old(touchStart)
    {
      if fontTenths - 1 > MinFontTenths {
        fontTenths := fontTenths - 1;
      } else {
        fontTenths := MinFontTenths;
      }
    }

    method IncreaseFont()
      requires Valid()
      modifies this
      ensures Valid()
      ensures fontTenths == if old(fontTenths) < MaxFontTenths then old(fontTenths) + 1 else MaxFontTenths
      ensures activeIndex == old(activeIndex) && touchStart == old(touchStart)
    {
      if fontTenths + 1 < MaxFontTenths {
        fontTenths := fontTenths + 1;
      } else {
        fontTenths := MaxFontTenths;
      }
    }
  }

  // ---------------------------------------------------------------------------
  // Read path: session cache
  // ---------------------------------------------------------------------------

  /** `dateParam ? "bulletin-" + dateParam : "bulletin-latest"`. */
  function CacheKey(dateParam: Option<string>): string
  {
    if dateParam.Some? && dateParam.value != [] then "bulletin-" + dateParam.value else "bulletin-latest"
  }

  /** `b && b.date`: what the read path accepts as a bulletin. */
  predicate Acceptable(b: Json)
  {
    Truthy(b) && Field(b, "date").Some? && Truthy(Field(b, "date").value)
  }

  /** A cache entry is used when it is non-empty, parses, and holds a bulletin. */
  function CachedBulletin(entry: Option<string>): Option<Json>
  {
    if entry.None? || entry.value == [] then None
    else
      match Parse(entry.value)
      case Some(b) => if Acceptable(b) then Some(b) else None
      case None => None
  }

  datatype ReadPlan =
    | ShowCached(bulletin: Json, revalidate: bool)
    | FetchByDate(date: string)
    | FetchLatest

  /**
   * What the read path does first, given the date parameter and the session
   * store: a cached entry is shown only when it parses to a bulletin, with a
   * refresh exactly when a date is given; otherwise the record is fetched,
   * by date when one is given.
   */
  function PlanRead(dateParam: Option<string>, storage: map<string, string>): (plan: ReadPlan)
    ensures plan.ShowCached? ==>
      CacheKey(dateParam) in storage
      && Parse(storage[CacheKey(dateParam)]) == Some(plan.bulletin) && Acceptable(plan.bulletin)
      && (plan.revalidate <==> dateParam.Some? && dateParam.value != [])
    ensures !plan.ShowCached? ==>
      (plan.FetchByDate? <==> dateParam.Some? && dateParam.value != [])
      && (plan.FetchByDate? ==> plan.date == dateParam.value)
    ensures var key := CacheKey(dateParam);
      key in storage && storage[key] != [] && Parse(storage[key]).Some? && Acceptable(Parse(storage[key]).value) ==>
        plan == ShowCached(Parse(storage[key]).value, dateParam.Some? && dateParam.value != [])
  {
    var key := CacheKey(dateParam);
    var entry := if key in storage then Some(storage[key]) else None;
    match CachedBulletin(entry)
    case Some(b) => ShowCached(b, dateParam.Some? && dateParam.value != [])
    case None =>
      if dateParam.Some? && dateParam.value != [] then FetchByDate(dateParam.value) else FetchLatest
  }

  /** A fetched bulletin is shown and cached only when it is acceptable. */
  function StoreFetched(dateParam: Option<string>, storage: map<string, string>, b: Json): map<string, string>
  {
    if Acceptable(b) then storage[CacheKey(dateParam) := Serialize(b)] else storage
  }

  // ---------------------------------------------------------------------------
  // Properties
  // ---------------------------------------------------------------------------

  /** Splitting `y-m-d` gives back its three parts. */
  lemma SplitDate(y: string, m: string, d: string)
    requires '-' !in y && '-' !in m && '-' !in d
    ensures Split(y + "-" + m + "-" + d, '-') == [y, m, d]
  {
    var parts := [y, m, d];
    assert Join(parts, '-') == y + "-" + m + "-" + d by {
      assert Join(parts[1..], '-') == m + "-" + d by {
        assert parts[1..][1..] == [d];
      }
    }
    SplitJoin(parts, '-');
  }

  /**
   * For `y-m-d` with non-empty digit parts, the label shows the year as it is
   * and the month and day as numbers, followed by the time label.
   */
  lemma DateLabelShape(y: string, m: string, d: string, time: string)
    requires y != [] && m != [] && d != []
    requires '-' !in y && AllDigits(m) && AllDigits(d)
    ensures FormatDateLabel(y + "-" + m + "-" + d, time)
      == y + "년 " + NatToDecimal(DecimalValue(m)) + "월 " + NatToDecimal(DecimalValue(d)) + "일 · " + TimeLabel(time)
  {
    DigitsNoDash(m);
    DigitsNoDash(d);
    SplitDate(y, m, d);
    DigitsTrimmed(m);
    DigitsTrimmed(d);
  }

  lemma DigitsNoDash(s: string)
    requires AllDigits(s)
    ensures '-' !in s
  {
    forall i | 0 <= i < |s|
      ensures s[i] != '-'
    {
      assert IsDigit(s[i]);
    }
  }

  lemma DigitsTrimmed(s: string)
    requires s != [] && AllDigits(s)
    ensures Trim(s) == s
  {
    assert !IsJsSpace(s[0]) by { assert IsDigit(s[0]); }
    assert !IsJsSpace(s[|s| - 1]) by { assert IsDigit(s[|s| - 1]); }
    TrimOfTrimmed(s);
  }

  /** Leading zeros of a month or day are dropped: `"03"` is shown as `3`. */
  lemma {:induction false} NumberTextLeadingZeros(m: string)
    requires m != [] && AllDigits(m)
    ensures NumberText("0" + m) == NumberText(m)
  {
    DigitsTrimmed(m);
    DigitsTrimmed("0" + m);
    DecimalValueLeadingZero(m);
  }

  /** A numeral without leading zeros is shown as it is. */
  lemma NumberTextCanonical(m: string)
    requires m != [] && AllDigits(m) && (|m| > 1 ==> m[0] != '0')
    ensures NumberText(m) == m
  {
    DigitsTrimmed(m);
    NatOfDecimalValue(m);
  }

  /** Parts after the third one are ignored. */
  lemma DateLabelExtraParts(y: string, m: string, d: string, more: string, time: string)
    requires '-' !in y && '-' !in m && '-' !in d
    ensures FormatDateLabel(y + "-" + m + "-" + d + "-" + more, time) == FormatDateLabel(y + "-" + m + "-" + d, time)
  {
    SplitDate(y, m, d);
    var s := y + "-" + m + "-" + d + "-" + more;
    assert s == y + ['-'] + (m + ['-'] + (d + ['-'] + more));
    SplitPrefix(y, m + ['-'] + (d + ['-'] + more), '-');
    SplitPrefix(m, d + ['-'] + more, '-');
    SplitPrefix(d, more, '-');
  }

  /** The event type shown in an option: the given one, or the default when it is absent or blank. */
  lemma OptionLabel(eventType: Option<string>)
    ensures EventTypeLabel(eventType) == DefaultEventType
      <== eventType.None? || AllJsSpace(eventType.value)
    ensures eventType.Some? && !AllJsSpace(eventType.value) ==> EventTypeLabel(eventType) == eventType.value
  {
    if eventType.Some? {
      TrimEmptyIffAllSpace(eventType.value);
    }
  }

  /**
   * For `y-m-d` with non-empty digit parts, an option shows the year as it is,
   * the month and day as numbers, and then the event-type label.
   */
  lemma BulletinOptionShape(y: string, m: string, d: string, eventType: Option<string>)
    requires y != [] && m != [] && d != []
    requires '-' !in y && AllDigits(m) && AllDigits(d)
    ensures FormatBulletinOption(y + "-" + m + "-" + d, eventType)
      == y + "년 " + NatToDecimal(DecimalValue(m)) + "월 " + NatToDecimal(DecimalValue(d)) + "일 " + EventTypeLabel(eventType)
  {
    DigitsNoDash(m);
    DigitsNoDash(d);
    SplitDate(y, m, d);
    DigitsTrimmed(m);
    DigitsTrimmed(d);
  }

  /** The date selector's options for a listed summary: the summary has no event type. */
  function ListOptions(items: seq<Store.Summary>): (options: seq<string>)
    ensures |options| == |items|
  {
    seq(|items|, i requires 0 <= i < |items| => FormatBulletinOption(items[i].date, None))
  }

  /**
   * Every option built from the list route's summaries for a well-formed date
   * ends in the default event type, whatever the stored record's event type.
   */
  lemma ListedOptionsDefault(items: seq<Store.Summary>)
    ensures forall i :: 0 <= i < |items| && items[i].date != [] && WellFormedDate(items[i].date) ==>
      |DefaultEventType| <= |ListOptions(items)[i]|
      && ListOptions(items)[i][|ListOptions(items)[i]| - |DefaultEventType|..] == DefaultEventType
  {
  }

  /**
   * The prayers, passage and announcements sections show their column with
   * `<br />` breaks; an empty passage or announcements column shows "—".
   */
  lemma SectionBodies(b: Store.Bulletin)
    ensures BuildSections(b)[1].body == Html(NewlinesToBr(b.content.prayers))
    ensures BuildSections(b)[2].body == Html(NewlinesToBr(OrDash(b.content.passage)))
    ensures BuildSections(b)[4].body == Html(NewlinesToBr(OrDash(b.content.announcements)))
    ensures b.content.passage == [] ==> BuildSections(b)[2].body == Html("—")
    ensures b.content.announcements == [] ==> BuildSections(b)[4].body == Html("—")
    ensures b.content.passage != [] ==> BuildSections(b)[2].body == Html(NewlinesToBr(b.content.passage))
    ensures b.content.announcements != [] ==> BuildSections(b)[4].body == Html(NewlinesToBr(b.content.announcements))
  {
    NewlinesToBrNoNewline("—");
  }

  /**
   * Only cards with an image become score links; a link carries the card's
   * image URL, its position in the whole card list and the bulletin's date.
   */
  lemma ScoreLinks(b: Store.Bulletin)
    requires |Praises.Decode(b.content.praises)| > 0
    ensures var cards := Praises.Decode(b.content.praises);
      BuildSections(b)[0].body == Cards(CardViews(cards, b.date))
      && forall i :: 0 <= i < |cards| ==>
        (CardViews(cards, b.date)[i].ScoreLink? <==> cards[i].imageUrl != [])
        && (cards[i].imageUrl != [] ==>
          CardViews(cards, b.date)[i].url == cards[i].imageUrl
          && CardViews(cards, b.date)[i].index == i
          && CardViews(cards, b.date)[i].date == b.date)
  {
  }

  /** Without cards, the praises column is shown as HTML text. */
  lemma PraisesAsHtml(b: Store.Bulletin)
    requires Praises.Decode(b.content.praises) == []
    ensures BuildSections(b)[0].body == Html(NewlinesToBr(b.content.praises))
  {
  }

  /** Each sermon part is shown only when its column is non-empty, in the order main, sub, description. */
  lemma SermonPartsShown(b: Store.Bulletin)
    ensures var parts := BuildSections(b)[3].body.parts;
      |parts| == (if b.content.sermonTitleMain != [] then 1 else 0)
        + (if b.content.sermonTitleSub != [] then 1 else 0)
        + (if b.content.sermonDescription != [] then 1 else 0)
      && (b.content.sermonTitleMain != [] ==> parts[0] == MainTitle(b.content.sermonTitleMain, Color(b.extras.sermonTitleMainColor)))
      && (b.content.sermonDescription != [] ==> parts[|parts| - 1] == Description(NewlinesToBr(b.content.sermonDescription)))
  {
  }

  /** The newline replacement works line by line. */
  lemma {:induction false} NewlinesToBrAppend(a: string, b: string)
    ensures NewlinesToBr(a + "\n" + b) == NewlinesToBr(a) + "<br />" + NewlinesToBr(b)
  {
    if a == [] {
      assert a + "\n" + b == "\n" + b;
      assert ("\n" + b)[1..] == b;
    } else {
      assert (a + "\n" + b)[1..] == a[1..] + "\n" + b;
      NewlinesToBrAppend(a[1..], b);
    }
  }

  /** Text without line breaks is shown unchanged. */
  lemma {:induction false} NewlinesToBrNoNewline(s: string)
    requires '\n' !in s
    ensures NewlinesToBr(s) == s
  {
    if s != [] {
      NewlinesToBrNoNewline(s[1..]);
      assert [s[0]] + s[1..] == s;
    }
  }

  /**
   * The section changes only after a recorded start, with horizontal movement
   * at least as large as vertical (ties count as horizontal) and strictly
   * beyond the threshold: rightwards goes back, leftwards goes forward.
   */
  lemma SwipeMoves(index: nat, count: nat, start: Option<Point>, x: real, y: real)
    requires index < count
    ensures var t := SwipeTarget(index, count, start, x, y);
      t != index <==>
        (start.Some? && Abs(x - start.value.x) >= Abs(y - start.value.y)
        && Abs(x - start.value.x) > SwipeThreshold
        && ((x - start.value.x > 0.0 && index > 0) || (x - start.value.x < 0.0 && index + 1 < count)))
    ensures var t := SwipeTarget(index, count, start, x, y);
      (t < index ==> x - start.value.x > 0.0) && (t > index ==> x - start.value.x < 0.0)
  {
  }

  /** Keys of different given dates differ, and differ from the latest key except for the date `latest`. */
  lemma CacheKeys(d1: string, d2: string)
    requires d1 != [] && d2 != []
    ensures CacheKey(Some(d1)) == CacheKey(Some(d2)) <==> d1 == d2
    ensures CacheKey(Some(d1)) == CacheKey(None) <==> d1 == "latest"
  {
    var p := "bulletin-";
    if CacheKey(Some(d1)) == CacheKey(Some(d2)) {
      assert d1 == CacheKey(Some(d1))[|p|..];
    }
    if CacheKey(Some(d1)) == CacheKey(None) {
      assert d1 == CacheKey(None)[|p|..];
    }
  }

  /** What the read path caches after a fetch is shown from the cache on the next visit. */
  lemma {:induction false} CachedIsReused(dateParam: Option<string>, storage: map<string, string>, b: Json)
    requires Acceptable(b) && WellFormed(b)
    ensures PlanRead(dateParam, StoreFetched(dateParam, storage, b))
      == ShowCached(b, dateParam.Some? && dateParam.value != [])
  {
    ParseSerialize(b);
    assert b.JObject?;
  }
}
