/**
 * The stored `praises` column: a list of praise cards kept as one string.
 * Two formats are read: the current one, a JSON array of
 * `{title, imageUrl}` objects, and a legacy one, one `# Title` per line.
 * Only the JSON format is written.
 */
module Praises {
  import opened Wrappers
  import opened Text
  import opened Json

  datatype PraiseCard = PraiseCard(title: string, imageUrl: string)

  // ---------------------------------------------------------------------------
  // Legacy line format
  // ---------------------------------------------------------------------------

  /**
   * The `#` heading mark of a legacy line, with the white space after it,
   * when `#` comes first: what remains is the line from its first
   * non-space character after the `#`.
   */
  function StripHeading(line: string): (r: string)
    ensures |r| <= |line|
    ensures line == [] || line[0] != '#' ==> r == line
    ensures line != [] && line[0] == '#' ==>
      exists k :: 1 <= k <= |line| && r == line[k..]
        && (forall i :: 1 <= i < k ==> IsJsSpace(line[i]))
        && (k < |line| ==> !IsJsSpace(line[k]))
  {
    if line != [] && line[0] == '#' then
      var n := LeadingSpaces(line[1..]);
      assert line[1..][n..] == line[1 + n..];
      assert forall i :: 1 <= i < 1 + n ==> line[i] == line[1..][..n][i - 1];
      TrimStart(line[1..])
    else line
  }

  /** The title a legacy line yields, before blank titles are dropped. */
  function LineTitle(line: string): string
  {
    Trim(StripHeading(line))
  }

  /** `.map(line => …)`: one title per line. */
  function LineTitles(lines: seq<string>): (titles: seq<string>)
    ensures |titles| == |lines|
    ensures forall i :: 0 <= i < |lines| ==> titles[i] == LineTitle(lines[i])
  {
    if lines == [] then [] else [LineTitle(lines[0])] + LineTitles(lines[1..])
  }

  /** `.filter(Boolean)` on strings: the empty ones are dropped. */
  function DropEmpty(ts: seq<string>): (r: seq<string>)
    ensures |r| <= |ts|
    ensures forall i :: 0 <= i < |r| ==> r[i] != [] && r[i] in ts
  {
    if ts == [] then []
    else if ts[0] == [] then DropEmpty(ts[1..])
    else [ts[0]] + DropEmpty(ts[1..])
  }

  function LegacyTitles(lines: seq<string>): seq<string>
  {
    DropEmpty(LineTitles(lines))
  }

  function TitleCards(titles: seq<string>): (cards: seq<PraiseCard>)
    ensures |cards| == |titles|
    ensures forall i :: 0 <= i < |cards| ==> cards[i] == PraiseCard(titles[i], "")
  {
    if titles == [] then [] else [PraiseCard(titles[0], "")] + TitleCards(titles[1..])
  }

  // ---------------------------------------------------------------------------
  // JSON format
  // ---------------------------------------------------------------------------

  /** One array element read as a card: a field that is not a string reads as `""`. */
  function ItemCard(item: Json): (c: PraiseCard)
    ensures c.title == StringField(item, "title") && c.imageUrl == StringField(item, "imageUrl")
    ensures !item.JObject? ==> c == PraiseCard("", "")
  {
    PraiseCard(StringField(item, "title"), StringField(item, "imageUrl"))
  }

  function ItemCards(items: seq<Json>): (cards: seq<PraiseCard>)
    ensures |cards| == |items|
    ensures forall i :: 0 <= i < |items| ==> cards[i] == ItemCard(items[i])
  {
    if items == [] then [] else [ItemCard(items[0])] + ItemCards(items[1..])
  }

  /** The JSON a card is written as; the key order is the one the editor builds. */
  function CardJson(c: PraiseCard): Json
  {
    JObject([Member("title", JString(c.title)), Member("imageUrl", JString(c.imageUrl))])
  }

  function CardsJson(cards: seq<PraiseCard>): (items: seq<Json>)
    ensures |items| == |cards|
    ensures forall i :: 0 <= i < |cards| ==> items[i] == CardJson(cards[i])
  {
    if cards == [] then [] else [CardJson(cards[0])] + CardsJson(cards[1..])
  }

  // ---------------------------------------------------------------------------
  // The codec
  // ---------------------------------------------------------------------------

  /** `parsePraises`: empty or all-white-space text holds no cards. */
  function Decode(value: string): (cards: seq<PraiseCard>)
    ensures AllJsSpace(value) ==> cards == []
  {
    TrimEmptyIffAllSpace(value);
    var trimmed := Trim(value);
    if trimmed == [] then []
    else if trimmed[0] != '[' then TitleCards(LegacyTitles(Split(trimmed, '\n')))
    else
      match Parse(trimmed)
      case Some(JArray(items)) => ItemCards(items)
      case _ => []
  }

  /** `stringifyPraises`. */
  function Encode(cards: seq<PraiseCard>): (s: string)
    ensures cards == [] <==> s == ""
    ensures cards != [] ==> s[0] == '[' && s[|s| - 1] == ']'
  {
    if cards == [] then "" else Serialize(JArray(CardsJson(cards)))
  }

  // ---------------------------------------------------------------------------
  // Properties
  // ---------------------------------------------------------------------------

  /** Reading the legacy format: no image, no blank title, titles trimmed. */
  lemma LegacyCards(value: string)
    requires Trim(value) != [] && Trim(value)[0] != '['
    ensures forall i :: 0 <= i < |Decode(value)| ==>
      Decode(value)[i].imageUrl == "" && Decode(value)[i].title != []
      && !IsJsSpace(Decode(value)[i].title[0]) && !IsJsSpace(Decode(value)[i].title[|Decode(value)[i].title| - 1])
  {
    var titles := LegacyTitles(Split(Trim(value), '\n'));
    LegacyTitlesTrimmed(Split(Trim(value), '\n'));
    assert Decode(value) == TitleCards(titles);
  }

  lemma LegacyTitlesTrimmed(lines: seq<string>)
    ensures forall i :: 0 <= i < |LegacyTitles(lines)| ==>
      !IsJsSpace(LegacyTitles(lines)[i][0]) && !IsJsSpace(LegacyTitles(lines)[i][|LegacyTitles(lines)[i]| - 1])
  {
    var titles := LineTitles(lines);
    forall i | 0 <= i < |LegacyTitles(lines)|
      ensures !IsJsSpace(LegacyTitles(lines)[i][0]) && !IsJsSpace(LegacyTitles(lines)[i][|LegacyTitles(lines)[i]| - 1])
    {
      var t := LegacyTitles(lines)[i];
      var j :| 0 <= j < |titles| && titles[j] == t;
      TrimEnds(StripHeading(lines[j]));
    }
  }

  /** Dropping empty strings keeps the order of the rest: it distributes over concatenation. */
  lemma {:induction false} DropEmptyAppend(a: seq<string>, b: seq<string>)
    ensures DropEmpty(a + b) == DropEmpty(a) + DropEmpty(b)
  {
    if a != [] {
      assert (a + b)[1..] == a[1..] + b;
      DropEmptyAppend(a[1..], b);
    } else {
      assert a + b == b;
    }
  }

  /** Without empty strings, nothing is dropped. */
  lemma {:induction false} DropEmptyNone(ts: seq<string>)
    requires forall i :: 0 <= i < |ts| ==> ts[i] != []
    ensures DropEmpty(ts) == ts
  {
    if ts != [] {
      DropEmptyNone(ts[1..]);
    }
  }

  /** A non-empty trim result begins and ends with a non-space character. */
  lemma TrimEnds(s: string)
    requires Trim(s) != []
    ensures !IsJsSpace(Trim(s)[0]) && !IsJsSpace(Trim(s)[|Trim(s)| - 1])
  {
    var t := TrimStart(s);
    var r := TrimEnd(t);
    assert r == t[..|r|];
    assert t[0] == r[0];
  }

  /** Legacy lines with no blank title keep their order and count, one card per line. */
  lemma LegacyOrder(lines: seq<string>)
    requires forall j :: 0 <= j < |lines| ==> LineTitle(lines[j]) != []
    ensures LegacyTitles(lines) == LineTitles(lines)
  {
    DropEmptyNone(LineTitles(lines));
  }

  /**
   * The `#` is removed only in the first position of a line, with the white
   * space after it; what remains is trimmed.
   */
  lemma HeadingStripped(line: string)
    ensures line != [] && line[0] == '#' ==> LineTitle(line) == Trim(line[1..])
    ensures (line == [] || line[0] != '#') ==> LineTitle(line) == Trim(line)
  {
    if line != [] && line[0] == '#' {
      TrimOfTrimStart(line[1..]);
    }
  }

  /** Trimming after a leading trim is one trim. */
  lemma TrimOfTrimStart(s: string)
    ensures Trim(TrimStart(s)) == Trim(s)
  {
    var t := TrimStart(s);
    assert TrimStart(t) == t;
  }

  /** The JSON format: anything but an array reads as no cards, never as an error. */
  lemma JsonNotArray(value: string)
    requires Trim(value) != [] && Trim(value)[0] == '['
    requires Parse(Trim(value)).None? || !Parse(Trim(value)).value.JArray?
    ensures Decode(value) == []
  {
  }

  /** The JSON format: one card per array element, with non-string fields read as `""`. */
  lemma JsonArray(value: string, items: seq<Json>)
    requires Trim(value) != [] && Trim(value)[0] == '['
    requires Parse(Trim(value)) == Some(JArray(items))
    ensures |Decode(value)| == |items|
    ensures forall i :: 0 <= i < |items| ==> Decode(value)[i].title == StringField(items[i], "title")
    ensures forall i :: 0 <= i < |items| ==>
      (items[i].JNull? || items[i].JBool? || items[i].JNumber? || items[i].JString? || items[i].JArray?)
      ==> Decode(value)[i] == PraiseCard("", "")
  {
  }

  /** A written card is read back field by field. */
  lemma CardJsonFields(c: PraiseCard)
    ensures ItemCard(CardJson(c)) == c
  {
    var ms := CardJson(c).members;
    assert ms[|ms| - 1].key == "imageUrl";
    assert Get(ms, "title") == Get(ms[..1], "title");
  }

  lemma {:induction false} ItemCardsOfCardsJson(cards: seq<PraiseCard>)
    ensures ItemCards(CardsJson(cards)) == cards
  {
    forall i | 0 <= i < |cards|
      ensures ItemCards(CardsJson(cards))[i] == cards[i]
    {
      CardJsonFields(cards[i]);
    }
  }

  /** `parsePraises(stringifyPraises(cards)) == cards`, for every list of cards. */
  lemma {:induction false} DecodeEncode(cards: seq<PraiseCard>)
    ensures Decode(Encode(cards)) == cards
  {
    if cards != [] {
      var s := Encode(cards);
      var v := JArray(CardsJson(cards));
      CardsJsonWellFormed(cards);
      TrimOfTrimmed(s);
      ParseSerialize(v);
      ItemCardsOfCardsJson(cards);
    }
  }

  lemma CardsJsonWellFormed(cards: seq<PraiseCard>)
    ensures WellFormed(JArray(CardsJson(cards)))
  {
    var v := JArray(CardsJson(cards));
    forall i | 0 <= i < |v.items|
      ensures WellFormed(v.items[i])
    {
      var ms := v.items[i].members;
      assert WellFormed(ms[0].value) && WellFormed(ms[1].value);
    }
  }
}
