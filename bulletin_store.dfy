/**
 * The bulletin route: a store of bulletin records keyed by their date,
 * read one at a time or as a newest-first list, and written by an
 * upsert whose request body is validated and filled with defaults.
 *
 * The database is a map from date to record. The request body is the value
 * `request.json()` produced, or `None` when the body was not JSON.
 */
module Store {
  import opened Wrappers
  import opened Json

  /** The nine columns a POST writes. */
  datatype Content = Content(
    time: string,
    sermonTitleMain: string,
    sermonTitleSub: string,
    praises: string,
    prayers: string,
    passage: string,
    sermonDescription: string,
    commitment: string,
    announcements: string)

  /** The columns a POST never names: set by the schema on create, kept on update. */
  datatype Extras = Extras(
    eventType: string,
    sermonTitleMainColor: Option<string>,
    sermonTitleSubColor: Option<string>,
    introBackgroundUrl: Option<string>,
    youtubeUrl: Option<string>)

  datatype Bulletin = Bulletin(date: string, content: Content, extras: Extras)

  /** One row of the list view: the two selected columns. */
  datatype Summary = Summary(date: string, sermonTitleMain: string)

  datatype Response =
    | Record(bulletin: Bulletin)
    | Summaries(items: seq<Summary>)
    | Removed
    | Failure(status: nat, error: string)

  const NotFound := "해당 날짜의 주보가 없습니다."
  const DateRequired := "날짜(date)가 필요합니다."
  const SaveFailed := "저장 중 오류가 발생했습니다."
  const DeleteFailed := "삭제하지 못했습니다."

  const DefaultTime := "11:00"

  /** The body keys of the nine written columns, in the order they are read. */
  const ColumnKeys: seq<string> := ["time", "sermonTitleMain", "sermonTitleSub", "praises", "prayers",
    "passage", "sermonDescription", "commitment", "announcements"]

  function DefaultOf(key: string): string
  {
    if key == "time" then DefaultTime else ""
  }

  /** The column of `c` that body key `key` fills. */
  function Column(c: Content, key: string): string
  {
    if key == "time" then c.time
    else if key == "sermonTitleMain" then c.sermonTitleMain
    else if key == "sermonTitleSub" then c.sermonTitleSub
    else if key == "praises" then c.praises
    else if key == "prayers" then c.prayers
    else if key == "passage" then c.passage
    else if key == "sermonDescription" then c.sermonDescription
    else if key == "commitment" then c.commitment
    else if key == "announcements" then c.announcements
    else ""
  }

  // ---------------------------------------------------------------------------
  // Validation and defaults
  // ---------------------------------------------------------------------------

  /**
   * `body.key ?? default` as the column receives it: absent and `null` take the
   * default, a string is stored, and any other value is refused by the
   * datastore (`None`).
   */
  function ColumnValue(body: Json, key: string): Option<string>
  {
    match Field(body, key)
    case None => Some(DefaultOf(key))
    case Some(JNull) => Some(DefaultOf(key))
    case Some(JString(s)) => Some(s)
    case Some(_) => None
  }

  /** The `data` object of a POST: every column from the body alone. */
  function BodyContent(body: Json): Option<Content>
  {
    var time := ColumnValue(body, "time");
    var main := ColumnValue(body, "sermonTitleMain");
    var sub := ColumnValue(body, "sermonTitleSub");
    var praises := ColumnValue(body, "praises");
    var prayers := ColumnValue(body, "prayers");
    var passage := ColumnValue(body, "passage");
    var description := ColumnValue(body, "sermonDescription");
    var commitment := ColumnValue(body, "commitment");
    var announcements := ColumnValue(body, "announcements");
    if time.Some? && main.Some? && sub.Some? && praises.Some? && prayers.Some? && passage.Some?
      && description.Some? && commitment.Some? && announcements.Some?
    then Some(Content(time.value, main.value, sub.value, praises.value, prayers.value, passage.value,
      description.value, commitment.value, announcements.value))
    else None
  }

  /** What a POST decides before touching the store. */
  datatype Verdict = Reject(status: nat, error: string) | Accept(date: string, content: Content)

  /**
   * A body is accepted exactly when it is JSON with a non-empty string
   * `date` and every written column a string, `null` or absent; the
   * accepted date and content are the body's. A refusal is a 400 or a 500.
   */
  function CheckPost(body: Option<Json>): (v: Verdict)
    ensures v.Accept? <==>
      body.Some? && body.value != JNull && Field(body.value, "date").Some? && Field(body.value, "date").value.JString?
      && Field(body.value, "date").value.s != "" && BodyContent(body.value).Some?
    ensures v.Accept? ==>
      Field(body.value, "date") == Some(JString(v.date)) && BodyContent(body.value) == Some(v.content)
    ensures v.Reject? ==> v.status == 400 || v.status == 500
  {
    // the body was not JSON, or was `null` and cannot be destructured
    if body.None? || body.value == JNull then Reject(500, SaveFailed)
    else
      var date := Field(body.value, "date");
      if date.None? || !date.value.JString? || date.value.s == "" then Reject(400, DateRequired)
      else if BodyContent(body.value).None? then Reject(500, SaveFailed)
      else Accept(date.value.s, BodyContent(body.value).value)
  }

  /** The record the upsert leaves under `date`: created, or updated in the written columns only. */
  function Upserted(records: map<string, Bulletin>, defaults: Extras, date: string, c: Content): Bulletin
  {
    if date in records then records[date].(content := c) else Bulletin(date, c, defaults)
  }

  /**
   * The store after a POST: unchanged when the body is refused; otherwise
   * the accepted date is filed and every other record is kept as it was.
   */
  function AfterPost(records: map<string, Bulletin>, defaults: Extras, body: Option<Json>): (after: map<string, Bulletin>)
    ensures CheckPost(body).Reject? ==> after == records
    ensures CheckPost(body).Accept? ==> after.Keys == records.Keys + {CheckPost(body).date}
    ensures forall e :: e in records && !(CheckPost(body).Accept? && e == CheckPost(body).date) ==>
      e in after && after[e] == records[e]
  {
    match CheckPost(body)
    case Reject(_, _) => records
    case Accept(d, c) => records[d := Upserted(records, defaults, d, c)]
  }

  /** The store after `DELETE /api/bulletins/{date}`: the record goes, if there is one. */
  function AfterDelete(records: map<string, Bulletin>, date: string): (after: map<string, Bulletin>)
    ensures date !in after
    ensures after.Keys == records.Keys - {date}
    ensures forall d :: d in after ==> after[d] == records[d]
  {
    map d | d in records && d != date :: records[d]
  }

  /** Every record is filed under its own date. */
  ghost predicate Keyed(records: map<string, Bulletin>)
  {
    forall d :: d in records ==> records[d].date == d
  }

  // ---------------------------------------------------------------------------
  // Newest-first order
  // ---------------------------------------------------------------------------

  /** Strict lexicographic order on strings: `a` sorts before `b`. */
  predicate Below(a: string, b: string)
    decreases |a|
  {
    if a == [] then b != []
    else if b == [] then false
    else if a[0] != b[0] then a[0] < b[0]
    else Below(a[1..], b[1..])
  }

  predicate NewestFirst(items: seq<Summary>)
  {
    forall i, j :: 0 <= i < j < |items| ==> Below(items[j].date, items[i].date)
  }

  lemma {:induction false} BelowIrreflexive(a: string)
    ensures !Below(a, a)
  {
    if a != [] {
      BelowIrreflexive(a[1..]);
    }
  }

  lemma {:induction false} BelowTransitive(a: string, b: string, c: string)
    requires Below(a, b) && Below(b, c)
    ensures Below(a, c)
    decreases |a|
  {
    if a != [] && a[0] == b[0] && b[0] == c[0] {
      BelowTransitive(a[1..], b[1..], c[1..]);
    }
  }

  lemma {:induction false} BelowTotal(a: string, b: string)
    requires a != b
    ensures Below(a, b) || Below(b, a)
    decreases |a|
  {
    if a != [] && b != [] && a[0] == b[0] {
      assert a == [a[0]] + a[1..] && b == [b[0]] + b[1..];
      BelowTotal(a[1..], b[1..]);
    }
  }

  /** `e` placed into a newest-first list whose dates all differ from its own. */
  function Insert(items: seq<Summary>, e: Summary): (r: seq<Summary>)
    requires NewestFirst(items)
    requires forall i :: 0 <= i < |items| ==> items[i].date != e.date
    ensures NewestFirst(r)
    ensures |r| == |items| + 1
    ensures forall x :: x in r <==> x in items || x == e
  {
    if items == [] then [e]
    else if Below(items[0].date, e.date) then
      assert forall j :: 0 < j < |items| ==> Below(items[j].date, e.date) by {
        forall j | 0 < j < |items| ensures Below(items[j].date, e.date) {
          BelowTransitive(items[j].date, items[0].date, e.date);
        }
      }
      [e] + items
    else
      BelowTotal(items[0].date, e.date);
      var r := Insert(items[1..], e);
      assert forall x :: x in r ==> Below(x.date, items[0].date);
      [items[0]] + r
  }

  function SummaryOf(b: Bulletin): Summary
  {
    Summary(b.date, b.content.sermonTitleMain)
  }

  // ---------------------------------------------------------------------------
  // The store
  // ---------------------------------------------------------------------------

  class BulletinStore {
    var records: map<string, Bulletin>
    /** The values the schema gives the columns a POST does not name. */
    const schemaDefaults: Extras

    ghost predicate Valid()
      reads this
    {
      Keyed(records)
    }

    constructor (defaults: Extras)
      ensures records == map[] && schemaDefaults == defaults
      ensures Valid()
    {
      records := map[];
      schemaDefaults := defaults;
    }

    /** The list branch: every record once, newest date first, as its summary. */
    method List() returns (items: seq<Summary>)
      requires Valid()
      ensures NewestFirst(items)
      ensures |items| == |records|
      ensures forall x :: x in items <==> exists d :: d in records && x == SummaryOf(records[d])
    {
      items := [];
      var pending := records.Keys;
      while pending != {}
        invariant pending <= records.Keys
        invariant NewestFirst(items)
        invariant |items| + |pending| == |records|
        invariant forall x :: x in items <==> exists d :: d in records.Keys - pending && x == SummaryOf(records[d])
        decreases |pending|
      {
        var d :| d in pending;
        var e := SummaryOf(records[d]);
        forall i | 0 <= i < |items| ensures items[i].date != e.date {
          assert items[i] in items;
        }
        items := Insert(items, e);
        pending := pending - {d};
      }
    }

    /** `GET /api/bulletins[?date=…]`. */
    method Get(date: Option<string>) returns (r: Response)
      requires Valid()
      ensures date.Some? && date.value != "" && date.value in records ==> r == Record(records[date.value])
      ensures date.Some? && date.value != "" && date.value !in records ==> r == Failure(404, NotFound)
      ensures (date.None? || date.value == "") ==>
        r.Summaries? && NewestFirst(r.items) && |r.items| == |records|
        && (forall x :: x in r.items <==> exists d :: d in records && x == SummaryOf(records[d]))
    {
      if date.Some? && date.value != "" {
        if date.value in records {
          r := Record(records[date.value]);
        } else {
          r := Failure(404, NotFound);
        }
      } else {
        var items := List();
        r := Summaries(items);
      }
    }

    /** `POST /api/bulletins`: validate, fill the defaults, upsert by date. */
    method Post(body: Option<Json>) returns (r: Response)
      requires Valid()
      modifies this
      ensures Valid()
      ensures records == AfterPost(old(records), schemaDefaults, body)
      ensures CheckPost(body).Reject? ==> r == Failure(CheckPost(body).status, CheckPost(body).error)
      ensures CheckPost(body).Accept? ==> r == Record(records[CheckPost(body).date])
    {
      var verdict := CheckPost(body);
      match verdict
      case Reject(status, error) =>
        r := Failure(status, error);
      case Accept(d, c) =>
        var b := Upserted(records, schemaDefaults, d, c);
        records := records[d := b];
        r := Record(b);
    }

    /** `DELETE /api/bulletins/{date}`: deleting a date with no record fails with 500. */
    method Delete(date: string) returns (r: Response)
      requires Valid()
      modifies this
      ensures Valid()
      ensures records == AfterDelete(old(records), date)
      ensures r == if date in old(records) then Removed else Failure(500, DeleteFailed)
    {
      if date in records {
        records := AfterDelete(records, date);
        r := Removed;
      } else {
        r := Failure(500, DeleteFailed);
      }
    }
  }

  // ---------------------------------------------------------------------------
  // Properties of a POST
  // ---------------------------------------------------------------------------

  /** A missing, empty or non-string date is refused with 400, whatever else the body holds. */
  lemma DateChecked(body: Json)
    requires body != JNull
    ensures CheckPost(Some(body)).Reject? && CheckPost(Some(body)).status == 400
      <==> !(Field(body, "date").Some? && Field(body, "date").value.JString? && Field(body, "date").value.s != "")
    ensures CheckPost(Some(body)).Accept? ==> Field(body, "date") == Some(JString(CheckPost(Some(body)).date))
  {
  }

  /**
   * Each written column is the body's string, or its default (`"11:00"` for the
   * time, `""` for the rest) when the body leaves it out or sets it to `null`.
   */
  lemma {:induction false} ColumnsFromBody(body: Json)
    requires BodyContent(body).Some?
    ensures forall k :: k in ColumnKeys ==>
      (Field(body, k).None? || Field(body, k) == Some(JNull) ==> Column(BodyContent(body).value, k) == DefaultOf(k))
      && (Field(body, k).Some? && Field(body, k).value.JString? ==> Column(BodyContent(body).value, k) == Field(body, k).value.s)
  {
    forall k | k in ColumnKeys
      ensures (Field(body, k).None? || Field(body, k) == Some(JNull) ==> Column(BodyContent(body).value, k) == DefaultOf(k))
      && (Field(body, k).Some? && Field(body, k).value.JString? ==> Column(BodyContent(body).value, k) == Field(body, k).value.s)
    {
      ColumnIsValue(body, k);
    }
  }

  /** Each column of the written content is the body's value for its key. */
  lemma ColumnIsValue(body: Json, k: string)
    requires BodyContent(body).Some? && k in ColumnKeys
    ensures ColumnValue(body, k).Some? && Column(BodyContent(body).value, k) == ColumnValue(body, k).value
  {
    var c := BodyContent(body).value;
    if k == "time" {
    } else if k == "sermonTitleMain" {
    } else if k == "sermonTitleSub" {
    } else if k == "praises" {
    } else if k == "prayers" {
    } else if k == "passage" {
    } else if k == "sermonDescription" {
    } else if k == "commitment" {
    } else {
      assert k == "announcements";
    }
  }

  /** A column that holds neither a string nor `null` makes the POST fail with 500. */
  lemma NonStringColumnFails(body: Json, k: string)
    requires body != JNull && Field(body, "date").Some? && Field(body, "date").value.JString?
    requires Field(body, "date").value.s != ""
    requires k in ColumnKeys && Field(body, k).Some?
    requires !Field(body, k).value.JNull? && !Field(body, k).value.JString?
    ensures CheckPost(Some(body)) == Reject(500, SaveFailed)
  {
    assert ColumnValue(body, k).None?;
  }

  /**
   * After an accepted POST, the record under its date holds exactly the body's
   * columns (a full replacement, never a merge with the old record), keeps the
   * old record's other columns or takes the schema's, and every other date is
   * untouched.
   */
  lemma PostEffect(records: map<string, Bulletin>, defaults: Extras, body: Option<Json>)
    requires Keyed(records)
    requires CheckPost(body).Accept?
    ensures var d := CheckPost(body).date;
      var after := AfterPost(records, defaults, body);
      d in after && after[d].date == d && after[d].content == CheckPost(body).content
      && (d in records ==> after[d].extras == records[d].extras)
      && (d !in records ==> after[d].extras == defaults)
      && after.Keys == records.Keys + {d}
      && forall e :: e in records && e != d ==> after[e] == records[e]
    ensures Keyed(AfterPost(records, defaults, body))
  {
  }

  /** The written content depends on the body alone, not on what was stored before. */
  lemma FullReplacement(r1: map<string, Bulletin>, r2: map<string, Bulletin>, defaults: Extras, body: Option<Json>)
    requires CheckPost(body).Accept?
    ensures var d := CheckPost(body).date;
      AfterPost(r1, defaults, body)[d].content == AfterPost(r2, defaults, body)[d].content
  {
  }

  /** POSTing the same body twice leaves the store as POSTing it once. */
  lemma PostIdempotent(records: map<string, Bulletin>, defaults: Extras, body: Option<Json>)
    ensures AfterPost(AfterPost(records, defaults, body), defaults, body) == AfterPost(records, defaults, body)
  {
  }

  /** A POST followed by a DELETE of the same date leaves no record under that date and the others as they were. */
  lemma PostThenDelete(records: map<string, Bulletin>, defaults: Extras, body: Option<Json>)
    requires CheckPost(body).Accept?
    ensures var d := CheckPost(body).date;
      AfterDelete(AfterPost(records, defaults, body), d) == AfterDelete(records, d)
  {
  }
}
