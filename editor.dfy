/**
 * The administrator's bulletin editor: the form being edited, the list of
 * dates the store holds, the status message and the busy flag, together with
 * the praise-card list editor that rewrites the form's `praises` text through
 * the card codec and asks the upload route to delete images it drops.
 *
 * The editor talks to the bulletin store through its routes; the store is an
 * object the handlers call, and a network failure is a parameter.
 */
module Editor {
  import opened Wrappers
  import opened Text
  import opened Json
  import Praises
  import Store
  import Assets

  // ---------------------------------------------------------------------------
  // The form
  // ---------------------------------------------------------------------------

  /** The editor's form: every field is text. There is no commitment field. */
  datatype Form = Form(
    date: string,
    eventType: string,
    time: string,
    sermonTitleMain: string,
    sermonTitleMainColor: string,
    sermonTitleSub: string,
    sermonTitleSubColor: string,
    praises: string,
    prayers: string,
    passage: string,
    sermonDescription: string,
    announcements: string,
    introBackgroundUrl: string,
    youtubeUrl: string)

  const DefaultEventType := "주일 예배"
  const DefaultTime := "11:00"
  const White := "#ffffff"
  /** The Lord's Prayer, which a new bulletin starts with. */
  const DefaultPrayers := "하늘에 계신 우리 아버지, 아버지의 이름을 거룩하게 하시며,\n아버지의 나라가 오게 하시며, 아버지의 뜻이 하늘에서와 같이 땅에서도 이루어지게 하소서.\n오늘 우리에게 일용할 양식을 주시고, 우리가 우리에게 잘못한 사람을 용서해 준 것 같이 우리 죄를 용서해 주시고,\n우리를 시험에 빠지지 않게 하시고 악에서 구하소서.\n\n나라와 권능과 영광이 영원히 아버지의 것입니다. 아멘."

  const EmptyForm := Form("", DefaultEventType, DefaultTime, "", White, "", White, "", DefaultPrayers,
    "", "", "", "", "")

  /** A `??` read of a loaded record: a string value, or `default` when the field is missing or null. */
  function OrDefault(b: Json, key: string, default: string): (s: string)
    ensures Field(b, key).Some? && Field(b, key).value.JString? ==> s == Field(b, key).value.s
    ensures Field(b, key).None? || Field(b, key) == Some(JNull) ==> s == default
  {
    match Field(b, key)
    case Some(JString(s)) => s
    case _ => default
  }

  /** The form `loadBulletin` fills from a loaded record. */
  function LoadedForm(b: Json): Form
  {
    Form(
      StringField(b, "date"),
      OrDefault(b, "eventType", DefaultEventType),
      OrDefault(b, "time", DefaultTime),
      OrDefault(b, "sermonTitleMain", ""),
      OrDefault(b, "sermonTitleMainColor", White),
      OrDefault(b, "sermonTitleSub", ""),
      OrDefault(b, "sermonTitleSubColor", White),
      OrDefault(b, "praises", ""),
      OrDefault(b, "prayers", DefaultPrayers),
      OrDefault(b, "passage", ""),
      OrDefault(b, "sermonDescription", ""),
      OrDefault(b, "announcements", ""),
      OrDefault(b, "introBackgroundUrl", ""),
      OrDefault(b, "youtubeUrl", ""))
  }

  /** `JSON.stringify(form)`'s value: the fields as string members, in declaration order. */
  function FormJson(f: Form): (v: Json)
    ensures v.JObject? && |v.members| == 14 && WellFormed(v)
  {
    JObject([
      Member("date", JString(f.date)),
      Member("eventType", JString(f.eventType)),
      Member("time", JString(f.time)),
      Member("sermonTitleMain", JString(f.sermonTitleMain)),
      Member("sermonTitleMainColor", JString(f.sermonTitleMainColor)),
      Member("sermonTitleSub", JString(f.sermonTitleSub)),
      Member("sermonTitleSubColor", JString(f.sermonTitleSubColor)),
      Member("praises", JString(f.praises)),
      Member("prayers", JString(f.prayers)),
      Member("passage", JString(f.passage)),
      Member("sermonDescription", JString(f.sermonDescription)),
      Member("announcements", JString(f.announcements)),
      Member("introBackgroundUrl", JString(f.introBackgroundUrl)),
      Member("youtubeUrl", JString(f.youtubeUrl))])
  }

  function OrNull(v: Option<string>): Json
  {
    if v.Some? then JString(v.value) else JNull
  }

  /** The record as the bulletin routes send it back: every column, an unset one as `null`. */
  function RecordJson(b: Store.Bulletin): (v: Json)
    ensures v.JObject? && WellFormed(v)
  {
    JObject([
      Member("date", JString(b.date)),
      Member("eventType", JString(b.extras.eventType)),
      Member("time", JString(b.content.time)),
      Member("sermonTitleMain", JString(b.content.sermonTitleMain)),
      Member("sermonTitleMainColor", OrNull(b.extras.sermonTitleMainColor)),
      Member("sermonTitleSub", JString(b.content.sermonTitleSub)),
      Member("sermonTitleSubColor", OrNull(b.extras.sermonTitleSubColor)),
      Member("praises", JString(b.content.praises)),
      Member("prayers", JString(b.content.prayers)),
      Member("passage", JString(b.content.passage)),
      Member("sermonDescription", JString(b.content.sermonDescription)),
      Member("commitment", JString(b.content.commitment)),
      Member("announcements", JString(b.content.announcements)),
      Member("introBackgroundUrl", OrNull(b.extras.introBackgroundUrl)),
      Member("youtubeUrl", OrNull(b.extras.youtubeUrl))])
  }

  /** What a JSON value looks like after the trip through `JSON.stringify` and `JSON.parse`. */
  function Transferred(v: Json): Option<Json>
  {
    Parse(Serialize(v))
  }

  // ---------------------------------------------------------------------------
  // The date list
  // ---------------------------------------------------------------------------

  datatype ListItem = ListItem(date: string, sermonTitleMain: string, eventType: Option<string>)

  /** A row of the store's list: it carries no event type. */
  function ListItemOf(s: Store.Summary): ListItem
  {
    ListItem(s.date, s.sermonTitleMain, None)
  }

  function ListItems(items: seq<Store.Summary>): (r: seq<ListItem>)
    ensures |r| == |items|
    ensures forall i :: 0 <= i < |r| ==> r[i] == ListItemOf(items[i])
  {
    seq(|items|, i requires 0 <= i < |items| => ListItemOf(items[i]))
  }

  /** The entry a save puts into the list, read from the saved record with its `??` defaults. */
  function SavedItem(data: Json): ListItem
  {
    ListItem(StringField(data, "date"), OrDefault(data, "sermonTitleMain", ""),
      Some(OrDefault(data, "eventType", DefaultEventType)))
  }

  predicate Listed(list: seq<ListItem>, date: string)
  {
    exists i :: 0 <= i < |list| && list[i].date == date
  }

  /** Every entry with date `date` replaced by `entry`. */
  function Replaced(list: seq<ListItem>, date: string, entry: ListItem): (r: seq<ListItem>)
    ensures |r| == |list|
    ensures forall i :: 0 <= i < |list| ==> r[i] == if list[i].date == date then entry else list[i]
  {
    if list == [] then []
    else [if list[0].date == date then entry else list[0]] + Replaced(list[1..], date, entry)
  }

  /** The list after a save of `date`: its entry replaced in place, or the new entry in front. */
  function ListAfterSave(list: seq<ListItem>, date: string, entry: ListItem): seq<ListItem>
  {
    if Listed(list, date) then Replaced(list, date, entry) else [entry] + list
  }

  /** The list after a delete of `date`: the other entries, in order. */
  function ListAfterDelete(list: seq<ListItem>, date: string): (r: seq<ListItem>)
    ensures |r| <= |list|
    ensures forall x :: x in r <==> x in list && x.date != date
  {
    if list == [] then []
    else (if list[0].date != date then [list[0]] else []) + ListAfterDelete(list[1..], date)
  }

  // ---------------------------------------------------------------------------
  // The praise-card editor
  // ---------------------------------------------------------------------------

  /** `Partial<PraiseCard>`: the fields an update sets. */
  datatype CardPatch = CardPatch(title: Option<string>, imageUrl: Option<string>)

  function Patched(c: Praises.PraiseCard, patch: CardPatch): Praises.PraiseCard
  {
    Praises.PraiseCard(patch.title.GetOr(c.title), patch.imageUrl.GetOr(c.imageUrl))
  }

  /** `addCard`: exactly one empty card appended, the others as they were. */
  function AddCard(cards: seq<Praises.PraiseCard>): (r: seq<Praises.PraiseCard>)
    ensures |r| == |cards| + 1
    ensures r[..|cards|] == cards
    ensures r[|cards|] == Praises.PraiseCard("", "")
  {
    cards + [Praises.PraiseCard("", "")]
  }

  /**
   * `updateCard`: the card at `index` patched, by the fields the patch sets;
   * every other card and the length are kept, and an index outside the list
   * matches no card.
   */
  function UpdateCard(cards: seq<Praises.PraiseCard>, index: int, patch: CardPatch): (r: seq<Praises.PraiseCard>)
    ensures |r| == |cards|
    ensures forall i :: 0 <= i < |cards| && i != index ==> r[i] == cards[i]
    ensures 0 <= index < |cards| ==>
      r[index].title == (if patch.title.Some? then patch.title.value else cards[index].title)
      && r[index].imageUrl == (if patch.imageUrl.Some? then patch.imageUrl.value else cards[index].imageUrl)
  {
    seq(|cards|, i requires 0 <= i < |cards| => if i == index then Patched(cards[i], patch) else cards[i])
  }

  /**
   * `removeCard`'s filter: keep every card whose position is not `index`, so
   * the list is one shorter exactly when the index is in range.
   */
  function RemoveCard(cards: seq<Praises.PraiseCard>, index: int): (r: seq<Praises.PraiseCard>)
    ensures |r| == if 0 <= index < |cards| then |cards| - 1 else |cards|
    decreases |cards|
  {
    if cards == [] then []
    else (if index == 0 then [] else [cards[0]]) + RemoveCard(cards[1..], index - 1)
  }

  /** `removeImage`: that card's image URL cleared, its title and every other card kept. */
  function RemoveImage(cards: seq<Praises.PraiseCard>, index: int): (r: seq<Praises.PraiseCard>)
    ensures |r| == |cards|
    ensures 0 <= index < |cards| ==> r[index] == Praises.PraiseCard(cards[index].title, "")
    ensures forall i :: 0 <= i < |cards| && i != index ==> r[i] == cards[i]
  {
    UpdateCard(cards, index, CardPatch(None, Some("")))
  }

  /** Only uploaded assets are deleted from storage: an absolute URL or one under `/uploads`. */
  predicate Deletable(url: string)
  {
    StartsWith(url, "http") || StartsWith(url, "/uploads")
  }

  datatype CardEdit =
    | Add
    | Update(index: int, patch: CardPatch)
    | Remove(index: int)
    | ClearImage(index: int)

  function Apply(cards: seq<Praises.PraiseCard>, edit: CardEdit): seq<Praises.PraiseCard>
  {
    match edit
    case Add => AddCard(cards)
    case Update(i, patch) => UpdateCard(cards, i, patch)
    case Remove(i) => RemoveCard(cards, i)
    case ClearImage(i) => RemoveImage(cards, i)
  }

  /** The `praises` text after an edit: decode, edit, encode again (`setCards`). */
  function Edited(value: string, edit: CardEdit): string
  {
    Praises.Encode(Apply(Praises.Decode(value), edit))
  }

  /** The image of card `index`, when there is one to delete. */
  function ImageToDelete(cards: seq<Praises.PraiseCard>, index: int): Option<string>
  {
    if 0 <= index < |cards| && Deletable(cards[index].imageUrl) then Some(cards[index].imageUrl) else None
  }

  /** The `DELETE /api/upload` an edit requests, if any. */
  function Requested(cards: seq<Praises.PraiseCard>, edit: CardEdit): Option<string>
  {
    match edit
    case Remove(i) => ImageToDelete(cards, i)
    case ClearImage(i) => ImageToDelete(cards, i)
    case _ => None
  }

  function Sent(request: Option<string>): seq<string>
  {
    if request.Some? then [request.value] else []
  }

  // ---------------------------------------------------------------------------
  // Messages
  // ---------------------------------------------------------------------------

  const NewBulletin := "해당 날짜 주보가 없어 새로 작성합니다."
  const ChooseDate := "날짜를 선택해 주세요."
  const Saved := "저장되었습니다."
  const SaveTrouble := "저장 중 문제가 발생했습니다."
  const Deleted := "삭제되었습니다."
  const DeleteTrouble := "삭제 중 문제가 발생했습니다."

  // ---------------------------------------------------------------------------
  // The editor
  // ---------------------------------------------------------------------------

  class BulletinEditor {
    var form: Form
    var dateList: seq<ListItem>
    var message: string
    var loading: bool
    /** The URLs sent to `DELETE /api/upload`, in order; their outcome is ignored. */
    var assetDeletes: seq<string>

    constructor ()
      ensures form == EmptyForm && dateList == [] && message == "" && !loading && assetDeletes == []
    {
      form := EmptyForm;
      dateList := [];
      message := "";
      loading := false;
      assetDeletes := [];
    }

    /** The list fetched when the page opens; a network failure empties it. */
    method ListFetched(store: Store.BulletinStore, offline: bool)
      requires store.Valid()
      modifies this
      ensures offline ==> dateList == []
      ensures !offline ==> |dateList| == |store.records|
      ensures !offline ==>
        forall x :: x in dateList <==> exists d :: d in store.records && x == ListItemOf(Store.SummaryOf(store.records[d]))
      ensures !offline ==>
        forall i, j :: 0 <= i < j < |dateList| ==> Store.Below(dateList[j].date, dateList[i].date)
      ensures form == old(form) && message == old(message) && loading == old(loading) && assetDeletes == old(assetDeletes)
    {
      if offline {
        dateList := [];
        return;
      }
      var r := store.Get(None);
      dateList := ListItems(r.items);
      ListedRecords(r.items, store.records);
    }

    /** `loadBulletin`: a new form for no date, the stored record, or a new form keeping the date. */
    method LoadBulletin(date: string, store: Store.BulletinStore, offline: bool)
      requires store.Valid()
      modifies this
      ensures date == "" ==> form == EmptyForm && message == old(message)
      ensures date != "" && !offline && date in store.records ==>
        form == LoadedForm(RecordJson(store.records[date])) && message == ""
      ensures date != "" && (offline || date !in store.records) ==>
        form == EmptyForm.(date := date) && message == NewBulletin
      ensures date != "" ==> !loading
      ensures date == "" ==> loading == old(loading)
      ensures dateList == old(dateList) && assetDeletes == old(assetDeletes)
    {
      if date == "" {
        form := EmptyForm;
        return;
      }
      loading := true;
      message := "";
      var found: Option<Json> := None;
      if !offline {
        var r := store.Get(Some(date));
        if r.Record? {
          ParseSerialize(RecordJson(r.bulletin));
          found := Transferred(RecordJson(r.bulletin));
        }
      }
      if found.Some? && found.value != JNull {
        form := LoadedForm(found.value);
      } else {
        form := EmptyForm.(date := date);
        message := NewBulletin;
      }
      loading := false;
    }

    /** `handleSubmit`: refuse an empty date, otherwise POST the form and record the outcome. */
    method Submit(store: Store.BulletinStore, offline: bool)
      requires store.Valid()
      modifies this, store
      ensures store.Valid()
      ensures old(form).date == "" ==>
        message == ChooseDate && loading == old(loading) && store.records == old(store.records)
        && dateList == old(dateList)
      ensures old(form).date != "" && offline ==>
        message == SaveTrouble && store.records == old(store.records) && dateList == old(dateList) && !loading
      ensures old(form).date != "" && !offline ==>
        var saved := Store.Upserted(old(store.records), store.schemaDefaults, old(form).date, FormContent(old(form)));
        store.records == old(store.records)[old(form).date := saved]
        && message == Saved && !loading
        && dateList == ListAfterSave(old(dateList), old(form).date, SavedItem(RecordJson(saved)))
      ensures form == old(form) && assetDeletes == old(assetDeletes)
    {
      if form.date == "" {
        message := ChooseDate;
        return;
      }
      loading := true;
      message := "";
      if offline {
        message := SaveTrouble;
        loading := false;
        return;
      }
      var saved := Store.Upserted(store.records, store.schemaDefaults, form.date, FormContent(form));
      SubmitTransferred(form);
      var r := store.Post(Transferred(FormJson(form)));
      assert r == Store.Record(saved);
      RecordTransferred(r.bulletin);
      message := Saved;
      dateList := ListAfterSave(dateList, form.date, SavedItem(Transferred(RecordJson(r.bulletin)).value));
      loading := false;
    }

    /** `handleDelete`: after confirmation, DELETE the form's date; on success drop it from the list and reset the form. */
    method Delete(store: Store.BulletinStore, confirmed: bool, offline: bool)
      requires store.Valid()
      modifies this, store
      ensures store.Valid()
      ensures old(form).date == "" || !confirmed ==>
        form == old(form) && message == old(message) && loading == old(loading)
        && dateList == old(dateList) && store.records == old(store.records)
      ensures old(form).date != "" && confirmed && offline ==>
        form == old(form) && message == DeleteTrouble && !loading
        && dateList == old(dateList) && store.records == old(store.records)
      ensures old(form).date != "" && confirmed && !offline ==>
        store.records == Store.AfterDelete(old(store.records), old(form).date) && !loading
        && (old(form).date in old(store.records) ==>
          form == EmptyForm && message == Deleted && dateList == ListAfterDelete(old(dateList), old(form).date))
        && (old(form).date !in old(store.records) ==>
          form == old(form) && message == Store.DeleteFailed && dateList == old(dateList))
      ensures assetDeletes == old(assetDeletes)
    {
      if form.date == "" || !confirmed {
        return;
      }
      loading := true;
      message := "";
      if offline {
        message := DeleteTrouble;
        loading := false;
        return;
      }
      var r := store.Delete(form.date);
      if r.Failure? {
        message := r.error;
      } else {
        dateList := ListAfterDelete(dateList, form.date);
        form := EmptyForm;
        message := Deleted;
      }
      loading := false;
    }

    /** A card edit: the image it drops is deleted from storage, and `praises` is re-encoded. */
    method EditCards(edit: CardEdit)
      modifies this
      ensures assetDeletes == old(assetDeletes) + Sent(Requested(Praises.Decode(old(form).praises), edit))
      ensures form == old(form).(praises := Edited(old(form).praises, edit))
      ensures dateList == old(dateList) && message == old(message) && loading == old(loading)
    {
      var cards := Praises.Decode(form.praises);
      assetDeletes := assetDeletes + Sent(Requested(cards, edit));
      form := form.(praises := Praises.Encode(Apply(cards, edit)));
    }

    /**
     * `handleFile` for card `index`: the card's old image is deleted before the
     * upload, and the card takes the new URL only when the upload returned one.
     */
    method UploadCardImage(index: int, uploaded: Option<string>)
      modifies this
      ensures assetDeletes == old(assetDeletes) + Sent(ImageToDelete(Praises.Decode(old(form).praises), index))
      ensures uploaded.Some? && uploaded.value != "" ==>
        form == old(form).(praises := Edited(old(form).praises, Update(index, CardPatch(None, uploaded))))
      ensures uploaded.None? || uploaded.value == "" ==> form == old(form)
      ensures dateList == old(dateList) && message == old(message) && loading == old(loading)
    {
      var cards := Praises.Decode(form.praises);
      assetDeletes := assetDeletes + Sent(ImageToDelete(cards, index));
      if uploaded.Some? && uploaded.value != "" {
        form := form.(praises := Praises.Encode(UpdateCard(cards, index, CardPatch(None, uploaded))));
      }
    }

    /** The background image upload: the old image is deleted only once a new URL has arrived. */
    method UploadBackground(uploaded: Option<string>)
      modifies this
      ensures uploaded.Some? && uploaded.value != "" ==>
        form == old(form).(introBackgroundUrl := uploaded.value)
        && assetDeletes == old(assetDeletes)
          + (if Deletable(old(form).introBackgroundUrl) then [old(form).introBackgroundUrl] else [])
      ensures uploaded.None? || uploaded.value == "" ==> form == old(form) && assetDeletes == old(assetDeletes)
      ensures dateList == old(dateList) && message == old(message) && loading == old(loading)
    {
      if uploaded.Some? && uploaded.value != "" {
        if Deletable(form.introBackgroundUrl) {
          assetDeletes := assetDeletes + [form.introBackgroundUrl];
        }
        form := form.(introBackgroundUrl := uploaded.value);
      }
    }

    /** The background image's remove button. */
    method RemoveBackground()
      modifies this
      ensures form == old(form).(introBackgroundUrl := "")
      ensures assetDeletes == old(assetDeletes)
        + (if Deletable(old(form).introBackgroundUrl) then [old(form).introBackgroundUrl] else [])
      ensures dateList == old(dateList) && message == old(message) && loading == old(loading)
    {
      if Deletable(form.introBackgroundUrl) {
        assetDeletes := assetDeletes + [form.introBackgroundUrl];
      }
      form := form.(introBackgroundUrl := "");
    }
  }

  // ---------------------------------------------------------------------------
  // Properties of the card editor
  // ---------------------------------------------------------------------------

  /** Every edit survives the trip through the stored text: decoding the new text gives the edited list. */
  lemma EditDecodes(value: string, edit: CardEdit)
    ensures Praises.Decode(Edited(value, edit)) == Apply(Praises.Decode(value), edit)
  {
    Praises.DecodeEncode(Apply(Praises.Decode(value), edit));
  }

  /** Removing card `index` leaves the cards before and after it, in order; another index removes nothing. */
  lemma {:induction false} RemoveCardShape(cards: seq<Praises.PraiseCard>, index: int)
    ensures 0 <= index < |cards| ==> RemoveCard(cards, index) == cards[..index] + cards[index + 1..]
    ensures !(0 <= index < |cards|) ==> RemoveCard(cards, index) == cards
    decreases |cards|
  {
    if cards != [] {
      RemoveCardShape(cards[1..], index - 1);
      if index == 0 {
        assert cards[..0] + cards[1..] == cards[1..];
      } else if 0 < index < |cards| {
        assert [cards[0]] + (cards[1..][..index - 1] + cards[1..][index..]) == cards[..index] + cards[index + 1..];
      } else {
        assert [cards[0]] + cards[1..] == cards;
      }
    }
  }

  /** Only removing or clearing a card with an uploaded image asks for a storage delete, and for that image. */
  lemma DeleteRequests(cards: seq<Praises.PraiseCard>, edit: CardEdit)
    ensures Requested(cards, edit).Some? <==>
      (edit.Remove? || edit.ClearImage?) && 0 <= edit.index < |cards| && Deletable(cards[edit.index].imageUrl)
    ensures Requested(cards, edit).Some? ==>
      Requested(cards, edit).value == cards[edit.index].imageUrl && Requested(cards, edit).value != ""
  {
  }

  lemma StartsWithAppend(a: string, b: string, prefix: string)
    requires StartsWith(a, prefix)
    ensures StartsWith(a + b, prefix)
  {
    assert (a + b)[..|prefix|] == a[..|prefix|];
  }

  /** Every URL the upload route returns is one the editor deletes, given an `http(s)` service URL. */
  lemma UploadedDeletable(base: Option<string>, name: string)
    requires base.Some? && StartsWith(base.value, "http")
    ensures Deletable("/uploads/" + name)
    ensures Deletable(Assets.PublicUrl(base, name))
  {
    StartsWithAppend("/uploads/", name, "/uploads");
    var clean := if name != [] && name[0] == '/' then name[1..] else name;
    StartsWithAppend(base.value, Assets.PublicPrefix + Assets.Bucket + "/" + clean, "http");
    assert base.value + Assets.PublicPrefix + Assets.Bucket + "/" + clean
      == base.value + (Assets.PublicPrefix + Assets.Bucket + "/" + clean);
  }

  // ---------------------------------------------------------------------------
  // Properties of the date list
  // ---------------------------------------------------------------------------

  /** A save of a listed date keeps the length and changes only that date's entries; otherwise the entry goes in front. */
  lemma SaveUpdatesList(list: seq<ListItem>, date: string, entry: ListItem)
    ensures Listed(list, date) ==> (
      |ListAfterSave(list, date, entry)| == |list|
      && forall i :: 0 <= i < |list| ==>
        ListAfterSave(list, date, entry)[i] == if list[i].date == date then entry else list[i])
    ensures !Listed(list, date) ==> ListAfterSave(list, date, entry) == [entry] + list
    ensures entry in ListAfterSave(list, date, entry)
  {
    if Listed(list, date) {
      var i :| 0 <= i < |list| && list[i].date == date;
      assert ListAfterSave(list, date, entry)[i] == entry;
    }
  }

  /** After a delete no entry with that date remains, and every other entry is kept in order. */
  lemma {:induction false} DeleteFiltersList(list: seq<ListItem>, date: string)
    ensures forall i :: 0 <= i < |ListAfterDelete(list, date)| ==> ListAfterDelete(list, date)[i].date != date
    ensures (forall i :: 0 <= i < |list| ==> list[i].date != date) ==> ListAfterDelete(list, date) == list
    decreases |list|
  {
    if list != [] {
      DeleteFiltersList(list[1..], date);
      var r := ListAfterDelete(list, date);
      forall i | 0 <= i < |r| ensures r[i].date != date {
        assert r[i] in r;
      }
      if forall i :: 0 <= i < |list| ==> list[i].date != date {
        assert forall i :: 0 <= i < |list[1..]| ==> list[1..][i].date != date by {
          forall i | 0 <= i < |list[1..]| ensures list[1..][i].date != date {
            assert list[1..][i] == list[i + 1];
          }
        }
        assert [list[0]] + list[1..] == list;
      }
    }
  }

  /** Replacing the entries of a date and then filtering that date out is the same as filtering alone. */
  lemma {:induction false} DeleteAfterReplace(list: seq<ListItem>, date: string, entry: ListItem)
    requires entry.date == date
    ensures ListAfterDelete(Replaced(list, date, entry), date) == ListAfterDelete(list, date)
    decreases |list|
  {
    if list != [] {
      var r := Replaced(list, date, entry);
      assert r[1..] == Replaced(list[1..], date, entry);
      DeleteAfterReplace(list[1..], date, entry);
    }
  }

  /** Deleting a date right after saving it leaves the list as deleting it alone would. */
  lemma SaveThenDelete(list: seq<ListItem>, date: string, entry: ListItem)
    requires entry.date == date
    ensures ListAfterDelete(ListAfterSave(list, date, entry), date) == ListAfterDelete(list, date)
  {
    if Listed(list, date) {
      DeleteAfterReplace(list, date, entry);
    } else {
      assert ([entry] + list)[1..] == list;
    }
  }

  // ---------------------------------------------------------------------------
  // Properties of loading and saving
  // ---------------------------------------------------------------------------

  /** The list rows of a newest-first listing of the store: one per record, newest first. */
  lemma ListedRecords(items: seq<Store.Summary>, records: map<string, Store.Bulletin>)
    requires Store.NewestFirst(items) && |items| == |records|
    requires forall x :: x in items <==> exists d :: d in records && x == Store.SummaryOf(records[d])
    ensures |ListItems(items)| == |records|
    ensures forall x :: x in ListItems(items) <==> exists d :: d in records && x == ListItemOf(Store.SummaryOf(records[d]))
    ensures forall i, j :: 0 <= i < j < |ListItems(items)| ==> Store.Below(ListItems(items)[j].date, ListItems(items)[i].date)
  {
    var list := ListItems(items);
    forall x | x in list
      ensures exists d :: d in records && x == ListItemOf(Store.SummaryOf(records[d]))
    {
      var i :| 0 <= i < |list| && list[i] == x;
      assert items[i] in items;
    }
    forall d | d in records
      ensures ListItemOf(Store.SummaryOf(records[d])) in list
    {
      assert Store.SummaryOf(records[d]) in items;
      var i :| 0 <= i < |items| && items[i] == Store.SummaryOf(records[d]);
      assert list[i] == ListItemOf(items[i]);
    }
  }

  /** The form's keys, in declaration order. */
  const FormKeys: seq<string> := ["date", "eventType", "time", "sermonTitleMain", "sermonTitleMainColor",
    "sermonTitleSub", "sermonTitleSubColor", "praises", "prayers", "passage", "sermonDescription",
    "announcements", "introBackgroundUrl", "youtubeUrl"]

  /** The record's columns, in the order they are sent back. */
  const RecordKeys: seq<string> := ["date", "eventType", "time", "sermonTitleMain", "sermonTitleMainColor",
    "sermonTitleSub", "sermonTitleSubColor", "praises", "prayers", "passage", "sermonDescription",
    "commitment", "announcements", "introBackgroundUrl", "youtubeUrl"]

  lemma RecordKeysDistinct()
    ensures forall i, j :: 0 <= i < j < |RecordKeys| ==> RecordKeys[i] != RecordKeys[j]
  {
  }

  lemma FormKeysDistinct()
    ensures forall i, j :: 0 <= i < j < |FormKeys| ==> FormKeys[i] != FormKeys[j]
    ensures forall i :: 0 <= i < |FormKeys| ==> FormKeys[i] != "commitment"
  {
  }

  /** A key that occurs once in an object reads the value next to it. */
  lemma GetUnique(ms: seq<Member>, j: nat)
    requires j < |ms|
    requires forall i :: 0 <= i < |ms| && i != j ==> ms[i].key != ms[j].key
    ensures Get(ms, ms[j].key) == Some(ms[j].value)
  {
  }

  /** Each member of the submitted form is read back under its own key; there is no commitment. */
  lemma FormFieldAt(f: Form, j: nat)
    requires j < |FormKeys|
    ensures Field(FormJson(f), FormKeys[j]) == Some(FormJson(f).members[j].value)
    ensures Field(FormJson(f), "commitment") == None
  {
    var ms := FormJson(f).members;
    assert forall i :: 0 <= i < |ms| ==> ms[i].key == FormKeys[i];
    FormKeysDistinct();
    GetUnique(ms, j);
  }

  /** Each column of a record as sent back is read under its own key. */
  lemma RecordFieldAt(b: Store.Bulletin, j: nat)
    requires j < |RecordKeys|
    ensures Field(RecordJson(b), RecordKeys[j]) == Some(RecordJson(b).members[j].value)
  {
    var ms := RecordJson(b).members;
    assert forall i :: 0 <= i < |ms| ==> ms[i].key == RecordKeys[i];
    RecordKeysDistinct();
    GetUnique(ms, j);
  }

  lemma DefaultsHead(b: Json)
    requires forall i :: 1 <= i < |FormKeys| ==> Field(b, FormKeys[i]).None? || Field(b, FormKeys[i]) == Some(JNull)
    ensures OrDefault(b, "eventType", DefaultEventType) == DefaultEventType
    ensures OrDefault(b, "time", DefaultTime) == DefaultTime
    ensures OrDefault(b, "sermonTitleMain", "") == ""
    ensures OrDefault(b, "sermonTitleMainColor", White) == White
  {
    assert FormKeys[1] == "eventType";
    assert FormKeys[2] == "time";
    assert FormKeys[3] == "sermonTitleMain";
    assert FormKeys[4] == "sermonTitleMainColor";
  }

  lemma DefaultsMiddle(b: Json)
    requires forall i :: 1 <= i < |FormKeys| ==> Field(b, FormKeys[i]).None? || Field(b, FormKeys[i]) == Some(JNull)
    ensures OrDefault(b, "sermonTitleSub", "") == ""
    ensures OrDefault(b, "sermonTitleSubColor", White) == White
    ensures OrDefault(b, "praises", "") == ""
    ensures OrDefault(b, "prayers", DefaultPrayers) == DefaultPrayers
  {
    assert FormKeys[5] == "sermonTitleSub";
    assert FormKeys[6] == "sermonTitleSubColor";
    assert FormKeys[7] == "praises";
    assert FormKeys[8] == "prayers";
  }

  lemma DefaultsTail(b: Json)
    requires forall i :: 1 <= i < |FormKeys| ==> Field(b, FormKeys[i]).None? || Field(b, FormKeys[i]) == Some(JNull)
    ensures OrDefault(b, "passage", "") == ""
    ensures OrDefault(b, "sermonDescription", "") == ""
    ensures OrDefault(b, "announcements", "") == ""
    ensures OrDefault(b, "introBackgroundUrl", "") == ""
    ensures OrDefault(b, "youtubeUrl", "") == ""
  {
    assert FormKeys[9] == "passage";
    assert FormKeys[10] == "sermonDescription";
    assert FormKeys[11] == "announcements";
    assert FormKeys[12] == "introBackgroundUrl";
    assert FormKeys[13] == "youtubeUrl";
  }

  /** A record without any of the form's fields loads as the empty form with the record's date. */
  lemma LoadDefaults(b: Json)
    requires forall i :: 1 <= i < |FormKeys| ==> Field(b, FormKeys[i]).None? || Field(b, FormKeys[i]) == Some(JNull)
    ensures LoadedForm(b) == EmptyForm.(date := StringField(b, "date"))
  {
    DefaultsHead(b);
    DefaultsMiddle(b);
    DefaultsTail(b);
  }

  // One lemma per loaded field keeps each proof about the fifteen-member record small.

  lemma LoadedDate(b: Store.Bulletin)
    ensures StringField(RecordJson(b), "date") == b.date
  {
    RecordFieldAt(b, 0);
    assert RecordKeys[0] == "date";
  }

  lemma LoadedEventType(b: Store.Bulletin)
    ensures OrDefault(RecordJson(b), "eventType", DefaultEventType) == b.extras.eventType
  {
    RecordFieldAt(b, 1);
    assert RecordKeys[1] == "eventType";
  }

  lemma LoadedTime(b: Store.Bulletin)
    ensures OrDefault(RecordJson(b), "time", DefaultTime) == b.content.time
  {
    RecordFieldAt(b, 2);
    assert RecordKeys[2] == "time";
  }

  lemma LoadedMainTitle(b: Store.Bulletin)
    ensures OrDefault(RecordJson(b), "sermonTitleMain", "") == b.content.sermonTitleMain
  {
    RecordFieldAt(b, 3);
    assert RecordKeys[3] == "sermonTitleMain";
  }

  lemma LoadedMainColor(b: Store.Bulletin)
    ensures OrDefault(RecordJson(b), "sermonTitleMainColor", White) == b.extras.sermonTitleMainColor.GetOr(White)
  {
    RecordFieldAt(b, 4);
    assert RecordKeys[4] == "sermonTitleMainColor";
  }

  lemma LoadedSubTitle(b: Store.Bulletin)
    ensures OrDefault(RecordJson(b), "sermonTitleSub", "") == b.content.sermonTitleSub
  {
    RecordFieldAt(b, 5);
    assert RecordKeys[5] == "sermonTitleSub";
  }

  lemma LoadedSubColor(b: Store.Bulletin)
    ensures OrDefault(RecordJson(b), "sermonTitleSubColor", White) == b.extras.sermonTitleSubColor.GetOr(White)
  {
    RecordFieldAt(b, 6);
    assert RecordKeys[6] == "sermonTitleSubColor";
  }

  lemma LoadedPraises(b: Store.Bulletin)
    ensures OrDefault(RecordJson(b), "praises", "") == b.content.praises
  {
    RecordFieldAt(b, 7);
    assert RecordKeys[7] == "praises";
  }

  lemma LoadedPrayers(b: Store.Bulletin)
    ensures OrDefault(RecordJson(b), "prayers", DefaultPrayers) == b.content.prayers
  {
    RecordFieldAt(b, 8);
    assert RecordKeys[8] == "prayers";
  }

  lemma LoadedPassage(b: Store.Bulletin)
    ensures OrDefault(RecordJson(b), "passage", "") == b.content.passage
  {
    RecordFieldAt(b, 9);
    assert RecordKeys[9] == "passage";
  }

  lemma LoadedDescription(b: Store.Bulletin)
    ensures OrDefault(RecordJson(b), "sermonDescription", "") == b.content.sermonDescription
  {
    RecordFieldAt(b, 10);
    assert RecordKeys[10] == "sermonDescription";
  }

  lemma LoadedAnnouncements(b: Store.Bulletin)
    ensures OrDefault(RecordJson(b), "announcements", "") == b.content.announcements
  {
    RecordFieldAt(b, 12);
    assert RecordKeys[12] == "announcements";
  }

  lemma LoadedBackground(b: Store.Bulletin)
    ensures OrDefault(RecordJson(b), "introBackgroundUrl", "") == b.extras.introBackgroundUrl.GetOr("")
  {
    RecordFieldAt(b, 13);
    assert RecordKeys[13] == "introBackgroundUrl";
  }

  lemma LoadedVideo(b: Store.Bulletin)
    ensures OrDefault(RecordJson(b), "youtubeUrl", "") == b.extras.youtubeUrl.GetOr("")
  {
    RecordFieldAt(b, 14);
    assert RecordKeys[14] == "youtubeUrl";
  }

  /** A stored record loads with its own columns; an unset colour loads white and an unset URL empty. */
  lemma LoadStored(b: Store.Bulletin)
    ensures LoadedForm(RecordJson(b)) == Form(b.date, b.extras.eventType, b.content.time,
      b.content.sermonTitleMain, b.extras.sermonTitleMainColor.GetOr(White), b.content.sermonTitleSub,
      b.extras.sermonTitleSubColor.GetOr(White), b.content.praises, b.content.prayers, b.content.passage,
      b.content.sermonDescription, b.content.announcements, b.extras.introBackgroundUrl.GetOr(""),
      b.extras.youtubeUrl.GetOr(""))
  {
    LoadedDate(b);
    LoadedEventType(b);
    LoadedTime(b);
    LoadedMainTitle(b);
    LoadedMainColor(b);
    LoadedSubTitle(b);
    LoadedSubColor(b);
    LoadedPraises(b);
    LoadedPrayers(b);
    LoadedPassage(b);
    LoadedDescription(b);
    LoadedAnnouncements(b);
    LoadedBackground(b);
    LoadedVideo(b);
  }

  /** A POST reads a string member as it is. */
  lemma ColumnOfString(v: Json, key: string, text: string)
    requires Field(v, key) == Some(JString(text))
    ensures Store.ColumnValue(v, key) == Some(text)
  {
  }

  /** A POST reads a missing member as the column's default. */
  lemma ColumnOfMissing(v: Json, key: string)
    requires Field(v, key).None?
    ensures Store.ColumnValue(v, key) == Some(Store.DefaultOf(key))
  {
  }

  /** The content a POST builds from a body whose columns all read as strings. */
  lemma BodyOfColumns(v: Json, c: Store.Content)
    requires Store.ColumnValue(v, "time") == Some(c.time)
    requires Store.ColumnValue(v, "sermonTitleMain") == Some(c.sermonTitleMain)
    requires Store.ColumnValue(v, "sermonTitleSub") == Some(c.sermonTitleSub)
    requires Store.ColumnValue(v, "praises") == Some(c.praises)
    requires Store.ColumnValue(v, "prayers") == Some(c.prayers)
    requires Store.ColumnValue(v, "passage") == Some(c.passage)
    requires Store.ColumnValue(v, "sermonDescription") == Some(c.sermonDescription)
    requires Store.ColumnValue(v, "commitment") == Some(c.commitment)
    requires Store.ColumnValue(v, "announcements") == Some(c.announcements)
    ensures Store.BodyContent(v) == Some(c)
  {
  }

  lemma SubmittedHead(f: Form)
    ensures Store.ColumnValue(FormJson(f), "time") == Some(f.time)
    ensures Store.ColumnValue(FormJson(f), "sermonTitleMain") == Some(f.sermonTitleMain)
    ensures Store.ColumnValue(FormJson(f), "sermonTitleSub") == Some(f.sermonTitleSub)
  {
    FormFieldAt(f, 2);
    assert FormKeys[2] == "time";
    ColumnOfString(FormJson(f), "time", f.time);
    FormFieldAt(f, 3);
    assert FormKeys[3] == "sermonTitleMain";
    ColumnOfString(FormJson(f), "sermonTitleMain", f.sermonTitleMain);
    FormFieldAt(f, 5);
    assert FormKeys[5] == "sermonTitleSub";
    ColumnOfString(FormJson(f), "sermonTitleSub", f.sermonTitleSub);
  }

  lemma SubmittedMiddle(f: Form)
    ensures Store.ColumnValue(FormJson(f), "praises") == Some(f.praises)
    ensures Store.ColumnValue(FormJson(f), "prayers") == Some(f.prayers)
    ensures Store.ColumnValue(FormJson(f), "passage") == Some(f.passage)
  {
    FormFieldAt(f, 7);
    assert FormKeys[7] == "praises";
    ColumnOfString(FormJson(f), "praises", f.praises);
    FormFieldAt(f, 8);
    assert FormKeys[8] == "prayers";
    ColumnOfString(FormJson(f), "prayers", f.prayers);
    FormFieldAt(f, 9);
    assert FormKeys[9] == "passage";
    ColumnOfString(FormJson(f), "passage", f.passage);
  }

  lemma SubmittedTail(f: Form)
    ensures Store.ColumnValue(FormJson(f), "sermonDescription") == Some(f.sermonDescription)
    ensures Store.ColumnValue(FormJson(f), "announcements") == Some(f.announcements)
    ensures Store.ColumnValue(FormJson(f), "commitment") == Some("")
  {
    FormFieldAt(f, 10);
    assert FormKeys[10] == "sermonDescription";
    ColumnOfString(FormJson(f), "sermonDescription", f.sermonDescription);
    FormFieldAt(f, 11);
    assert FormKeys[11] == "announcements";
    ColumnOfString(FormJson(f), "announcements", f.announcements);
    ColumnOfMissing(FormJson(f), "commitment");
  }

  /** The content columns a submitted form writes. */
  function FormContent(f: Form): Store.Content
  {
    Store.Content(f.time, f.sermonTitleMain, f.sermonTitleSub, f.praises, f.prayers, f.passage,
      f.sermonDescription, "", f.announcements)
  }

  lemma SubmittedContent(f: Form)
    ensures Store.BodyContent(FormJson(f)) == Some(FormContent(f))
  {
    SubmittedHead(f);
    SubmittedMiddle(f);
    SubmittedTail(f);
    BodyOfColumns(FormJson(f), FormContent(f));
  }

  lemma SubmittedDate(f: Form)
    ensures Field(FormJson(f), "date") == Some(JString(f.date))
  {
    FormFieldAt(f, 0);
    assert FormKeys[0] == "date";
  }

  /** A POST accepts a body with a non-empty string date and readable columns. */
  lemma AcceptedBody(v: Json, date: string, c: Store.Content)
    requires Field(v, "date") == Some(JString(date)) && date != ""
    requires Store.BodyContent(v) == Some(c)
    ensures Store.CheckPost(Some(v)) == Store.Accept(date, c)
  {
  }

  /**
   * The store accepts a submitted form with a date and writes the form's
   * content columns; it does not read the event type, colours or URLs, and
   * since the form has no commitment field the commitment is written empty.
   */
  lemma SubmitAccepted(f: Form)
    requires f.date != ""
    ensures Store.CheckPost(Some(FormJson(f))) == Store.Accept(f.date, Store.Content(f.time, f.sermonTitleMain,
      f.sermonTitleSub, f.praises, f.prayers, f.passage, f.sermonDescription, "", f.announcements))
  {
    SubmittedDate(f);
    SubmittedContent(f);
    AcceptedBody(FormJson(f), f.date, FormContent(f));
  }

  /** The form as the route receives it is accepted with the form's date and content. */
  lemma SubmitTransferred(f: Form)
    requires f.date != ""
    ensures Store.CheckPost(Transferred(FormJson(f))) == Store.Accept(f.date, FormContent(f))
  {
    ParseSerialize(FormJson(f));
    SubmitAccepted(f);
  }

  /** A record sent back arrives unchanged. */
  lemma RecordTransferred(b: Store.Bulletin)
    ensures Transferred(RecordJson(b)) == Some(RecordJson(b))
  {
    ParseSerialize(RecordJson(b));
  }

  /** The entry a save lists carries the saved record's date, title and event type. */
  lemma SavedItemOfRecord(b: Store.Bulletin)
    ensures SavedItem(RecordJson(b)) == ListItem(b.date, b.content.sermonTitleMain, Some(b.extras.eventType))
  {
    LoadedDate(b);
    LoadedMainTitle(b);
    LoadedEventType(b);
  }

  /** Loading a stored record and saving it again keeps every content column except the commitment, which is cleared. */
  lemma LoadThenSave(b: Store.Bulletin)
    requires b.date != ""
    ensures Store.CheckPost(Some(FormJson(LoadedForm(RecordJson(b))))) == Store.Accept(b.date, b.content.(commitment := ""))
  {
    LoadStored(b);
    SubmitAccepted(LoadedForm(RecordJson(b)));
  }
}
