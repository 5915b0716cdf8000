# Dasibon church bulletin — a verified model of its core

Dasibon publishes a church's weekly bulletin (주보). An administrator edits one
record per service date in an editor page. The public home page shows the
latest record, or the record for a chosen date, as a swipeable order of
worship. This project models the deterministic core of that system in Dafny
and proves what the code promises about it.

The model has one module per concern:

- `Praises` (`praises.dfy`) is the praise-card codec. It decodes the stored
  `praises` text in one of two formats: the legacy `# Title` lines, or a JSON
  array of `{title, imageUrl}` objects. It encodes a card list back to text.
  The round trip `Decode(Encode(cards)) == cards` is proved for every card
  list.
- `Json` (`json.dfy`) is the part of `JSON.parse` and `JSON.stringify` the
  codec and the routes rely on.
  - The parser is a recursive-descent parser over the JSON grammar. It
    handles white space, literals, number lexemes, string escapes including
    `\u` surrogate pairs, arrays and objects. A duplicate key resolves to its
    last occurrence.
  - The serializer escapes strings as `JSON.stringify` does.
  - `ParseSerialize` proves that parsing a serialized value gives it back.
- `Text` (`text.dfy`) holds the shared string helpers:
  - ECMAScript white space, `trim` and one-character `split`/`join`;
  - decimal numerals, as `Number(m)` prints them in date labels.
- `Store` (`bulletin_store.dfy`) is the `/api/bulletins` route over a database
  modelled as a map from date to record.
  - `GET` returns one record or the newest-first list.
  - `POST` validates the body, fills defaults and upserts by date.
  - `DELETE /api/bulletins/[date]` removes a record. Its handler is lines
    31-48 of `src/app/api/bulletins/[date]/route.ts`. The table below cites
    the editor's call to it, `src/app/admin/page.tsx` lines 291-299, which
    handles both of its answers.
- `Assets` (`assets.dfy`) covers the upload route and the storage helper:
  - the public URL of a stored object, and the path extracted back out of it;
  - upload names that keep the file's extension;
  - the upload and delete decisions, over a set of storage objects and a set
    of local files.
- `Editor` (`editor.dfy`) is the administrator page:
  - the praise-card list operations;
  - the loaded-record defaults;
  - the date-list bookkeeping after save and delete;
  - the class `BulletinEditor`, whose methods are the page's handlers acting
    on `form`, `dateList`, `message` and `loading`. It also records the
    storage deletions it asks for.
- `Home` (`home.dfy`) is the current home page:
  - the date and option labels;
  - the five sections built from a record;
  - the swipe, tab and font-scale state of the order screen, as the class
    `OrderScreen`;
  - the session-cache rule of the read path.
- `LegacyHome` (`legacy_home.dfy`) is the older home page. It has six
  sections, horizontal-only swipes and its own `lines` helper.
- `ComposedInput` (`composed_input.dfy`) is the IME-aware text field.
  - It has a pure transition function `Step` over `(composing, local value,
    prop)` and a class `ComposedField` whose methods follow it.
  - It is proved to call the parent's `onChange` exactly once per composition
    session.
- `Wrappers` (`wrappers.dfy`) holds `Option`.

Behaviours of the code that the proofs make explicit:

- **Saving drops the commitment.** Saving from the editor always stores an
  empty commitment, because the form has no such field. The record's event
  type, title colours and media URLs are kept from the stored record, because
  the route never writes them (`Editor.LoadThenSave`, `Store.PostEffect`).
- **Card-image upload.** Replacing a card image asks storage to delete the
  old image before the upload, even when the upload then fails
  (`Editor.BulletinEditor.UploadCardImage`).
- **Background image.** The old background is deleted only after a
  successful upload (`Editor.BulletinEditor.UploadBackground`).
- **Cache key clash.** The home page's cache key for the date `latest` is the
  same as the key for "no date" (`Home.CacheKeys`).
- **`%` in a file name.** A stored name containing `%` is never read back as
  itself from its public URL. Decoding either fails or shortens the name, so
  the delete does not reach the object (`Assets.PercentBreaksRoundTrip`).
  For example, `1-a.%41` is read back as `1-a.A`
  (`Assets.EscapedNameExample`).
- **Extensions are copied.** A generated name ends with the uploaded file's
  own extension, so a `%`, `?` or `#` in that extension reaches the stored
  name, and its URL no longer leads back to it. The round trip holds for
  every generated name whose extension has only characters the URL parser
  keeps as they are, other than `?`, `#` and `%`
  (`Assets.SafeNameRoundTrip`).
- **Swipe ties.** On the current home page a swipe whose horizontal and
  vertical movements are equal counts as horizontal. The code returns early
  only when `|dx| < |dy|`, and the model follows the code.
- **Deleting a missing date.** Deleting a date that has no record answers 500
  with "삭제하지 못했습니다." and leaves the store as it was.
- **Event type after a save.** The list the `GET` route returns carries only
  `date` and `sermonTitleMain`. Entries the editor adds after a save carry
  the event type, so the two sources of list entries differ.
- **Every listed option reads "주일 예배".** The home page's date selector
  labels its options from that same list, which has no event type, so an
  option for a bulletin whose event type is, say, "금요 기도회" still ends in
  "주일 예배" (`Home.ListedOptionsDefault`).

## Model

| member | source | states |
|---|---|---|
| Praises.StripHeading | src/lib/praises.ts:11 | when `#` is the line's first character, what remains is the line from its first non-white-space character after the `#`, with only white space skipped; otherwise the line is unchanged |
| Praises.HeadingStripped | src/lib/praises.ts:11 | a legacy line's title is the trim of the line without its leading `#`, or the trim of the whole line |
| Praises.Decode | src/lib/praises.ts:5-25 | empty or all-white-space text decodes to no cards; the two formats are stated by `Praises.LegacyCards`, `Praises.JsonNotArray` and `Praises.JsonArray` |
| Praises.LegacyCards | src/lib/praises.ts:8-14 | in the legacy format every card has an empty image URL and a non-empty title with no white space at either end |
| Praises.LegacyOrder | src/lib/praises.ts:11-12 | when no line is blank, the legacy titles are exactly the line titles, in line order |
| Praises.DropEmptyAppend | src/lib/praises.ts:12 | dropping blank titles works piecewise on a concatenation, so the surviving titles keep their order |
| Praises.JsonNotArray | src/lib/praises.ts:15-24 | text starting with `[` that fails to parse, or parses to something other than an array, decodes to no cards instead of failing |
| Praises.JsonArray | src/lib/praises.ts:16-21 | a parsed array gives one card per element, each title is the element's string `title` or `""`, and a non-object element gives an empty card |
| Praises.ItemCard | src/lib/praises.ts:19-20 | a card's title and image URL are the element's string fields, with `""` for anything that is not a string |
| Praises.Encode | src/lib/praises.ts:27-30 | the empty list encodes to `""` and only it does; any other list encodes to text enclosed in `[` and `]` |
| Praises.DecodeEncode | src/lib/praises.ts:5-30 | decoding an encoded card list gives the same list, empty or not |
| Json.Get | src/lib/praises.ts:16 | member lookup finds a value exactly when the key is present, and the last member with that key wins |
| Json.StringField | src/lib/praises.ts:19-20 | a field reads as its string value when it is a string, otherwise as `""` |
| Json.ParseSerialize | src/lib/praises.ts:29 | parsing the text a well-formed value serializes to gives the value back |
| Assets.PublicUrlShape | src/lib/supabase-server.ts:15-19 | with no base URL the path is returned unchanged; otherwise exactly one leading `/` is dropped and the URL is base, `/storage/v1/object/public/uploads/` and the path |
| Assets.PublicUrl | src/lib/supabase-server.ts:15-19 | the URL of a stored object; its contract is stated by `Assets.PublicUrlShape` |
| Assets.PathFromPublicUrl | src/app/api/upload/route.ts:8-16 | a path is read only from a URL whose path name holds `/storage/v1/object/public/`, and it is shorter than that path name; its inverse is stated by `Assets.PublicUrlPath` |
| Assets.PublicUrlPath | src/app/api/upload/route.ts:8-16 | for a service URL of a special scheme and a plain host, the path read from a name's public URL is the name, percent-decoded, whenever the parser keeps the name as it is |
| Assets.PathRoundTrip | src/lib/supabase-server.ts:15-19 | for a name the URL parser keeps as it is, with no `%`, extracting the path from its public URL gives the name back |
| Assets.PercentBreaksRoundTrip | src/app/api/upload/route.ts:8-16 | every such name holding `%` comes back failed or decoded, so never as the stored name |
| Assets.EscapedNameExample | src/app/api/upload/route.ts:12 | the stored name `1-a.%41` is read back as `1-a.A` |
| Assets.UrlPathname | src/app/api/upload/route.ts:10 | a path name is given only for text made of plain URL characters, and it always starts with `/` |
| Assets.UrlPathnameOf | src/app/api/upload/route.ts:10 | the URL parser's pathname of `scheme://host/path` is `/path` for a special scheme, a plain host and a plain path without dot segments |
| Assets.DecodePlain | src/app/api/upload/route.ts:13 | text without `%` is left unchanged by URI decoding |
| Assets.DecodeShrinks | src/app/api/upload/route.ts:13 | URI decoding never makes text longer |
| Assets.Extname | src/app/api/upload/route.ts:39 | an extension is empty, or starts with its only `.` and holds no `/` |
| Assets.ChosenExt | src/app/api/upload/route.ts:39 | the chosen extension is never empty, starts with its only `.` and holds no `/`; it is the file's own extension when that is non-empty |
| Assets.SafeName | src/app/api/upload/route.ts:40 | a generated name starts with a digit, and with base-36 random characters its extension is the one chosen for the file |
| Assets.SafeNameRoundTrip | src/app/api/upload/route.ts:39-40 | a generated name whose extension has only plain URL characters other than `?`, `#` and `%` is read back as itself from its public URL |
| Assets.JpgFallback | src/app/api/upload/route.ts:39 | a file name without a dot gets the extension `.jpg` |
| Assets.DeleteCases | src/app/api/upload/route.ts:76-109 | a missing or empty url gives 400, as does an unextractable URL when storage is configured; with no storage only `/uploads/` URLs are removed, as their basename; any other URL gives 400 |
| Assets.UploadRoute.constructor | src/lib/supabase-server.ts:10 | the route starts with the given environment, storage objects and local files |
| Assets.UploadRoute.Post | src/app/api/upload/route.ts:18-74 | 503 with nothing written when hosted without storage; 400 with no file; a local upload adds the safe name and answers `/uploads/` plus the name; a storage upload adds the object and answers its public URL, or 500 when the service fails or the object exists |
| Assets.UploadRoute.Delete | src/app/api/upload/route.ts:76-109 | refusals change nothing; a storage removal removes exactly the extracted path, or answers 500 when the service fails; a local removal removes exactly the basename and always answers success |
| Store.AfterDelete | src/app/admin/page.tsx:291-299 | after a delete the date is gone and every other record is unchanged (the handler is lines 31-48 of src/app/api/bulletins/[date]/route.ts) |
| Store.Insert | src/app/api/bulletins/route.ts:23-27 | inserting a summary into a newest-first list keeps it newest-first and adds exactly that summary |
| Store.BelowTransitive | src/app/api/bulletins/route.ts:25 | the date order used for listing is transitive |
| Store.BelowTotal | src/app/api/bulletins/route.ts:25 | any two distinct dates are ordered one way or the other |
| Store.BelowIrreflexive | src/app/api/bulletins/route.ts:25 | no date comes before itself |
| Store.BulletinStore.constructor | src/app/api/bulletins/route.ts:73-77 | the store starts empty with the schema defaults for columns the route never writes |
| Store.BulletinStore.List | src/app/api/bulletins/route.ts:23-27 | the list has one summary per record, each holding the date and main sermon title, newest date first |
| Store.BulletinStore.Get | src/app/api/bulletins/route.ts:5-35 | with a date, the stored record or 404 with its message; without a date, the newest-first summary list |
| Store.BulletinStore.Post | src/app/api/bulletins/route.ts:38-86 | the store becomes the upsert the body asks for; a rejected body answers its status and message and the accepted one answers the stored record |
| Store.BulletinStore.Delete | src/app/admin/page.tsx:291-299 | the record is removed; a present date answers success and a missing one 500 with "삭제하지 못했습니다." (the handler is lines 31-48 of src/app/api/bulletins/[date]/route.ts) |
| Store.DateChecked | src/app/api/bulletins/route.ts:54-59 | a body is rejected with 400 exactly when its date is missing, empty or not a string; an accepted body's date is its `date` field |
| Store.CheckPost | src/app/api/bulletins/route.ts:38-71 | a body is accepted exactly when it is JSON with a non-empty string date and every written column a string, null or absent, and the accepted date and content are the body's; a refusal is a 400 or a 500 |
| Store.AfterPost | src/app/api/bulletins/route.ts:73-86 | a refused POST leaves the store unchanged; an accepted one files its date and keeps every other record |
| Store.ColumnsFromBody | src/app/api/bulletins/route.ts:61-71 | each written column is the body's string value, or its default (`"11:00"` for the time, `""` otherwise) when absent or null |
| Store.NonStringColumnFails | src/app/api/bulletins/route.ts:79-85 | a column given as a non-string value makes the save fail with 500 |
| Store.PostEffect | src/app/api/bulletins/route.ts:73-77 | after an accepted POST the record for the date holds the computed content; fields the route never writes keep their stored values or take the schema defaults on creation; every other date is untouched |
| Store.FullReplacement | src/app/api/bulletins/route.ts:61-77 | the stored content depends only on the body, not on what was stored before: a replacement, not a patch |
| Store.PostIdempotent | src/app/api/bulletins/route.ts:73-77 | posting the same body twice gives the same store as posting it once |
| Store.PostThenDelete | src/app/api/bulletins/route.ts:73-77 | deleting the date just posted leaves the other records as before the post |
| Editor.OrDefault | src/app/admin/page.tsx:219-234 | a loaded field is the record's string value, or the default when the field is missing or null |
| Editor.LoadDefaults | src/app/admin/page.tsx:31-46 | a record with none of the editable fields loads as the empty form with its date |
| Editor.LoadStored | src/app/admin/page.tsx:219-234 | loading a stored record fills every form field from it, with white for an unset colour and `""` for an unset URL |
| Editor.AddCard | src/app/admin/page.tsx:58-60 | adding a card appends exactly one empty card and leaves the earlier cards unchanged |
| Editor.UpdateCard | src/app/admin/page.tsx:62-65 | updating card `i` keeps the length and every other card, and changes only the patched fields of card `i` |
| Editor.RemoveCard | src/app/admin/page.tsx:67-73 | removing a card shortens the list by one exactly when the index is in range |
| Editor.RemoveCardShape | src/app/admin/page.tsx:67-73 | removing card `i` gives the cards before it followed by the cards after it; an index out of range changes nothing |
| Editor.RemoveImage | src/app/admin/page.tsx:75-81 | clearing an image empties that card's URL, keeps its title and leaves the other cards alone |
| Editor.DeleteRequests | src/app/admin/page.tsx:69-77 | a storage delete is requested exactly when a card in range is removed or cleared and its URL starts with `http` or `/uploads`; the request names that URL |
| Editor.UploadedDeletable | src/app/admin/page.tsx:83-100 | URLs the upload route hands out are ones the editor will later ask to delete |
| Editor.EditDecodes | src/app/admin/page.tsx:54-56 | re-encoding after an edit is faithful: decoding the stored text gives the edited card list |
| Editor.ListItems | src/app/admin/page.tsx:196-204 | the fetched list keeps one entry per summary, in order |
| Editor.Replaced | src/app/admin/page.tsx:273-277 | replacing keeps the length and swaps in the saved entry exactly where the date matches |
| Editor.SaveUpdatesList | src/app/admin/page.tsx:273-277 | after a save, a listed date is replaced in place with the length unchanged, and an unlisted date is prepended; either way the saved entry is in the list |
| Editor.ListAfterDelete | src/app/admin/page.tsx:297 | the list after a delete holds exactly the entries whose date differs |
| Editor.DeleteFiltersList | src/app/admin/page.tsx:297 | no entry with the deleted date remains, and a list without that date is unchanged |
| Editor.SaveThenDelete | src/app/admin/page.tsx:273-299 | deleting a date right after saving it gives the list a delete alone would give |
| Editor.DeleteAfterReplace | src/app/admin/page.tsx:273-299 | an in-place replacement is undone by a delete of the same date |
| Editor.ListedRecords | src/app/admin/page.tsx:196-204 | the list built from the store's newest-first summaries has one entry per record, in descending date order |
| Editor.SubmitAccepted | src/app/admin/page.tsx:265 | the form the editor sends is accepted by the route with its date and its text fields, and an empty commitment |
| Editor.LoadThenSave | src/app/admin/page.tsx:206-283 | saving a freshly loaded record stores its content unchanged except for an emptied commitment |
| Editor.SavedItemOfRecord | src/app/admin/page.tsx:273-277 | the list entry made from the saved record carries its date, main title and event type |
| Editor.BulletinEditor.constructor | src/app/admin/page.tsx:31-46 | the editor starts with the empty form, an empty list, no message and not loading |
| Editor.BulletinEditor.ListFetched | src/app/admin/page.tsx:196-204 | the date list becomes the store's records newest first, or empty when the fetch fails |
| Editor.BulletinEditor.LoadBulletin | src/app/admin/page.tsx:206-241 | an empty date resets to the empty form; a stored date loads its record; a missing record or a failed fetch gives the empty form with the chosen date and a "new bulletin" message |
| Editor.BulletinEditor.Submit | src/app/admin/page.tsx:253-283 | an empty date only sets a message; a failed request changes nothing but the message; otherwise the store holds the upserted record and the list is updated by the save rule |
| Editor.BulletinEditor.Delete | src/app/admin/page.tsx:285-305 | an empty date or an unconfirmed dialog changes nothing; otherwise the record is removed, and on success the form resets and the date leaves the list |
| Editor.BulletinEditor.EditCards | src/app/admin/page.tsx:54-81 | the praises text becomes the edited list, and the storage deletes sent are exactly the one the edit requests |
| Editor.BulletinEditor.UploadCardImage | src/app/admin/page.tsx:83-100 | the old deletable image is sent for deletion before the upload; the card takes the new URL only when the upload returns one |
| Editor.BulletinEditor.UploadBackground | src/app/admin/page.tsx:516-535 | a successful upload sets the background and deletes the old deletable one; a failed upload changes nothing |
| Editor.BulletinEditor.RemoveBackground | src/app/admin/page.tsx:551-556 | the background is cleared and the old one is deleted when deletable |
| Home.TimeLabel | src/app/HomeClient.tsx:35 | an empty time reads "오전 11시", any other time "오전 " followed by it |
| Home.FormatDateLabel | src/app/HomeClient.tsx:31-37 | the default label is given exactly for an empty date or one missing any of its first three `-`-separated parts |
| Home.DateLabelShape | src/app/HomeClient.tsx:31-37 | a well-formed date gives "{y}년 {m}월 {d}일 · " and the time label, with month and day as their exact decimal values (double rounding is left out) |
| Home.DateLabelExtraParts | src/app/HomeClient.tsx:33 | parts after the third `-` are ignored |
| Home.NumberTextLeadingZeros | src/app/HomeClient.tsx:36 | a leading zero does not change how the month or day prints |
| Home.NumberTextCanonical | src/app/HomeClient.tsx:36 | a numeral without leading zeros prints as itself, in the model's exact arithmetic (double rounding is left out) |
| Home.FormatBulletinOption | src/app/HomeClient.tsx:39-45 | an empty date gives "—", and a non-empty date is returned as it is exactly when it is malformed; the well-formed label is given by `Home.BulletinOptionShape` |
| Home.BulletinOptionShape | src/app/HomeClient.tsx:39-45 | for `y-m-d` with non-empty digit month and day, the option is "{y}년 {m}월 {d}일 " with month and day as their exact decimal values (double rounding is left out), followed by the event-type label |
| Home.OptionLabel | src/app/HomeClient.tsx:44 | an absent or blank event type reads "주일 예배"; any other is shown as given |
| Home.ListOptions | src/app/HomeClient.tsx:217-222 | one option per entry of the fetched list, labelled from the entry's date and event type |
| Home.ListedOptionsDefault | src/app/api/bulletins/route.ts:23-27 | the list route selects no event type, so every option with a well-formed date ends in "주일 예배" |
| Home.BuildSections | src/app/HomeClient.tsx:383-413 | a record always gives five sections: praises, prayers, passage, sermon, announcements |
| Home.SectionBodies | src/app/HomeClient.tsx:384-411 | prayers, passage and announcements show their column with `<br />` for each newline; an empty passage or announcements column shows "—" |
| Home.ScoreLinks | src/app/HomeClient.tsx:390-401 | with praise cards, exactly the cards with an image become score links, each carrying its URL, its position in the full list and the record's date |
| Home.PraisesAsHtml | src/app/HomeClient.tsx:405 | without cards the praises text is shown with line breaks as `<br />` |
| Home.SermonPartsShown | src/app/HomeClient.tsx:410 | the sermon section shows one part per non-empty title or description, the main title in its colour first and the description last |
| Home.NewlinesToBrAppend | src/app/HomeClient.tsx:387 | every newline becomes `<br />` and nothing else changes |
| Home.SwipeTarget | src/app/HomeClient.tsx:424-434 | a swipe keeps the section index in range and moves it by at most one |
| Home.SwipeMoves | src/app/HomeClient.tsx:424-434 | the index changes exactly when a start was recorded, `\|dx\| >= \|dy\|`, `\|dx\| > 36` and there is a section in that direction; a right swipe goes back and a left swipe forward |
| Home.OrderScreen.constructor | src/app/HomeClient.tsx:416-418 | the screen starts on the first section with no touch and scale 1.0 |
| Home.OrderScreen.TouchStart | src/app/HomeClient.tsx:423 | the touch start is recorded and nothing else changes |
| Home.OrderScreen.TouchEnd | src/app/HomeClient.tsx:424-434 | the touch start is cleared and the index follows the swipe rule |
| Home.OrderScreen.SelectTab | src/app/HomeClient.tsx:459 | tapping tab `i` shows section `i` |
| Home.OrderScreen.DecreaseFont | src/app/HomeClient.tsx:436 | the scale drops by 0.1 but not below 0.9 |
| Home.OrderScreen.IncreaseFont | src/app/HomeClient.tsx:437 | the scale grows by 0.1 but not above 1.2 |
| Home.CacheKeys | src/app/HomeClient.tsx:118 | two dates share a cache key only when equal, and a date shares the no-date key only when it is `latest` |
| Home.PlanRead | src/app/HomeClient.tsx:116-181 | a cached entry is shown exactly when it is non-empty, parses and has a date, with a background refresh exactly when a date is given; otherwise the record is fetched by date or the latest one is fetched |
| Home.CachedIsReused | src/app/HomeClient.tsx:146-160 | a record stored in the cache after a fetch is shown from the cache on the next visit |
| LegacyHome.Lines | src/app/page.tsx:203-211 | every line kept is non-empty and free of newlines |
| LegacyHome.LinesAppend | src/app/page.tsx:203-211 | splitting at a newline works piecewise, so the kept lines keep their order |
| LegacyHome.LinesAllKept | src/app/page.tsx:203-211 | when no line is empty, all lines are kept and joining them gives the text back |
| LegacyHome.LegacySections | src/app/page.tsx:212-239 | a record always gives six sections, with commitment between sermon and announcements |
| LegacyHome.AnnouncementsShown | src/app/page.tsx:235 | announcements show as their lines, or "—" when empty |
| LegacyHome.LegacySwipe | src/app/page.tsx:256-266 | without a start nothing moves; `dx > 40` goes back and `dx < -40` forward when possible; anything else stays; the index stays in range |
| LegacyHome.LegacyDateLabel | src/app/page.tsx:25-31 | leading zeros in month and day do not change the label |
| LegacyHome.LegacyOrderScreen.constructor | src/app/page.tsx:243-250 | the screen starts on the first section with no touch and scale 1.0 |
| LegacyHome.LegacyOrderScreen.TouchStart | src/app/page.tsx:252-254 | the horizontal start is recorded and nothing else changes |
| LegacyHome.LegacyOrderScreen.TouchEnd | src/app/page.tsx:256-266 | the start is cleared and the index follows the horizontal swipe rule |
| LegacyHome.LegacyOrderScreen.SelectTab | src/app/page.tsx:327 | tapping tab `i` shows section `i` |
| LegacyHome.LegacyOrderScreen.DecreaseFont | src/app/page.tsx:268-274 | the scale drops by 0.1 but not below 0.9 |
| LegacyHome.LegacyOrderScreen.IncreaseFont | src/app/page.tsx:268-274 | the scale grows by 0.1 but not above 1.2 |
| ComposedInput.Step | src/components/ComposedInput.tsx:22-49 | the parent hears something only when a composition ends or on typing outside one, and then hears the event's text with the field no longer composing; only a prop change changes the prop |
| ComposedInput.InputOutsideComposition | src/components/ComposedInput.tsx:42-49 | outside a composition a change is passed to the parent and the state is unchanged |
| ComposedInput.InputInsideComposition | src/components/ComposedInput.tsx:42-49 | during a composition a change only updates the shown local value and the parent is not called |
| ComposedInput.CompositionBounds | src/components/ComposedInput.tsx:32-41 | a start begins composing from the prop value; an end stops composing, keeps the final text and passes it to the parent |
| ComposedInput.PropSync | src/components/ComposedInput.tsx:22-31 | a new prop value is shown unless composing, and the local value follows it only outside a composition |
| ComposedInput.Quiet | src/components/ComposedInput.tsx:42-49 | during a composition no event but its end calls the parent |
| ComposedInput.RunAppend | src/components/ComposedInput.tsx:18-52 | running two event sequences one after the other is running their concatenation |
| ComposedInput.SessionEmitsOnce | src/components/ComposedInput.tsx:32-49 | a whole composition session calls the parent exactly once, with the final text |
| ComposedInput.ComposedField.constructor | src/components/ComposedInput.tsx:18-21 | the field starts not composing, showing the prop value |
| ComposedInput.ComposedField.PropChanged | src/components/ComposedInput.tsx:22-26 | the field's state follows the prop-change transition |
| ComposedInput.ComposedField.CompositionStart | src/components/ComposedInput.tsx:32-35 | the field's state follows the composition-start transition |
| ComposedInput.ComposedField.CompositionEnd | src/components/ComposedInput.tsx:36-41 | the state and the value passed to the parent follow the composition-end transition |
| ComposedInput.ComposedField.Input | src/components/ComposedInput.tsx:42-49 | the state and the value passed to the parent follow the change transition |

## Left out

- Rendering is not modelled: JSX, CSS classes, the inserted HTML, the intro and loading screens, and the rich-text editor's DOM commands.
- Network and storage I/O is not modelled directly. `fetch`, `sessionStorage`, router navigation and `window.confirm` become values and parameters, and the session storage is a map from key to text.
- The database and the storage service are represented by their state: a map from date to record, and sets of object paths and local files. Their calls do not fail in the model except where a method takes a failure flag (`offline`, `serviceFails`).
- Asynchronous ordering is not modelled. Each editor handler runs to completion, and the home page's out-of-order fetch results are left out.
- `GET /api/bulletins/[date]` is not modelled. It is the same lookup as `GET /api/bulletins?date=`, which is.
- src/app/score/page.tsx, src/app/admin/login/page.tsx and src/components/RichTextEditor.tsx are not part of this model.
- The editor's per-field input handlers and the page's loading gate are not modelled. They only copy one value into the form.
- `Date.now()` and `Math.random()` in upload names are parameters of `Assets.UploadRoute.Post`.
- Errors of reading the upload's form data, `mkdir`, writing a file and unlinking one are not modelled. The code swallows a failed unlink.
- Home.NumberText: `Number(m)` is modelled for trimmed ASCII digit strings, printed as their exact value without leading zeros. JavaScript converts to a double instead: a value above 2^53 is rounded (`9007199254740993` prints `9007199254740992`), and a value of 1e21 or more prints in exponent form (`1.2345678901234568e+21`). Any other text prints "NaN" in the model, whereas JavaScript also accepts signs, fractions, exponents and hex literals.
- Home.NumberTextCanonical: "a numeral without leading zeros prints as itself" holds in JavaScript only for values up to 2^53; above that the model's exact printing differs, as the Home.NumberText line says.
- Home.DateLabelShape: the month and day are stated as their exact decimal values. For a month or day above 2^53 the home page shows the rounded double, or its exponent form from 1e21 on.
- Home.BulletinOptionShape: the same exact-value month and day as Home.DateLabelShape, with the same gap for digit strings above 2^53.
- Home.SwipeTarget: touch coordinates are exact reals and `dx`, `dy` are exact differences. JavaScript subtracts doubles, so a distance within one rounding step of 36 can compare the other way: from 0.1 to 36.1 the browser computes `dx` as exactly 36, which does not move, while the model's `dx` is just above 36 and moves.
- LegacyHome.LegacySwipeTarget: `LegacyHome.LegacySwipe` uses the same exact-real subtraction against the threshold 40, with the same rounding gap.
- Assets.UrlPathname: the WHATWG URL parser is modelled only for URLs it keeps as they are. Such a URL has a special scheme other than `file`, then `//`. The host is made of letter-led labels of letters, digits and `-`, with an optional port up to 65535. The whole URL uses only printable ASCII other than `"`, `<`, `>`, `\`, `^`, `` ` ``, `{`, `|` and `}`. The path has no `.` or `..` segments. For any other text the model answers "no path", so DELETE answers 400 for it. The real parser might instead do any of the following:
  - strip leading and trailing blanks, or drop tabs and line breaks;
  - read `\` as `/`, or percent-encode characters;
  - resolve `.` and `..` segments;
  - find the host after a single `/` (`https:/x`);
  - accept a user name, an IPv4 or IPv6 address, an international domain name or a non-special scheme.
- Assets.UrlPathnameOf, Assets.PublicUrlPath and Assets.PathRoundTrip state their results for the URLs and names the parser keeps as they are, described in the line above.
- Store.Below: listing orders dates by code-point order, not by the database's collation.
- Home.OrderScreen.DecreaseFont and the other font-scale methods keep the scale as whole tenths from 9 to 12, not as the floating-point value the code rounds with `toFixed(2)`.
- Store.NonStringColumnFails: a column given as a number, boolean, array or object is modelled as a failed save (500). The real outcome is decided by the database driver.
- Editor.OrDefault: a field of the loaded record that holds a non-string value is read as its default or `""`, not as that value.
- Json.ParseEscape: a `\u` escape of a lone surrogate (`"\uD800"`) is a parse failure, because a Dafny `char` is a Unicode scalar value; `JSON.parse` accepts it as a lone UTF-16 unit.
- Json.Truthy: a number is truthy when its lexeme has a non-zero digit in its mantissa. A literal that underflows to zero in a double, such as `1e-400`, is truthy in the model but falsy in JavaScript, so `Home.Acceptable` accepts `{"date":1e-400}`.
- Editor.RecordJson: the record as the editor receives it leaves out the database id and timestamps, which the editor never reads.
- The fallback messages "저장에 실패했습니다." and "삭제에 실패했습니다." are not modelled. The modelled routes always answer with a message.
- `encodeURIComponent` in score links and fetch URLs is not modelled. Links carry the raw URL and date.
