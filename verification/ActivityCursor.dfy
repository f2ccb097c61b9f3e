/** The cursor of the activity feed as the text clients send back, and the route that reads it. */
module ActivityCursor {
  import opened Options
  import opened Rfc4648
  import opened Activity
  import Base64Url
  import JsonText
  import Utf8

  const MAX_SAFE_INTEGER := 9_007_199_254_740_991
  const MAX_CURSOR_LENGTH := 512

  function SourceName(source: Source): string {
    if source.ActivityEvent? then "activity" else "delegation"
  }

  const CREATED_AT := "{\"createdAt\":"
  const SOURCE := ",\"source\":"
  const ID := ",\"id\":"

  function CursorText(c: Cursor): string {
    CREATED_AT + (JsonText.IntText(c.createdAt)
    + (SOURCE + (JsonText.QuoteText(SourceName(c.source))
    + (ID + (JsonText.QuoteText(c.id)
    + "}")))))
  }

  /** encodeActivityCursor */
  function EncodeActivityCursor(c: Cursor): string {
    UrlEncode(Utf8.Encode(CursorText(c)))
  }

  /** What follows a fixed text. */
  function After(t: string, fixed: string): Option<string> {
    if fixed <= t then Some(t[|fixed|..]) else None
  }

  datatype Parsed = Parsed(createdAt: int, source: string, id: string)

  /** An object with the three members in the order encodeActivityCursor writes them. */
  function ParseCursor(t: string): Option<Parsed> {
    var t0 := After(t, CREATED_AT);
    if t0.None? then None else
    var createdAt := JsonText.ReadInt(t0.value);
    if createdAt.None? then None else
    var t1 := After(createdAt.value.1, SOURCE);
    if t1.None? then None else
    var source := JsonText.ReadString(t1.value);
    if source.None? then None else
    var t2 := After(source.value.1, ID);
    if t2.None? then None else
    var id := JsonText.ReadString(t2.value);
    if id.None? || id.value.1 != "}" then None
    else Some(Parsed(createdAt.value.0, source.value.0, id.value.0))
  }

  function SourceOf(name: string): Option<Source> {
    if name == "activity" then Some(ActivityEvent) else if name == "delegation" then Some(DelegationEvent) else None
  }

  predicate IsSafeInteger(n: int) {
    -MAX_SAFE_INTEGER <= n <= MAX_SAFE_INTEGER
  }

  /** The checks decodeActivityCursor makes of what it parsed. */
  function CheckParsed(p: Parsed): Option<Cursor> {
    if !IsSafeInteger(p.createdAt) || SourceOf(p.source).None? || p.id == "" then None
    else Some(Cursor(p.createdAt, SourceOf(p.source).value, p.id))
  }

  function DecodeActivityCursor(value: string): Option<Cursor> {
    if value == "" then None else
    var bytes := Base64Url.Base64UrlDecode(value);
    if bytes.None? then None else
    var text := Utf8.Decode(bytes.value);
    if text.None? then None else
    var parsed := ParseCursor(text.value);
    if parsed.None? then None else CheckParsed(parsed.value)
  }

  lemma AfterFixed(fixed: string, rest: string)
    ensures After(fixed + rest, fixed) == Some(rest)
  {
  }

  lemma ParseOfCursorText(c: Cursor)
    ensures ParseCursor(CursorText(c)) == Some(Parsed(c.createdAt, SourceName(c.source), c.id))
  {
    hide After, JsonText.IntText, JsonText.QuoteText, JsonText.ReadInt, JsonText.ReadString, SourceName;
    var end := JsonText.QuoteText(c.id) + "}";
    var middle := JsonText.QuoteText(SourceName(c.source)) + (ID + end);
    var start := JsonText.IntText(c.createdAt) + (SOURCE + middle);
    AfterFixed(CREATED_AT, start);
    JsonText.ReadOfInt(c.createdAt, SOURCE + middle);
    AfterFixed(SOURCE, middle);
    JsonText.ReadOfQuoted(SourceName(c.source), ID + end);
    AfterFixed(ID, end);
    JsonText.ReadOfQuoted(c.id, "}");
  }

  lemma EncodedIsNotEmpty(c: Cursor)
    ensures EncodeActivityCursor(c) != ""
  {
    hide ParseCursor, CursorText;
    ParseOfCursorText(c);
    assert ParseCursor("").None? by { ParseOfEmpty(); }
    Utf8.DecodeOfEncode(CursorText(c));
    Base64Url.DecodeEncode(Utf8.Encode(CursorText(c)));
    EmptyDecodes();
  }

  lemma EmptyDecodes()
    ensures Base64Url.Base64UrlDecode("") == Some([])
  {
    Base64Url.DecodeEncode([]);
    assert UrlEncode([]) == "";
  }

  lemma ParseOfEmpty()
    ensures ParseCursor("").None?
  {
  }

  /** A cursor survives the way through the client exactly when its time is a safe integer and its id is not empty. */
  lemma CursorRoundTrip(c: Cursor)
    ensures DecodeActivityCursor(EncodeActivityCursor(c))
         == if -0x1F_FFFF_FFFF_FFFF <= c.createdAt <= 0x1F_FFFF_FFFF_FFFF && c.id != "" then Some(c) else None
  {
    hide Base64Url.Base64UrlDecode, UrlEncode, Utf8.Encode, Utf8.Decode, ParseCursor, CursorText;
    Base64Url.DecodeEncode(Utf8.Encode(CursorText(c)));
    Utf8.DecodeOfEncode(CursorText(c));
    ParseOfCursorText(c);
    EncodedIsNotEmpty(c);
  }

  /** Whatever text a cursor was read from, it can be sent again as the text the server gives out. */
  lemma DecodedComesBack(value: string)
    ensures var c := DecodeActivityCursor(value);
            c.Some? ==> DecodeActivityCursor(EncodeActivityCursor(c.value)) == c
  {
    hide EncodeActivityCursor, Utf8.Decode, ParseCursor, Base64Url.Base64UrlDecode;
    var c := DecodeActivityCursor(value);
    if c.Some? {
      CursorRoundTrip(c.value);
    }
  }

  datatype Response = BadRequest | Activities(items: seq<Row>, nextCursor: Option<string>, hasMore: bool)

  /** GET /:appId/activity; an absent cursor is the empty text. */
  ghost function Route(db: set<Row>, appId: nat, limit: nat, cursor: string): Response
    requires KeysUnique(db)
  {
    if |cursor| > MAX_CURSOR_LENGTH || (cursor != "" && DecodeActivityCursor(cursor).None?) then BadRequest
    else
      var page := GetAppActivity(db, appId, limit, DecodeActivityCursor(cursor));
      Activities(page.items,
                 if page.nextCursor.Some? then Some(EncodeActivityCursor(page.nextCursor.value)) else None,
                 page.hasMore)
  }

  /** A row whose cursor comes back from the client as it was sent. */
  predicate Resumable(r: Row) {
    r.id != "" && |EncodeActivityCursor(KeyOf(r))| <= MAX_CURSOR_LENGTH
  }

  /** The route refuses the cursor it gave out exactly when the page ended at a row that is not resumable. */
  lemma OwnCursorRefusedExactly(db: set<Row>, appId: nat, limit: nat, r: Row)
    requires KeysUnique(db)
    ensures Route(db, appId, limit, EncodeActivityCursor(KeyOf(r))).BadRequest? <==> !Resumable(r)
    ensures Resumable(r) <==> r.id != "" && |EncodeActivityCursor(KeyOf(r))| <= 512
  {
    hide EncodeActivityCursor, DecodeActivityCursor, GetAppActivity;
    CursorRoundTrip(KeyOf(r));
    EncodedIsNotEmpty(KeyOf(r));
  }

  /** What a client reads that sends each nextCursor back to the route. */
  ghost function FollowRoute(dbs: seq<set<Row>>, appId: nat, limit: nat, cursor: string): Reading
    requires forall i :: 0 <= i < |dbs| ==> KeysUnique(dbs[i])
    decreases |dbs|
  {
    if dbs == [] then Reading([], false)
    else
      match Route(dbs[0], appId, limit, cursor)
      case BadRequest => Reading([], false)
      case Activities(items, None, _) => Reading(items, true)
      case Activities(items, Some(next), _) =>
        var rest := FollowRoute(dbs[1..], appId, limit, next);
        Reading(items + rest.items, rest.done)
  }

  function KeyOfLast(last: Option<Row>): Option<Cursor> {
    if last.Some? then Some(KeyOf(last.value)) else None
  }

  function TextOf(cursor: Option<Cursor>): string {
    if cursor.Some? then EncodeActivityCursor(cursor.value) else ""
  }

  lemma RowCursorIsSafe(r: Row)
    ensures IsSafeInteger(KeyOf(r).createdAt) && KeyOf(r).id == r.id
  {
  }

  lemma NoCursor()
    ensures DecodeActivityCursor("") == None
  {
  }

  lemma RouteAtCursor(db: set<Row>, appId: nat, limit: nat, last: Option<Row>)
    requires KeysUnique(db) && (last.Some? ==> Resumable(last.value))
    ensures var page := GetAppActivity(db, appId, limit, KeyOfLast(last));
            Route(db, appId, limit, TextOf(KeyOfLast(last))) == Activities(page.items,
              if page.nextCursor.Some? then Some(EncodeActivityCursor(page.nextCursor.value)) else None, page.hasMore)
  {
    hide EncodeActivityCursor, DecodeActivityCursor, GetAppActivity, KeyOf;
    NoCursor();
    if last.Some? {
      RowCursorIsSafe(last.value);
      CursorRoundTrip(KeyOf(last.value));
      EncodedIsNotEmpty(KeyOf(last.value));
    }
  }

  lemma PageEndsInApp(db: set<Row>, latest: set<Row>, appId: nat, limit: nat, last: Option<Row>)
    requires KeysUnique(db) && db <= latest && limit >= 1
    ensures var page := GetAppActivity(db, appId, limit, KeyOfLast(last));
            page.nextCursor.Some? ==>
              && page.items != [] && page.items[|page.items| - 1] in AppRows(latest, appId)
              && page.nextCursor == KeyOfLast(Some(page.items[|page.items| - 1]))
  {
    hide GetAppActivity;
    PageSplits(db, appId, limit, KeyOfLast(last));
  }

  /** One request to the route, then the rest; reading by cursors takes the same page. */
  lemma RouteUnrolls(dbs: seq<set<Row>>, appId: nat, limit: nat, last: Option<Row>)
    requires dbs != [] && (forall i :: 0 <= i < |dbs| ==> KeysUnique(dbs[i])) && (last.Some? ==> Resumable(last.value))
    ensures var page := GetAppActivity(dbs[0], appId, limit, KeyOfLast(last));
            if page.nextCursor.None? then
              && FollowRoute(dbs, appId, limit, TextOf(KeyOfLast(last))) == Reading(page.items, true)
              && Follow(dbs, appId, limit, KeyOfLast(last)) == Reading(page.items, true)
            else
              var route := FollowRoute(dbs[1..], appId, limit, TextOf(page.nextCursor));
              var read := Follow(dbs[1..], appId, limit, page.nextCursor);
              && FollowRoute(dbs, appId, limit, TextOf(KeyOfLast(last))) == Reading(page.items + route.items, route.done)
              && Follow(dbs, appId, limit, KeyOfLast(last)) == Reading(page.items + read.items, read.done)
  {
    hide Route, EncodeActivityCursor, GetAppActivity, Resumable, KeyOf, KeysUnique;
    RouteAtCursor(dbs[0], appId, limit, last);
  }

  /** Sending texts back and forth reads what following the cursors themselves reads. */
  lemma {:induction false} TextsFollowCursors(dbs: seq<set<Row>>, appId: nat, limit: nat, last: Option<Row>)
    requires Growing(dbs) && limit >= 1
    requires last.Some? ==> Resumable(last.value)
    requires dbs != [] ==> forall r :: r in AppRows(Latest(dbs), appId) ==> Resumable(r)
    ensures FollowRoute(dbs, appId, limit, TextOf(KeyOfLast(last))) == Follow(dbs, appId, limit, KeyOfLast(last))
    decreases |dbs|
  {
    if dbs != [] {
      hide Follow, FollowRoute, EncodeActivityCursor, GetAppActivity, Resumable, Growing, AppRows, KeyOf, TextOf;
      GrowingTail(dbs);
      var page := GetAppActivity(dbs[0], appId, limit, KeyOfLast(last));
      RouteUnrolls(dbs, appId, limit, last);
      PageEndsInApp(dbs[0], Latest(dbs), appId, limit, last);
      if page.nextCursor.Some? {
        TextsFollowCursors(dbs[1..], appId, limit, Some(page.items[|page.items| - 1]));
      }
    }
  }

  /** The feed as clients see it: each row that was there at the first request is read exactly once,
      in order, whatever is inserted meanwhile, and reading ends. */
  lemma ClientReadsEveryInitialRowOnce(dbs: seq<set<Row>>, appId: nat, limit: nat)
    requires Growing(dbs) && dbs != [] && limit >= 1
    requires forall r :: r in AppRows(Latest(dbs), appId) ==> Resumable(r)
    ensures var reading := FollowRoute(dbs, appId, limit, "");
            && Listed(reading.items)
            && (forall r :: r in reading.items ==> r in Latest(dbs) && r.appId == appId)
            && (reading.done ==> forall r :: r in dbs[0] && r.appId == appId ==> r in reading.items)
            && (|dbs| * limit > |AppRows(Latest(dbs), appId)| ==> reading.done)
  {
    hide Resumable, Growing;
    TextsFollowCursors(dbs, appId, limit, None);
    EveryInitialRowOnce(dbs, appId, limit);
  }
}
