/**
 Keyset pagination of a thread's history: the cursor text, one page, and the walk a client
 makes by following cursors while newer messages may arrive.
 */
module History {
  import opened Options
  import opened Base64Url

  predicate IsHexDigit(c: char) {
    '0' <= c <= '9' || 'a' <= c <= 'f' || 'A' <= c <= 'F'
  }

  predicate IsHexId(id: string) {
    |id| == 24 && forall i :: 0 <= i < 24 ==> IsHexDigit(id[i])
  }

  type HexId = id: string | IsHexId(id) witness "000000000000000000000000"

  // ----- the cursor -----

  datatype Payload = Payload(createdAt: int, id: string)

  /** JSON text of a payload as UTF-8 bytes, its date as ISO text; and its parser, which may fail. */
  datatype Json = Json(print_: Payload -> seq<Byte>, parse: seq<Byte> -> Option<Payload>)

  /** Serializing loses nothing, and no JSON text is empty. */
  ghost predicate Faithful(json: Json) {
    forall p :: json.print_(p) != [] && json.parse(json.print_(p)) == Some(p)
  }

  function EncodeCursor(json: Json, createdAt: int, id: HexId): string {
    Encode(json.print_(Payload(createdAt, id)))
  }

  /** `None` for anything that is not the text of a date and a 24-digit hexadecimal id. */
  function DecodeCursor(json: Json, cursor: string): Option<Payload> {
    var parsed := json.parse(Decode(cursor));
    if parsed.Some? && IsHexId(parsed.value.id) then parsed else None
  }

  lemma CursorRoundTrip(json: Json, createdAt: int, id: HexId)
    requires Faithful(json)
    ensures DecodeCursor(json, EncodeCursor(json, createdAt, id)) == Some(Payload(createdAt, id))
    ensures EncodeCursor(json, createdAt, id) != ""
  {
    DecodeEncode(json.print_(Payload(createdAt, id)));
  }

  /** A cursor is refused exactly if its text holds no payload, or one whose id is not 24 hexadecimal digits. */
  lemma RefusedCursors(json: Json, cursor: string)
    ensures DecodeCursor(json, cursor) == None <==>
            match json.parse(Decode(cursor))
            case None => true
            case Some(p) => |p.id| != 24 || exists i :: 0 <= i < |p.id| && !IsHexDigit(p.id[i])
  {
  }

  // ----- the order of a thread -----

  datatype Row = Row(createdAt: int, id: HexId, text: string)

  function HexDigit(c: char): int {
    if '0' <= c <= '9' then c as int - '0' as int
    else if 'a' <= c <= 'f' then c as int - 'a' as int + 10
    else c as int - 'A' as int + 10
  }

  /** Ids compare digit by digit as the numbers they spell, in whichever case the digits are written. */
  predicate IdLess(a: string, b: string)
    decreases |a|
  {
    && b != ""
    && (a == "" || HexDigit(a[0]) < HexDigit(b[0]) || (HexDigit(a[0]) == HexDigit(b[0]) && IdLess(a[1..], b[1..])))
  }

  predicate Before(m: Row, createdAt: int, id: string) {
    m.createdAt < createdAt || (m.createdAt == createdAt && IdLess(m.id, id))
  }

  predicate Older(a: Row, b: Row) {
    Before(a, b.createdAt, b.id)
  }

  lemma {:induction false} IdLessIrreflexive(a: string)
    ensures !IdLess(a, a)
    decreases |a|
  {
    if a != "" { IdLessIrreflexive(a[1..]); }
  }

  lemma {:induction false} IdLessAsymmetric(a: string, b: string)
    ensures !(IdLess(a, b) && IdLess(b, a))
    decreases |a|
  {
    if a != "" && b != "" { IdLessAsymmetric(a[1..], b[1..]); }
  }

  /** A thread's messages in index order, oldest first, which is the order `streamAll` yields. */
  ghost predicate Ordered(h: seq<Row>) {
    forall i, j :: 0 <= i < j < |h| ==> Older(h[i], h[j])
  }

  /** The value of a hexadecimal digit, as a table. */
  function DigitOf(c: char): int {
    match c
    case '0' => 0 case '1' => 1 case '2' => 2 case '3' => 3
    case '4' => 4 case '5' => 5 case '6' => 6 case '7' => 7
    case '8' => 8 case '9' => 9 case 'a' => 10 case 'b' => 11
    case 'c' => 12 case 'd' => 13 case 'e' => 14 case 'f' => 15
    case 'A' => 10 case 'B' => 11 case 'C' => 12 case 'D' => 13
    case 'E' => 14 case 'F' => 15
    case _ => -1
  }

  lemma DigitIs(c: char)
    requires IsHexDigit(c)
    ensures HexDigit(c) == DigitOf(c)
  {
  }

  /** The digits an id may have, in either case. */
  lemma HexDigitMeans(c: char)
    ensures IsHexDigit(c) <==> DigitOf(c) >= 0
  {
  }

  predicate DiffersAt(a: string, b: string, k: nat) {
    && k < |a| && k < |b| && DigitOf(a[k]) < DigitOf(b[k])
    && forall j :: 0 <= j < k ==> DigitOf(a[j]) == DigitOf(b[j])
  }

  /** The first digit in which two ids differ is smaller in the first. */
  ghost predicate DiffersBelow(a: string, b: string) {
    exists k: nat :: DiffersAt(a, b, k)
  }

  predicate IsHex(id: string) {
    forall i :: 0 <= i < |id| ==> IsHexDigit(id[i])
  }

  lemma {:induction false} LessDiffers(a: string, b: string) returns (k: nat)
    requires |a| == |b| && IsHex(a) && IsHex(b) && IdLess(a, b)
    ensures DiffersAt(a, b, k)
    decreases |a|
  {
    k := 0;
    DigitIs(a[0]);
    DigitIs(b[0]);
    if HexDigit(a[0]) == HexDigit(b[0]) {
      var rest := LessDiffers(a[1..], b[1..]);
      DiffersLater(a, b, rest);
      k := rest + 1;
    }
  }

  lemma DiffersLater(a: string, b: string, k: nat)
    requires a != "" && b != "" && DigitOf(a[0]) == DigitOf(b[0]) && DiffersAt(a[1..], b[1..], k)
    ensures DiffersAt(a, b, k + 1)
  {
    forall j | 0 <= j < k + 1
      ensures DigitOf(a[j]) == DigitOf(b[j])
    {
      if j > 0 { assert DigitOf(a[1..][j - 1]) == DigitOf(b[1..][j - 1]); }
    }
  }

  lemma {:induction false} DiffersLess(a: string, b: string, k: nat)
    requires IsHex(a) && IsHex(b) && DiffersAt(a, b, k)
    ensures IdLess(a, b)
    decreases k
  {
    DigitIs(a[0]);
    DigitIs(b[0]);
    if k > 0 {
      assert DigitOf(a[0]) == DigitOf(b[0]);
      forall j | 0 <= j < k - 1
        ensures DigitOf(a[1..][j]) == DigitOf(b[1..][j])
      {
        assert DigitOf(a[j + 1]) == DigitOf(b[j + 1]);
      }
      DiffersLess(a[1..], b[1..], k - 1);
    }
  }

  lemma LessMeans(a: string, b: string)
    requires |a| == |b| && IsHex(a) && IsHex(b)
    ensures IdLess(a, b) <==> DiffersBelow(a, b)
  {
    if IdLess(a, b) {
      var k := LessDiffers(a, b);
      assert DiffersAt(a, b, k);
    }
    if k: nat :| DiffersAt(a, b, k) {
      DiffersLess(a, b, k);
    }
  }

  /** A thread is in order when it goes by time, and at the same time by id. */
  lemma OrderedMeans(h: seq<Row>)
    ensures Ordered(h) <==>
            forall i, j :: 0 <= i < j < |h| ==>
              || h[i].createdAt < h[j].createdAt
              || (h[i].createdAt == h[j].createdAt && DiffersBelow(h[i].id, h[j].id))
  {
    forall i, j | 0 <= i < j < |h|
      ensures Older(h[i], h[j]) <==>
              || h[i].createdAt < h[j].createdAt
              || (h[i].createdAt == h[j].createdAt && DiffersBelow(h[i].id, h[j].id))
    {
      LessMeans(h[i].id, h[j].id);
    }
  }

  // ----- one page -----

  function Reversed<T>(s: seq<T>): seq<T> {
    seq(|s|, i requires 0 <= i < |s| => s[|s| - 1 - i])
  }

  /** The query filter: messages strictly before the cursor, or all of them. */
  function Matching(h: seq<Row>, cursor: Option<Payload>): seq<Row>
    decreases |h|
  {
    if h == [] then []
    else
      var last := h[|h| - 1];
      Matching(h[..|h| - 1], cursor)
      + (if cursor.None? || Before(last, cursor.value.createdAt, cursor.value.id) then [last] else [])
  }

  function Take<T>(s: seq<T>, n: nat): seq<T> {
    if |s| <= n then s else s[..n]
  }

  datatype Page = Page(messages: seq<Row>, nextCursor: Option<string>)

  /** The page shown for the rows that were read, newest first; a row too many tells that there is a next page. */
  function PageFrom(json: Json, rows: seq<Row>, limit: nat): Page {
    var hasMore := |rows| > limit;
    var page := if hasMore then rows[..limit] else rows;
    Page(
      Reversed(page),
      if hasMore && page != [] then Some(EncodeCursor(json, page[|page| - 1].createdAt, page[|page| - 1].id)) else None)
  }

  function LoadPage(json: Json, h: seq<Row>, cursor: Option<Payload>, limit: nat): Page {
    PageFrom(json, Take(Reversed(Matching(h, cursor)), limit + 1), limit)
  }

  datatype Result = InvalidCursor | Ok(page: Page)

  /** An empty cursor asks for the first page too. */
  function GetHistory(json: Json, h: seq<Row>, cursor: Option<string>, limit: nat): Result {
    if cursor.None? || cursor.value == "" then Ok(LoadPage(json, h, None, limit))
    else
      var decoded := DecodeCursor(json, cursor.value);
      if decoded.None? then InvalidCursor else Ok(LoadPage(json, h, decoded, limit))
  }

  /** A cursor that cannot be decoded is an error; without a cursor, or with an empty one, it is the first page. */
  lemma HistoryAnswers(json: Json, h: seq<Row>, cursor: Option<string>, limit: nat)
    ensures cursor == None || cursor == Some("") ==>
              GetHistory(json, h, cursor, limit) == Ok(LoadPage(json, h, None, limit))
    ensures cursor.Some? && cursor.value != "" ==>
              (GetHistory(json, h, cursor, limit) == InvalidCursor <==> DecodeCursor(json, cursor.value) == None)
    ensures cursor.Some? && cursor.value != "" && DecodeCursor(json, cursor.value).Some? ==>
              GetHistory(json, h, cursor, limit) == Ok(LoadPage(json, h, DecodeCursor(json, cursor.value), limit))
  {
  }

  /** Cut at one of its own messages, an ordered thread leaves exactly what comes before it. */
  lemma {:induction false} MatchingBefore(h: seq<Row>, j: nat, n: nat)
    requires Ordered(h) && j < |h| && n <= |h|
    ensures Matching(h[..n], Some(Payload(h[j].createdAt, h[j].id))) == if n <= j then h[..n] else h[..j]
    decreases n
  {
    if n > 0 {
      MatchingBefore(h, j, n - 1);
      assert h[..n][..n - 1] == h[..n - 1];
      if n - 1 == j {
        IdLessIrreflexive(h[j].id);
      } else if n - 1 > j {
        assert Older(h[j], h[n - 1]);
        IdLessAsymmetric(h[j].id, h[n - 1].id);
      }
    }
  }

  lemma {:induction false} MatchingAll(h: seq<Row>)
    ensures Matching(h, None) == h
    decreases |h|
  {
    if h != [] { MatchingAll(h[..|h| - 1]); }
  }

  /** The newest `limit` of the messages `p`, with a cursor at the oldest of them if any are left out. */
  function ExpectedPage(json: Json, limit: nat, p: seq<Row>): Page
    requires limit >= 1
  {
    if |p| <= limit then Page(p, None)
    else Page(p[|p| - limit..], Some(EncodeCursor(json, p[|p| - limit].createdAt, p[|p| - limit].id)))
  }

  /** The first rows of the newest-first order, put back oldest first, are the end of the thread. */
  lemma NewestRows(p: seq<Row>, n: nat)
    requires n <= |p|
    ensures Reversed(Reversed(p)[..n]) == p[|p| - n..]
  {
  }

  lemma FullPage(json: Json, p: seq<Row>, limit: nat)
    requires 1 <= limit < |p|
    ensures PageFrom(json, Reversed(p)[..limit + 1], limit) == ExpectedPage(json, limit, p)
  {
    var rows := Reversed(p);
    assert rows[..limit + 1][..limit] == rows[..limit];
    NewestRows(p, limit);
  }

  lemma LastPage(json: Json, p: seq<Row>, limit: nat)
    requires 1 <= limit && |p| <= limit
    ensures PageFrom(json, Reversed(p), limit) == ExpectedPage(json, limit, p)
  {
    NewestRows(p, |p|);
    assert Reversed(p)[..|p|] == Reversed(p) && p[0..] == p;
  }

  lemma PageOf(json: Json, h: seq<Row>, cursor: Option<Payload>, limit: nat, p: seq<Row>)
    requires limit >= 1 && Matching(h, cursor) == p
    ensures LoadPage(json, h, cursor, limit) == ExpectedPage(json, limit, p)
  {
    if |p| > limit {
      FullPage(json, p, limit);
    } else {
      LastPage(json, p, limit);
    }
  }

  // ----- the walk -----

  /** Pages fetched by following cursors; `snaps[k]` is the thread when the k-th page is fetched. */
  function Walk(json: Json, snaps: seq<seq<Row>>, cursor: Option<string>, limit: nat): seq<Page>
    decreases |snaps|
  {
    if snaps == [] then []
    else
      match GetHistory(json, snaps[0], cursor, limit)
      case InvalidCursor => []
      case Ok(page) => [page] + (if page.nextCursor.None? then [] else Walk(json, snaps[1..], page.nextCursor, limit))
  }

  /** The pages put back together, oldest first. */
  function Joined(pages: seq<Page>): seq<Row>
    decreases |pages|
  {
    if pages == [] then [] else Joined(pages[1..]) + pages[0].messages
  }

  /** The thread as it was at the start, with newer messages appended. */
  ghost predicate Grown(start: seq<Row>, snaps: seq<seq<Row>>) {
    forall k :: 0 <= k < |snaps| ==> start <= snaps[k] && Ordered(snaps[k])
  }

  ghost predicate Complete(pages: seq<Page>, h: seq<Row>) {
    Joined(pages) == h && pages != [] && pages[|pages| - 1].nextCursor.None?
  }

  lemma FirstPage(json: Json, h: seq<Row>, limit: nat)
    requires limit >= 1
    ensures GetHistory(json, h, None, limit) == Ok(ExpectedPage(json, limit, h))
  {
    MatchingAll(h);
    PageOf(json, h, None, limit, h);
  }

  lemma NextPage(json: Json, h: seq<Row>, limit: nat, j: nat)
    requires Faithful(json) && limit >= 1 && Ordered(h) && j < |h|
    ensures GetHistory(json, h, Some(EncodeCursor(json, h[j].createdAt, h[j].id)), limit)
            == Ok(ExpectedPage(json, limit, h[..j]))
  {
    CursorRoundTrip(json, h[j].createdAt, h[j].id);
    assert h[..|h|] == h;
    MatchingBefore(h, j, |h|);
    PageOf(json, h, Some(Payload(h[j].createdAt, h[j].id)), limit, h[..j]);
  }

  lemma WalkUnfolds(json: Json, snaps: seq<seq<Row>>, cursor: Option<string>, limit: nat, page: Page, older: seq<Row>)
    requires snaps != [] && GetHistory(json, snaps[0], cursor, limit) == Ok(page)
    requires page.nextCursor.None? ==> older == []
    requires page.nextCursor.Some? ==> Complete(Walk(json, snaps[1..], page.nextCursor, limit), older)
    ensures Complete(Walk(json, snaps, cursor, limit), older + page.messages)
  {
    var later := if page.nextCursor.None? then [] else Walk(json, snaps[1..], page.nextCursor, limit);
    assert Walk(json, snaps, cursor, limit) == [page] + later;
    assert ([page] + later)[1..] == later;
  }

  lemma PrefixCut(p: seq<Row>, start: seq<Row>, h: seq<Row>, k: nat)
    requires p <= start <= h && k < |p|
    ensures k < |h| && h[k] == p[k] && h[..k] == p[..k]
  {
  }

  lemma PageSplit(json: Json, limit: nat, p: seq<Row>)
    requires 1 <= limit < |p|
    ensures var page, k := ExpectedPage(json, limit, p), |p| - limit;
            page.nextCursor == Some(EncodeCursor(json, p[k].createdAt, p[k].id)) && p[..k] + page.messages == p
  {
  }

  /** The page after one that left messages out shows the end of what was left out. */
  lemma PageAfter(json: Json, start: seq<Row>, h: seq<Row>, limit: nat, p: seq<Row>)
    requires Faithful(json) && 1 <= limit < |p| && Ordered(h) && p <= start <= h
    ensures var page, rest := ExpectedPage(json, limit, p), p[..|p| - limit];
            && page.nextCursor.Some? && rest + page.messages == p
            && GetHistory(json, h, page.nextCursor, limit) == Ok(ExpectedPage(json, limit, rest))
  {
    var k := |p| - limit;
    PageSplit(json, limit, p);
    PrefixCut(p, start, h, k);
    NextPage(json, h, limit, k);
  }

  lemma {:induction false} WalkOn(json: Json, start: seq<Row>, snaps: seq<seq<Row>>, cursor: Option<string>,
      limit: nat, p: seq<Row>)
    requires Faithful(json) && limit >= 1 && Grown(start, snaps) && |snaps| > |p| && p <= start
    requires GetHistory(json, snaps[0], cursor, limit) == Ok(ExpectedPage(json, limit, p))
    ensures Complete(Walk(json, snaps, cursor, limit), p)
    decreases |snaps|
  {
    var page := ExpectedPage(json, limit, p);
    if |p| <= limit {
      WalkUnfolds(json, snaps, cursor, limit, page, []);
      assert [] + p == p;
    } else {
      var rest, later := p[..|p| - limit], snaps[1..];
      PageAfter(json, start, snaps[1], limit, p);
      assert later[0] == snaps[1];
      WalkOn(json, start, later, page.nextCursor, limit, rest);
      WalkUnfolds(json, snaps, cursor, limit, page, rest);
    }
  }

  /**
   Following cursors from the first page ends after at most one page per message and visits
   every message present at the start exactly once, in order, however many newer messages
   arrive meanwhile; put back together the pages are the thread as `streamAll` yields it.
   */
  lemma WalkVisitsAll(json: Json, snaps: seq<seq<Row>>, limit: nat)
    requires Faithful(json) && limit >= 1 && snaps != [] && Grown(snaps[0], snaps) && |snaps| > |snaps[0]|
    ensures Complete(Walk(json, snaps, None, limit), snaps[0])
  {
    FirstPage(json, snaps[0], limit);
    WalkOn(json, snaps[0], snaps, None, limit, snaps[0]);
  }
}
