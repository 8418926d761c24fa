/** The `/api/prayers` endpoint: list, create and delete rows of the `prayers`
    table. The table is modelled as a sequence of rows in storage order; the
    database's id sequence is the `nextId` counter, the database clock is the
    `nowMs` parameter, and whether the database can be reached and queried is
    the `store` parameter. */
module PrayerApi {
  import opened Common
  import opened Text
  import opened RelativeTime

  /** A row of the `prayers` table; `name` None is SQL NULL. */
  datatype Row = Row(id: nat, text: string, name: Option<string>, timestamp: int)

  /** A prayer as the endpoint sends it; `name` None means the field is omitted. */
  datatype Prayer = Prayer(id: string, text: string, name: Option<string>, timestamp: string)

  datatype Body =
    | PrayerList(prayers: seq<Prayer>)
    | PrayerItem(prayer: Prayer)
    | DeleteOk
    | ErrorBody(error: string, details: Option<string>)

  datatype Response = Response(status: nat, body: Body)

  /** How the database behaves during one request: it answers, the client
      cannot be created, or the query itself fails with a message. */
  datatype StoreOutcome = Reachable | ConnectFails | QueryFails(message: string)

  /** The parsed JSON body of a create request; None is a missing field. */
  datatype PostRequest = PostRequest(text: Option<string>, name: Option<string>)

  /** The most rows one listing returns (`LIMIT 1000`). */
  const ListLimit: nat := 1000

  /** The message thrown when the database client cannot be created. */
  const ConnectionFailed: string := "Database connection failed"

  /** JavaScript falsiness of an optional string: missing or empty. */
  predicate Falsy(s: Option<string>) {
    s == None || s == Some("")
  }

  /** `value || null` (and `value || undefined`) for an optional string. */
  function NullIfFalsy(s: Option<string>): (r: Option<string>)
    ensures r == None <==> Falsy(s)
    ensures r != None ==> r == s
  {
    if Falsy(s) then None else s
  }

  /** The create request's validation `!body.text || body.text.trim() === ""`
      fails exactly when this does not hold. */
  predicate AcceptableText(text: Option<string>) {
    text.Some? && !IsBlank(text.value)
  }

  /** A row's id as the endpoint writes it and as a DELETE query names it. */
  predicate Names(row: Row, key: string) {
    NatToString(row.id) == key
  }

  /** The shape of one listed prayer, with its timestamp rendered at `nowMs`. */
  function Present(row: Row, nowMs: int): (p: Prayer)
    ensures IsDecimal(p.id) && ParseNat(p.id) == row.id && p.text == row.text
    ensures Names(row, p.id)
    ensures p.name == None <==> Falsy(row.name)
    ensures !Falsy(row.name) ==> p.name == row.name
    ensures Parse(p.timestamp) == Some(Classify(ElapsedSeconds(nowMs, row.timestamp)))
  {
    ParseNatToString(row.id);
    Prayer(NatToString(row.id), row.text, NullIfFalsy(row.name), FormatTimestamp(nowMs, row.timestamp))
  }

  function PresentAll(rows: seq<Row>, nowMs: int): (ps: seq<Prayer>)
    ensures |ps| == |rows|
    ensures forall i :: 0 <= i < |rows| ==> ps[i] == Present(rows[i], nowMs)
  {
    seq(|rows|, i requires 0 <= i < |rows| => Present(rows[i], nowMs))
  }

  // ---------------------------------------------------------------------------
  // ORDER BY timestamp DESC LIMIT 1000

  /** Timestamps never increase along `s`. */
  predicate NewestFirst(s: seq<Row>) {
    forall i, j :: 0 <= i < j < |s| ==> s[i].timestamp >= s[j].timestamp
  }

  /** A row no older than the head of a newest-first sequence can go in front. */
  lemma PrependNewest(y: Row, t: seq<Row>)
    requires NewestFirst(t) && (t == [] || y.timestamp >= t[0].timestamp)
    ensures NewestFirst([y] + t)
  {
    var r := [y] + t;
    forall i, j | 0 <= i < j < |r| ensures r[i].timestamp >= r[j].timestamp {
      if i == 0 {
        assert r[j] == t[j - 1] && t[0].timestamp >= t[j - 1].timestamp;
      } else {
        assert r[i] == t[i - 1] && r[j] == t[j - 1];
      }
    }
  }

  function Insert(x: Row, s: seq<Row>): (r: seq<Row>)
    requires NewestFirst(s)
    ensures |r| == |s| + 1 && multiset(r) == multiset(s) + multiset{x}
    ensures NewestFirst(r)
    ensures r[0] == x || (s != [] && r[0] == s[0])
  {
    if s == [] || x.timestamp >= s[0].timestamp then
      PrependNewest(x, s);
      assert multiset([x] + s) == multiset{x} + multiset(s);
      [x] + s
    else
      var rest := Insert(x, s[1..]);
      assert s == [s[0]] + s[1..];
      assert multiset(s) == multiset{s[0]} + multiset(s[1..]);
      assert multiset([s[0]] + rest) == multiset{s[0]} + multiset(rest);
      assert rest[0].timestamp <= s[0].timestamp;
      PrependNewest(s[0], rest);
      [s[0]] + rest
  }

  /** The rows newest first; rows with equal timestamps keep their storage order,
      which is one of the orders the database may choose. */
  function SortNewestFirst(rows: seq<Row>): (r: seq<Row>)
    ensures |r| == |rows| && multiset(r) == multiset(rows)
    ensures NewestFirst(r)
  {
    if rows == [] then []
    else
      assert rows == [rows[0]] + rows[1..];
      Insert(rows[0], SortNewestFirst(rows[1..]))
  }

  function Min(a: nat, b: nat): nat {
    if a <= b then a else b
  }

  /** The rows one listing returns, before they are presented. */
  function Listing(rows: seq<Row>): (r: seq<Row>)
    ensures |r| == Min(|rows|, ListLimit)
    ensures NewestFirst(r)
    ensures multiset(r) <= multiset(rows)
  {
    var sorted := SortNewestFirst(rows);
    var n := Min(|sorted|, ListLimit);
    assert sorted == sorted[..n] + sorted[n..];
    assert multiset(sorted) == multiset(sorted[..n]) + multiset(sorted[n..]);
    sorted[..n]
  }

  /** The cap drops only rows that are no newer than every row it keeps. */
  lemma ListingKeepsNewest(rows: seq<Row>, dropped: Row)
    requires dropped in multiset(rows) - multiset(Listing(rows))
    ensures forall i :: 0 <= i < |Listing(rows)| ==> Listing(rows)[i].timestamp >= dropped.timestamp
  {
    var sorted := SortNewestFirst(rows);
    var n := Min(|sorted|, ListLimit);
    assert Listing(rows) == sorted[..n];
    assert sorted == sorted[..n] + sorted[n..];
    assert multiset(rows) == multiset(sorted[..n]) + multiset(sorted[n..]);
    assert dropped in multiset(sorted[n..]);
    SuffixNoNewer(sorted, n, dropped);
  }

  /** In a newest-first sequence, every element before position `n` is at least
      as new as any element from `n` on. */
  lemma SuffixNoNewer(s: seq<Row>, n: nat, x: Row)
    requires NewestFirst(s) && n <= |s| && x in s[n..]
    ensures forall i :: 0 <= i < n ==> s[i].timestamp >= x.timestamp
  {
    var j :| 0 <= j < |s[n..]| && s[n..][j] == x;
    assert s[n + j] == x;
  }

  /** Below the cap, a listing holds every row of the table. */
  lemma ListingIsCompleteBelowCap(rows: seq<Row>)
    requires |rows| <= ListLimit
    ensures multiset(Listing(rows)) == multiset(rows)
  {
    var sorted := SortNewestFirst(rows);
    assert sorted[..|sorted|] == sorted;
  }

  /** While the table holds fewer than 1000 rows, a row just inserted appears in
      the next listing. */
  lemma InsertedRowListed(rows: seq<Row>, row: Row)
    requires |rows| < ListLimit
    ensures row in Listing(rows + [row])
  {
    ListingIsCompleteBelowCap(rows + [row]);
    assert row in multiset(rows + [row]);
  }

  /** A row stamped later than every stored row, as `NOW()` stamps an insert,
      appears in the next listing however many rows the table holds. */
  lemma NewestRowListed(rows: seq<Row>, row: Row)
    requires forall i :: 0 <= i < |rows| ==> rows[i].timestamp < row.timestamp
    ensures row in Listing(rows + [row])
  {
    var all := rows + [row];
    var listed := Listing(all);
    if row !in listed {
      assert row in multiset(all) - multiset(listed);
      ListingKeepsNewest(all, row);
      assert false;
    }
  }

  /** A listing only holds rows of the table, so once no row has the id `key`
      names, no listed prayer carries that id. */
  lemma UnnamedRowNotListed(rows: seq<Row>, key: string, nowMs: int)
    requires !NamedIn(rows, key)
    ensures forall p :: p in PresentAll(Listing(rows), nowMs) ==> p.id != key
  {
    var listed := Listing(rows);
    forall p | p in PresentAll(listed, nowMs) ensures p.id != key {
      var i :| 0 <= i < |listed| && PresentAll(listed, nowMs)[i] == p;
      assert listed[i] in multiset(listed);
      assert listed[i] in multiset(rows);
      var j :| 0 <= j < |rows| && rows[j] == listed[i];
      assert !Names(rows[j], key);
    }
  }

  // ---------------------------------------------------------------------------
  // The table and the three handlers

  class PrayerTable {
    var rows: seq<Row>
    var nextId: nat

    /** Every row was inserted by `Post`, so the table is well formed. */
    ghost predicate Valid()
      reads this
    {
      WellFormed(rows, nextId)
    }

    /** An empty table whose id sequence starts at 1. */
    constructor ()
      ensures Valid() && rows == [] && nextId == 1
    {
      rows := [];
      nextId := 1;
    }

    /** GET: the newest rows, at most 1000, presented with timestamps rendered at
        `nowMs`; the table is not changed. */
    method Get(nowMs: int, store: StoreOutcome) returns (resp: Response)
      requires Valid()
      ensures store == ConnectFails ==>
        resp == Response(500, ErrorBody("Failed to fetch prayers", Some(ConnectionFailed)))
      ensures store.QueryFails? ==>
        resp == Response(500, ErrorBody("Failed to fetch prayers", Some(store.message)))
      ensures store == Reachable ==>
        resp.status == 200 && resp.body == PrayerList(PresentAll(Listing(rows), nowMs))
      ensures store == Reachable ==> |resp.body.prayers| <= ListLimit
      ensures store == Reachable ==> forall i, j :: 0 <= i < j < |resp.body.prayers| ==>
        ElapsedSeconds(nowMs, Listing(rows)[i].timestamp) <= ElapsedSeconds(nowMs, Listing(rows)[j].timestamp)
    {
      match store
      case ConnectFails =>
        resp := Response(500, ErrorBody("Failed to fetch prayers", Some(ConnectionFailed)));
      case QueryFails(message) =>
        resp := Response(500, ErrorBody("Failed to fetch prayers", Some(message)));
      case Reachable =>
        var listed := Listing(rows);
        resp := Response(200, PrayerList(PresentAll(listed, nowMs)));
        forall i, j | 0 <= i < j < |listed|
          ensures ElapsedSeconds(nowMs, listed[i].timestamp) <= ElapsedSeconds(nowMs, listed[j].timestamp)
        {
          ElapsedMonotone(nowMs, listed[j].timestamp, listed[i].timestamp);
        }
    }

    /** POST: validate the text, then insert exactly one row stamped `nowMs`
        with the next id, and answer 201 with that prayer. */
    method Post(request: PostRequest, nowMs: int, store: StoreOutcome) returns (resp: Response)
      requires Valid()
      modifies this
      ensures Valid()
      ensures store == ConnectFails ==>
        resp == Response(500, ErrorBody("Failed to create prayer", Some(ConnectionFailed))) &&
        rows == old(rows) && nextId == old(nextId)
      ensures store != ConnectFails && !AcceptableText(request.text) ==>
        resp == Response(400, ErrorBody("Prayer text is required", None)) &&
        rows == old(rows) && nextId == old(nextId)
      ensures store.QueryFails? && AcceptableText(request.text) ==>
        resp == Response(500, ErrorBody("Failed to create prayer", Some(store.message))) &&
        rows == old(rows) && nextId == old(nextId)
      ensures store == Reachable && AcceptableText(request.text) ==>
        var inserted := Row(old(nextId), request.text.value, NullIfFalsy(request.name), nowMs);
        rows == old(rows) + [inserted] && nextId == old(nextId) + 1 &&
        resp == Response(201, PrayerItem(Prayer(NatToString(inserted.id), inserted.text, inserted.name, "Just now")))
    {
      if store == ConnectFails {
        resp := Response(500, ErrorBody("Failed to create prayer", Some(ConnectionFailed)));
        return;
      }
      if request.text == None || IsBlank(request.text.value) {
        resp := Response(400, ErrorBody("Prayer text is required", None));
        return;
      }
      if store.QueryFails? {
        resp := Response(500, ErrorBody("Failed to create prayer", Some(store.message)));
        return;
      }
      var inserted := Row(nextId, request.text.value, NullIfFalsy(request.name), nowMs);
      AppendPreservesWellFormed(rows, nextId, inserted);
      rows := rows + [inserted];
      nextId := nextId + 1;
      resp := Response(201, PrayerItem(Prayer(NatToString(inserted.id), inserted.text, NullIfFalsy(inserted.name), "Just now")));
    }

    /** DELETE: the `id` query parameter must be present and non-empty; the row it
        names is removed, or the answer is 404 when no row has that id. */
    method Delete(id: Option<string>, store: StoreOutcome) returns (resp: Response)
      requires Valid()
      modifies this
      ensures Valid() && nextId == old(nextId)
      ensures store == ConnectFails ==>
        resp == Response(500, ErrorBody("Failed to delete prayer", Some(ConnectionFailed))) && rows == old(rows)
      ensures store != ConnectFails && Falsy(id) ==>
        resp == Response(400, ErrorBody("Prayer ID is required", None)) && rows == old(rows)
      ensures store.QueryFails? && !Falsy(id) ==>
        resp == Response(500, ErrorBody("Failed to delete prayer", Some(store.message))) && rows == old(rows)
      ensures store == Reachable && !Falsy(id) && !NamedIn(old(rows), id.value) ==>
        resp == Response(404, ErrorBody("Prayer not found", None)) && rows == old(rows)
      ensures store == Reachable && !Falsy(id) && NamedIn(old(rows), id.value) ==>
        resp == Response(200, DeleteOk) &&
        (exists k :: 0 <= k < |old(rows)| && Names(old(rows)[k], id.value) &&
                     rows == old(rows)[..k] + old(rows)[k + 1..]) &&
        !NamedIn(rows, id.value)
    {
      if store == ConnectFails {
        resp := Response(500, ErrorBody("Failed to delete prayer", Some(ConnectionFailed)));
        return;
      }
      if Falsy(id) {
        resp := Response(400, ErrorBody("Prayer ID is required", None));
        return;
      }
      if store.QueryFails? {
        resp := Response(500, ErrorBody("Failed to delete prayer", Some(store.message)));
        return;
      }
      var key := id.value;
      var found := Find(rows, key);
      if found == None {
        resp := Response(404, ErrorBody("Prayer not found", None));
        return;
      }
      var k := found.value;
      var rest := rows[..k] + rows[k + 1..];
      RemoveNamedRow(rows, nextId, k, key);
      assert 0 <= k < |rows| && Names(rows[k], key) && rest == rows[..k] + rows[k + 1..];
      rows := rest;
      resp := Response(200, DeleteOk);
    }
  }

  /** Ids are distinct and below the next id to be assigned; stored texts are
      never blank and stored names are never the empty string. */
  ghost predicate WellFormed(rows: seq<Row>, nextId: nat) {
    (forall i, j :: 0 <= i < j < |rows| ==> rows[i].id != rows[j].id) &&
    (forall i :: 0 <= i < |rows| ==> StoredRow(rows[i], nextId))
  }

  /** What the create handler guarantees of each row it inserts. */
  ghost predicate StoredRow(row: Row, nextId: nat) {
    row.id < nextId && !IsBlank(row.text) && row.name != Some("")
  }

  /** Appending a row stamped with the next id, a non-blank text and no empty
      name keeps the table well formed. */
  lemma AppendPreservesWellFormed(rows: seq<Row>, nextId: nat, row: Row)
    requires WellFormed(rows, nextId)
    requires row.id == nextId && !IsBlank(row.text) && row.name != Some("")
    ensures WellFormed(rows + [row], nextId + 1)
  {
    var grown := rows + [row];
    forall i | 0 <= i < |grown| ensures grown[i] == if i < |rows| then rows[i] else row {
    }
  }

  /** Removing the row `key` names keeps the table well formed and leaves no
      row with that id. */
  lemma RemoveNamedRow(rows: seq<Row>, nextId: nat, k: nat, key: string)
    requires WellFormed(rows, nextId) && k < |rows| && Names(rows[k], key)
    ensures WellFormed(rows[..k] + rows[k + 1..], nextId)
    ensures !NamedIn(rows[..k] + rows[k + 1..], key)
  {
    RemovePreservesWellFormed(rows, nextId, k);
    UniqueIdsNameOneRow(rows, k, key);
  }

  /** Removing one row keeps the table well formed. */
  lemma RemovePreservesWellFormed(rows: seq<Row>, nextId: nat, k: nat)
    requires WellFormed(rows, nextId) && k < |rows|
    ensures WellFormed(rows[..k] + rows[k + 1..], nextId)
  {
    var rest := rows[..k] + rows[k + 1..];
    assert |rest| == |rows| - 1;
    forall i | 0 <= i < |rest| ensures rest[i] == rows[if i < k then i else i + 1] {
    }
    forall i, j | 0 <= i < j < |rest| ensures rest[i].id != rest[j].id {
      var i', j' := if i < k then i else i + 1, if j < k then j else j + 1;
      assert rest[i] == rows[i'] && rest[j] == rows[j'] && i' < j';
    }
    forall i | 0 <= i < |rest| ensures StoredRow(rest[i], nextId) {
      var i' := if i < k then i else i + 1;
      assert rest[i] == rows[i'];
    }
  }

  /** Some row of `rows` has the id `key` names. */
  predicate NamedIn(rows: seq<Row>, key: string) {
    exists i :: 0 <= i < |rows| && Names(rows[i], key)
  }

  /** The first row whose id `key` names, as the database's `WHERE id = ...`. */
  function Find(rows: seq<Row>, key: string): (r: Option<nat>)
    ensures r == None <==> !NamedIn(rows, key)
    ensures r.Some? ==> r.value < |rows| && Names(rows[r.value], key)
    ensures r.Some? ==> forall i :: 0 <= i < r.value ==> !Names(rows[i], key)
  {
    if rows == [] then None
    else if Names(rows[0], key) then Some(0)
    else
      match Find(rows[1..], key)
      case None =>
        assert forall i :: 1 <= i < |rows| ==> rows[i] == rows[1..][i - 1];
        None
      case Some(k) => Some(k + 1)
  }

  /** With distinct ids, the row at `k` is the only one `key` names, so deleting
      it leaves no row with that id. */
  lemma UniqueIdsNameOneRow(rows: seq<Row>, k: nat, key: string)
    requires forall i, j :: 0 <= i < j < |rows| ==> rows[i].id != rows[j].id
    requires k < |rows| && Names(rows[k], key)
    ensures !NamedIn(rows[..k] + rows[k + 1..], key)
  {
    var rest := rows[..k] + rows[k + 1..];
    forall i | 0 <= i < |rest| ensures !Names(rest[i], key) {
      var j := if i < k then i else i + 1;
      assert rest[i] == rows[j] && j != k;
      NatToStringInjective(rows[j].id, rows[k].id);
    }
  }

  /** An older instant has at least as much time elapsed. */
  lemma ElapsedMonotone(nowMs: int, older: int, newer: int)
    requires older <= newer
    ensures ElapsedSeconds(nowMs, newer) <= ElapsedSeconds(nowMs, older)
  {
  }
}
