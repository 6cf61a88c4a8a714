/** account_history.py: the durable document of one account on one device and the operations
    that change it under the account lock. */
module AccountHistory {
  import opened Wrappers

  type Id = string
  type Uuid = string

  datatype Wire = Wire(id: Id, createdAt: real, transcript: string, text: string,
                       rewritten: bool, sourceDevice: string)

  /** The native record kept beside its wire form. */
  datatype Record = Record(id: Id, timestamp: real, rawText: Option<string>,
                           refinedText: Option<string>, sourceDevice: string)

  datatype Item = Item(record: Record, wire: Wire)

  /** `pending` keeps the insertion order of the source's dictionary; `tombstones` is only
      ever tested for membership. */
  datatype Doc = Doc(cursor: nat, records: map<Id, Item>, pending: seq<Wire>, deleted: seq<Id>,
                     tombstones: set<Id>, clearID: Option<Uuid>)

  datatype Batch = Batch(cursor: nat, upserts: seq<Wire>, deletes: seq<Id>, clearID: Option<Uuid>)

  datatype Page = Page(cursor: nat, hasMore: bool, entries: seq<Wire>, deleted: seq<Id>)

  datatype Error = InvalidEntry | InvalidPage | Conflict

  const MAX_BATCH_BYTES := 400 * 1024
  const MAX_CHANGES := 50
  const MAX_PAGE := 20
  const MAX_TEXT_BYTES := 32768
  const END_OF_TIME := 4102444800.0

  const EMPTY := Doc(0, map[], [], [], {}, None)

  // ----- Validators ---------------------------------------------------------------------------

  predicate IdChar(c: char) {
    'a' <= c <= 'z' || 'A' <= c <= 'Z' || '0' <= c <= '9' || c == '_' || c == '-'
  }

  predicate ValidId(s: string) {
    1 <= |s| <= 128 && forall i :: 0 <= i < |s| ==> IdChar(s[i])
  }

  /** Bytes of a character in UTF-8, section 3 of RFC 3629. */
  function Utf8Char(c: char): nat {
    var n := c as int;
    if n < 0x80 then 1 else if n < 0x800 then 2 else if n < 0x1_0000 then 3 else 4
  }

  function Utf8Length(s: string): nat {
    if s == [] then 0 else Utf8Char(s[0]) + Utf8Length(s[1..])
  }

  predicate Space(c: char) {
    var n := c as int;
    || 0x09 <= n <= 0x0d || 0x1c <= n <= 0x20 || n == 0x85 || n == 0xa0 || n == 0x1680
    || 0x2000 <= n <= 0x200a || n == 0x2028 || n == 0x2029 || n == 0x202f || n == 0x205f
    || n == 0x3000
  }

  predicate ValidWire(w: Wire) {
    && ValidId(w.id)
    && 0.0 < w.createdAt < END_OF_TIME
    && Utf8Length(w.transcript) <= MAX_TEXT_BYTES
    && Utf8Length(w.text) <= MAX_TEXT_BYTES
    && (exists i :: 0 <= i < |w.text| && !Space(w.text[i]))
    && (w.sourceDevice == "desktop" || w.sourceDevice == "mobile")
  }

  function GetOr<T>(o: Option<T>, default: T): T {
    if o.Some? then o.value else default
  }

  function Entry(r: Record, finalText: Option<string>): Wire {
    Wire(r.id, r.timestamp, GetOr(r.rawText, ""),
         if finalText.Some? then finalText.value
         else if r.refinedText.Some? then r.refinedText.value
         else GetOr(r.rawText, ""),
         r.refinedText.Some?, "desktop")
  }

  function Received(w: Wire): Record {
    Record(w.id, w.createdAt, Some(w.transcript),
           if w.rewritten || w.text != w.transcript then Some(w.text) else None, w.sourceDevice)
  }

  /** What is demanded of a reply before it is applied. */
  predicate ValidPage(p: Page, cursor: nat) {
    && p.cursor >= cursor
    && |p.entries| + |p.deleted| <= MAX_PAGE
    && (p.hasMore ==> p.cursor > cursor)
    && (p.entries != [] || p.deleted != [] ==> p.cursor > cursor)
    && (forall w :: w in p.entries ==> ValidWire(w))
    && (forall id :: id in p.deleted ==> ValidId(id))
  }

  // ----- The document -------------------------------------------------------------------------

  /** What reading the file checks. */
  ghost predicate Readable(d: Doc) {
    && (forall id :: id in d.records ==>
          && ValidWire(d.records[id].wire) && d.records[id].wire.id == id
          && d.records[id].record.id == id)
    && (forall w :: w in d.pending ==>
          && ValidWire(w) && w.id in d.records && w == d.records[w.id].wire
          && w.id !in d.tombstones)
    && (forall id :: id in d.deleted || id in d.tombstones ==> ValidId(id))
  }

  ghost predicate Consistent(d: Doc) {
    && Readable(d)
    && (forall i, j :: 0 <= i < j < |d.pending| ==> d.pending[i].id != d.pending[j].id)
    && (forall i, j :: 0 <= i < j < |d.deleted| ==> d.deleted[i] != d.deleted[j])
    && (forall id :: id in d.deleted ==> id in d.tombstones)
    && (forall id :: id in d.records ==> id !in d.tombstones)
  }

  function Without<T(==,!new)>(s: seq<T>, drop: set<T>): (r: seq<T>)
    ensures forall x :: x in r <==> x in s && x !in drop
    ensures |r| <= |s|
  {
    if s == [] then []
    else if s[0] in drop then Without(s[1..], drop)
    else [s[0]] + Without(s[1..], drop)
  }

  function WithoutIds(s: seq<Wire>, drop: set<Id>): (r: seq<Wire>)
    ensures forall w :: w in r <==> w in s && w.id !in drop
    ensures |r| <= |s|
  {
    if s == [] then []
    else if s[0].id in drop then WithoutIds(s[1..], drop)
    else [s[0]] + WithoutIds(s[1..], drop)
  }

  ghost predicate DistinctIds(s: seq<Wire>) {
    forall i, j :: 0 <= i < j < |s| ==> s[i].id != s[j].id
  }

  ghost predicate Distinct<T>(s: seq<T>) {
    forall i, j :: 0 <= i < j < |s| ==> s[i] != s[j]
  }

  lemma {:induction false} WithoutDistinct<T(!new)>(s: seq<T>, drop: set<T>)
    requires Distinct(s)
    ensures Distinct(Without(s, drop))
  {
    if s != [] {
      WithoutDistinct(s[1..], drop);
      assert s[0] !in s[1..];
    }
  }

  lemma {:induction false} WithoutKeepsIds(s: seq<Wire>, drop: set<Wire>)
    requires DistinctIds(s)
    ensures DistinctIds(Without(s, drop))
  {
    if s != [] {
      WithoutKeepsIds(s[1..], drop);
      HeadIdUnique(s);
    }
  }

  lemma {:induction false} WithoutIdsKeepsIds(s: seq<Wire>, drop: set<Id>)
    requires DistinctIds(s)
    ensures DistinctIds(WithoutIds(s, drop))
  {
    if s != [] {
      WithoutIdsKeepsIds(s[1..], drop);
      HeadIdUnique(s);
    }
  }

  lemma HeadIdUnique(s: seq<Wire>)
    requires s != [] && DistinctIds(s)
    ensures forall w :: w in s[1..] ==> w.id != s[0].id
  {
    forall w | w in s[1..]
      ensures w.id != s[0].id
    {
      var i :| 0 <= i < |s[1..]| && s[1..][i] == w;
      assert s[i + 1] == w;
    }
  }

  // ----- Local operations ---------------------------------------------------------------------

  /** `owned` says that the caller still is the signed-in account. */
  function AppendStep(d: Doc, r: Record, finalText: Option<string>, owned: bool): (Doc, Result<bool, Error>)
  {
    var record := r.(sourceDevice := "desktop");
    var wire := Entry(record, finalText);
    if !owned then (d, Success(false))
    else if !ValidWire(wire) then (d, Failure(InvalidEntry))
    else if r.id in d.tombstones then (d, Success(false))
    else if r.id in d.records then
      (d, if d.records[r.id].wire == wire then Success(true) else Failure(Conflict))
    else
      (d.(records := d.records[r.id := Item(record, wire)], pending := d.pending + [wire]),
       Success(true))
  }

  function DeleteStep(d: Doc, id: Id): Doc {
    if id !in d.records then d
    else
      d.(records := d.records - {id}, pending := WithoutIds(d.pending, {id}),
         deleted := if id in d.deleted then d.deleted else d.deleted + [id],
         tombstones := d.tombstones + {id})
  }

  function ClearStep(d: Doc, newID: Uuid): Doc {
    d.(tombstones := d.tombstones + d.records.Keys, records := map[], pending := [],
       deleted := [], clearID := Some(newID))
  }

  // ----- What is sent -------------------------------------------------------------------------

  /** Bytes of the JSON text `requests` sends: ASCII escapes, ", " and ": " as separators.
      `stamp` is the length of a number; a finite double takes at most 24 characters. */
  type Stamp = real -> nat

  ghost predicate ShortNumbers(stamp: Stamp) {
    forall t :: stamp(t) <= 24
  }

  function JsonChar(c: char): nat {
    var n := c as int;
    if c == '"' || c == '\\' || n == 8 || n == 9 || n == 10 || n == 12 || n == 13 then 2
    else if 0x20 <= n < 0x7f then 1
    else if n < 0x1_0000 then 6
    else 12
  }

  function JsonChars(s: string): nat {
    if s == [] then 0 else JsonChar(s[0]) + JsonChars(s[1..])
  }

  function JsonString(s: string): nat { 2 + JsonChars(s) }

  function Digits(n: nat): nat {
    if n < 10 then 1 else 1 + Digits(n / 10)
  }

  function JsonWire(stamp: Stamp, w: Wire): nat {
    7 + JsonString(w.id) + 15 + stamp(w.createdAt) + 16 + JsonString(w.transcript)
    + 10 + JsonString(w.text) + 15 + (if w.rewritten then 4 else 5)
    + 18 + JsonString(w.sourceDevice) + 1
  }

  function JsonWires(stamp: Stamp, ws: seq<Wire>): nat {
    if ws == [] then 0
    else JsonWire(stamp, ws[0]) + (if |ws| > 1 then 2 else 0) + JsonWires(stamp, ws[1..])
  }

  function JsonIds(ids: seq<Id>): nat {
    if ids == [] then 0
    else JsonString(ids[0]) + (if |ids| > 1 then 2 else 0) + JsonIds(ids[1..])
  }

  /** {"cursor": n, "upserts": [..], "deletes": [..]} */
  function JsonBatch(stamp: Stamp, b: Batch): nat {
    11 + Digits(b.cursor) + 13 + 2 + JsonWires(stamp, b.upserts) + 13 + 2 + JsonIds(b.deletes) + 1
  }

  function Prefix<T>(s: seq<T>, n: nat): seq<T> {
    if |s| <= n then s else s[..n]
  }

  /** Takes pending entries in order while the request stays within the limit. */
  function Fill(stamp: Stamp, b: Batch, items: seq<Wire>): (r: Batch)
    ensures r.cursor == b.cursor && r.deletes == b.deletes && r.clearID == b.clearID
    ensures b.upserts <= r.upserts <= b.upserts + items
    ensures JsonBatch(stamp, b) <= MAX_BATCH_BYTES ==> JsonBatch(stamp, r) <= MAX_BATCH_BYTES
    decreases items
  {
    if items == [] then b
    else
      var longer := b.(upserts := b.upserts + [items[0]]);
      if JsonBatch(stamp, longer) > MAX_BATCH_BYTES then b
      else
        assert b.upserts + [items[0]] + items[1..] == b.upserts + items;
        Fill(stamp, longer, items[1..])
  }

  function BatchOf(stamp: Stamp, d: Doc): Batch {
    if d.clearID.Some? then Batch(d.cursor, [], [], d.clearID)
    else Fill(stamp, Batch(d.cursor, [], Prefix(d.deleted, MAX_CHANGES), None), Prefix(d.pending, MAX_CHANGES))
  }

  // ----- What a reply does ----------------------------------------------------------------------

  /** An answer acknowledges only the work that was submitted. */
  function Acknowledge(d: Doc, b: Batch): Doc {
    d.(clearID := if b.clearID == d.clearID then None else d.clearID,
       pending := Without(d.pending, set w | w in b.upserts),
       deleted := Without(d.deleted, set id | id in b.deletes))
  }

  function Bury(d: Doc, ids: set<Id>): Doc {
    d.(records := d.records - ids, pending := WithoutIds(d.pending, ids),
       tombstones := d.tombstones + ids)
  }

  function AddEntry(d: Doc, w: Wire): Result<Doc, Error> {
    if d.clearID.Some? || w.id in d.tombstones then Success(d)
    else if w.id in d.records then
      if d.records[w.id].wire != w then Failure(Conflict) else Success(d)
    else Success(d.(records := d.records[w.id := Item(Received(w), w)]))
  }

  function AddEntries(d: Doc, ws: seq<Wire>): Result<Doc, Error>
    decreases ws
  {
    if ws == [] then Success(d)
    else
      var r := AddEntry(d, ws[0]);
      if r.Failure? then r else AddEntries(r.value, ws[1..])
  }

  /** A reply that does not validate or that contradicts a record changes nothing. */
  function ReceiveStep(d: Doc, b: Batch, p: Page): (Doc, Option<Error>) {
    if !ValidPage(p, b.cursor) then (d, Some(InvalidPage))
    else
      var r := AddEntries(Bury(Acknowledge(d, b), set id | id in p.deleted), p.entries);
      if r.Failure? then (d, Some(r.error)) else (r.value.(cursor := p.cursor), None)
  }

  // ----- The program --------------------------------------------------------------------------

  class AccountDocument {
    var cursor: nat
    var records: map<Id, Item>
    var pending: seq<Wire>
    var deleted: seq<Id>
    var tombstones: set<Id>
    var clearID: Option<Uuid>

    ghost function Contents(): Doc
      reads this
    {
      Doc(cursor, records, pending, deleted, tombstones, clearID)
    }

    constructor ()
      ensures Contents() == EMPTY
    {
      cursor, records, pending, deleted, tombstones, clearID := 0, map[], [], [], {}, None;
    }

    method Append(r: Record, finalText: Option<string>, owned: bool) returns (result: Result<bool, Error>)
      modifies this
      ensures (Contents(), result) == AppendStep(old(Contents()), r, finalText, owned)
    {
      if !owned {
        return Success(false);
      }
      var record := r.(sourceDevice := "desktop");
      var wire := Entry(record, finalText);
      if !ValidWire(wire) {
        return Failure(InvalidEntry);
      }
      if record.id in tombstones {
        return Success(false);
      }
      if record.id in records {
        if records[record.id].wire != wire {
          return Failure(Conflict);
        }
        return Success(true);
      }
      records := records[record.id := Item(record, wire)];
      pending := pending + [wire];
      return Success(true);
    }

    method Delete(id: Id)
      modifies this
      ensures Contents() == DeleteStep(old(Contents()), id)
    {
      if id !in records {
        return;
      }
      records := records - {id};
      pending := WithoutIds(pending, {id});
      if id !in deleted {
        deleted := deleted + [id];
      }
      if id !in tombstones {
        tombstones := tombstones + {id};
      }
      assert id in old(tombstones) ==> old(tombstones) + {id} == old(tombstones);
    }

    method Clear(newID: Uuid)
      modifies this
      ensures Contents() == ClearStep(old(Contents()), newID)
    {
      tombstones := tombstones + records.Keys;
      records, pending, deleted, clearID := map[], [], [], Some(newID);
    }

    method BuildBatch(stamp: Stamp) returns (batch: Batch)
      ensures batch == BatchOf(stamp, Contents())
    {
      if clearID.Some? {
        return Batch(cursor, [], [], clearID);
      }
      batch := Batch(cursor, [], Prefix(deleted, MAX_CHANGES), None);
      var items := Prefix(pending, MAX_CHANGES);
      ghost var start := batch;
      var i := 0;
      while i < |items|
        invariant 0 <= i <= |items|
        invariant Fill(stamp, start, items) == Fill(stamp, batch, items[i..])
      {
        var shorter := batch;
        batch := batch.(upserts := batch.upserts + [items[i]]);
        assert items[i..][1..] == items[i + 1..];
        if JsonBatch(stamp, batch) > MAX_BATCH_BYTES {
          batch := shorter;
          break;
        }
        i := i + 1;
      }
    }

    method Receive(batch: Batch, page: Page) returns (error: Option<Error>)
      modifies this
      ensures (Contents(), error) == ReceiveStep(old(Contents()), batch, page)
    {
      if !ValidPage(page, batch.cursor) {
        return Some(InvalidPage);
      }
      // The document as read; nothing is saved before every entry was accepted.
      var state := Doc(cursor, records, pending, deleted, tombstones, clearID);
      state := Acknowledge(state, batch);
      state := Bury(state, set id | id in page.deleted);
      ghost var start := state;
      var i := 0;
      while i < |page.entries|
        invariant 0 <= i <= |page.entries|
        invariant AddEntries(start, page.entries) == AddEntries(state, page.entries[i..])
      {
        var item := page.entries[i];
        assert page.entries[i..][1..] == page.entries[i + 1..];
        i := i + 1;
        if state.clearID.Some? || item.id in state.tombstones {
          continue;
        }
        if item.id in state.records {
          if state.records[item.id].wire != item {
            return Some(Conflict);
          }
        } else {
          state := state.(records := state.records[item.id := Item(Received(item), item)]);
        }
      }
      cursor, records, pending := page.cursor, state.records, state.pending;
      deleted, tombstones, clearID := state.deleted, state.tombstones, state.clearID;
      return None;
    }
  }

  // ----- The document stays readable ------------------------------------------------------------

  lemma AppendKeeps(d: Doc, r: Record, finalText: Option<string>, owned: bool)
    requires Consistent(d)
    ensures var d' := AppendStep(d, r, finalText, owned).0;
            Consistent(d') && d.tombstones == d'.tombstones && d.cursor == d'.cursor
  {
    hide ValidWire, ValidId;
  }

  lemma DeleteKeeps(d: Doc, id: Id)
    requires Consistent(d)
    ensures var d' := DeleteStep(d, id);
            Consistent(d') && d.tombstones <= d'.tombstones && d.cursor == d'.cursor
  {
    WithoutIdsKeepsIds(d.pending, {id});
  }

  lemma ClearKeeps(d: Doc, newID: Uuid)
    requires Consistent(d)
    ensures var d' := ClearStep(d, newID);
            Consistent(d') && d.tombstones <= d'.tombstones && d.cursor == d'.cursor
  {}

  lemma AcknowledgeKeeps(d: Doc, b: Batch)
    requires Consistent(d)
    ensures Consistent(Acknowledge(d, b))
  {
    WithoutKeepsIds(d.pending, set w | w in b.upserts);
    WithoutDistinct(d.deleted, set id | id in b.deletes);
  }

  lemma BuryKeeps(d: Doc, ids: set<Id>)
    requires Consistent(d) && forall id :: id in ids ==> ValidId(id)
    ensures Consistent(Bury(d, ids))
  {
    WithoutIdsKeepsIds(d.pending, ids);
  }

  /** `d'` has the records of `d` and some of `ws`, and is otherwise the same. */
  ghost predicate Extended(d: Doc, d': Doc, ws: seq<Wire>) {
    && d' == d.(records := d'.records)
    && (forall id :: id in d.records ==> id in d'.records && d'.records[id] == d.records[id])
    && (forall id :: id in d'.records && id !in d.records ==> d'.records[id].wire in ws)
  }

  lemma AddEntryKeeps(d: Doc, w: Wire)
    requires Consistent(d) && ValidWire(w)
    ensures var r := AddEntry(d, w);
            r.Success? ==> Consistent(r.value) && Extended(d, r.value, [w])
  {
    hide ValidWire, ValidId;
  }

  lemma {:induction false} AddEntriesKeeps(d: Doc, ws: seq<Wire>)
    requires Consistent(d) && forall w :: w in ws ==> ValidWire(w)
    ensures var r := AddEntries(d, ws);
            r.Success? ==> Consistent(r.value) && Extended(d, r.value, ws)
    decreases ws
  {
    if ws != [] {
      hide ValidWire, ValidId, Consistent, AddEntry;
      var r := AddEntry(d, ws[0]);
      AddEntryKeeps(d, ws[0]);
      if r.Success? {
        AddEntriesKeeps(r.value, ws[1..]);
      }
    }
  }

  /** Whatever page is accepted, the saved document can be read again, a tombstone is never
      forgotten and the cursor never goes back. */
  lemma ReceiveKeeps(d: Doc, b: Batch, p: Page)
    requires Consistent(d) && b.cursor == d.cursor
    ensures var d' := ReceiveStep(d, b, p).0;
            Consistent(d') && d.tombstones <= d'.tombstones && d.cursor <= d'.cursor
  {
    hide Consistent;
    if ValidPage(p, b.cursor) {
      var ids := set id | id in p.deleted;
      AcknowledgeKeeps(d, b);
      BuryKeeps(Acknowledge(d, b), ids);
      AddEntriesKeeps(Bury(Acknowledge(d, b), ids), p.entries);
      var r := AddEntries(Bury(Acknowledge(d, b), ids), p.entries);
      if r.Success? {
        CursorKeeps(r.value, p.cursor);
      }
    }
  }

  lemma CursorKeeps(d: Doc, cursor: nat)
    requires Consistent(d)
    ensures Consistent(d.(cursor := cursor))
  {}
}
