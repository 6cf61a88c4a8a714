/** One device against any server at all: every reply that validates may arrive. */
module HistoryDevice {
  import opened Wrappers
  import opened AccountHistory

  /** `flight` is the request whose reply has not come. */
  datatype Device = Device(doc: Doc, flight: Option<Batch>)

  datatype Action =
    | Append(record: Record, finalText: Option<string>, owned: bool)
    | Delete(id: Id)
    | Clear(clearID: Uuid)
    | Submit(stamp: Stamp)
    | Reply(page: Page)
    | Lose

  function Act(s: Device, a: Action): Device {
    match a
    case Append(r, finalText, owned) => s.(doc := AppendStep(s.doc, r, finalText, owned).0)
    case Delete(id) => s.(doc := DeleteStep(s.doc, id))
    case Clear(u) => s.(doc := ClearStep(s.doc, u))
    case Submit(stamp) => if s.flight.Some? then s else s.(flight := Some(BatchOf(stamp, s.doc)))
    case Reply(p) =>
      if s.flight.None? then s else Device(ReceiveStep(s.doc, s.flight.value, p).0, None)
    case Lose => s.(flight := None)
  }

  function After(s: Device, actions: seq<Action>): Device {
    if actions == [] then s else Act(After(s, actions[..|actions| - 1]), actions[|actions| - 1])
  }

  const NEW := Device(EMPTY, None)

  ghost predicate Inv(s: Device) {
    Consistent(s.doc) && (s.flight.Some? ==> s.flight.value.cursor == s.doc.cursor)
  }

  lemma ActKeeps(s: Device, a: Action)
    requires Inv(s)
    ensures Inv(Act(s, a))
    ensures s.doc.tombstones <= Act(s, a).doc.tombstones && s.doc.cursor <= Act(s, a).doc.cursor
  {
    hide Consistent, ReceiveStep, AppendStep, DeleteStep, ClearStep, BatchOf;
    match a
    case Append(r, finalText, owned) => AppendKeeps(s.doc, r, finalText, owned);
    case Delete(id) => DeleteKeeps(s.doc, id);
    case Clear(u) => ClearKeeps(s.doc, u);
    case Submit(stamp) => BatchCursor(stamp, s.doc);
    case Reply(p) =>
      if s.flight.Some? {
        ReceiveKeeps(s.doc, s.flight.value, p);
      }
    case Lose =>
  }

  lemma BatchCursor(stamp: Stamp, d: Doc)
    ensures BatchOf(stamp, d).cursor == d.cursor
  {
    hide Fill;
  }

  /** No resurrection: in every reachable document pending entries are records with the same
      wire form, queued deletions are tombstones, no tombstone is a record, and the document
      can be read again. */
  lemma {:induction false} EveryDocumentIsConsistent(actions: seq<Action>)
    ensures Inv(After(NEW, actions)) && Readable(After(NEW, actions).doc)
  {
    if actions != [] {
      hide Act;
      EveryDocumentIsConsistent(actions[..|actions| - 1]);
      ActKeeps(After(NEW, actions[..|actions| - 1]), actions[|actions| - 1]);
    }
  }

  /** Tombstones are never forgotten and the cursor never goes back, so what was deleted here
      or there is never shown again. */
  lemma {:induction false} DeletedStaysDeleted(actions: seq<Action>, more: seq<Action>)
    ensures var s, t := After(NEW, actions).doc, After(NEW, actions + more).doc;
            && s.tombstones <= t.tombstones && s.cursor <= t.cursor
            && forall id :: id in s.tombstones ==> id !in t.records
    decreases more
  {
    hide Act;
    EveryDocumentIsConsistent(actions + more);
    if more == [] {
      assert actions + more == actions;
    } else {
      var n := |more| - 1;
      DeletedStaysDeleted(actions, more[..n]);
      assert (actions + more)[..|actions + more| - 1] == actions + more[..n];
      EveryDocumentIsConsistent(actions + more[..n]);
      ActKeeps(After(NEW, actions + more[..n]), more[n]);
    }
  }

  // ----- No lost work ---------------------------------------------------------------------------

  /** The step by which an entry, a deletion or a clear may leave the queues. */
  ghost predicate ReleasesEntry(s: Device, a: Action, w: Wire) {
    || (a.Delete? && a.id == w.id) || a.Clear?
    || (a.Reply? && s.flight.Some? && (w in s.flight.value.upserts || w.id in a.page.deleted))
  }

  ghost predicate ReleasesDeletion(s: Device, a: Action, id: Id) {
    a.Clear? || (a.Reply? && s.flight.Some? && id in s.flight.value.deletes)
  }

  ghost predicate ReleasesClear(s: Device, a: Action, u: Uuid) {
    a.Clear? || (a.Reply? && s.flight.Some? && s.flight.value.clearID == Some(u))
  }

  lemma LeavesOnlyWhenReleased(s: Device, a: Action)
    ensures var t := Act(s, a);
            && (forall w :: w in s.doc.pending && w !in t.doc.pending ==> ReleasesEntry(s, a, w))
            && (forall id :: id in s.doc.deleted && id !in t.doc.deleted ==> ReleasesDeletion(s, a, id))
            && (s.doc.clearID.Some? && t.doc.clearID != s.doc.clearID ==> ReleasesClear(s, a, s.doc.clearID.value))
  {
    hide ValidPage, AddEntries, BatchOf, ValidWire;
    if a.Reply? && s.flight.Some? {
      var b := s.flight.value;
      var d := Bury(Acknowledge(s.doc, b), set id | id in a.page.deleted);
      if AddEntries(d, a.page.entries).Success? {
        QueuesUnchanged(d, a.page.entries);
      }
    }
  }

  lemma {:induction false} QueuesUnchanged(d: Doc, ws: seq<Wire>)
    requires AddEntries(d, ws).Success?
    ensures AddEntries(d, ws).value == d.(records := AddEntries(d, ws).value.records)
    decreases ws
  {
    if ws != [] {
      QueuesUnchanged(AddEntry(d, ws[0]).value, ws[1..]);
    }
  }

  /** No lost work: in every run an appended entry leaves the queue only by a submitted and
      answered request, a local withdrawal or a deletion told by the server. */
  lemma {:induction false} PendingEntryIsReleased(s: Device, actions: seq<Action>, w: Wire)
    returns (k: nat)
    requires w in s.doc.pending && w !in After(s, actions).doc.pending
    ensures k < |actions| && w in After(s, actions[..k]).doc.pending
    ensures ReleasesEntry(After(s, actions[..k]), actions[k], w)
  {
    hide Act, ReleasesEntry;
    var n := |actions| - 1;
    var before := actions[..n];
    if w in After(s, before).doc.pending {
      k := n;
      LeavesOnlyWhenReleased(After(s, before), actions[n]);
    } else {
      k := PendingEntryIsReleased(s, before, w);
      assert before[..k] == actions[..k];
    }
  }

  lemma {:induction false} DeletionIsReleased(s: Device, actions: seq<Action>, id: Id)
    returns (k: nat)
    requires id in s.doc.deleted && id !in After(s, actions).doc.deleted
    ensures k < |actions| && id in After(s, actions[..k]).doc.deleted
    ensures ReleasesDeletion(After(s, actions[..k]), actions[k], id)
  {
    hide Act, ReleasesDeletion;
    var n := |actions| - 1;
    var before := actions[..n];
    if id in After(s, before).doc.deleted {
      k := n;
      LeavesOnlyWhenReleased(After(s, before), actions[n]);
    } else {
      k := DeletionIsReleased(s, before, id);
      assert before[..k] == actions[..k];
    }
  }

  lemma {:induction false} ClearIsReleased(s: Device, actions: seq<Action>, u: Uuid)
    returns (k: nat)
    requires s.doc.clearID == Some(u) && After(s, actions).doc.clearID != Some(u)
    ensures k < |actions| && After(s, actions[..k]).doc.clearID == Some(u)
    ensures ReleasesClear(After(s, actions[..k]), actions[k], u)
  {
    hide Act, ReleasesClear;
    var n := |actions| - 1;
    var before := actions[..n];
    if After(s, before).doc.clearID == Some(u) {
      k := n;
      LeavesOnlyWhenReleased(After(s, before), actions[n]);
    } else {
      k := ClearIsReleased(s, before, u);
      assert before[..k] == actions[..k];
    }
  }

  // ----- Progress -----------------------------------------------------------------------------------

  const CURSOR_LIMIT := 0x8000_0000_0000_0000

  lemma {:induction false} JsonCharsBound(s: string)
    ensures JsonChars(s) <= 6 * Utf8Length(s)
  {
    if s != [] {
      JsonCharsBound(s[1..]);
    }
  }

  lemma {:induction false} PlainIdLength(s: string)
    requires forall i :: 0 <= i < |s| ==> IdChar(s[i])
    ensures JsonChars(s) == |s|
  {
    if s != [] {
      PlainIdLength(s[1..]);
    }
  }

  lemma {:induction false} DigitsBound(n: nat, k: nat, power: nat)
    requires k >= 1 && n < power && power == Power10(k)
    ensures Digits(n) <= k
  {
    if n >= 10 {
      DigitsBound(n / 10, k - 1, power / 10);
    }
  }

  function Power10(k: nat): nat {
    if k == 0 then 1 else 10 * Power10(k - 1)
  }

  lemma CursorDigits(n: nat)
    requires n < CURSOR_LIMIT
    ensures Digits(n) <= 19
  {
    assert Power10(10) == 10_000_000_000;
    assert Power10(19) == 10_000_000_000_000_000_000;
    DigitsBound(n, 19, Power10(19));
  }

  lemma {:induction false} IdsBound(ids: seq<Id>)
    requires forall id :: id in ids ==> ValidId(id)
    ensures JsonIds(ids) <= 132 * |ids|
  {
    if ids != [] {
      assert ids[0] in ids;
      PlainIdLength(ids[0]);
      IdsBound(ids[1..]);
    }
  }

  lemma DeviceLength(device: string)
    requires device == "desktop" || device == "mobile"
    ensures JsonChars(device) <= 7
  {
    PlainIdLength(device);
  }

  lemma WireBound(stamp: Stamp, w: Wire)
    requires ShortNumbers(stamp) && ValidWire(w)
    ensures JsonWire(stamp, w) <= 393_470
  {
    hide JsonChars, Utf8Length;
    PlainIdLength(w.id);
    JsonCharsBound(w.transcript);
    JsonCharsBound(w.text);
    DeviceLength(w.sourceDevice);
    assert stamp(w.createdAt) <= 24;
  }

  /** The largest entry in its worst escaping and fifty of the largest deletions still fit. */
  lemma FirstEntryFits(stamp: Stamp, cursor: nat, deletes: seq<Id>, w: Wire)
    requires ShortNumbers(stamp) && ValidWire(w) && cursor < CURSOR_LIMIT
    requires |deletes| <= MAX_CHANGES && forall id :: id in deletes ==> ValidId(id)
    ensures JsonBatch(stamp, Batch(cursor, [w], deletes, None)) <= MAX_BATCH_BYTES
  {
    hide JsonWire, JsonIds, Digits, ValidWire;
    WireBound(stamp, w);
    IdsBound(deletes);
    CursorDigits(cursor);
    OneWire(stamp, w);
  }

  lemma OneWire(stamp: Stamp, w: Wire)
    ensures JsonWires(stamp, [w]) == JsonWire(stamp, w)
  {
    hide JsonWire;
    assert [w][1..] == [];
  }

  /** Pending work with no clear id yields at least one entry to send. */
  lemma BatchCarriesWork(stamp: Stamp, d: Doc)
    requires Consistent(d) && ShortNumbers(stamp) && d.cursor < CURSOR_LIMIT
    requires d.clearID.None?
    ensures d.pending != [] ==> d.pending[0] in BatchOf(stamp, d).upserts
    ensures d.deleted != [] ==> d.deleted[0] in BatchOf(stamp, d).deletes
  {
    hide JsonBatch, ValidWire, ValidId;
    var deletes := Prefix(d.deleted, MAX_CHANGES);
    if d.pending != [] {
      var items := Prefix(d.pending, MAX_CHANGES);
      FirstEntryFits(stamp, d.cursor, deletes, d.pending[0]);
      var start := Batch(d.cursor, [], deletes, None);
      assert start.(upserts := start.upserts + [items[0]]) == Batch(d.cursor, [items[0]], deletes, None);
      var longer := Batch(d.cursor, [items[0]], deletes, None);
      assert BatchOf(stamp, d) == Fill(stamp, longer, items[1..]);
      assert longer.upserts[0] == d.pending[0];
    }
  }

  function Work(d: Doc): nat {
    (if d.clearID.Some? then 1 else 0) + |d.deleted| + |d.pending|
  }

  lemma {:induction false} WithoutShrinks<T(!new)>(s: seq<T>, drop: set<T>, x: T)
    requires x in s && x in drop
    ensures |Without(s, drop)| < |s|
  {
    if s[0] !in drop {
      WithoutShrinks(s[1..], drop, x);
    }
  }

  /** Progress: a round that is answered, with no edit in between, leaves less work than it
      found. */
  lemma AnsweredRoundProgresses(stamp: Stamp, d: Doc, p: Page)
    requires Consistent(d) && ShortNumbers(stamp) && d.cursor < CURSOR_LIMIT && Work(d) > 0
    requires ReceiveStep(d, BatchOf(stamp, d), p).1.None?
    ensures Work(ReceiveStep(d, BatchOf(stamp, d), p).0) < Work(d)
  {
    hide ValidPage, AddEntries, ValidWire, ValidId, BatchOf, Consistent;
    var b := BatchOf(stamp, d);
    var acked := Acknowledge(d, b);
    var buried := Bury(acked, set id | id in p.deleted);
    QueuesUnchanged(buried, p.entries);
    assert Work(buried) <= Work(acked);
    if d.clearID.Some? {
      ClearBatch(stamp, d);
    } else {
      BatchCarriesWork(stamp, d);
      if d.deleted != [] {
        WithoutShrinks(d.deleted, (set id | id in b.deletes), d.deleted[0]);
      } else {
        WithoutShrinks(d.pending, (set w | w in b.upserts), d.pending[0]);
      }
    }
  }

  lemma ClearBatch(stamp: Stamp, d: Doc)
    requires d.clearID.Some?
    ensures BatchOf(stamp, d) == Batch(d.cursor, [], [], d.clearID)
  {}

  /** Answered rounds, one after the other. */
  function Rounds(stamp: Stamp, d: Doc, pages: seq<Page>): Option<Doc>
    decreases pages
  {
    if pages == [] then Some(d)
    else
      var (d', error) := ReceiveStep(d, BatchOf(stamp, d), pages[0]);
      if error.Some? then None else Rounds(stamp, d', pages[1..])
  }

  /** As many accepted answers as there are units of work send all of it. */
  lemma {:induction false} RoundsSettle(stamp: Stamp, d: Doc, pages: seq<Page>)
    requires Consistent(d) && ShortNumbers(stamp) && d.cursor < CURSOR_LIMIT
    requires forall p :: p in pages ==> p.cursor < CURSOR_LIMIT
    requires Rounds(stamp, d, pages).Some? && |pages| >= Work(d)
    ensures Work(Rounds(stamp, d, pages).value) == 0
    decreases pages
  {
    hide Consistent, ReceiveStep, BatchOf, Work;
    if pages != [] {
      var b := BatchOf(stamp, d);
      var (d', error) := ReceiveStep(d, b, pages[0]);
      BatchCursor(stamp, d);
      ReceiveKeeps(d, b, pages[0]);
      ReceivedCursor(d, b, pages[0]);
      if Work(d) > 0 {
        AnsweredRoundProgresses(stamp, d, pages[0]);
      } else {
        NothingToSend(stamp, d, pages[0]);
      }
      RoundsSettle(stamp, d', pages[1..]);
    } else {
      assert Work(d) == 0;
    }
  }

  lemma ReceivedCursor(d: Doc, b: Batch, p: Page)
    requires ReceiveStep(d, b, p).1.None?
    ensures ReceiveStep(d, b, p).0.cursor == p.cursor
  {
    hide AddEntries, ValidPage;
  }

  lemma NothingToSend(stamp: Stamp, d: Doc, p: Page)
    requires Work(d) == 0 && ReceiveStep(d, BatchOf(stamp, d), p).1.None?
    ensures Work(ReceiveStep(d, BatchOf(stamp, d), p).0) == 0
  {
    hide AddEntries, ValidPage, Fill;
    var b := BatchOf(stamp, d);
    QueuesUnchanged(Bury(Acknowledge(d, b), set id | id in p.deleted), p.entries);
  }
}
