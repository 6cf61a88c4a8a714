/** account_history.py: what each operation does to the document, as its caller sees it. */
module HistoryEffects {
  import opened Wrappers
  import opened AccountHistory
  import opened HistoryDevice

  /** The text of an entry: the final one, else the refined one, else what was heard. */
  predicate Carries(w: Wire, r: Record, finalText: Option<string>) {
    && w.id == r.id && w.createdAt == r.timestamp && w.sourceDevice == "desktop"
    && w.rewritten == r.refinedText.Some?
    && w.transcript == (match r.rawText case Some(heard) => heard case None => "")
    && (finalText.Some? ==> w.text == finalText.value)
    && (finalText.None? && r.refinedText.Some? ==> w.text == r.refinedText.value)
    && (finalText.None? && r.refinedText.None? ==> w.text == w.transcript)
  }

  predicate NotBlank(text: string) {
    exists i :: 0 <= i < |text| && !Space(text[i])
  }

  /** One to 128 letters, digits, underscores and hyphens. */
  predicate WellNamed(id: Id) {
    && 1 <= |id| <= 128
    && forall i :: 0 <= i < |id| ==>
         'a' <= id[i] <= 'z' || 'A' <= id[i] <= 'Z' || '0' <= id[i] <= '9' || id[i] == '_' || id[i] == '-'
  }

  /** A record that can be stored at all. */
  predicate Storable(w: Wire) {
    && WellNamed(w.id) && 0.0 < w.createdAt < 4102444800.0 && NotBlank(w.text)
    && Utf8Length(w.text) <= 32768 && Utf8Length(w.transcript) <= 32768
  }

  /** An owned append of a storable record under an unused ID adds it, and queues it last;
      a second append of the same changes nothing; any other append changes nothing and says so. */
  lemma AppendIsExact(d: Doc, r: Record, finalText: Option<string>, owned: bool, w: Wire)
    requires Carries(w, r, finalText)
    ensures var (d1, answer) := AppendStep(d, r, finalText, owned);
            var unused := r.id !in d.records && r.id !in d.tombstones;
            && (owned && Storable(w) && unused ==>
                  && answer == Success(true)
                  && r.id in d1.records && d1.records[r.id].wire == w
                  && d1.records[r.id].record == r.(sourceDevice := "desktop")
                  && (forall id :: id != r.id ==>
                        (id in d1.records <==> id in d.records) &&
                        (id in d.records ==> d1.records[id] == d.records[id]))
                  && d1.pending == d.pending + [w]
                  && d1 == d.(records := d1.records, pending := d1.pending))
            && (!(owned && Storable(w) && unused) ==> d1 == d)
            && (answer == Success(true) <==>
                  owned && Storable(w) && r.id !in d.tombstones && (r.id in d.records ==> d.records[r.id].wire == w))
            && (answer == Success(false) <==> !owned || (Storable(w) && r.id in d.tombstones))
            && (answer == Failure(InvalidEntry) <==> owned && !Storable(w))
  {
    assert Entry(r.(sourceDevice := "desktop"), finalText) == w;
    assert ValidWire(w) <==> Storable(w);
  }

  /** A deleted record is gone, buried and queued for deletion; nothing else is touched. */
  lemma DeleteIsExact(d: Doc, id: Id)
    ensures var d1 := DeleteStep(d, id);
            && (id !in d.records ==> d1 == d)
            && (id in d.records ==>
                  && id !in d1.records && id in d1.tombstones && id in d1.deleted
                  && (forall w :: w in d1.pending <==> w in d.pending && w.id != id)
                  && (forall k :: k != id ==>
                        (k in d1.records <==> k in d.records) && (k in d.records ==> d1.records[k] == d.records[k]))
                  && d1.tombstones == d.tombstones + {id}
                  && (Consistent(d) || id !in d.deleted ==> d1.deleted == d.deleted + [id])
                  && (id in d.deleted ==> d1.deleted == d.deleted)
                  && d1.cursor == d.cursor && d1.clearID == d.clearID)
  {
    hide ValidWire, ValidId;
  }

  /** A clear leaves no record and no queued work, buries every record and asks the server to. */
  lemma ClearIsExact(d: Doc, newID: Uuid)
    ensures var d1 := ClearStep(d, newID);
            && d1.records == map[] && d1.pending == [] && d1.deleted == [] && d1.clearID == Some(newID)
            && (forall id :: id in d1.tombstones <==> id in d.tombstones || id in d.records)
            && d1.cursor == d.cursor
  {}

  // ----- Replies ------------------------------------------------------------------------------------------

  /** A received entry reads as it was sent: its text is shown, and sent again it would carry the
      same transcript and text and still count as rewritten. */
  lemma ReceivedReadsAsSent(w: Wire)
    ensures var r := Received(w);
            && r.id == w.id && r.timestamp == w.createdAt && r.sourceDevice == w.sourceDevice
            && r.rawText == Some(w.transcript)
            && (match r.refinedText case Some(text) => text case None => w.transcript) == w.text
            && (r.refinedText.Some? <==> w.rewritten || w.text != w.transcript)
            && Entry(r, None).transcript == w.transcript && Entry(r, None).text == w.text
  {}

  /** What no reply may have: a cursor that goes back, or that stays while there are changes or more
      to come, over twenty changes, an entry that could not be stored or a malformed ID. */
  predicate Flawed(p: Page, cursor: nat) {
    || p.cursor < cursor || |p.entries| + |p.deleted| > 20
    || (p.cursor == cursor && (p.hasMore || p.entries != [] || p.deleted != []))
    || (exists w :: w in p.entries && !(Storable(w) && w.sourceDevice in {"desktop", "mobile"}))
    || (exists id :: id in p.deleted && !WellNamed(id))
  }

  lemma ValidIsFlawless(p: Page, cursor: nat)
    ensures ValidPage(p, cursor) <==> !Flawed(p, cursor)
  {
    hide Storable, ValidWire, WellNamed, ValidId;
    forall w | w in p.entries
      ensures ValidWire(w) <==> Storable(w) && w.sourceDevice in {"desktop", "mobile"}
    {
      ValidIsStorable(w);
    }
    forall id | id in p.deleted ensures ValidId(id) <==> WellNamed(id) {
      ValidIsNamed(id);
    }
  }

  lemma ValidIsStorable(w: Wire)
    ensures ValidWire(w) <==> Storable(w) && w.sourceDevice in {"desktop", "mobile"}
  {
    hide Utf8Length, Space;
    ValidIsNamed(w.id);
  }

  lemma ValidIsNamed(id: Id)
    ensures ValidId(id) <==> WellNamed(id)
  {}

  /** The IDs that a reply leaves buried. */
  function BuriedAfter(d: Doc, p: Page): set<Id> {
    d.tombstones + set id | id in p.deleted
  }

  function ClearAfter(d: Doc, b: Batch): Option<Uuid> {
    if b.clearID == d.clearID then None else d.clearID
  }

  /** Two entries that both count speak differently of one record. */
  ghost predicate Contradicts(d: Doc, p: Page, ws: seq<Wire>) {
    exists w :: w in ws && w.id !in BuriedAfter(d, p) &&
      ((w.id in d.records && d.records[w.id].wire != w) || exists v :: v in ws && v.id == w.id && v != w)
  }

  /** Adding entries to a document without a clear: what is buried is skipped, the rest is there
      afterwards, and it fails exactly on a contradiction. */
  lemma {:induction false} AddedAreThere(d: Doc, ws: seq<Wire>)
    requires d.clearID.None?
    ensures var r := AddEntries(d, ws);
            && (r.Success? ==>
                  && r.value == d.(records := r.value.records)
                  && (forall id :: id in d.records ==> id in r.value.records && r.value.records[id] == d.records[id])
                  && (forall w :: w in ws && w.id !in d.tombstones ==>
                        w.id in r.value.records && r.value.records[w.id].wire == w)
                  && (forall id :: id in r.value.records && id !in d.records ==> r.value.records[id].wire in ws))
            && (r.Failure? ==>
                  exists w :: w in ws && w.id !in d.tombstones &&
                    ((w.id in d.records && d.records[w.id].wire != w) || exists v :: v in ws && v.id == w.id && v != w))
    decreases ws
  {
    if ws != [] {
      var first := AddEntry(d, ws[0]);
      if first.Success? {
        AddedAreThere(first.value, ws[1..]);
        assert forall w :: w in ws ==> w == ws[0] || w in ws[1..];
        if AddEntries(d, ws).Failure? {
          var w :| w in ws[1..] && w.id !in d.tombstones &&
            ((w.id in first.value.records && first.value.records[w.id].wire != w) ||
             exists v :: v in ws[1..] && v.id == w.id && v != w);
          assert w in ws;
          if w.id == ws[0].id {
            assert ws[0] in ws;
          }
        }
      } else {
        assert ws[0] in ws;
      }
    }
  }

  lemma {:induction false} NothingAdded(d: Doc, ws: seq<Wire>)
    requires d.clearID.Some?
    ensures AddEntries(d, ws) == Success(d)
    decreases ws
  {
    if ws != [] {
      NothingAdded(d, ws[1..]);
    }
  }

  /** What stays queued. */
  lemma QueuesAfter(d: Doc, b: Batch, p: Page)
    ensures var m := Bury(Acknowledge(d, b), set id | id in p.deleted);
            && (forall w :: w in m.pending <==> w in d.pending && w !in b.upserts && w.id !in p.deleted)
            && (forall id :: id in m.deleted <==> id in d.deleted && id !in b.deletes)
            && m.clearID == ClearAfter(d, b) && m.tombstones == BuriedAfter(d, p) && m.cursor == d.cursor
            && (forall id :: id in m.records <==> id in d.records && id !in p.deleted)
            && (forall id :: id in m.records ==> m.records[id] == d.records[id])
  {}

  /** A reply is accepted exactly if it is without flaw and, unless a clear is still open, speaks of no
      record in two ways; then all it says is in the document, what was submitted is no longer
      queued, and everything else is as it was. */
  lemma ReceiveIsExact(d: Doc, b: Batch, p: Page)
    requires Consistent(d)
    ensures var (d1, error) := ReceiveStep(d, b, p);
            && (error.None? <==>
                  !Flawed(p, b.cursor) && (ClearAfter(d, b).None? ==> !Contradicts(d, p, p.entries)))
            && (error.Some? ==> d1 == d)
            && (error.None? ==>
                  && d1.cursor == p.cursor && d1.clearID == ClearAfter(d, b) && d1.tombstones == BuriedAfter(d, p)
                  && (forall w :: w in d1.pending <==> w in d.pending && w !in b.upserts && w.id !in p.deleted)
                  && (forall id :: id in d1.deleted <==> id in d.deleted && id !in b.deletes)
                  && (forall id :: id in d.records && id !in p.deleted ==>
                        id in d1.records && d1.records[id] == d.records[id])
                  && (d1.clearID.None? ==> forall w :: w in p.entries && w.id !in d1.tombstones ==>
                        w.id in d1.records && d1.records[w.id].wire == w)
                  && (forall id :: id in d1.records ==>
                        (id in d.records && id !in p.deleted) || d1.records[id].wire in p.entries))
  {
    hide ValidPage, Flawed, Acknowledge, Bury, AddEntries;
    ValidIsFlawless(p, b.cursor);
    var m := Bury(Acknowledge(d, b), set id | id in p.deleted);
    QueuesAfter(d, b, p);
    if m.clearID.Some? {
      NothingAdded(m, p.entries);
    } else {
      AddedAreThere(m, p.entries);
      RecordsAreApart(d, p);
    }
  }

  lemma RecordsAreApart(d: Doc, p: Page)
    requires Consistent(d)
    ensures forall id :: id in d.records && id !in p.deleted ==> id !in BuriedAfter(d, p)
  {}

  // ----- Over runs ----------------------------------------------------------------------------------------

  /** The steps by which a record may go. */
  ghost predicate Removes(s: Device, a: Action, id: Id) {
    (a.Delete? && a.id == id) || a.Clear? || (a.Reply? && s.flight.Some? && id in a.page.deleted)
  }

  lemma RecordStays(s: Device, a: Action, id: Id)
    requires Inv(s) && id in s.doc.records && !Removes(s, a, id)
    ensures id in Act(s, a).doc.records && Act(s, a).doc.records[id] == s.doc.records[id]
  {
    hide Consistent, ReceiveStep, BatchOf, ValidWire;
    if a.Reply? && s.flight.Some? {
      ReceiveIsExact(s.doc, s.flight.value, a.page);
    }
  }

  /** An accepted append stays in the records, as it was stored, until it is deleted here, a
      clear takes it or the server deletes it. */
  lemma {:induction false} AppendedStays(s: Device, r: Record, finalText: Option<string>, actions: seq<Action>)
    returns (k: nat)
    requires Inv(s) && AppendStep(s.doc, r, finalText, true).1 == Success(true)
    ensures var t := Act(s, Append(r, finalText, true));
            var end := After(t, actions).doc;
            && r.id in t.doc.records
            && (k < |actions| ==> Removes(After(t, actions[..k]), actions[k], r.id))
            && (k >= |actions| ==> r.id in end.records && end.records[r.id] == t.doc.records[r.id])
    decreases |actions|
  {
    hide Removes, Consistent, ValidWire;
    var t := Act(s, Append(r, finalText, true));
    if actions == [] {
      return 0;
    }
    hide Act, AppendStep;
    var n := |actions| - 1;
    k := AppendedStays(s, r, finalText, actions[..n]);
    if k < n {
      assert actions[..n][..k] == actions[..k];
      return k;
    }
    var before := After(t, actions[..n]);
    if Removes(before, actions[n], r.id) {
      return n;
    }
    ActKeeps(s, Append(r, finalText, true));
    AfterKeeps(t, actions[..n]);
    RecordStays(before, actions[n], r.id);
    return n + 1;
  }

  lemma {:induction false} AfterKeeps(s: Device, actions: seq<Action>)
    requires Inv(s)
    ensures Inv(After(s, actions))
    decreases |actions|
  {
    hide Act, Inv;
    if actions != [] {
      var n := |actions| - 1;
      AfterKeeps(s, actions[..n]);
      ActKeeps(After(s, actions[..n]), actions[n]);
    }
  }

  // ----- Requests -----------------------------------------------------------------------------------------

  /** The entries of a request are the longest run of pending ones that fits. */
  lemma {:induction false} FillIsMaximal(stamp: Stamp, b: Batch, items: seq<Wire>)
    ensures var r := Fill(stamp, b, items);
            var taken := |r.upserts| - |b.upserts|;
            && 0 <= taken <= |items| && r.upserts == b.upserts + items[..taken]
            && (taken < |items| ==> JsonBatch(stamp, r.(upserts := r.upserts + [items[taken]])) > 400 * 1024)
    decreases items
  {
    if items != [] {
      var longer := b.(upserts := b.upserts + [items[0]]);
      if JsonBatch(stamp, longer) <= 400 * 1024 {
        hide JsonBatch;
        FillIsMaximal(stamp, longer, items[1..]);
        var taken := |Fill(stamp, longer, items[1..]).upserts| - |longer.upserts|;
        OneMoreTaken(b.upserts, items, taken);
      }
    }
  }

  lemma OneMoreTaken<T>(before: seq<T>, items: seq<T>, taken: nat)
    requires items != [] && taken <= |items[1..]|
    ensures before + items[..taken + 1] == before + [items[0]] + items[1..][..taken]
    ensures taken < |items[1..]| ==> items[taken + 1] == items[1..][taken]
  {
    assert items[..taken + 1] == [items[0]] + items[1..][..taken];
  }

  /** A request carries the open clear alone; otherwise the first fifty deletions and as many of
      the first fifty pending entries, in order, as fit. */
  lemma BatchIsExact(stamp: Stamp, d: Doc)
    ensures var b := BatchOf(stamp, d);
            && b.cursor == d.cursor && b.clearID == d.clearID
            && (d.clearID.Some? ==> b.upserts == [] && b.deletes == [])
            && (d.clearID.None? ==>
                  && b.deletes <= d.deleted && |b.deletes| == (if |d.deleted| < 50 then |d.deleted| else 50)
                  && b.upserts <= d.pending && |b.upserts| <= 50
                  && (|b.upserts| < |d.pending| && |b.upserts| < 50 ==>
                        JsonBatch(stamp, b.(upserts := b.upserts + [d.pending[|b.upserts|]])) > 400 * 1024))
  {
    hide Fill, JsonBatch;
    FillIsMaximal(stamp, Batch(d.cursor, [], Prefix(d.deleted, MAX_CHANGES), None), Prefix(d.pending, MAX_CHANGES));
  }
}
