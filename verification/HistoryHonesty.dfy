/** account_history.py with server/cloud/service/history.py: device and server accept what the
    other one honestly sends. */
module HistoryHonesty {
  import opened Wrappers
  import opened AccountHistory
  import opened HistoryServer
  import opened HistorySync
  import opened HistoryEffects

  /** What the device sends passes the server's validation. */
  lemma RequestIsAcceptable(stamp: Stamp, d: Doc, s: Server)
    requires Consistent(d) && d.cursor <= s.revision
    ensures Acceptable(s, BatchOf(stamp, d))
  {
    hide ValidWire, ValidId, BatchOf, JsonBatch;
    BatchIsExact(stamp, d);
    var b := BatchOf(stamp, d);
    if d.clearID.None? {
      assert forall w :: w in b.upserts ==> w in d.pending;
      assert forall id :: id in b.deletes ==> id in d.deleted;
    }
  }

  /** What the server turns away unread: a cursor ahead of it, more than fifty of either kind, an
      entry that could not be stored, a malformed ID, an ID named twice, or a clear with changes. */
  ghost predicate Improper(s: Server, b: Batch) {
    || b.cursor > s.revision || |b.upserts| > 50 || |b.deletes| > 50
    || (exists w :: w in b.upserts && !(Storable(w) && w.sourceDevice in {"desktop", "mobile"}))
    || (exists id :: id in b.deletes && !WellNamed(id))
    || (exists i, j :: 0 <= i < j < |b.upserts| && b.upserts[i].id == b.upserts[j].id)
    || (exists i, j :: 0 <= i < j < |b.deletes| && b.deletes[i] == b.deletes[j])
    || (exists w :: w in b.upserts && w.id in b.deletes)
    || (b.clearID.Some? && (b.upserts != [] || b.deletes != []))
  }

  lemma AcceptableIsProper(s: Server, b: Batch)
    ensures Acceptable(s, b) <==> !Improper(s, b)
  {
    hide Storable, ValidWire, WellNamed, ValidId;
    forall w | w in b.upserts
      ensures ValidWire(w) <==> Storable(w) && w.sourceDevice in {"desktop", "mobile"}
    {
      ValidIsStorable(w);
    }
    forall id | id in b.deletes ensures ValidId(id) <==> WellNamed(id) {
      ValidIsNamed(id);
    }
  }

  lemma ClearsAreAlone(s: Server, b: Batch)
    ensures Acceptable(s, b) && b.clearID.Some? ==> b.upserts == []
  {}

  /** A request that passes validation is refused only for the storage bounds, or because a live
      row already says something else; a clear that was carried out before is never refused. */
  lemma RefusalIsExact(s: Server, b: Batch, order: seq<Id>, full: bool)
    requires Lists(order, s)
    ensures var r := Synchronize(s, b, order, full);
            var repeated := b.clearID.Some? && b.clearID.value in s.clears;
            var agrees := forall w :: w in b.upserts && w.id in s.rows && s.rows[w.id].payload.Some? ==>
                            s.rows[w.id].payload.value == w;
            && (r == Failure(Invalid) <==> Improper(s, b))
            && (!Improper(s, b) && agrees ==>
                  && (r.Success? <==> repeated || !full) && (r == Failure(Full) <==> full && !repeated))
            && (!Improper(s, b) && !agrees ==> r == Failure(Contradiction))
  {
    hide Acceptable, Improper, Upsert, Erase;
    AcceptableIsProper(s, b);
    ClearsAreAlone(s, b);
  }

  ghost predicate Named(s: Server) {
    forall id :: id in s.rows ==> ValidId(id)
  }

  lemma {:induction false} UpsertNames(s: Server, ws: seq<Wire>)
    requires Named(s) && forall w :: w in ws ==> ValidId(w.id)
    ensures Named(Upsert(s, ws))
    decreases ws
  {
    hide ValidId;
    if ws != [] {
      UpsertNames(UpsertOne(s, ws[0]), ws[1..]);
    }
  }

  lemma {:induction false} EraseNames(s: Server, ids: seq<Id>)
    requires Named(s) && forall id :: id in ids ==> ValidId(id)
    ensures Named(Erase(s, ids))
    decreases ids
  {
    hide ValidId;
    if ids != [] {
      EraseNames(EraseOne(s, ids[0]), ids[1..]);
    }
  }

  lemma SynchronizeNames(s: Server, b: Batch, order: seq<Id>, full: bool)
    requires Named(s) && Lists(order, s)
    ensures var r := Synchronize(s, b, order, full); r.Success? ==> Named(r.value)
  {
    hide Upsert, Erase, ValidId, Named;
    if Acceptable(s, b) {
      if b.clearID.Some? {
        SameNames(s, s.(clears := s.clears + {b.clearID.value}));
        LiveAreNamed(s);
        EraseNames(s.(clears := s.clears + {b.clearID.value}), order);
      } else {
        WiresAreNamed(b.upserts);
        UpsertNames(s, b.upserts);
        EraseNames(Upsert(s, b.upserts), b.deletes);
      }
    }
  }

  lemma SameNames(s: Server, s1: Server)
    requires Named(s) && s1.rows == s.rows
    ensures Named(s1)
  {}

  lemma LiveAreNamed(s: Server)
    requires Named(s)
    ensures forall id :: Live(s, id) ==> ValidId(id)
  {}

  lemma WiresAreNamed(ws: seq<Wire>)
    requires forall w :: w in ws ==> ValidWire(w)
    ensures forall w :: w in ws ==> ValidId(w.id)
  {}

  /** A page of the server passes the device's validation. */
  lemma PageIsValid(s: Server, cursor: nat, order: seq<Id>, n: nat)
    requires WellFormed(s) && Named(s) && cursor <= s.revision && Behind(order, s, cursor) && Fits(n, order)
    ensures ValidPage(PageAt(s, cursor, order, n), cursor)
  {
    hide ValidWire, ValidId, Behind, WellFormed, PageAt;
    PageIsFaithful(s, cursor, order, n);
  }

  ghost predicate Valid(s: System) {
    Named(s.server) && (s.flight.Answered? ==> ValidPage(s.flight.page, s.flight.batch.cursor))
  }

  lemma ActIsValid(s: System, a: Action)
    requires HistorySync.Inv(s) && Enabled(s, a) && Valid(s)
    ensures Valid(HistorySync.Act(s, a))
  {
    hide Consistent, WellFormed, ValidWire, Synchronize, Lists, Faithful, Behind, PageAt, ValidPage, Named,
      ReceiveStep, AppendStep, DeleteStep, ClearStep, BatchOf, Uploaded, Buried, Seen, Origins;
    match a
    case Serve(visit, behind, taken, full) =>
      var b := s.flight.batch;
      SynchronizeNames(s.server, b, visit, full);
      var r := Synchronize(s.server, b, visit, full);
      if r.Success? {
        SynchronizeForward(s.server, b, visit, full);
        CursorBehind(s, r.value);
        PageIsValid(r.value, b.cursor, behind, taken);
      }
    case OtherDevice(b, visit, full) => SynchronizeNames(s.server, b, visit, full);
    case _ =>
  }

  lemma CursorBehind(s: System, s1: Server)
    requires HistorySync.Inv(s) && s.flight.Sent? && Forward(s.server, s1)
    ensures s.flight.batch.cursor <= s1.revision
  {
    hide Consistent, WellFormed, Uploaded, Buried, Origins;
  }

  lemma {:induction false} RunIsValid(s: System, actions: seq<Action>, t: System)
    requires HistorySync.Inv(s) && Valid(s) && HistorySync.Run(s, actions, t)
    ensures Valid(t)
    decreases actions
  {
    hide HistorySync.Inv, HistorySync.Act, Enabled, Valid;
    if actions != [] {
      StepInv(s, actions[0]);
      ActIsValid(s, actions[0]);
      RunIsValid(HistorySync.Act(s, actions[0]), actions[1..], t);
    }
  }

  lemma StartIsValid()
    ensures Valid(START)
    ensures HistorySync.Inv(START)
  {}

  /** In every run against the real server, an answer that arrives is accepted, unless it and
      the device speak of one record in two ways while no clear is open. */
  lemma AnswersAreAccepted(actions: seq<Action>, t: System)
    requires HistorySync.Run(START, actions, t) && t.flight.Answered?
    ensures var b, p := t.flight.batch, t.flight.page;
            ReceiveStep(t.client, b, p).1.None? <==>
              (ClearAfter(t.client, b).None? ==> !Contradicts(t.client, p, p.entries))
  {
    hide HistorySync.Run, ReceiveStep, ValidPage, Flawed, Contradicts, Consistent, WellFormed;
    hide Uploaded, Buried, Seen, Origins;
    StartIsValid();
    RunIsValid(START, actions, t);
    RunInv(START, actions, t);
    ReceiveIsExact(t.client, t.flight.batch, t.flight.page);
    ValidIsFlawless(t.flight.page, t.flight.batch.cursor);
  }
}
