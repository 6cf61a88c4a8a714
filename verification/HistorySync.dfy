/** One device and the account's server, with other devices writing, replies lost and local
    edits made while a request is in flight. */
module HistorySync {
  import opened Wrappers
  import opened AccountHistory
  import opened HistoryServer

  /** `Sent` has not reached the server, `Answered` was carried out. */
  datatype Flight = Idle | Sent(batch: Batch) | Answered(batch: Batch, page: Page)

  /** `authored` are the record ids this device ever appended, `minted` its clear ids. */
  datatype System = System(client: Doc, server: Server, flight: Flight,
                           authored: set<Id>, minted: set<Uuid>)

  datatype Action =
    | Append(record: Record, finalText: Option<string>, owned: bool)
    | Delete(id: Id)
    | Clear(clearID: Uuid)
    | Submit(stamp: Stamp)
    | Serve(visit: seq<Id>, behind: seq<Id>, taken: nat, full: bool)
    | Lose
    | Receive
    | OtherDevice(batch: Batch, visit: seq<Id>, full: bool)
    | RemoveAccount

  const START := System(EMPTY, NEW_ACCOUNT, Idle, {}, {})

  /** Identifiers are never reused: another device does not create a record under an id this
      device appended, and clear ids are new. A request is carried out before the device's
      next request or not at all. */
  ghost predicate Enabled(s: System, a: Action) {
    match a
    case Clear(u) => u !in s.minted && u !in s.server.clears
    case Submit(_) => s.flight.Idle?
    case Serve(visit, behind, taken, full) =>
      && s.flight.Sent? && Lists(visit, s.server)
      && var r := Synchronize(s.server, s.flight.batch, visit, full);
         r.Success? ==> Behind(behind, r.value, s.flight.batch.cursor) && Fits(taken, behind)
    case Lose => !s.flight.Idle?
    case Receive => s.flight.Answered?
    case OtherDevice(b, visit, _) =>
      && Lists(visit, s.server)
      && (forall w :: w in b.upserts ==> w.id !in s.authored || w.id in s.server.rows)
      && (b.clearID.Some? ==> b.clearID.value !in s.minted)
    case _ => true
  }

  ghost function Act(s: System, a: Action): System
    requires Enabled(s, a)
  {
    match a
    case Append(r, finalText, owned) =>
      s.(client := AppendStep(s.client, r, finalText, owned).0, authored := s.authored + {r.id})
    case Delete(id) => s.(client := DeleteStep(s.client, id))
    case Clear(u) => s.(client := ClearStep(s.client, u), minted := s.minted + {u})
    case Submit(stamp) => s.(flight := Sent(BatchOf(stamp, s.client)))
    case Serve(visit, behind, taken, full) =>
      var b := s.flight.batch;
      var r := Synchronize(s.server, b, visit, full);
      if r.Failure? then s.(flight := Idle)
      else s.(server := r.value, flight := Answered(b, PageAt(r.value, b.cursor, behind, taken)))
    case Lose => s.(flight := Idle)
    case Receive =>
      s.(client := ReceiveStep(s.client, s.flight.batch, s.flight.page).0, flight := Idle)
    case OtherDevice(b, visit, full) =>
      var r := Synchronize(s.server, b, visit, full);
      if r.Failure? then s else s.(server := r.value)
    case RemoveAccount => s.(client := EMPTY, flight := Idle)
  }

  ghost predicate Run(s: System, actions: seq<Action>, t: System)
    decreases actions
  {
    if actions == [] then t == s
    else Enabled(s, actions[0]) && Run(Act(s, actions[0]), actions[1..], t)
  }

  // ----- The invariant ----------------------------------------------------------------------------

  /** A local clear the server has not carried out. */
  predicate Clearing(c: Doc, s: Server) {
    c.clearID.Some? && c.clearID.value !in s.clears
  }

  /** What is not pending has reached the server. */
  ghost predicate Uploaded(c: Doc, s: Server) {
    forall id :: id in c.records ==> c.records[id].wire in c.pending || Known(s, c.records[id].wire)
  }

  /** What was deleted here lives on the server only while the deletion is still to be sent. */
  ghost predicate Buried(c: Doc, s: Server) {
    forall id :: id in c.tombstones && Live(s, id) ==> id in c.deleted || Clearing(c, s)
  }

  /** The rows the cursor passed are reflected here. */
  ghost predicate Seen(c: Doc, s: Server) {
    && c.cursor <= s.revision
    && (forall id :: Live(s, id) && s.rows[id].revision <= c.cursor ==>
          || (id in c.records && c.records[id].wire == s.rows[id].payload.value)
          || id in c.deleted || Clearing(c, s))
    && (forall id :: Dead(s, id) && s.rows[id].revision <= c.cursor ==> id in c.tombstones)
  }

  ghost predicate Origins(s: System) {
    && (forall id :: id in s.client.tombstones ==> id in s.authored || id in s.server.rows)
    && (forall w :: w in s.client.pending ==> w.id in s.authored)
    && (s.client.clearID.Some? ==> s.client.clearID.value in s.minted)
  }

  ghost predicate GoodBatch(s: System, b: Batch) {
    && b.cursor == s.client.cursor
    && (forall w :: w in b.upserts ==> w.id in s.authored)
    && (b.clearID.Some? ==> b.clearID.value in s.minted && b.upserts == [] && b.deletes == [])
    && (s.client.clearID.Some? && b.clearID != s.client.clearID ==> Clearing(s.client, s.server))
  }

  ghost predicate GoodFlight(s: System) {
    match s.flight
    case Idle => true
    case Sent(b) =>
      GoodBatch(s, b) &&
      (forall w :: w in b.upserts && w.id in s.client.tombstones ==>
         w.id in s.client.deleted || Clearing(s.client, s.server))
    case Answered(b, p) =>
      && GoodBatch(s, b)
      && (forall w :: w in b.upserts ==> Known(s.server, w))
      && (forall id :: id in b.deletes ==> Dead(s.server, id))
      && (b.clearID.Some? ==> b.clearID.value in s.server.clears)
      && Faithful(p, s.server, b.cursor) && p.cursor <= s.server.revision
  }

  ghost predicate Inv(s: System) {
    && Consistent(s.client) && WellFormed(s.server)
    && Uploaded(s.client, s.server) && Buried(s.client, s.server) && Seen(s.client, s.server)
    && Origins(s) && GoodFlight(s)
  }

  // ----- Local edits -------------------------------------------------------------------------------

  lemma AppendStepInv(s: System, a: Action)
    requires Inv(s) && a.Append?
    ensures Inv(Act(s, a))
  {
    hide Consistent, WellFormed, ValidWire, Faithful;
    AppendKeeps(s.client, a.record, a.finalText, a.owned);
  }

  lemma DeleteStepInv(s: System, a: Action)
    requires Inv(s) && a.Delete?
    ensures Inv(Act(s, a))
  {
    hide WellFormed, ValidWire, Faithful, Consistent;
    DeleteKeeps(s.client, a.id);
    RecordsAreNamed(s.client);
  }

  lemma ClearStepInv(s: System, a: Action)
    requires Inv(s) && a.Clear? && Enabled(s, a)
    ensures Inv(Act(s, a))
  {
    hide WellFormed, ValidWire, Faithful, Consistent;
    ClearKeeps(s.client, a.clearID);
    RecordsAreNamed(s.client);
  }

  lemma RecordsAreNamed(d: Doc)
    requires Consistent(d)
    ensures forall id :: id in d.records ==> d.records[id].wire.id == id
  {
    hide ValidWire;
  }

  // ----- Changes on the server -----------------------------------------------------------------------

  /** A server transaction that does not carry out the device's clear, creates nothing under a
      tombstone of the device that is not about to be deleted, and only moves rows forward. */
  ghost predicate Harmless(c: Doc, s: Server, s': Server) {
    && Forward(s, s') && WellFormed(s')
    && (Clearing(c, s) ==> Clearing(c, s') || forall id :: !Live(s', id))
    && (forall id :: Live(s', id) && id !in s.rows && id in c.tombstones ==> id in c.deleted || Clearing(c, s'))
  }

  lemma HarmlessKeeps(c: Doc, s: Server, s': Server)
    requires Harmless(c, s, s') && Uploaded(c, s) && Buried(c, s) && Seen(c, s)
    ensures Uploaded(c, s') && Buried(c, s') && Seen(c, s')
  {
    hide WellFormed;
    KnownForward(s, s');
  }

  lemma FaithfulForward(p: Page, s: Server, s': Server, cursor: nat)
    requires Forward(s, s') && Faithful(p, s, cursor) && p.cursor <= s.revision
    ensures Faithful(p, s', cursor)
  {
    hide ValidWire;
    KnownForward(s, s');
  }

  lemma OtherDeviceInv(s: System, a: Action)
    requires Inv(s) && a.OtherDevice? && Enabled(s, a)
    ensures Inv(Act(s, a))
  {
    hide Consistent, WellFormed, ValidWire, Synchronize, Lists, Faithful;
    var r := Synchronize(s.server, a.batch, a.visit, a.full);
    if r.Success? {
      SynchronizeForward(s.server, a.batch, a.visit, a.full);
      var s' := r.value;
      assert Harmless(s.client, s.server, s') by {
        forall id | Live(s', id) && id !in s.server.rows
          ensures id !in s.client.tombstones
        {
          NewRowIsNamed(s', id);
          assert s'.rows[id].payload.value in a.batch.upserts;
        }
      }
      HarmlessKeeps(s.client, s.server, s');
      FlightSurvives(s, Act(s, a));
    }
  }

  lemma NewRowIsNamed(s: Server, id: Id)
    requires WellFormed(s) && Live(s, id)
    ensures s.rows[id].payload.value.id == id
  {}

  lemma FlightSurvives(s: System, t: System)
    requires t == s.(server := t.server) && Forward(s.server, t.server) && Inv(s)
    requires Clearing(s.client, s.server) ==> Clearing(t.client, t.server)
    ensures GoodFlight(t) && Origins(t)
  {
    hide Consistent, WellFormed, ValidWire, Faithful, Uploaded, Buried, Seen;
    KnownForward(s.server, t.server);
    if s.flight.Answered? {
      FaithfulForward(s.flight.page, s.server, t.server, s.flight.batch.cursor);
    }
  }

  lemma ServeInv(s: System, a: Action)
    requires Inv(s) && a.Serve? && Enabled(s, a)
    ensures Inv(Act(s, a))
  {
    hide Consistent, WellFormed, ValidWire, Synchronize, Lists, Faithful, Behind, PageAt;
    var b := s.flight.batch;
    var r := Synchronize(s.server, b, a.visit, a.full);
    if r.Success? {
      SynchronizeForward(s.server, b, a.visit, a.full);
      var s' := r.value;
      assert b.cursor <= s'.revision;
      PageIsFaithful(s', b.cursor, a.behind, a.taken);
      ServeIsHarmless(s, b, s');
      HarmlessKeeps(s.client, s.server, s');
    }
  }

  lemma ServeIsHarmless(s: System, b: Batch, s': Server)
    requires Inv(s) && s.flight == Sent(b)
    requires Forward(s.server, s') && WellFormed(s')
    requires b.clearID.None? ==> s'.clears == s.server.clears
    requires b.clearID.Some? ==> s'.clears == s.server.clears + {b.clearID.value}
    requires b.clearID.Some? && b.clearID.value !in s.server.clears ==> forall id :: !Live(s', id)
    requires forall id :: Live(s', id) && id !in s.server.rows ==> s'.rows[id].payload.value in b.upserts
    ensures Harmless(s.client, s.server, s')
    ensures s.client.clearID.Some? && b.clearID != s.client.clearID ==> Clearing(s.client, s')
  {
    hide Consistent, WellFormed, ValidWire, Faithful, Uploaded, Buried, Seen;
    forall id | Live(s', id) && id !in s.server.rows && id in s.client.tombstones
      ensures id in s.client.deleted || Clearing(s.client, s')
    {
      NewRowIsNamed(s', id);
      assert s'.rows[id].payload.value in b.upserts;
    }
  }

  // ----- Sending and receiving ------------------------------------------------------------------------

  lemma SubmitInv(s: System, a: Action)
    requires Inv(s) && a.Submit? && Enabled(s, a)
    ensures Inv(Act(s, a))
  {
    hide WellFormed, ValidWire, Faithful, Uploaded, Buried, Seen, JsonBatch, Fill;
    BatchIsWork(a.stamp, s.client);
  }

  /** A batch without a clear id carries a prefix of the pending work. */
  lemma BatchIsWork(stamp: Stamp, d: Doc)
    ensures var b := BatchOf(stamp, d);
            && b.cursor == d.cursor && b.clearID == d.clearID
            && (b.clearID.Some? ==> b.upserts == [] && b.deletes == [])
            && b.upserts <= d.pending && b.deletes <= d.deleted
            && |b.upserts| <= MAX_CHANGES && |b.deletes| <= MAX_CHANGES
  {
    hide JsonBatch, Fill;
    assert [] + Prefix(d.pending, MAX_CHANGES) == Prefix(d.pending, MAX_CHANGES);
  }

  lemma {:induction false} EntriesArrive(d: Doc, ws: seq<Wire>)
    requires AddEntries(d, ws).Success?
    ensures var d' := AddEntries(d, ws).value;
            && (forall id :: id in d.records ==> id in d'.records && d'.records[id] == d.records[id])
            && d' == d.(records := d'.records)
            && (forall w :: w in ws ==>
                  d.clearID.Some? || w.id in d.tombstones || (w.id in d'.records && d'.records[w.id].wire == w))
            && (forall id :: id in d'.records && id !in d.records ==> d'.records[id].wire in ws)
    decreases ws
  {
    if ws != [] {
      EntriesArrive(AddEntry(d, ws[0]).value, ws[1..]);
    }
  }

  /** The shape of the document after an accepted reply. */
  lemma ReceivedShape(d: Doc, b: Batch, p: Page)
    requires ReceiveStep(d, b, p).1.None?
    ensures var d' := ReceiveStep(d, b, p).0;
            && d'.cursor == p.cursor
            && d'.clearID == (if b.clearID == d.clearID then None else d.clearID)
            && (forall w :: w in d'.pending <==> w in d.pending && w !in b.upserts && w.id !in p.deleted)
            && (forall id :: id in d'.deleted <==> id in d.deleted && id !in b.deletes)
            && (forall id :: id in d'.tombstones <==> id in d.tombstones || id in p.deleted)
            && (forall id :: id in d.records && id !in p.deleted ==>
                  id in d'.records && d'.records[id] == d.records[id])
            && (forall id :: id in d'.records ==>
                  || (id in d.records && id !in p.deleted && d'.records[id] == d.records[id])
                  || d'.records[id].wire in p.entries)
            && (forall w :: w in p.entries ==>
                  d'.clearID.Some? || w.id in d'.tombstones || (w.id in d'.records && d'.records[w.id].wire == w))
  {
    hide ValidPage, AddEntries;
    EntriesArrive(Bury(Acknowledge(d, b), set id | id in p.deleted), p.entries);
  }

  lemma ReceiveInv(s: System, a: Action)
    requires Inv(s) && a.Receive? && Enabled(s, a)
    ensures Inv(Act(s, a))
  {
    hide Consistent, WellFormed, ValidWire, ReceiveStep;
    var b, p := s.flight.batch, s.flight.page;
    ReceiveKeeps(s.client, b, p);
    if ReceiveStep(s.client, b, p).1.None? {
      ReceivedShape(s.client, b, p);
      ReceiveUploaded(s, b, p);
      ReceiveBuried(s, b, p);
      ReceiveSeen(s, b, p);
      ReceiveOrigins(s, b, p);
    } else {
      ReceiveRejected(s.client, b, p);
    }
  }

  lemma ReceiveRejected(d: Doc, b: Batch, p: Page)
    requires ReceiveStep(d, b, p).1.Some?
    ensures ReceiveStep(d, b, p).0 == d
  {}

  lemma ReceiveUploaded(s: System, b: Batch, p: Page)
    requires Inv(s) && s.flight == Answered(b, p) && ReceiveStep(s.client, b, p).1.None?
    ensures Uploaded(ReceiveStep(s.client, b, p).0, s.server)
  {
    hide WellFormed, ValidWire, ReceiveStep, Seen, Buried, Origins;
    ReceivedShape(s.client, b, p);
    var c' := ReceiveStep(s.client, b, p).0;
    forall id | id in c'.records && c'.records[id].wire !in c'.pending
      ensures Known(s.server, c'.records[id].wire)
    {
      if !(c'.records[id].wire in p.entries) {
        var w := s.client.records[id].wire;
        assert w.id == id;
        assert w in b.upserts || w !in s.client.pending;
      }
    }
  }

  lemma ReceiveBuried(s: System, b: Batch, p: Page)
    requires Inv(s) && s.flight == Answered(b, p) && ReceiveStep(s.client, b, p).1.None?
    ensures Buried(ReceiveStep(s.client, b, p).0, s.server)
    ensures Clearing(s.client, s.server) ==> Clearing(ReceiveStep(s.client, b, p).0, s.server)
  {
    hide Consistent, WellFormed, ValidWire, ReceiveStep, Seen, Uploaded, Origins;
    ReceivedShape(s.client, b, p);
  }

  lemma ReceiveSeen(s: System, b: Batch, p: Page)
    requires Inv(s) && s.flight == Answered(b, p) && ReceiveStep(s.client, b, p).1.None?
    ensures Seen(ReceiveStep(s.client, b, p).0, s.server)
  {
    hide Consistent, WellFormed, ValidWire, ReceiveStep, Uploaded, Origins;
    ReceivedShape(s.client, b, p);
    ReceiveBuried(s, b, p);
    var c, c', server := s.client, ReceiveStep(s.client, b, p).0, s.server;
    forall id | Live(server, id) && server.rows[id].revision <= c'.cursor
      ensures (id in c'.records && c'.records[id].wire == server.rows[id].payload.value)
              || id in c'.deleted || Clearing(c', server)
    {
      assert id !in p.deleted;
      if server.rows[id].revision <= c.cursor {
        assert id in b.deletes ==> Dead(server, id);
      } else {
        NewRowIsNamed(server, id);
        var w := server.rows[id].payload.value;
        assert w in p.entries;
        if c'.clearID.Some? {
          assert Clearing(c, server);
        }
      }
    }
  }

  lemma ReceiveOrigins(s: System, b: Batch, p: Page)
    requires Inv(s) && s.flight == Answered(b, p) && ReceiveStep(s.client, b, p).1.None?
    ensures Origins(Act(s, Receive))
  {
    hide Consistent, WellFormed, ValidWire, ReceiveStep, Uploaded, Seen, Buried;
    ReceivedShape(s.client, b, p);
  }

  // ----- Every run -----------------------------------------------------------------------------------

  lemma StepInv(s: System, a: Action)
    requires Inv(s) && Enabled(s, a)
    ensures Inv(Act(s, a))
  {
    match a
    case Append(_, _, _) => AppendStepInv(s, a);
    case Delete(_) => DeleteStepInv(s, a);
    case Clear(_) => ClearStepInv(s, a);
    case Submit(_) => SubmitInv(s, a);
    case Serve(_, _, _, _) => ServeInv(s, a);
    case Lose =>
    case Receive => ReceiveInv(s, a);
    case OtherDevice(_, _, _) => OtherDeviceInv(s, a);
    case RemoveAccount =>
  }

  lemma {:induction false} RunInv(s: System, actions: seq<Action>, t: System)
    requires Inv(s) && Run(s, actions, t)
    ensures Inv(t)
    decreases actions
  {
    if actions != [] {
      hide Inv, Act, Enabled;
      StepInv(s, actions[0]);
      RunInv(Act(s, actions[0]), actions[1..], t);
    }
  }

  function Shown(c: Doc): map<Id, Wire> {
    map id | id in c.records :: c.records[id].wire
  }

  function Stored(s: Server): map<Id, Wire> {
    map id | id in s.rows && s.rows[id].payload.Some? :: s.rows[id].payload.value
  }

  predicate Settled(c: Doc) {
    c.pending == [] && c.deleted == [] && c.clearID.None?
  }

  ghost predicate UpToDate(c: Doc, s: Server) {
    forall id :: id in s.rows ==> s.rows[id].revision <= c.cursor
  }

  /** Convergence: in every run, whenever the device has nothing left to send and no row lies
      beyond its cursor, it shows exactly the server's live records. */
  lemma Convergence(actions: seq<Action>, t: System)
    requires Run(START, actions, t)
    requires Settled(t.client) && UpToDate(t.client, t.server)
    ensures Shown(t.client) == Stored(t.server)
  {
    hide Act, Enabled;
    RunInv(START, actions, t);
    SettledAgrees(t);
  }

  lemma SettledAgrees(t: System)
    requires Inv(t) && Settled(t.client) && UpToDate(t.client, t.server)
    ensures Shown(t.client) == Stored(t.server)
  {
    hide ValidWire;
    var c, s := t.client, t.server;
    forall id
      ensures id in c.records <==> Live(s, id)
      ensures id in c.records ==> c.records[id].wire == s.rows[id].payload.value
    {
      if id in c.records {
        assert c.records[id].wire.id == id;
        assert Known(s, c.records[id].wire);
        assert Dead(s, id) ==> id in c.tombstones;
      }
    }
  }

  /** No lost work, as the server sees it: what the device drops from its queues was carried
      out, or was withdrawn here. */
  lemma DroppedWorkWasCarriedOut(s: System, a: Action)
    requires Inv(s) && Enabled(s, a)
    requires !a.Clear? && !a.RemoveAccount?
    ensures var t := Act(s, a);
            && (forall w :: w in s.client.pending && w !in t.client.pending ==>
                  Known(t.server, w) || (a.Delete? && a.id == w.id))
            && (forall id :: id in s.client.deleted && id !in t.client.deleted ==> Dead(t.server, id))
            && (s.client.clearID.Some? && t.client.clearID.None? ==>
                  s.client.clearID.value in t.server.clears)
  {
    hide Consistent, WellFormed, ValidWire, ReceiveStep, Uploaded, Seen, Buried, Origins;
    if a.Receive? {
      var b, p := s.flight.batch, s.flight.page;
      if ReceiveStep(s.client, b, p).1.None? {
        ReceivedShape(s.client, b, p);
        PendingIsUploadedOrKept(s, b, p);
      } else {
        ReceiveRejected(s.client, b, p);
      }
    }
  }

  lemma PendingIsUploadedOrKept(s: System, b: Batch, p: Page)
    requires Inv(s) && s.flight == Answered(b, p)
    ensures forall w :: w in s.client.pending && w.id in p.deleted ==> Known(s.server, w)
  {
    hide Consistent, WellFormed, ValidWire, Uploaded, Seen, Buried, Origins;
  }
}
