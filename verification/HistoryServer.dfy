/** server/cloud/service/history.py: the account's side of one synchronization request. */
module HistoryServer {
  import opened Wrappers
  import opened AccountHistory

  /** No payload is a permanent tombstone. */
  datatype Row = Row(revision: nat, payload: Option<Wire>)

  datatype Server = Server(revision: nat, rows: map<Id, Row>, clears: set<Uuid>)

  datatype Refusal = Invalid | Contradiction | Full

  const NEW_ACCOUNT := Server(0, map[], {})

  predicate Live(s: Server, id: Id) {
    id in s.rows && s.rows[id].payload.Some?
  }

  ghost predicate WellFormed(s: Server) {
    && (forall id :: id in s.rows ==> 0 < s.rows[id].revision <= s.revision)
    && (forall id :: Live(s, id) ==> s.rows[id].payload.value.id == id && ValidWire(s.rows[id].payload.value))
    && (forall id, other :: id in s.rows && other in s.rows && id != other ==>
          s.rows[id].revision != s.rows[other].revision)
  }

  function Put(s: Server, id: Id, payload: Option<Wire>): Server {
    s.(revision := s.revision + 1, rows := s.rows[id := Row(s.revision + 1, payload)])
  }

  function UpsertOne(s: Server, w: Wire): Server {
    if w.id in s.rows then s else Put(s, w.id, Some(w))
  }

  function Upsert(s: Server, ws: seq<Wire>): Server
    decreases ws
  {
    if ws == [] then s else Upsert(UpsertOne(s, ws[0]), ws[1..])
  }

  function EraseOne(s: Server, id: Id): Server {
    if id in s.rows && s.rows[id].payload.None? then s else Put(s, id, None)
  }

  function Erase(s: Server, ids: seq<Id>): Server
    decreases ids
  {
    if ids == [] then s else Erase(EraseOne(s, ids[0]), ids[1..])
  }

  ghost predicate Acceptable(s: Server, b: Batch) {
    && b.cursor <= s.revision
    && |b.upserts| <= MAX_CHANGES && |b.deletes| <= MAX_CHANGES
    && (forall w :: w in b.upserts ==> ValidWire(w))
    && (forall id :: id in b.deletes ==> ValidId(id))
    && DistinctIds(b.upserts) && Distinct(b.deletes)
    && (forall w :: w in b.upserts ==> w.id !in b.deletes)
    && (b.clearID.Some? ==> b.upserts == [] && b.deletes == [])
  }

  /** The live ids in the order a clear visits them. */
  ghost predicate Lists(order: seq<Id>, s: Server) {
    Distinct(order) && forall id :: id in order <==> Live(s, id)
  }

  /** One atomic request. `order` is used by a clear; `full` stands for the storage bounds. */
  ghost function Synchronize(s: Server, b: Batch, order: seq<Id>, full: bool): Result<Server, Refusal> {
    if !Acceptable(s, b) then Failure(Invalid)
    else if b.clearID.Some? then
      if b.clearID.value in s.clears then Success(s)
      else if full then Failure(Full)
      else Success(Erase(s.(clears := s.clears + {b.clearID.value}), order))
    else if exists w :: w in b.upserts && Live(s, w.id) && s.rows[w.id].payload.value != w then
      Failure(Contradiction)
    else if full then Failure(Full)
    else Success(Erase(Upsert(s, b.upserts), b.deletes))
  }

  // ----- Changes only move rows forward -----------------------------------------------------------

  ghost predicate Forward(s: Server, s': Server) {
    && s.revision <= s'.revision && s.clears <= s'.clears
    && (forall id :: id in s.rows ==>
          && id in s'.rows
          && (s'.rows[id] == s.rows[id] ||
              (s'.rows[id].payload.None? && s'.rows[id].revision > s.revision)))
    && (forall id :: id in s'.rows && id !in s.rows ==> s'.rows[id].revision > s.revision)
  }

  lemma ForwardTransitive(a: Server, b: Server, c: Server)
    requires Forward(a, b) && Forward(b, c)
    ensures Forward(a, c)
  {}

  lemma PutForward(s: Server, id: Id, payload: Option<Wire>)
    requires WellFormed(s) && (payload.Some? ==> id !in s.rows && payload.value.id == id && ValidWire(payload.value))
    ensures WellFormed(Put(s, id, payload)) && Forward(s, Put(s, id, payload))
  {
    hide ValidWire;
  }

  /** Inserting `ws` creates rows for them alone and leaves every existing row as it is. */
  ghost predicate Upserted(s: Server, s': Server, ws: seq<Wire>) {
    && WellFormed(s') && Forward(s, s') && s'.clears == s.clears
    && (forall w :: w in ws ==> w.id in s'.rows)
    && (forall id :: id in s.rows ==> s'.rows[id] == s.rows[id])
    && (forall id :: id in s'.rows && id !in s.rows ==>
          s'.rows[id].payload.Some? && s'.rows[id].payload.value in ws)
  }

  lemma UpsertOneForward(s: Server, w: Wire)
    requires WellFormed(s) && ValidWire(w)
    ensures Upserted(s, UpsertOne(s, w), [w])
  {
    hide ValidWire, WellFormed;
    if w.id !in s.rows {
      PutForward(s, w.id, Some(w));
    }
  }

  lemma UpsertedTwice(s: Server, s1: Server, s2: Server, w: Wire, ws: seq<Wire>)
    requires Upserted(s, s1, [w]) && Upserted(s1, s2, ws)
    ensures Upserted(s, s2, [w] + ws)
  {
    hide WellFormed;
  }

  lemma {:induction false} UpsertForward(s: Server, ws: seq<Wire>)
    requires WellFormed(s) && forall w :: w in ws ==> ValidWire(w)
    ensures Upserted(s, Upsert(s, ws), ws)
    decreases ws
  {
    if ws != [] {
      hide ValidWire, WellFormed, UpsertOne;
      var s1 := UpsertOne(s, ws[0]);
      UpsertOneForward(s, ws[0]);
      UpsertForward(s1, ws[1..]);
      UpsertedTwice(s, s1, Upsert(s1, ws[1..]), ws[0], ws[1..]);
      assert ws == [ws[0]] + ws[1..];
    }
  }

  /** After erasing, the ids are tombstones, nothing else changed and nothing came alive. */
  ghost predicate Erased(s: Server, s': Server, ids: seq<Id>) {
    && WellFormed(s') && Forward(s, s') && s'.clears == s.clears
    && (forall id :: id in ids ==> Dead(s', id))
    && (forall id :: id in s.rows && id !in ids ==> s'.rows[id] == s.rows[id])
    && (forall id :: Live(s', id) ==> Live(s, id))
  }

  lemma EraseOneForward(s: Server, id: Id)
    requires WellFormed(s)
    ensures Erased(s, EraseOne(s, id), [id])
  {
    hide ValidWire, WellFormed;
    if !(id in s.rows && s.rows[id].payload.None?) {
      PutForward(s, id, None);
    }
  }

  lemma ErasedTwice(s: Server, s1: Server, s2: Server, id: Id, ids: seq<Id>)
    requires Erased(s, s1, [id]) && Erased(s1, s2, ids)
    ensures Erased(s, s2, [id] + ids)
  {
    hide WellFormed;
    forall other | other in s.rows && other !in [id] + ids
      ensures s2.rows[other] == s.rows[other]
    {
      assert other !in [id] && other !in ids;
    }
  }

  lemma {:induction false} EraseForward(s: Server, ids: seq<Id>)
    requires WellFormed(s)
    ensures Erased(s, Erase(s, ids), ids)
    decreases ids
  {
    if ids != [] {
      hide ValidWire, WellFormed, EraseOne;
      var s1 := EraseOne(s, ids[0]);
      EraseOneForward(s, ids[0]);
      EraseForward(s1, ids[1..]);
      ErasedTwice(s, s1, Erase(s1, ids[1..]), ids[0], ids[1..]);
      assert ids == [ids[0]] + ids[1..];
    }
  }

  /** The server holds `w` or has a tombstone in its place. */
  ghost predicate Known(s: Server, w: Wire) {
    w.id in s.rows && (s.rows[w.id].payload.Some? ==> s.rows[w.id].payload.value == w)
  }

  ghost predicate Dead(s: Server, id: Id) {
    id in s.rows && s.rows[id].payload.None?
  }

  lemma KnownForward(s: Server, s': Server)
    requires Forward(s, s')
    ensures forall w :: Known(s, w) ==> Known(s', w)
    ensures forall id :: Dead(s, id) ==> Dead(s', id) && s'.rows[id].payload.None?
  {}

  /** An accepted request is carried out as a whole. */
  lemma SynchronizeForward(s: Server, b: Batch, order: seq<Id>, full: bool)
    requires WellFormed(s) && Lists(order, s) && Synchronize(s, b, order, full).Success?
    ensures var s' := Synchronize(s, b, order, full).value;
            && WellFormed(s') && Forward(s, s')
            && (forall w :: w in b.upserts ==> Known(s', w))
            && (forall id :: id in b.deletes ==> Dead(s', id))
            && (b.clearID.None? ==> s'.clears == s.clears)
            && (b.clearID.Some? ==> s'.clears == s.clears + {b.clearID.value})
            && (b.clearID.Some? && b.clearID.value !in s.clears ==> forall id :: !Live(s', id))
            && (forall id :: Live(s', id) && id !in s.rows ==> s'.rows[id].payload.value in b.upserts)
  {
    hide ValidWire, WellFormed;
    if b.clearID.Some? {
      if b.clearID.value !in s.clears {
        var s1 := s.(clears := s.clears + {b.clearID.value});
        SameRows(s, s1);
        EraseForward(s1, order);
        ForwardTransitive(s, s1, Erase(s1, order));
        forall id
          ensures !Live(Erase(s1, order), id)
        {
          assert Live(s1, id) ==> Live(s, id);
          assert id in order ==> Dead(Erase(s1, order), id);
        }
      } else {
        assert s.clears + {b.clearID.value} == s.clears;
      }
    } else {
      UpsertForward(s, b.upserts);
      var s1 := Upsert(s, b.upserts);
      EraseForward(s1, b.deletes);
      ForwardTransitive(s, s1, Erase(s1, b.deletes));
      UpsertsAreKnown(s, b);
    }
  }

  lemma SameRows(s: Server, s1: Server)
    requires WellFormed(s) && s1 == s.(clears := s1.clears) && s.clears <= s1.clears
    ensures WellFormed(s1) && Forward(s, s1)
  {}

  lemma UpsertsAreKnown(s: Server, b: Batch)
    requires WellFormed(s) && forall w :: w in b.upserts ==> ValidWire(w)
    requires DistinctIds(b.upserts)
    requires !exists w :: w in b.upserts && Live(s, w.id) && s.rows[w.id].payload.value != w
    ensures forall w :: w in b.upserts ==> Known(Erase(Upsert(s, b.upserts), b.deletes), w)
  {
    hide ValidWire;
    var s1 := Upsert(s, b.upserts);
    UpsertForward(s, b.upserts);
    forall w | w in b.upserts
      ensures Known(s1, w)
    {
      if w.id !in s.rows {
        var other := s1.rows[w.id].payload.value;
        assert other in b.upserts && other.id == w.id;
        var i :| 0 <= i < |b.upserts| && b.upserts[i] == w;
        var j :| 0 <= j < |b.upserts| && b.upserts[j] == other;
        assert i == j;
      }
    }
    EraseForward(s1, b.deletes);
    KnownForward(s1, Erase(s1, b.deletes));
  }

  // ----- Pages ------------------------------------------------------------------------------------

  /** The rows behind `cursor`, oldest revision first. */
  ghost predicate Behind(order: seq<Id>, s: Server, cursor: nat) {
    && (forall id :: id in order <==> id in s.rows && s.rows[id].revision > cursor)
    && (forall i, j :: 0 <= i < j < |order| ==> s.rows[order[i]].revision < s.rows[order[j]].revision)
  }

  function Payloads(s: Server, ids: seq<Id>): (r: seq<Wire>)
    requires forall id :: id in ids ==> id in s.rows
    ensures |r| <= |ids|
    ensures forall id :: id in ids && Live(s, id) ==> s.rows[id].payload.value in r
    ensures forall w :: w in r ==> exists id :: id in ids && Live(s, id) && s.rows[id].payload.value == w
  {
    if ids == [] then []
    else
      var rest := Payloads(s, ids[1..]);
      if s.rows[ids[0]].payload.Some? then
        assert Live(s, ids[0]);
        [s.rows[ids[0]].payload.value] + rest
      else rest
  }

  function Tombstones(s: Server, ids: seq<Id>): (r: seq<Id>)
    requires forall id :: id in ids ==> id in s.rows
    ensures forall id :: id in r <==> id in ids && s.rows[id].payload.None?
    ensures |r| + |Payloads(s, ids)| == |ids|
  {
    if ids == [] then []
    else
      var rest := Tombstones(s, ids[1..]);
      if s.rows[ids[0]].payload.None? then [ids[0]] + rest else rest
  }

  /** The first `n` rows behind the cursor; `n` falls short of twenty where the page would
      become too large, but one row always fits. */
  ghost predicate Fits(n: nat, order: seq<Id>) {
    n <= |order| && n <= MAX_PAGE && (order != [] ==> n > 0)
  }

  ghost function PageAt(s: Server, cursor: nat, order: seq<Id>, n: nat): Page
    requires Behind(order, s, cursor) && Fits(n, order)
  {
    if n == 0 then Page(cursor, false, [], [])
    else Page(s.rows[order[n - 1]].revision, n < |order|, Payloads(s, order[..n]), Tombstones(s, order[..n]))
  }

  /** What a page says about the rows its cursor moves over. */
  ghost predicate Faithful(p: Page, s: Server, cursor: nat) {
    && cursor <= p.cursor
    && (forall id :: Live(s, id) && cursor < s.rows[id].revision <= p.cursor ==>
          s.rows[id].payload.value in p.entries)
    && (forall id :: Dead(s, id) && cursor < s.rows[id].revision <= p.cursor ==> id in p.deleted)
    && (forall w :: w in p.entries ==> Known(s, w) && ValidWire(w))
    && (forall id :: id in p.deleted ==> Dead(s, id))
  }

  lemma TakenRows(s: Server, cursor: nat, order: seq<Id>, n: nat, id: Id)
    requires Behind(order, s, cursor) && 0 < n <= |order|
    requires id in s.rows && cursor < s.rows[id].revision
    ensures order[n - 1] in order && s.rows[order[n - 1]].revision > cursor
    ensures s.rows[id].revision <= s.rows[order[n - 1]].revision ==> id in order[..n]
    ensures n == |order| ==> s.rows[id].revision <= s.rows[order[n - 1]].revision
  {
    var i :| 0 <= i < |order| && order[i] == id;
    if i < n {
      assert order[..n][i] == id;
    }
  }

  lemma LivePayload(s: Server, id: Id)
    requires WellFormed(s) && Live(s, id)
    ensures Known(s, s.rows[id].payload.value) && ValidWire(s.rows[id].payload.value)
  {
    hide ValidWire;
  }

  lemma TakenIsFaithful(s: Server, cursor: nat, taken: seq<Id>, end: nat, hasMore: bool)
    requires WellFormed(s) && cursor <= end
    requires forall id :: id in taken ==> id in s.rows
    requires forall id :: id in s.rows && cursor < s.rows[id].revision <= end ==> id in taken
    ensures Faithful(Page(end, hasMore, Payloads(s, taken), Tombstones(s, taken)), s, cursor)
  {
    hide ValidWire, WellFormed, Payloads, Tombstones;
    forall w | w in Payloads(s, taken)
      ensures Known(s, w) && ValidWire(w)
    {
      var id :| id in taken && Live(s, id) && s.rows[id].payload.value == w;
      LivePayload(s, id);
    }
  }

  /** A page tells everything about the rows its cursor moves over, and nothing untrue. */
  lemma PageIsFaithful(s: Server, cursor: nat, order: seq<Id>, n: nat)
    requires WellFormed(s) && cursor <= s.revision && Behind(order, s, cursor) && Fits(n, order)
    ensures var p := PageAt(s, cursor, order, n);
            && Faithful(p, s, cursor) && p.cursor <= s.revision
            && |p.entries| + |p.deleted| <= MAX_PAGE
            && (p.hasMore || p.entries != [] || p.deleted != [] ==> p.cursor > cursor)
            && (!p.hasMore ==> forall id :: id in s.rows ==> s.rows[id].revision <= p.cursor)
  {
    hide ValidWire, Behind, Payloads, Tombstones, Faithful, WellFormed;
    if n == 0 {
      NothingBehind(s, cursor, order);
      TakenIsFaithful(s, cursor, [], cursor, false);
      EmptyPage(s);
    } else {
      OrderedRow(s, cursor, order, n - 1);
      var end := s.rows[order[n - 1]].revision;
      RevisionBound(s, order[n - 1]);
      forall id | id in s.rows && cursor < s.rows[id].revision
        ensures s.rows[id].revision <= end ==> id in order[..n]
        ensures n == |order| ==> s.rows[id].revision <= end
      {
        TakenRows(s, cursor, order, n, id);
      }
      forall id | id in order[..n]
        ensures id in s.rows
      {
        var i :| 0 <= i < n && order[i] == id;
        OrderedRow(s, cursor, order, i);
      }
      TakenIsFaithful(s, cursor, order[..n], end, n < |order|);
    }
  }

  lemma EmptyPage(s: Server)
    ensures Payloads(s, []) == [] && Tombstones(s, []) == []
  {}

  lemma RevisionBound(s: Server, id: Id)
    requires WellFormed(s) && id in s.rows
    ensures s.rows[id].revision <= s.revision
  {}

  lemma OrderedRow(s: Server, cursor: nat, order: seq<Id>, i: nat)
    requires Behind(order, s, cursor) && i < |order|
    ensures order[i] in s.rows && cursor < s.rows[order[i]].revision
  {}

  lemma NothingBehind(s: Server, cursor: nat, order: seq<Id>)
    requires Behind(order, s, cursor) && order == []
    ensures forall id :: id in s.rows ==> s.rows[id].revision <= cursor
  {}
}
