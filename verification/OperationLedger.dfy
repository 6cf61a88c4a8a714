/** computer_host.py: operation claims, the durable replay barrier, cancellation, revocation,
    restart and the bounded cache of results. */
module OperationLedger {
  import opened Wrappers

  const MAX_OPERATIONS := 4096
  const WINDOW_MS := 7200 * 1000
  const FUTURE_MS := 300 * 1000
  const MAX_RESULTS := 64
  const MAX_RESULT_BYTES := 8 * 1024 * 1024

  type Device = string

  /** An operation ID: a UUIDv7 with its epoch milliseconds, a legacy UUIDv4, or another UUID. */
  datatype Operation = Timed(id: string, timestamp: nat) | Legacy(id: string) | Other(id: string)

  datatype Key = Key(device: Device, operation: Operation)

  datatype Status = Running | Succeeded | Failed | Cancelled | Uncertain

  datatype Row = Row(hash: string, status: Status)

  /** One call of the processor; its number stands for the identity of the object. */
  datatype Work = Work(key: Key, hash: string, generation: nat, cancelled: bool, finished: bool)

  datatype Entry = Entry(key: Key, encoded: string)

  datatype Error =
    | HostStopped | Unauthorized | OperationExpired | OperationInFuture | InvalidOperationId
    | OperationHistoryFull | OperationLimit | Busy | OperationConflict | OperationInProgress
    | OperationCancelled | ProcessingFailed | ResultUnavailable | Refused(reason: string)

  /** `devices`, `highwater` and `rows` are in the database; the rest dies with the process. */
  datatype Host = Host(
    devices: set<Device>, highwater: nat, rows: map<Key, Row>,
    started: bool, generation: nat, works: map<nat, Work>, running: map<Key, nat>,
    results: seq<Entry>, resultBytes: int, free: nat, nextWork: nat)

  // ----- The ordered result cache ---------------------------------------------------------------

  function PopAll(results: seq<Entry>, gone: set<Key>): (r: seq<Entry>)
    ensures forall e :: e in r <==> e in results && e.key !in gone
    ensures |r| <= |results|
  {
    if results == [] then []
    else (if results[0].key in gone then [] else [results[0]]) + PopAll(results[1..], gone)
  }

  function Bytes(results: seq<Entry>, gone: set<Key>): nat {
    if results == [] then 0
    else (if results[0].key in gone then |results[0].encoded| else 0) + Bytes(results[1..], gone)
  }

  function Total(results: seq<Entry>): nat {
    if results == [] then 0 else |results[0].encoded| + Total(results[1..])
  }

  function Get(results: seq<Entry>, key: Key): (r: Option<string>)
    ensures r.Some? ==> Entry(key, r.value) in results
    ensures r.None? ==> forall e :: e in results ==> e.key != key
  {
    if results == [] then None
    else if results[0].key == key then Some(results[0].encoded)
    else Get(results[1..], key)
  }

  /** Assignment to a key keeps the place of a key that is there. */
  function Put(results: seq<Entry>, key: Key, encoded: string): seq<Entry> {
    if results == [] then [Entry(key, encoded)]
    else if results[0].key == key then [Entry(key, encoded)] + results[1..]
    else [results[0]] + Put(results[1..], key, encoded)
  }

  function MoveToEnd(results: seq<Entry>, key: Key, encoded: string): seq<Entry> {
    PopAll(results, {key}) + [Entry(key, encoded)]
  }

  predicate Full(results: seq<Entry>, bytes: int, size: nat) {
    results != [] && (|results| >= MAX_RESULTS || bytes + size > MAX_RESULT_BYTES)
  }

  /** How many of the oldest results make room for `size` more bytes. */
  function Evicted(results: seq<Entry>, bytes: int, size: nat): (n: nat)
    ensures n <= |results|
  {
    if Full(results, bytes, size) then 1 + Evicted(results[1..], bytes - |results[0].encoded|, size) else 0
  }

  // ----- The replay window ----------------------------------------------------------------------

  datatype Window = Window(now: int, cutoff: int, count: nat, legacy: nat)

  function RaiseHighwater(h: Host, now: int): Host {
    h.(highwater := if now > h.highwater then now else h.highwater)
  }

  predicate Old(operation: Operation, cutoff: int) {
    operation.Timed? && operation.timestamp < cutoff
  }

  function Cutoff(h: Host): int {
    h.highwater - WINDOW_MS
  }

  function Expired(h: Host): set<Key> {
    set k | k in h.rows && Old(k.operation, Cutoff(h)) && k !in h.running
  }

  function Forget(h: Host, gone: set<Key>): Host {
    h.(rows := h.rows - gone, results := PopAll(h.results, gone),
       resultBytes := h.resultBytes - Bytes(h.results, gone))
  }

  /** The barrier is committed before any claim is dropped. */
  function OpenWindow(h: Host, now: int): Host {
    var raised := RaiseHighwater(h, now);
    Forget(raised, Expired(raised))
  }

  function WindowOf(h: Host, now: int): Window {
    Window(now, Cutoff(h), |h.rows|, |set k | k in h.rows && !k.operation.Timed?|)
  }

  function CheckTime(operation: Operation, known: bool, w: Window): Option<Error> {
    match operation
    case Legacy(_) => if known then None else Some(InvalidOperationId)
    case Other(_) => Some(InvalidOperationId)
    case Timed(_, timestamp) =>
      if timestamp < w.cutoff then Some(OperationExpired)
      else if timestamp > w.now + FUTURE_MS then Some(OperationInFuture)
      else None
  }

  function CheckCapacity(w: Window): Option<Error> {
    if w.count < MAX_OPERATIONS then None
    else Some(if w.legacy >= MAX_OPERATIONS then OperationHistoryFull else OperationLimit)
  }

  // ----- Steps ----------------------------------------------------------------------------------

  /** What a request gets: the processor is started, a stored result, or an error. */
  datatype Admission = Start(work: nat) | Stored(encoded: string) | Refuse(error: Error)

  function Lookup(h: Host, key: Key, hash: string): Admission
    requires key in h.rows
  {
    var row := h.rows[key];
    if row == Row("", Cancelled) then Refuse(OperationCancelled)
    else if row.hash != hash then Refuse(OperationConflict)
    else if row.status.Running? then Refuse(OperationInProgress)
    else if row.status.Cancelled? then Refuse(OperationCancelled)
    else if row.status.Failed? then Refuse(ProcessingFailed)
    else
      match Get(h.results, key)
      case None => Refuse(ResultUnavailable)
      case Some(encoded) => Stored(encoded)
  }

  function CachedStep(h: Host, key: Key, hash: string): (Host, Admission)
    requires key in h.rows
  {
    var found := Lookup(h, key, hash);
    (if found.Stored? then h.(results := MoveToEnd(h.results, key, found.encoded)) else h, found)
  }

  function StartWork(h: Host, key: Key, hash: string): Host
    requires h.free > 0
  {
    h.(rows := h.rows[key := Row(hash, Running)],
       works := h.works[h.nextWork := Work(key, hash, h.generation, false, false)],
       running := h.running[key := h.nextWork],
       free := h.free - 1, nextWork := h.nextWork + 1)
  }

  function ClaimStep(h: Host, key: Key, hash: string, now: int, refusal: Option<Error>): (Host, Admission) {
    var w := WindowOf(h, now);
    var late := CheckTime(key.operation, key in h.rows, w);
    var full := CheckCapacity(w);
    if late.Some? then (h, Refuse(late.value))
    else if key in h.rows then CachedStep(h, key, hash)
    else if refusal.Some? then (h, Refuse(refusal.value))
    else if full.Some? then (h, Refuse(full.value))
    else if h.free == 0 then (h, Refuse(Busy))
    else (StartWork(h, key, hash), Start(h.nextWork))
  }

  /** A request up to the start of the processor. */
  function AdmitStep(h: Host, key: Key, hash: string, now: int, refusal: Option<Error>): (Host, Admission) {
    if !h.started then (h, Refuse(HostStopped))
    else if key.device !in h.devices then (h, Refuse(Unauthorized))
    else ClaimStep(OpenWindow(h, now), key, hash, now, refusal)
  }

  function SetStatus(rows: map<Key, Row>, key: Key, status: Status): map<Key, Row> {
    if key in rows then rows[key := rows[key].(status := status)] else rows
  }

  function Store(h: Host, key: Key, encoded: string): Host {
    var n := Evicted(h.results, h.resultBytes, |encoded|);
    h.(results := Put(h.results[n..], key, encoded),
       resultBytes := h.resultBytes - Total(h.results[..n]) + |encoded|)
  }

  predicate Live(h: Host, w: Work) {
    !w.cancelled && w.generation == h.generation && h.started
  }

  predicate Usable(outcome: Option<string>) {
    outcome.Some? && |outcome.value| <= MAX_RESULT_BYTES
  }

  /** What the processor's outcome does to the host; None is a failure. */
  function FinishStep(h: Host, work: nat, outcome: Option<string>, cancelled: bool): (Host, Result<string, Error>)
    requires work in h.works
  {
    var w := h.works[work].(cancelled := h.works[work].cancelled || cancelled, finished := true);
    var h1 := h.(works := h.works[work := w]);
    if !Live(h, w) then
      (if h.started && w.generation == h.generation then h1.(rows := SetStatus(h.rows, w.key, Cancelled)) else h1,
       Failure(OperationCancelled))
    else if !Usable(outcome) then
      (h1.(rows := SetStatus(h.rows, w.key, Failed)), Failure(ProcessingFailed))
    else
      (Store(h1.(rows := SetStatus(h.rows, w.key, Succeeded)), w.key, outcome.value), Success(outcome.value))
  }

  /** The end of a call: the worker's slot is free again. */
  function ReleaseStep(h: Host, work: nat): Host
    requires work in h.works
  {
    var key := h.works[work].key;
    h.(running := if key in h.running && h.running[key] == work then h.running - {key} else h.running,
       works := h.works - {work}, free := h.free + 1)
  }

  function CancelWorks(works: map<nat, Work>, chosen: set<nat>): map<nat, Work> {
    map w | w in works :: if w in chosen then works[w].(cancelled := true) else works[w]
  }

  function MarkCancelled(h: Host, key: Key): Host {
    var hash := if key in h.rows then h.rows[key].hash else "";
    h.(rows := h.rows[key := Row(hash, Cancelled)],
       works := if key in h.running then CancelWorks(h.works, {h.running[key]}) else h.works,
       results := PopAll(h.results, {key}), resultBytes := h.resultBytes - Bytes(h.results, {key}))
  }

  /** The error of a cancellation in an open window. */
  function CancelRefused(h: Host, key: Key, now: int): Option<Error> {
    var w := WindowOf(h, now);
    var late := CheckTime(key.operation, key in h.rows, w);
    if key !in h.running && late.Some? then late
    else if key !in h.rows then CheckCapacity(w)
    else None
  }

  function CancelStep(h: Host, key: Key, now: int): (Host, Option<Error>) {
    if !h.started then (h, Some(HostStopped))
    else if key.device !in h.devices then (h, Some(Unauthorized))
    else
      var current := OpenWindow(h, now);
      var refused := CancelRefused(current, key, now);
      if refused.Some? then (current, refused) else (MarkCancelled(current, key), None)
  }

  /** Opening the database: calls that were running have an unknown outcome. */
  function Reopen(h: Host): Host {
    h.(rows := map k | k in h.rows ::
         if h.rows[k].status.Running? then h.rows[k].(status := Uncertain) else h.rows[k])
  }

  function DeviceKeys(keys: set<Key>, device: Device): set<Key> {
    set k | k in keys && k.device == device
  }

  function KeysOf(results: seq<Entry>): set<Key> {
    set e | e in results :: e.key
  }

  function WorksOf(running: map<Key, nat>, keys: set<Key>): set<nat> {
    set k | k in running && k in keys :: running[k]
  }

  function RevokeStep(h: Host, device: Device): Host {
    var h1 := if h.started then h else Reopen(h);
    h1.(devices := h1.devices - {device},
        works := CancelWorks(h1.works, WorksOf(h1.running, DeviceKeys(h1.running.Keys, device))),
        rows := h1.rows - DeviceKeys(h1.rows.Keys, device),
        results := PopAll(h1.results, DeviceKeys(KeysOf(h1.results), device)),
        resultBytes := h1.resultBytes - Bytes(h1.results, DeviceKeys(KeysOf(h1.results), device)))
  }

  function PairStep(h: Host, device: Device): Host {
    if h.started then h.(devices := h.devices + {device}) else h
  }

  function StartStep(h: Host, bound: bool): Host {
    if h.started then h
    else if bound then Reopen(h).(started := true, generation := h.generation + 1)
    else Reopen(h)
  }

  function StopStep(h: Host, saved: bool): Host {
    if !h.started then h
    else
      h.(started := false, generation := h.generation + 1,
         works := CancelWorks(h.works, h.running.Values),
         rows := if saved then
                   map k | k in h.rows ::
                     if h.rows[k].status.Running? then h.rows[k].(status := Cancelled) else h.rows[k]
                 else h.rows,
         results := [], resultBytes := 0)
  }

  /** Only the database survives. */
  function CrashStep(h: Host): Host {
    h.(started := false, generation := h.generation + 1, works := map[], running := map[],
       results := [], resultBytes := 0, free := h.free + |h.works|)
  }

  /** The check under which a success reply for `key` is sent. */
  function PublishCheck(h: Host, key: Key): Option<Error> {
    if !h.started then Some(HostStopped)
    else if key.device !in h.devices then Some(Unauthorized)
    else if key !in h.rows || !h.rows[key].status.Succeeded? then Some(OperationCancelled)
    else None
  }

  // ----- The host itself --------------------------------------------------------------------------

  lemma {:induction false} PopAllMore(results: seq<Entry>, gone: set<Key>, key: Key)
    ensures PopAll(PopAll(results, gone), {key}) == PopAll(results, gone + {key})
    ensures key !in gone ==>
      Bytes(results, gone) + Bytes(PopAll(results, gone), {key}) == Bytes(results, gone + {key})
  {
    if results != [] {
      PopAllMore(results[1..], gone, key);
      var rest := PopAll(results[1..], gone);
      if results[0].key !in gone {
        assert PopAll(results, gone)[1..] == rest;
      } else {
        assert PopAll(results, gone) == rest;
      }
    }
  }

  lemma {:induction false} PopNone(results: seq<Entry>)
    ensures PopAll(results, {}) == results && Bytes(results, {}) == 0
  {
    if results != [] {
      PopNone(results[1..]);
    }
  }

  function OldAmong(keys: set<Key>, running: map<Key, nat>, cutoff: int): set<Key> {
    set k | k in keys && Old(k.operation, cutoff) && k !in running
  }

  function LegacyAmong(keys: set<Key>): set<Key> {
    set k | k in keys && !k.operation.Timed?
  }

  /** The loop over the claims when only `keys` are left to look at. */
  ghost predicate Visited(before: map<Key, Row>, running: map<Key, nat>, cutoff: int, keys: set<Key>,
                          gone: set<Key>, legacy: set<Key>, rows: map<Key, Row>)
  {
    && keys <= before.Keys && rows == before - gone
    && gone == OldAmong(before.Keys - keys, running, cutoff)
    && legacy == LegacyAmong(before.Keys - keys)
  }

  lemma VisitedNone(before: map<Key, Row>, running: map<Key, nat>, cutoff: int)
    ensures Visited(before, running, cutoff, before.Keys, {}, {}, before)
  {}

  lemma VisitedMore(before: map<Key, Row>, running: map<Key, nat>, cutoff: int, keys: set<Key>,
                    gone: set<Key>, legacy: set<Key>, rows: map<Key, Row>, key: Key)
    requires Visited(before, running, cutoff, keys, gone, legacy, rows) && key in keys
    ensures key !in gone
    ensures
      if !key.operation.Timed? then Visited(before, running, cutoff, keys - {key}, gone, legacy + {key}, rows)
      else if key.operation.timestamp < cutoff && key !in running then
        Visited(before, running, cutoff, keys - {key}, gone + {key}, legacy, rows - {key})
      else Visited(before, running, cutoff, keys - {key}, gone, legacy, rows)
  {
    var seen := before.Keys - keys;
    assert before.Keys - (keys - {key}) == seen + {key};
    assert rows - {key} == before - (gone + {key});
  }

  lemma VisitedAll(before: map<Key, Row>, running: map<Key, nat>, cutoff: int,
                   gone: set<Key>, legacy: set<Key>, rows: map<Key, Row>)
    requires Visited(before, running, cutoff, {}, gone, legacy, rows)
    ensures gone == OldAmong(before.Keys, running, cutoff) && legacy == LegacyAmong(before.Keys)
    ensures rows == before - gone
  {
    assert before.Keys - {} == before.Keys;
  }

  lemma {:induction false} TotalMore(results: seq<Entry>, n: nat)
    requires n < |results|
    ensures Total(results[..n + 1]) == Total(results[..n]) + |results[n].encoded|
  {
    if n == 0 {
      assert results[..1] == [results[0]] && results[..0] == [];
      assert Total([results[0]]) == |results[0].encoded| + Total([results[0]][1..]);
    } else {
      TotalMore(results[1..], n - 1);
      assert results[..n + 1][1..] == results[1..][..n];
      assert results[..n][1..] == results[1..][..n - 1];
    }
  }

  /** The cache after the keys in `gone` were popped one by one. */
  predicate Popped(before: seq<Entry>, bytes: int, gone: set<Key>, results: seq<Entry>, resultBytes: int) {
    results == PopAll(before, gone) && resultBytes == bytes - Bytes(before, gone)
  }

  lemma PoppedNone(before: seq<Entry>, bytes: int)
    ensures Popped(before, bytes, {}, before, bytes)
  {
    PopNone(before);
  }

  lemma PoppedMore(before: seq<Entry>, bytes: int, gone: set<Key>, results: seq<Entry>, resultBytes: int, key: Key)
    requires Popped(before, bytes, gone, results, resultBytes) && key !in gone
    ensures Popped(before, bytes, gone + {key}, PopAll(results, {key}), resultBytes - Bytes(results, {key}))
  {
    PopAllMore(before, gone, key);
  }

  lemma WindowClosed(raised: Host, gone: set<Key>, rows: map<Key, Row>, results: seq<Entry>, resultBytes: int,
                     legacy: set<Key>)
    requires gone == OldAmong(raised.rows.Keys, raised.running, Cutoff(raised))
    requires legacy == LegacyAmong(raised.rows.Keys) && rows == raised.rows - gone
    requires Popped(raised.results, raised.resultBytes, gone, results, resultBytes)
    ensures raised.(rows := rows, results := results, resultBytes := resultBytes) == Forget(raised, Expired(raised))
    ensures legacy == set k | k in rows && !k.operation.Timed?
  {
    hide PopAll, Bytes;
    assert gone == Expired(raised);
  }

  lemma TotalEmpty()
    ensures Total([]) == 0
  {}

  class ComputerHost {
    var devices: set<Device>
    var highwater: nat
    var rows: map<Key, Row>
    var started: bool
    var generation: nat
    var works: map<nat, Work>
    var running: map<Key, nat>
    var results: seq<Entry>
    var resultBytes: int
    var free: nat
    var nextWork: nat

    ghost function Abs(): Host
      reads this
    {
      Host(devices, highwater, rows, started, generation, works, running, results, resultBytes, free, nextWork)
    }

    constructor (slots: nat)
      ensures Abs() == Host({}, 0, map[], false, 0, map[], map[], [], 0, slots, 0)
    {
      devices, highwater, rows := {}, 0, map[];
      started, generation, works, running := false, 0, map[], map[];
      results, resultBytes, free, nextWork := [], 0, slots, 0;
    }

    method OperationWindow(now: int) returns (w: Window)
      modifies this
      ensures Abs() == OpenWindow(old(Abs()), now)
      ensures w == WindowOf(Abs(), now)
    {
      hide PopAll, Bytes, Popped, OldAmong, LegacyAmong;
      if now > highwater {
        highwater := now;
      }
      var cutoff := highwater - WINDOW_MS;
      ghost var raised := Abs();
      var legacy; ghost var gone;
      legacy, gone := DropExpired(cutoff);
      WindowClosed(raised, gone, rows, results, resultBytes, legacy);
      w := Window(now, cutoff, |rows|, |legacy|);
    }

    method DropResult(key: Key)
      modifies this`results, this`resultBytes
      ensures results == PopAll(old(results), {key})
      ensures resultBytes == old(resultBytes) - Bytes(old(results), {key})
    {
      resultBytes := resultBytes - Bytes(results, {key});
      results := PopAll(results, {key});
    }

    method DropExpired(cutoff: int) returns (legacy: set<Key>, ghost gone: set<Key>)
      modifies this`rows, this`results, this`resultBytes
      ensures gone == OldAmong(old(rows).Keys, running, cutoff) && legacy == LegacyAmong(old(rows).Keys)
      ensures rows == old(rows) - gone
      ensures Popped(old(results), old(resultBytes), gone, results, resultBytes)
    {
      hide PopAll, Bytes, Popped, Visited;
      var keys := rows.Keys;
      gone, legacy := {}, {};
      PoppedNone(results, resultBytes);
      VisitedNone(rows, running, cutoff);
      while keys != {}
        invariant Visited(old(rows), running, cutoff, keys, gone, legacy, rows)
        invariant Popped(old(results), old(resultBytes), gone, results, resultBytes)
        decreases keys
      {
        var key :| key in keys;
        VisitedMore(old(rows), running, cutoff, keys, gone, legacy, rows, key);
        if !key.operation.Timed? {
          legacy := legacy + {key};
        } else if key.operation.timestamp < cutoff && key !in running {
          PoppedMore(old(results), old(resultBytes), gone, results, resultBytes, key);
          DropResult(key);
          rows := rows - {key};
          gone := gone + {key};
          assert Popped(old(results), old(resultBytes), gone, results, resultBytes);
        }
        keys := keys - {key};
      }
      VisitedAll(old(rows), running, cutoff, gone, legacy, rows);
    }

    method Cached(key: Key, hash: string) returns (r: Admission)
      requires key in rows
      modifies this
      ensures (Abs(), r) == CachedStep(old(Abs()), key, hash)
    {
      r := Lookup(Host(devices, highwater, rows, started, generation, works, running, results, resultBytes,
                       free, nextWork), key, hash);
      if r.Stored? {
        results := MoveToEnd(results, key, r.encoded);
      }
    }

    /** A request up to the start of the processor, all under the lock. */
    method Admit(key: Key, hash: string, now: int, refusal: Option<Error>) returns (r: Admission)
      modifies this
      ensures (Abs(), r) == AdmitStep(old(Abs()), key, hash, now, refusal)
    {
      hide OpenWindow;
      if !started {
        return Refuse(HostStopped);
      }
      if key.device !in devices {
        return Refuse(Unauthorized);
      }
      var w := OperationWindow(now);
      var late := CheckTime(key.operation, key in rows, w);
      if late.Some? {
        return Refuse(late.value);
      }
      if key in rows {
        r := Cached(key, hash);
        return;
      }
      if refusal.Some? {
        return Refuse(refusal.value);
      }
      var full := CheckCapacity(w);
      if full.Some? {
        return Refuse(full.value);
      }
      if free == 0 {
        return Refuse(Busy);
      }
      free := free - 1;
      rows := rows[key := Row(hash, Running)];
      works := works[nextWork := Work(key, hash, generation, false, false)];
      running := running[key := nextWork];
      nextWork := nextWork + 1;
      return Start(nextWork - 1);
    }

    /** After the processor: record the outcome, make room and store the result. */
    method Finish(work: nat, outcome: Option<string>, cancelled: bool) returns (r: Result<string, Error>)
      requires work in works
      modifies this
      ensures (Abs(), r) == FinishStep(old(Abs()), work, outcome, cancelled)
    {
      var w := works[work].(cancelled := works[work].cancelled || cancelled, finished := true);
      works := works[work := w];
      if w.cancelled || w.generation != generation || !started {
        if started && w.generation == generation {
          rows := SetStatus(rows, w.key, Cancelled);
        }
        return Failure(OperationCancelled);
      }
      if outcome.None? || |outcome.value| > MAX_RESULT_BYTES {
        rows := SetStatus(rows, w.key, Failed);
        return Failure(ProcessingFailed);
      }
      rows := SetStatus(rows, w.key, Succeeded);
      Remember(w.key, outcome.value);
      return Success(outcome.value);
    }

    method Remember(key: Key, encoded: string)
      modifies this
      ensures Abs() == Store(old(Abs()), key, encoded)
    {
      hide Total, Put;
      ghost var n: nat := 0;
      ghost var before, bytes := results, resultBytes;
      assert before[..0] == [];
      TotalEmpty();
      while results != [] && (|results| >= MAX_RESULTS || resultBytes + |encoded| > MAX_RESULT_BYTES)
        modifies this`results, this`resultBytes
        invariant n <= |before| && results == before[n..]
        invariant resultBytes == bytes - Total(before[..n])
        invariant n + Evicted(results, resultBytes, |encoded|) == Evicted(before, bytes, |encoded|)
        decreases |results|
      {
        TotalMore(before, n);
        resultBytes := resultBytes - |results[0].encoded|;
        results := results[1..];
        n := n + 1;
      }
      results := Put(results, key, encoded);
      resultBytes := resultBytes + |encoded|;
    }

    method Release(work: nat)
      requires work in works
      modifies this
      ensures Abs() == ReleaseStep(old(Abs()), work)
    {
      var key := works[work].key;
      if key in running && running[key] == work {
        running := running - {key};
      }
      works := works - {work};
      free := free + 1;
    }

    method Cancel(key: Key, now: int) returns (r: Option<Error>)
      modifies this
      ensures (Abs(), r) == CancelStep(old(Abs()), key, now)
    {
      hide OpenWindow, PopAll, Bytes, CancelWorks;
      if !started {
        return Some(HostStopped);
      }
      if key.device !in devices {
        return Some(Unauthorized);
      }
      var w := OperationWindow(now);
      ghost var before := Abs();
      var known := key in rows;
      if key !in running {
        var late := CheckTime(key.operation, known, w);
        if late.Some? {
          return late;
        }
      }
      if !known {
        var full := CheckCapacity(w);
        if full.Some? {
          return full;
        }
        rows := rows[key := Row("", Cancelled)];
      }
      if key in running {
        works := CancelWorks(works, {running[key]});
      }
      rows := rows[key := rows[key].(status := Cancelled)];
      DropResult(key);
      assert rows == MarkCancelled(before, key).rows;
      return None;
    }

    method OpenState()
      modifies this`rows
      ensures Abs() == Reopen(old(Abs()))
    {
      rows := map k | k in rows ::
        if rows[k].status.Running? then rows[k].(status := Uncertain) else rows[k];
    }

    method RevokeDevice(device: Device)
      modifies this
      ensures Abs() == RevokeStep(old(Abs()), device)
    {
      hide PopAll, Bytes, CancelWorks, WorksOf;
      if !started {
        OpenState();
      }
      ghost var before := Abs();
      works := CancelWorks(works, WorksOf(running, DeviceKeys(running.Keys, device)));
      devices := devices - {device};
      rows := rows - DeviceKeys(rows.Keys, device);
      DropResults(device);
    }

    method DropResults(device: Device)
      modifies this`results, this`resultBytes
      ensures var gone := DeviceKeys(KeysOf(old(results)), device);
              && results == PopAll(old(results), gone)
              && resultBytes == old(resultBytes) - Bytes(old(results), gone)
    {
      var keys := DeviceKeys(KeysOf(results), device);
      DropKeys(keys);
    }

    method DropKeys(keys: set<Key>)
      modifies this`results, this`resultBytes
      ensures Popped(old(results), old(resultBytes), keys, results, resultBytes)
    {
      hide Popped, PopAll, Bytes;
      ghost var gone: set<Key> := {};
      var todo := keys;
      PoppedNone(results, resultBytes);
      while todo != {}
        invariant todo <= keys && gone == keys - todo
        invariant Popped(old(results), old(resultBytes), gone, results, resultBytes)
        decreases todo
      {
        var key :| key in todo;
        PoppedMore(old(results), old(resultBytes), gone, results, resultBytes, key);
        DropResult(key);
        gone := gone + {key};
        todo := todo - {key};
      }
      assert gone == keys;
    }

    method Pair(device: Device)
      modifies this`devices
      ensures Abs() == PairStep(old(Abs()), device)
    {
      if started {
        devices := devices + {device};
      }
    }

    /** `bound` says whether the listener could be opened. */
    method StartHost(bound: bool)
      modifies this
      ensures Abs() == StartStep(old(Abs()), bound)
    {
      if !started {
        OpenState();
        if bound {
          started := true;
          generation := generation + 1;
        }
      }
    }

    /** `saved` says whether the shutdown write reached the database. */
    method Stop(saved: bool)
      modifies this
      ensures Abs() == StopStep(old(Abs()), saved)
    {
      if !started {
        return;
      }
      started := false;
      generation := generation + 1;
      works := CancelWorks(works, running.Values);
      if saved {
        rows := map k | k in rows ::
          if rows[k].status.Running? then rows[k].(status := Cancelled) else rows[k];
      }
      results := [];
      resultBytes := 0;
    }

    /** Whether a success reply for `key` may be sent now. */
    method Publish(key: Key) returns (error: Option<Error>)
      ensures error == PublishCheck(Abs(), key)
    {
      if !started {
        return Some(HostStopped);
      }
      if key.device !in devices {
        return Some(Unauthorized);
      }
      if key !in rows || !rows[key].status.Succeeded? {
        return Some(OperationCancelled);
      }
      return None;
    }
  }
}
