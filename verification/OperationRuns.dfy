/** computer_host.py over whole runs: at most one start per operation, cancellation and
    revocation that hold, and a cache that answers with the one stored result. */
module OperationRuns {
  import opened Wrappers
  import opened OperationLedger

  /** A success reply: what was asked and what is answered. */
  datatype Reply = Reply(key: Key, hash: string, encoded: string)

  /** What happened so far. `offered` replies wait for publication; `sent` were published. */
  datatype Log = Log(paired: set<Device>, revoked: set<Device>, cancelled: set<Key>,
                     starts: map<Key, nat>, outcomes: map<Key, Reply>, offered: set<Reply>, sent: seq<Reply>)

  datatype System = System(host: Host, log: Log)

  /** A crash is an event of its own, so it may fall between any two commits: `Barrier` and
      `Expiry` are the two commits of the replay window on their own. */
  datatype Event =
    | Admit(key: Key, hash: string, now: int, refusal: Option<Error>)
    | Finish(work: nat, outcome: Option<string>, cancelled: bool)
    | Release(work: nat)
    | Cancel(key: Key, now: int)
    | Revoke(device: Device)
    | Pair(device: Device)
    | Publish(reply: Reply)
    | StartHost(bound: bool)
    | Stop(saved: bool)
    | Barrier(now: int)
    | Expiry
    | Crash

  /** Every call finishes at most once, device IDs are new, and only offered replies are sent. */
  ghost predicate Possible(s: System, e: Event) {
    match e
    case Finish(work, _, _) => work in s.host.works && !s.host.works[work].finished
    case Release(work) => work in s.host.works
    case Pair(device) => device !in s.log.paired && device !in s.log.revoked
    case Publish(reply) => reply in s.log.offered
    case _ => true
  }

  function Count(starts: map<Key, nat>, key: Key): nat {
    if key in starts then starts[key] else 0
  }

  function Admitted(s: System, key: Key, hash: string, step: (Host, Admission)): System {
    match step.1
    case Start(_) => System(step.0, s.log.(starts := s.log.starts[key := Count(s.log.starts, key) + 1]))
    case Stored(encoded) => System(step.0, s.log.(offered := s.log.offered + {Reply(key, hash, encoded)}))
    case Refuse(_) => System(step.0, s.log)
  }

  function Finished(s: System, w: Work, step: (Host, Result<string, Error>)): System {
    if step.1.Failure? then System(step.0, s.log)
    else
      var reply := Reply(w.key, w.hash, step.1.value);
      System(step.0, s.log.(outcomes := s.log.outcomes[w.key := reply], offered := s.log.offered + {reply}))
  }

  ghost function Next(s: System, e: Event): System
    requires Possible(s, e)
  {
    var h, log := s.host, s.log;
    match e
    case Admit(key, hash, now, refusal) => Admitted(s, key, hash, AdmitStep(h, key, hash, now, refusal))
    case Finish(work, outcome, cancelled) => Finished(s, h.works[work], FinishStep(h, work, outcome, cancelled))
    case Release(work) => s.(host := ReleaseStep(h, work))
    case Cancel(key, now) =>
      var step := CancelStep(h, key, now);
      System(step.0, if step.1.None? then log.(cancelled := log.cancelled + {key}) else log)
    case Revoke(device) => System(RevokeStep(h, device), log.(revoked := log.revoked + {device}))
    case Pair(device) => System(PairStep(h, device), log.(paired := log.paired + {device}))
    case Publish(reply) =>
      if PublishCheck(h, reply.key).None? then s.(log := log.(sent := log.sent + [reply])) else s
    case StartHost(bound) => s.(host := StartStep(h, bound))
    case Stop(saved) => s.(host := StopStep(h, saved))
    case Barrier(now) => s.(host := if h.started then RaiseHighwater(h, now) else h)
    case Expiry => s.(host := if h.started then Forget(h, Expired(h)) else h)
    case Crash => s.(host := CrashStep(h))
  }

  ghost predicate Run(s: System, events: seq<Event>, end: System)
    decreases events
  {
    if events == [] then s == end
    else Possible(s, events[0]) && Run(Next(s, events[0]), events[1..], end)
  }

  function Initial(slots: nat): System {
    System(Host({}, 0, map[], false, 0, map[], map[], [], 0, slots, 0),
           Log({}, {}, {}, map[], map[], {}, []))
  }

  // ----- What every step keeps --------------------------------------------------------------------

  predicate Distinct(results: seq<Entry>) {
    results == [] || ((forall e :: e in results[1..] ==> e.key != results[0].key) && Distinct(results[1..]))
  }

  /** The cache counts its bytes, stays within its limits and only holds succeeded claims. */
  ghost predicate CacheOk(h: Host) {
    && Distinct(h.results) && h.resultBytes == Total(h.results)
    && |h.results| <= MAX_RESULTS && h.resultBytes <= MAX_RESULT_BYTES
    && (forall e :: e in h.results ==> e.key in h.rows && h.rows[e.key].status.Succeeded?)
    && (!h.started ==> h.results == [])
  }

  /** The table of running calls is exact, and a call that may still store its outcome owns
      a running claim. */
  ghost predicate WorksOk(h: Host) {
    && (forall k :: k in h.running ==> h.running[k] in h.works && h.works[h.running[k]].key == k)
    && (forall w :: w in h.works ==>
          && w < h.nextWork && h.works[w].generation <= h.generation
          && h.works[w].key in h.running && h.running[h.works[w].key] == w
          && (!h.works[w].finished && Live(h, h.works[w]) ==>
                h.works[w].key in h.rows && h.rows[h.works[w].key] == Row(h.works[w].hash, Running)))
  }

  ghost predicate RowsOk(h: Host) {
    forall k :: k in h.rows ==> k.device in h.devices
  }

  /** No claim for `key` can be made any more. */
  ghost predicate Spent(h: Host, key: Key) {
    key.device !in h.devices || key in h.rows || Old(key.operation, Cutoff(h))
  }

  ghost predicate CancelHolds(h: Host, key: Key) {
    || key.device !in h.devices
    || (key in h.rows && h.rows[key].status.Cancelled?)
    || (key !in h.rows && Old(key.operation, Cutoff(h)))
  }

  ghost predicate Claimed(h: Host, log: Log) {
    && h.devices <= log.paired && h.devices !! log.revoked
    && (forall k :: k in log.starts ==> k.device in log.paired && Spent(h, k) && log.starts[k] == 1)
    && (forall k :: k in log.cancelled ==> k.device in log.paired && CancelHolds(h, k))
    && (forall w :: w in h.works ==> h.works[w].key in log.starts)
  }

  ghost predicate OutcomesOk(h: Host, log: Log) {
    && (forall k :: k in log.outcomes ==> k in log.starts && log.outcomes[k].key == k)
    && (forall w :: w in h.works && !h.works[w].finished ==> h.works[w].key !in log.outcomes)
    && (forall k :: k in h.rows && h.rows[k].status.Succeeded? ==>
          k in log.outcomes && log.outcomes[k].hash == h.rows[k].hash)
    && (forall e :: e in h.results ==> e.key in log.outcomes && log.outcomes[e.key].encoded == e.encoded)
    && (forall r :: r in log.offered ==> r.key in log.outcomes && log.outcomes[r.key] == r)
    && (forall r :: r in log.sent ==> r in log.offered)
  }

  ghost predicate Inv(s: System) {
    CacheOk(s.host) && WorksOk(s.host) && RowsOk(s.host) && Claimed(s.host, s.log) && OutcomesOk(s.host, s.log)
  }

  // ----- The cache --------------------------------------------------------------------------------

  lemma {:induction false} PopKeeps(results: seq<Entry>, gone: set<Key>)
    ensures Total(PopAll(results, gone)) + Bytes(results, gone) == Total(results)
    ensures Distinct(results) ==> Distinct(PopAll(results, gone))
  {
    if results != [] {
      PopKeeps(results[1..], gone);
      var rest := PopAll(results[1..], gone);
      if results[0].key in gone {
        assert PopAll(results, gone) == rest;
      } else {
        assert PopAll(results, gone)[1..] == rest;
      }
    }
  }

  lemma {:induction false} AppendKeeps(results: seq<Entry>, e: Entry)
    requires Distinct(results) && forall x :: x in results ==> x.key != e.key
    ensures Distinct(results + [e]) && Total(results + [e]) == Total(results) + |e.encoded|
    ensures Put(results, e.key, e.encoded) == results + [e]
  {
    if results == [] {
      assert [e][1..] == [];
      assert Total([e][1..]) == 0;
    } else {
      AppendKeeps(results[1..], e);
      assert (results + [e])[1..] == results[1..] + [e];
    }
  }

  lemma {:induction false} DropKeeps(results: seq<Entry>, n: nat)
    requires n <= |results|
    ensures Distinct(results) ==> Distinct(results[n..])
    ensures Total(results[..n]) + Total(results[n..]) == Total(results)
  {
    if n == 0 {
      assert results[0..] == results && results[..0] == [];
    } else {
      DropKeeps(results[1..], n - 1);
      assert results[1..][n - 1..] == results[n..];
      assert results[..n][1..] == results[1..][..n - 1];
    }
  }

  /** Eviction stops as soon as there is room, or nothing is left. */
  lemma {:induction false} EvictionMakesRoom(results: seq<Entry>, bytes: int, size: nat)
    ensures var n := Evicted(results, bytes, size);
            !Full(results[n..], bytes - Total(results[..n]), size)
    decreases |results|
  {
    var n := Evicted(results, bytes, size);
    if n > 0 {
      EvictionMakesRoom(results[1..], bytes - |results[0].encoded|, size);
      assert results[1..][n - 1..] == results[n..];
      assert results[..n][1..] == results[1..][..n - 1];
    } else {
      assert results[0..] == results && results[..0] == [];
    }
  }

  /** A key has one entry. */
  lemma {:induction false} GetIsTheOne(results: seq<Entry>, key: Key, encoded: string)
    requires Distinct(results) && Get(results, key) == Some(encoded)
    ensures Bytes(results, {key}) == |encoded| && |PopAll(results, {key})| < |results|
  {
    if results[0].key == key {
      NotThere(results[1..], key);
    } else {
      GetIsTheOne(results[1..], key, encoded);
    }
  }

  lemma {:induction false} NotThere(results: seq<Entry>, key: Key)
    requires forall e :: e in results ==> e.key != key
    ensures Bytes(results, {key}) == 0
  {
    if results != [] {
      NotThere(results[1..], key);
    }
  }

  /** Dropping claims together with their results. */
  lemma ForgetCache(h: Host, gone: set<Key>)
    requires CacheOk(h)
    ensures CacheOk(Forget(h, gone))
  {
    hide PopAll, Bytes, Total, Distinct;
    PopKeeps(h.results, gone);
  }

  lemma MoveCache(h: Host, key: Key, encoded: string)
    requires CacheOk(h) && Get(h.results, key) == Some(encoded)
    ensures CacheOk(h.(results := MoveToEnd(h.results, key, encoded)))
    ensures forall e :: e in MoveToEnd(h.results, key, encoded) ==> e in h.results
  {
    hide PopAll, Bytes, Total, Distinct, Get;
    PopKeeps(h.results, {key});
    GetIsTheOne(h.results, key, encoded);
    AppendKeeps(PopAll(h.results, {key}), Entry(key, encoded));
  }

  lemma StoreCache(h: Host, key: Key, encoded: string)
    requires CacheOk(h) && h.started && |encoded| <= MAX_RESULT_BYTES
    requires key in h.rows && !h.rows[key].status.Succeeded?
    ensures CacheOk(Store(h.(rows := SetStatus(h.rows, key, Succeeded)), key, encoded))
    ensures forall e :: e in Store(h, key, encoded).results ==> e in h.results || e == Entry(key, encoded)
  {
    hide Total, Distinct, Put, Evicted;
    var n := Evicted(h.results, h.resultBytes, |encoded|);
    DropKeeps(h.results, n);
    EvictionMakesRoom(h.results, h.resultBytes, |encoded|);
    AppendKeeps(h.results[n..], Entry(key, encoded));
    TotalEmpty();
  }

  // ----- The replay window ------------------------------------------------------------------------

  lemma RaiseKeeps(h: Host, log: Log, now: int)
    requires Inv(System(h, log))
    ensures Inv(System(RaiseHighwater(h, now), log))
  {
    hide Distinct, Total;
  }

  /** Only spent claims are dropped, and a barrier stands for each of them. */
  lemma ForgetKeeps(h: Host, log: Log)
    requires Inv(System(h, log))
    ensures Inv(System(Forget(h, Expired(h)), log))
  {
    hide Distinct, Total, PopAll, Bytes;
    ForgetCache(h, Expired(h));
  }

  lemma WindowKeeps(h: Host, log: Log, now: int)
    requires Inv(System(h, log))
    ensures Inv(System(OpenWindow(h, now), log))
  {
    hide Inv, RaiseHighwater, Forget, Expired;
    RaiseKeeps(h, log, now);
    ForgetKeeps(RaiseHighwater(h, now), log);
  }

  // ----- Requests ---------------------------------------------------------------------------------

  lemma LookupKeeps(h: Host, log: Log, key: Key, hash: string)
    requires Inv(System(h, log)) && key in h.rows
    ensures Inv(Admitted(System(h, log), key, hash, CachedStep(h, key, hash)))
  {
    hide Distinct, Total, PopAll, Bytes, Get, MoveToEnd;
    if Lookup(h, key, hash).Stored? {
      MoveCache(h, key, Lookup(h, key, hash).encoded);
    }
  }

  /** What is not spent was never started, so nothing of it runs. */
  lemma StartIsFirst(h: Host, log: Log, key: Key)
    requires Inv(System(h, log))
    requires key.device in h.devices && key !in h.rows && key.operation.Timed? && !Old(key.operation, Cutoff(h))
    ensures key !in log.starts && key !in log.cancelled && key !in log.outcomes && key !in h.running
  {
    hide Distinct, Total;
    assert !Spent(h, key);
    RunningWasStarted(h, log);
  }

  lemma RunningWasStarted(h: Host, log: Log)
    requires WorksOk(h) && Claimed(h, log)
    ensures h.running.Keys <= log.starts.Keys
  {}

  lemma StartWorks(h: Host, key: Key, hash: string)
    requires WorksOk(h) && RowsOk(h) && CacheOk(h)
    requires h.started && h.free > 0 && key.device in h.devices && key !in h.rows && key !in h.running
    ensures var h1 := StartWork(h, key, hash); WorksOk(h1) && RowsOk(h1) && CacheOk(h1)
  {
    hide WorksOk, RowsOk, CacheOk, StartWork;
    StartTable(h, key, hash);
    StartRows(h, key, hash);
    StartCache(h, key, hash);
  }

  lemma StartTable(h: Host, key: Key, hash: string)
    requires WorksOk(h) && h.started && h.free > 0 && key !in h.running
    ensures WorksOk(StartWork(h, key, hash))
  {}

  lemma StartRows(h: Host, key: Key, hash: string)
    requires RowsOk(h) && h.free > 0 && h.started && key.device in h.devices && key !in h.rows
    ensures RowsOk(StartWork(h, key, hash))
  {}

  lemma StartCache(h: Host, key: Key, hash: string)
    requires CacheOk(h) && h.free > 0 && key !in h.rows
    ensures CacheOk(StartWork(h, key, hash))
  {
    hide Distinct, Total;
  }

  lemma StartClaims(h: Host, log: Log, key: Key, hash: string)
    requires Claimed(h, log) && RowsOk(h) && h.free > 0
    requires key.device in h.devices && key !in h.rows && key !in log.starts && key !in log.cancelled
    ensures Claimed(StartWork(h, key, hash), log.(starts := log.starts[key := Count(log.starts, key) + 1]))
  {}

  lemma StartOutcomes(h: Host, log: Log, key: Key, hash: string)
    requires OutcomesOk(h, log) && h.free > 0 && key !in h.rows && key !in log.outcomes
    ensures OutcomesOk(StartWork(h, key, hash), log.(starts := log.starts[key := Count(log.starts, key) + 1]))
  {}

  lemma StartKeeps(h: Host, log: Log, key: Key, hash: string)
    requires Inv(System(h, log)) && h.started && h.free > 0
    requires key.device in h.devices && key !in h.rows && key.operation.Timed? && !Old(key.operation, Cutoff(h))
    ensures Inv(System(StartWork(h, key, hash), log.(starts := log.starts[key := Count(log.starts, key) + 1])))
  {
    hide CacheOk, WorksOk, Claimed, OutcomesOk, RowsOk, StartWork;
    StartIsFirst(h, log, key);
    StartWorks(h, key, hash);
    StartClaims(h, log, key, hash);
    StartOutcomes(h, log, key, hash);
  }

  lemma ClaimKeeps(h: Host, log: Log, key: Key, hash: string, now: int, refusal: Option<Error>)
    requires Inv(System(h, log)) && h.started && key.device in h.devices
    ensures Inv(Admitted(System(h, log), key, hash, ClaimStep(h, key, hash, now, refusal)))
  {
    hide Inv, CachedStep, StartWork;
    var step := ClaimStep(h, key, hash, now, refusal);
    if CheckTime(key.operation, key in h.rows, WindowOf(h, now)).None? && key in h.rows {
      LookupKeeps(h, log, key, hash);
    } else if step.1.Start? {
      StartKeeps(h, log, key, hash);
    }
  }

  lemma AdmitKeeps(s: System, key: Key, hash: string, now: int, refusal: Option<Error>)
    requires Inv(s)
    ensures Inv(Next(s, Admit(key, hash, now, refusal)))
  {
    hide Inv, OpenWindow, ClaimStep;
    if s.host.started && key.device in s.host.devices {
      WindowKeeps(s.host, s.log, now);
      WindowFrame(s.host, now);
      ClaimKeeps(OpenWindow(s.host, now), s.log, key, hash, now, refusal);
    }
  }

  lemma WindowFrame(h: Host, now: int)
    ensures var h1 := OpenWindow(h, now);
            h1.started == h.started && h1.devices == h.devices && h1.running == h.running && h1.works == h.works
  {}

  // ----- The outcome of a call --------------------------------------------------------------------

  function Over(h: Host, work: nat, cancelled: bool): Host
    requires work in h.works
  {
    h.(works := h.works[work := h.works[work].(cancelled := h.works[work].cancelled || cancelled, finished := true)])
  }

  ghost predicate NobodyWorksOn(h: Host, key: Key) {
    forall w :: w in h.works && !h.works[w].finished ==> h.works[w].key != key
  }

  lemma OverKeeps(h: Host, log: Log, work: nat, cancelled: bool)
    requires Inv(System(h, log)) && work in h.works && !h.works[work].finished
    ensures Inv(System(Over(h, work, cancelled), log)) && NobodyWorksOn(Over(h, work, cancelled), h.works[work].key)
    ensures var key := h.works[work].key;
            && key !in log.outcomes && key in log.starts
            && (key in h.rows ==> !h.rows[key].status.Succeeded?)
            && (Live(h, h.works[work]) ==> key in h.rows && h.rows[key] == Row(h.works[work].hash, Running))
  {
    hide CacheOk, WorksOk, NobodyWorksOn;
    OverWorks(h, work, cancelled);
  }

  lemma OverWorks(h: Host, work: nat, cancelled: bool)
    requires WorksOk(h) && CacheOk(h) && work in h.works && !h.works[work].finished
    ensures var over := Over(h, work, cancelled);
            WorksOk(over) && CacheOk(over) && NobodyWorksOn(over, h.works[work].key)
    ensures var key := h.works[work].key;
            Live(h, h.works[work]) ==> key in h.rows && h.rows[key] == Row(h.works[work].hash, Running)
  {
    hide Distinct, Total;
  }

  lemma StatusKeeps(h: Host, log: Log, key: Key, status: Status)
    requires Inv(System(h, log)) && NobodyWorksOn(h, key)
    requires key in h.rows ==> !h.rows[key].status.Succeeded?
    requires status.Cancelled? || (status.Failed? && key in h.rows && h.rows[key].status.Running?)
    ensures Inv(System(h.(rows := SetStatus(h.rows, key, status)), log))
  {
    hide CacheOk, WorksOk;
    StatusWorks(h, key, status);
  }

  lemma StatusWorks(h: Host, key: Key, status: Status)
    requires WorksOk(h) && CacheOk(h) && NobodyWorksOn(h, key)
    requires key in h.rows ==> !h.rows[key].status.Succeeded?
    ensures var h1 := h.(rows := SetStatus(h.rows, key, status)); WorksOk(h1) && CacheOk(h1)
  {
    hide Distinct, Total;
  }

  lemma SucceedWorks(h: Host, key: Key, encoded: string)
    requires WorksOk(h) && RowsOk(h) && NobodyWorksOn(h, key) && key in h.rows
    ensures var h1 := Store(h.(rows := SetStatus(h.rows, key, Succeeded)), key, encoded); WorksOk(h1) && RowsOk(h1)
  {
    hide Put, Total, Evicted;
  }

  lemma SucceedClaims(h: Host, log: Log, key: Key, encoded: string, reply: Reply)
    requires Claimed(h, log) && RowsOk(h) && key in h.rows && h.rows[key].status.Running?
    ensures Claimed(Store(h.(rows := SetStatus(h.rows, key, Succeeded)), key, encoded),
                    log.(outcomes := log.outcomes[key := reply], offered := log.offered + {reply}))
  {
    hide Put, Total, Evicted;
  }

  lemma SucceedOutcomes(h: Host, log: Log, key: Key, encoded: string)
    requires OutcomesOk(h, log) && CacheOk(h) && NobodyWorksOn(h, key) && h.started && |encoded| <= MAX_RESULT_BYTES
    requires key in h.rows && h.rows[key].status.Running? && key in log.starts && key !in log.outcomes
    ensures var reply := Reply(key, h.rows[key].hash, encoded);
            OutcomesOk(Store(h.(rows := SetStatus(h.rows, key, Succeeded)), key, encoded),
                       log.(outcomes := log.outcomes[key := reply], offered := log.offered + {reply}))
  {
    hide Put, Total, Evicted, CacheOk;
    StoreCache(h, key, encoded);
  }

  lemma SucceedKeeps(h: Host, log: Log, key: Key, encoded: string)
    requires Inv(System(h, log)) && NobodyWorksOn(h, key) && h.started && |encoded| <= MAX_RESULT_BYTES
    requires key in h.rows && h.rows[key].status.Running? && key in log.starts && key !in log.outcomes
    ensures var reply := Reply(key, h.rows[key].hash, encoded);
            Inv(System(Store(h.(rows := SetStatus(h.rows, key, Succeeded)), key, encoded),
                       log.(outcomes := log.outcomes[key := reply], offered := log.offered + {reply})))
  {
    hide Store, CacheOk, WorksOk, Claimed, OutcomesOk, RowsOk;
    StoreCache(h, key, encoded);
    SucceedWorks(h, key, encoded);
    SucceedClaims(h, log, key, encoded, Reply(key, h.rows[key].hash, encoded));
    SucceedOutcomes(h, log, key, encoded);
  }

  lemma FinishKeeps(s: System, work: nat, outcome: Option<string>, cancelled: bool)
    requires Inv(s) && work in s.host.works && !s.host.works[work].finished
    ensures Inv(Next(s, Finish(work, outcome, cancelled)))
  {
    hide Inv, Store, NobodyWorksOn;
    var h, log := s.host, s.log;
    var w := h.works[work].(cancelled := h.works[work].cancelled || cancelled, finished := true);
    var over := Over(h, work, cancelled);
    OverKeeps(h, log, work, cancelled);
    if !Live(h, w) {
      StatusKeeps(over, log, w.key, Cancelled);
    } else if !Usable(outcome) {
      StatusKeeps(over, log, w.key, Failed);
    } else {
      SucceedKeeps(over, log, w.key, outcome.value);
    }
  }

  // ----- Cancellation, revocation and restarts ----------------------------------------------------

  lemma MarkedClaims(h: Host, log: Log, key: Key)
    requires Claimed(h, log) && RowsOk(h) && key.device in h.devices
    ensures Claimed(MarkCancelled(h, key), log.(cancelled := log.cancelled + {key})) && RowsOk(MarkCancelled(h, key))
  {
    hide PopAll, Bytes;
  }

  lemma MarkedWorks(h: Host, key: Key)
    requires WorksOk(h)
    ensures WorksOk(MarkCancelled(h, key))
  {
    hide PopAll, Bytes;
  }

  lemma MarkedCache(h: Host, log: Log, key: Key)
    requires CacheOk(h) && OutcomesOk(h, log)
    ensures CacheOk(MarkCancelled(h, key))
    ensures OutcomesOk(MarkCancelled(h, key), log.(cancelled := log.cancelled + {key}))
  {
    hide PopAll, Bytes, Distinct, Total;
    PopKeeps(h.results, {key});
  }

  lemma CancelKeeps(s: System, key: Key, now: int)
    requires Inv(s)
    ensures Inv(Next(s, Cancel(key, now)))
  {
    hide OpenWindow, MarkCancelled, CancelRefused, CacheOk, WorksOk, Claimed, OutcomesOk, RowsOk;
    if s.host.started && key.device in s.host.devices {
      WindowKeeps(s.host, s.log, now);
      WindowFrame(s.host, now);
      var h := OpenWindow(s.host, now);
      if CancelRefused(h, key, now).None? {
        MarkedClaims(h, s.log, key);
        MarkedWorks(h, key);
        MarkedCache(h, s.log, key);
      }
    }
  }

  lemma ReopenKeeps(h: Host, log: Log)
    requires Inv(System(h, log)) && !h.started
    ensures Inv(System(Reopen(h), log))
  {
    hide Distinct, Total;
  }

  /** Revocation in an open database. */
  function Revoked(h: Host, device: Device): Host {
    RevokeStep(h.(started := true), device).(started := h.started)
  }

  lemma RevokedClaims(h: Host, log: Log, device: Device)
    requires Claimed(h, log) && RowsOk(h)
    ensures Claimed(Revoked(h, device), log.(revoked := log.revoked + {device})) && RowsOk(Revoked(h, device))
  {
    hide PopAll, Bytes;
  }

  lemma RevokedWorks(h: Host, device: Device)
    requires WorksOk(h)
    ensures WorksOk(Revoked(h, device))
  {
    hide PopAll, Bytes;
  }

  lemma RevokedCache(h: Host, log: Log, device: Device)
    requires CacheOk(h) && OutcomesOk(h, log)
    ensures CacheOk(Revoked(h, device))
    ensures OutcomesOk(Revoked(h, device), log.(revoked := log.revoked + {device}))
  {
    hide PopAll, Bytes, Distinct, Total;
    PopKeeps(h.results, DeviceKeys(KeysOf(h.results), device));
  }

  lemma RevokeKeeps(s: System, device: Device)
    requires Inv(s)
    ensures Inv(Next(s, Revoke(device)))
  {
    hide CacheOk, WorksOk, Claimed, OutcomesOk, RowsOk, Reopen;
    if !s.host.started {
      ReopenKeeps(s.host, s.log);
      ReopenFrame(s.host);
    }
    var h := if s.host.started then s.host else Reopen(s.host);
    RevokedClaims(h, s.log, device);
    RevokedWorks(h, device);
    RevokedCache(h, s.log, device);
  }

  lemma ReopenFrame(h: Host)
    ensures Reopen(h).started == h.started && Reopen(h).generation == h.generation
  {}

  lemma StartHostKeeps(s: System, bound: bool)
    requires Inv(s)
    ensures Inv(Next(s, StartHost(bound)))
  {
    hide Inv, Reopen;
    if !s.host.started {
      ReopenKeeps(s.host, s.log);
      ReopenFrame(s.host);
      OpenedKeeps(Reopen(s.host), s.log);
    }
  }

  lemma OpenedKeeps(h: Host, log: Log)
    requires Inv(System(h, log)) && !h.started
    ensures Inv(System(h.(started := true, generation := h.generation + 1), log))
  {
    hide Distinct, Total;
  }

  lemma EmptyCache()
    ensures Distinct([]) && Total([]) == 0
  {}

  lemma StopKeeps(s: System, saved: bool)
    requires Inv(s)
    ensures Inv(Next(s, Stop(saved)))
  {
    hide CacheOk, WorksOk, Claimed, OutcomesOk, RowsOk;
    StopWorks(s.host, saved);
    StopClaims(s.host, s.log, saved);
    StopOutcomes(s.host, s.log, saved);
  }

  lemma StopWorks(h: Host, saved: bool)
    requires WorksOk(h)
    ensures WorksOk(StopStep(h, saved))
  {}

  lemma StopClaims(h: Host, log: Log, saved: bool)
    requires Claimed(h, log) && RowsOk(h)
    ensures Claimed(StopStep(h, saved), log) && RowsOk(StopStep(h, saved))
  {}

  lemma StopOutcomes(h: Host, log: Log, saved: bool)
    requires CacheOk(h) && OutcomesOk(h, log)
    ensures CacheOk(StopStep(h, saved)) && OutcomesOk(StopStep(h, saved), log)
  {
    hide Distinct, Total;
    EmptyCache();
  }

  lemma CrashKeeps(s: System)
    requires Inv(s)
    ensures Inv(Next(s, Crash))
  {
    hide Distinct, Total;
    EmptyCache();
  }

  lemma ReleaseKeeps(s: System, work: nat)
    requires Inv(s) && work in s.host.works
    ensures Inv(Next(s, Release(work)))
  {
    hide CacheOk, WorksOk, ReleaseStep;
    ReleaseWorks(s.host, work);
    ReleaseFrame(s.host, work);
  }

  lemma ReleaseWorks(h: Host, work: nat)
    requires WorksOk(h) && work in h.works
    ensures WorksOk(ReleaseStep(h, work))
  {}

  lemma ReleaseFrame(h: Host, work: nat)
    requires work in h.works
    ensures var h1 := ReleaseStep(h, work);
            h1 == h.(running := h1.running, works := h.works - {work}, free := h.free + 1)
    ensures CacheOk(h) ==> CacheOk(ReleaseStep(h, work))
  {
    hide Distinct, Total;
  }

  lemma PairKeeps(s: System, device: Device)
    requires Inv(s) && device !in s.log.paired && device !in s.log.revoked
    ensures Inv(Next(s, Pair(device)))
  {
    hide Distinct, Total, WorksOk;
    var h, h1 := s.host, PairStep(s.host, device);
    assert WorksOk(h) ==> WorksOk(h1) by {
      PairWorks(h, device);
    }
  }

  lemma PairWorks(h: Host, device: Device)
    ensures WorksOk(PairStep(h, device)) == WorksOk(h)
  {}

  lemma PublishKeeps(s: System, reply: Reply)
    requires Inv(s) && reply in s.log.offered
    ensures Inv(Next(s, Publish(reply)))
  {
    hide CacheOk, WorksOk, RowsOk, PublishCheck;
    assert Claimed(s.host, s.log.(sent := s.log.sent + [reply]));
  }

  lemma NextKeeps(s: System, e: Event)
    requires Inv(s) && Possible(s, e)
    ensures Inv(Next(s, e))
  {
    hide Inv, Next;
    match e
    case Admit(key, hash, now, refusal) => AdmitKeeps(s, key, hash, now, refusal);
    case Finish(work, outcome, cancelled) => FinishKeeps(s, work, outcome, cancelled);
    case Cancel(key, now) => CancelKeeps(s, key, now);
    case Revoke(device) => RevokeKeeps(s, device);
    case Barrier(now) => BarrierKeeps(s, now);
    case Expiry => ExpiryKeeps(s);
    case StartHost(bound) => StartHostKeeps(s, bound);
    case Stop(saved) => StopKeeps(s, saved);
    case Crash => CrashKeeps(s);
    case Release(work) => ReleaseKeeps(s, work);
    case Pair(device) => PairKeeps(s, device);
    case Publish(reply) => PublishKeeps(s, reply);
  }

  lemma BarrierKeeps(s: System, now: int)
    requires Inv(s)
    ensures Inv(Next(s, Barrier(now)))
  {
    hide Inv, RaiseHighwater;
    RaiseKeeps(s.host, s.log, now);
  }

  lemma ExpiryKeeps(s: System)
    requires Inv(s)
    ensures Inv(Next(s, Expiry))
  {
    hide Inv, Forget, Expired;
    ForgetKeeps(s.host, s.log);
  }

  lemma {:induction false} RunKeeps(s: System, events: seq<Event>, end: System)
    requires Inv(s) && Run(s, events, end)
    ensures Inv(end)
    decreases events
  {
    hide Inv, Next, Possible;
    if events != [] {
      NextKeeps(s, events[0]);
      RunKeeps(Next(s, events[0]), events[1..], end);
    }
  }

  // ----- What runs guarantee ----------------------------------------------------------------------

  ghost predicate Reachable(slots: nat, events: seq<Event>, s: System) {
    Run(Initial(slots), events, s)
  }

  lemma ReachableInv(slots: nat, events: seq<Event>, s: System)
    requires Reachable(slots, events, s)
    ensures Inv(s)
  {
    EmptyCache();
    RunKeeps(Initial(slots), events, s);
  }

  /** Whatever crashes, restarts, clock changes, expiries, cancellations, evictions and
      revocations happen: the processor starts at most once for an operation of a device. */
  lemma AtMostOnce(slots: nat, events: seq<Event>, s: System, key: Key)
    requires Reachable(slots, events, s)
    ensures Count(s.log.starts, key) <= 1
  {
    hide Run, CacheOk, WorksOk, OutcomesOk, RowsOk;
    ReachableInv(slots, events, s);
  }

  /** Every success reply for an operation carries its one stored result, for the content
      whose hash it was stored under. */
  lemma RepliesAgree(slots: nat, events: seq<Event>, s: System, a: Reply, b: Reply)
    requires Reachable(slots, events, s) && a in s.log.sent && b in s.log.sent && a.key == b.key
    ensures a == b
  {
    hide Run, CacheOk, WorksOk, Claimed, RowsOk;
    ReachableInv(slots, events, s);
  }

  /** The cache: its byte count is exact and within the limits, each cached operation has a
      succeeded claim, and a cached entry is the one stored result. */
  lemma CacheIsExact(slots: nat, events: seq<Event>, s: System)
    requires Reachable(slots, events, s)
    ensures var h := s.host;
            && h.resultBytes == Total(h.results) <= MAX_RESULT_BYTES && |h.results| <= MAX_RESULTS
            && (forall e :: e in h.results ==>
                  && e.key in h.rows && h.rows[e.key].status.Succeeded?
                  && e.key in s.log.outcomes
                  && s.log.outcomes[e.key] == Reply(e.key, h.rows[e.key].hash, e.encoded))
  {
    hide Run, WorksOk, Claimed, RowsOk, Distinct, Total;
    ReachableInv(slots, events, s);
  }

  ghost predicate Silenced(s: System, key: Key) {
    key in s.log.cancelled || key.device in s.log.revoked
  }

  lemma SilencedIsRefused(s: System, key: Key)
    requires Inv(s) && Silenced(s, key)
    ensures PublishCheck(s.host, key).Some?
  {
    hide CacheOk, WorksOk, OutcomesOk;
  }

  lemma StaysSilenced(s: System, e: Event, key: Key)
    requires Inv(s) && Possible(s, e) && Silenced(s, key)
    ensures var s1 := Next(s, e);
            && Silenced(s1, key)
            && s.log.sent <= s1.log.sent
            && (forall i :: |s.log.sent| <= i < |s1.log.sent| ==> s1.log.sent[i].key != key)
  {
    hide Inv, AdmitStep, FinishStep, CancelStep, RevokeStep;
    SilencedIsRefused(s, key);
  }

  /** Once a cancellation was acknowledged, or the device revoked, no success reply for the
      operation is sent any more. */
  lemma {:induction false} CancellationWins(s: System, events: seq<Event>, end: System, key: Key)
    requires Inv(s) && Run(s, events, end) && Silenced(s, key)
    ensures s.log.sent <= end.log.sent
    ensures forall i :: |s.log.sent| <= i < |end.log.sent| ==> end.log.sent[i].key != key
    decreases events
  {
    hide Inv, Next, Possible, Silenced;
    if events != [] {
      var s1 := Next(s, events[0]);
      NextKeeps(s, events[0]);
      StaysSilenced(s, events[0], key);
      CancellationWins(s1, events[1..], end, key);
    }
  }

  /** `key`'s cancelled claim is still there, or gone for good. */
  ghost predicate StillCancelled(before: Host, h: Host, key: Key)
    requires key in before.rows
  {
    || (key in h.rows && h.rows[key] == before.rows[key])
    || (key !in h.rows && (key.device !in h.devices || Old(key.operation, Cutoff(h))))
  }

  /** A cancelled claim stays as it is until it expires or its device is revoked. */
  lemma CancelledIsAbsorbing(s: System, e: Event, key: Key)
    requires Inv(s) && Possible(s, e)
    requires key in s.host.rows && s.host.rows[key].status.Cancelled?
    ensures StillCancelled(s.host, Next(s, e).host, key)
  {
    hide Inv, PopAll, Bytes, AdmitStep, FinishStep, CancelStep;
    match e
    case Admit(k, hash, now, refusal) => AdmitLeaves(s.host, k, hash, now, refusal, key);
    case Finish(work, outcome, cancelled) => FinishLeaves(s, work, outcome, cancelled, key);
    case Cancel(k, now) => CancelLeaves(s.host, k, now, key);
    case _ =>
  }

  lemma WindowLeaves(h: Host, now: int, key: Key)
    requires key in h.rows
    ensures var h1 := OpenWindow(h, now);
            if key in h1.rows then h1.rows[key] == h.rows[key]
            else Old(key.operation, Cutoff(h1)) && key !in h1.running
  {
    hide PopAll, Bytes;
  }

  lemma AdmitLeaves(h: Host, k: Key, hash: string, now: int, refusal: Option<Error>, key: Key)
    requires key in h.rows
    ensures StillCancelled(h, AdmitStep(h, k, hash, now, refusal).0, key)
  {
    hide OpenWindow;
    WindowLeaves(h, now, key);
    WindowFrame(h, now);
  }

  lemma CancelLeaves(h: Host, k: Key, now: int, key: Key)
    requires key in h.rows && h.rows[key].status.Cancelled?
    ensures StillCancelled(h, CancelStep(h, k, now).0, key)
  {
    hide OpenWindow, PopAll, Bytes;
    WindowLeaves(h, now, key);
    WindowFrame(h, now);
  }

  lemma FinishLeaves(s: System, work: nat, outcome: Option<string>, cancelled: bool, key: Key)
    requires Inv(s) && work in s.host.works && !s.host.works[work].finished
    requires key in s.host.rows && s.host.rows[key].status.Cancelled?
    ensures StillCancelled(s.host, FinishStep(s.host, work, outcome, cancelled).0, key)
  {
    hide CacheOk, Claimed, OutcomesOk, Store;
    var w := s.host.works[work];
    assert Live(s.host, w) ==> s.host.rows[w.key].status.Running?;
    StoreRows();
  }

  lemma StoreRows()
    ensures forall h, key, encoded :: Store(h, key, encoded).rows == h.rows
  {}

  // ----- Workers ----------------------------------------------------------------------------------

  lemma SlotsAreKept(s: System, e: Event)
    requires Inv(s) && Possible(s, e)
    ensures var h := Next(s, e).host; |h.works| + h.free == |s.host.works| + s.host.free
  {
    hide CacheOk, WorksOk, RowsOk, Claimed, OutcomesOk, PopAll, Bytes, OpenWindow, FinishStep, StopStep,
      RevokeStep, ClaimStep, MarkCancelled, CancelRefused, Reopen;
    match e
    case Admit(key, hash, now, refusal) =>
      NewWork(s.host);
      WindowFrame(s.host, now);
      WindowSlots(s.host, now);
      ClaimSlots(OpenWindow(s.host, now), key, hash, now, refusal);
    case Finish(work, outcome, cancelled) => FinishSlots(s.host, work, outcome, cancelled);
    case Cancel(key, now) =>
      WindowSlots(s.host, now);
      MarkSlots(OpenWindow(s.host, now), key);
    case Revoke(device) => RevokeSlots(s.host, device);
    case StartHost(_) => ReopenSlots(s.host);
    case Stop(saved) => StopSlots(s.host, saved);
    case _ =>
  }

  lemma NewWork(h: Host)
    requires WorksOk(h)
    ensures h.nextWork !in h.works
  {}

  lemma WindowSlots(h: Host, now: int)
    ensures var h1 := OpenWindow(h, now); h1.works == h.works && h1.free == h.free && h1.nextWork == h.nextWork
  {}

  lemma ClaimSlots(h: Host, key: Key, hash: string, now: int, refusal: Option<Error>)
    requires h.nextWork !in h.works
    ensures var h1 := ClaimStep(h, key, hash, now, refusal).0; |h1.works| + h1.free == |h.works| + h.free
  {}

  lemma StoreSlots()
    ensures forall h, key, encoded :: var h1 := Store(h, key, encoded); h1.works == h.works && h1.free == h.free
  {}

  lemma FinishSlots(h: Host, work: nat, outcome: Option<string>, cancelled: bool)
    requires work in h.works
    ensures var h1 := FinishStep(h, work, outcome, cancelled).0; |h1.works| == |h.works| && h1.free == h.free
  {
    hide Store, Live;
    StoreSlots();
  }

  lemma StopSlots(h: Host, saved: bool)
    ensures var h1 := StopStep(h, saved); |h1.works| == |h.works| && h1.free == h.free
  {
    hide CancelWorks;
    CancelledWorks(h.works, h.running.Values);
  }

  lemma CancelledWorks(works: map<nat, Work>, chosen: set<nat>)
    ensures CancelWorks(works, chosen).Keys == works.Keys && |CancelWorks(works, chosen)| == |works|
  {
    assert CancelWorks(works, chosen).Keys == works.Keys;
    assert |CancelWorks(works, chosen)| == |CancelWorks(works, chosen).Keys|;
    assert |works| == |works.Keys|;
  }

  lemma MarkSlots(h: Host, key: Key)
    ensures var h1 := MarkCancelled(h, key); |h1.works| == |h.works| && h1.free == h.free
  {
    hide CancelWorks;
    if key in h.running {
      CancelledWorks(h.works, {h.running[key]});
    }
  }

  lemma ReopenSlots(h: Host)
    ensures Reopen(h).works == h.works && Reopen(h).free == h.free && Reopen(h).running == h.running
  {}

  lemma RevokeSlots(h: Host, device: Device)
    ensures var h1 := RevokeStep(h, device); |h1.works| == |h.works| && h1.free == h.free
  {
    hide CancelWorks, PopAll, Bytes, Reopen, WorksOf;
    ReopenSlots(h);
    CancelledWorks(h.works, WorksOf(h.running, DeviceKeys(h.running.Keys, device)));
  }

  /** No more calls are under way than there are slots, and no slot is lost. */
  lemma {:induction false} WorkersAreBounded(s: System, events: seq<Event>, end: System)
    requires Inv(s) && Run(s, events, end)
    ensures |end.host.works| + end.host.free == |s.host.works| + s.host.free
    decreases events
  {
    hide Inv, Next, Possible;
    if events != [] {
      NextKeeps(s, events[0]);
      SlotsAreKept(s, events[0]);
      WorkersAreBounded(Next(s, events[0]), events[1..], end);
    }
  }

  // ----- Claims in storage --------------------------------------------------------------------------------

  lemma SameKeys<K, A, B>(a: map<K, A>, b: map<K, B>)
    requires a.Keys == b.Keys
    ensures |a| == |b|
  {
    assert |a| == |a.Keys| && |b| == |b.Keys|;
  }

  lemma FewerKeys<K, A>(a: map<K, A>, b: map<K, A>)
    requires b.Keys <= a.Keys
    ensures |b| <= |a|
  {
    assert a.Keys == b.Keys + (a.Keys - b.Keys);
    assert |a| == |a.Keys| && |b| == |b.Keys|;
  }

  lemma OneMoreKey<K, A>(a: map<K, A>, k: K, v: A)
    ensures |a[k := v]| == if k in a then |a| else |a| + 1
  {
    assert a[k := v].Keys == a.Keys + {k};
    assert |a| == |a.Keys| && |a[k := v]| == |a[k := v].Keys|;
  }

  lemma WindowRows(h: Host, now: int)
    ensures |OpenWindow(h, now).rows| <= |h.rows|
  {
    hide PopAll, Bytes;
    FewerKeys(h.rows, OpenWindow(h, now).rows);
  }

  lemma ClaimRows(h: Host, key: Key, hash: string, now: int, refusal: Option<Error>)
    requires |h.rows| <= MAX_OPERATIONS
    ensures |ClaimStep(h, key, hash, now, refusal).0.rows| <= MAX_OPERATIONS
  {
    OneMoreKey(h.rows, key, Row(hash, Running));
  }

  lemma MarkedRows(h: Host, key: Key, now: int)
    requires |h.rows| <= MAX_OPERATIONS && CancelRefused(h, key, now).None?
    ensures |MarkCancelled(h, key).rows| <= MAX_OPERATIONS
  {
    hide PopAll, Bytes, CancelWorks;
    OneMoreKey(h.rows, key, Row(if key in h.rows then h.rows[key].hash else "", Cancelled));
  }

  lemma FinishedRows(h: Host, work: nat, outcome: Option<string>, cancelled: bool)
    requires work in h.works
    ensures |FinishStep(h, work, outcome, cancelled).0.rows| == |h.rows|
  {
    hide Store, Live;
    StoreRows();
    SameKeys(h.rows, FinishStep(h, work, outcome, cancelled).0.rows);
  }

  lemma RestartedRows(h: Host, device: Device, saved: bool)
    ensures |Reopen(h).rows| == |h.rows| && |StopStep(h, saved).rows| == |h.rows|
    ensures |RevokeStep(h, device).rows| <= |h.rows|
  {
    hide PopAll, Bytes, CancelWorks, WorksOf;
    SameKeys(h.rows, Reopen(h).rows);
    SameKeys(h.rows, StopStep(h, saved).rows);
    FewerKeys(h.rows, RevokeStep(h, device).rows);
  }

  lemma AdmitStaysBounded(s: System, e: Event)
    requires Possible(s, e) && e.Admit? && |s.host.rows| <= MAX_OPERATIONS
    ensures |Next(s, e).host.rows| <= MAX_OPERATIONS
  {
    hide OpenWindow, ClaimStep;
    WindowRows(s.host, e.now);
    ClaimRows(OpenWindow(s.host, e.now), e.key, e.hash, e.now, e.refusal);
  }

  lemma CancelStaysBounded(s: System, e: Event)
    requires Possible(s, e) && e.Cancel? && |s.host.rows| <= MAX_OPERATIONS
    ensures |Next(s, e).host.rows| <= MAX_OPERATIONS
  {
    hide OpenWindow, MarkCancelled, CancelRefused;
    WindowRows(s.host, e.now);
    if CancelRefused(OpenWindow(s.host, e.now), e.key, e.now).None? {
      MarkedRows(OpenWindow(s.host, e.now), e.key, e.now);
    }
  }

  lemma RestartStaysBounded(s: System, e: Event)
    requires Possible(s, e) && (e.Revoke? || e.StartHost? || e.Stop?) && |s.host.rows| <= MAX_OPERATIONS
    ensures |Next(s, e).host.rows| <= MAX_OPERATIONS
  {
    hide Reopen, StopStep, RevokeStep;
    match e
    case Revoke(device) => RestartedRows(s.host, device, true);
    case StartHost(_) => RestartedRows(s.host, "", true);
    case Stop(saved) => RestartedRows(s.host, "", saved);
  }

  lemma RowsStayBounded(s: System, e: Event)
    requires Possible(s, e) && |s.host.rows| <= MAX_OPERATIONS
    ensures |Next(s, e).host.rows| <= MAX_OPERATIONS
  {
    match e
    case Admit(_, _, _, _) => hide Next, Possible; AdmitStaysBounded(s, e);
    case Cancel(_, _) => hide Next, Possible; CancelStaysBounded(s, e);
    case Revoke(_) => hide Next, Possible; RestartStaysBounded(s, e);
    case StartHost(_) => hide Next, Possible; RestartStaysBounded(s, e);
    case Stop(_) => hide Next, Possible; RestartStaysBounded(s, e);
    case Finish(work, outcome, cancelled) =>
      hide FinishStep;
      FinishedRows(s.host, work, outcome, cancelled);
    case Expiry =>
      hide PopAll, Bytes;
      FewerKeys(s.host.rows, Forget(s.host, Expired(s.host)).rows);
    case _ =>
  }

  /** The database never holds more claims than it may, cancellations included. */
  lemma {:induction false} ClaimsAreBounded(s: System, events: seq<Event>, end: System)
    requires |s.host.rows| <= MAX_OPERATIONS && Run(s, events, end)
    ensures |end.host.rows| <= MAX_OPERATIONS
    decreases events
  {
    hide Next, Possible;
    if events != [] {
      RowsStayBounded(s, events[0]);
      ClaimsAreBounded(Next(s, events[0]), events[1..], end);
    }
  }

  // ----- Retries ------------------------------------------------------------------------------------------

  lemma {:induction false} GetFinds(results: seq<Entry>, e: Entry)
    requires Distinct(results) && e in results
    ensures Get(results, e.key) == Some(e.encoded)
  {
    if results[0] != e {
      assert e in results[1..];
      GetFinds(results[1..], e);
    }
  }

  /** While a result is cached, a retry of the same content within the window gets it, and its
      reply may be sent. */
  lemma RetryIsAnswered(s: System, e: Entry, hash: string, now: int, refusal: Option<Error>)
    requires Inv(s) && s.host.started && e in s.host.results && s.host.rows[e.key].hash == hash
    requires e.key.operation.Timed? && e.key.operation.timestamp <= now + FUTURE_MS
    requires !Old(e.key.operation, Cutoff(RaiseHighwater(s.host, now)))
    ensures var (h, answer) := AdmitStep(s.host, e.key, hash, now, refusal);
            answer == Stored(e.encoded) && PublishCheck(h, e.key).None?
  {
    hide WorksOk, Claimed, OutcomesOk, Total, Bytes, PopAll, Distinct, Get;
    var h := OpenWindow(s.host, now);
    WindowKeeps(s.host, s.log, now);
    assert e.key in h.rows && h.rows[e.key] == s.host.rows[e.key];
    assert e in h.results;
    GetFinds(h.results, e);
  }
}
