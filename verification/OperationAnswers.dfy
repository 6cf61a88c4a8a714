/** computer_host.py: what requests are answered, in terms of what a caller can see of the host. */
module OperationAnswers {
  import opened Wrappers
  import opened OperationLedger
  import opened OperationRuns

  /** The replay barrier as the request finds it. */
  function Barrier(h: Host, now: int): int {
    if now > h.highwater then now else h.highwater
  }

  predicate InWindow(h: Host, operation: Operation, now: int) {
    operation.Timed? && Barrier(h, now) - 7_200_000 <= operation.timestamp <= now + 300_000
  }

  /** An old claim stays while its call runs; one without a time always stays. */
  predicate Survives(h: Host, key: Key, now: int) {
    && key in h.rows
    && (!key.operation.Timed? || key.operation.timestamp >= Barrier(h, now) - 7_200_000 || key in h.running)
  }

  function ClaimsLeft(h: Host, now: int): set<Key> {
    set k | k in h.rows && Survives(h, k, now)
  }

  /** Opening the window drops exactly the claims that no longer survive, with their results,
      and the barrier never goes back. */
  lemma WindowIsExact(h: Host, now: int)
    ensures var h1 := OpenWindow(h, now);
            && h1.highwater == Barrier(h, now)
            && h1.rows.Keys == ClaimsLeft(h, now) && (forall k :: k in h1.rows ==> h1.rows[k] == h.rows[k])
            && (forall e :: e in h1.results <==> e in h.results && (e.key in h.rows ==> Survives(h, e.key, now)))
            && h1 == h.(highwater := h1.highwater, rows := h1.rows, results := h1.results,
                        resultBytes := h1.resultBytes)
  {
    hide Bytes;
  }

  lemma WindowSize(h: Host, now: int)
    ensures |OpenWindow(h, now).rows| == |ClaimsLeft(h, now)|
  {
    hide OpenWindow;
    WindowIsExact(h, now);
    assert |OpenWindow(h, now).rows| == |OpenWindow(h, now).rows.Keys|;
  }

  /** Everything a first request for an operation needs. */
  predicate Admissible(h: Host, key: Key, now: int, refusal: Option<Error>) {
    && h.started && key.device in h.devices && InWindow(h, key.operation, now) && key !in h.rows
    && refusal.None? && |ClaimsLeft(h, now)| < 4096
  }

  /** The processor is started exactly for an admissible request while a slot is free, and
      then the claim runs, under this content, in one slot. */
  lemma StartIsExact(h: Host, key: Key, hash: string, now: int, refusal: Option<Error>)
    ensures var (h1, answer) := AdmitStep(h, key, hash, now, refusal);
            && (answer.Start? <==> Admissible(h, key, now, refusal) && h.free > 0)
            && (answer.Start? ==>
                  && key in h1.rows && h1.rows[key] == Row(hash, Running)
                  && key in h1.running && h1.running[key] == answer.work
                  && answer.work in h1.works
                  && h1.works[answer.work] == Work(key, hash, h.generation, false, false)
                  && h1.free == h.free - 1)
            && (!answer.Start? ==> h1.works == h.works && h1.running == h.running && h1.free == h.free)
            && (refusal.None? ==> (answer == Refuse(Busy) <==> Admissible(h, key, now, refusal) && h.free == 0))
  {
    hide OpenWindow, ClaimsLeft, Get, MoveToEnd;
    WindowIsExact(h, now);
    WindowSize(h, now);
    KeySurvives(h, key, now);
    if key in OpenWindow(h, now).rows {
      KnownIsLookedUp(OpenWindow(h, now), key, hash);
    }
  }

  lemma KeySurvives(h: Host, key: Key, now: int)
    ensures key in ClaimsLeft(h, now) <==> Survives(h, key, now)
  {}

  lemma KnownIsLookedUp(h: Host, key: Key, hash: string)
    requires key in h.rows
    ensures var (h1, answer) := CachedStep(h, key, hash);
            h1 == h.(results := h1.results) && !answer.Start? && answer != Refuse(Busy)
  {
    hide Get, MoveToEnd;
  }

  lemma TimelessStay(h: Host, now: int)
    ensures (set k | k in OpenWindow(h, now).rows && !k.operation.Timed?) == set k | k in h.rows && !k.operation.Timed?
  {
    hide OpenWindow;
    WindowIsExact(h, now);
    forall k | k in h.rows && !k.operation.Timed? ensures k in OpenWindow(h, now).rows {
      KeySurvives(h, k, now);
      assert k in ClaimsLeft(h, now);
    }
  }

  /** Who is answered before any claim is looked at, and what a full table answers: for good if
      old claims without a time fill it, else until claims expire. */
  lemma OthersAreTurnedAway(h: Host, key: Key, hash: string, now: int, refusal: Option<Error>)
    requires refusal.None?
    ensures var answer := AdmitStep(h, key, hash, now, refusal).1;
            var first := h.started && key.device in h.devices && InWindow(h, key.operation, now) && key !in h.rows;
            var timeless := set k | k in h.rows && !k.operation.Timed?;
            && (answer == Refuse(HostStopped) <==> !h.started)
            && (answer == Refuse(Unauthorized) <==> h.started && key.device !in h.devices)
            && (answer in {Refuse(OperationLimit), Refuse(OperationHistoryFull)} <==>
                  first && |ClaimsLeft(h, now)| >= 4096)
            && (answer == Refuse(OperationHistoryFull) ==> |timeless| >= 4096)
            && (answer == Refuse(OperationLimit) ==> |timeless| < 4096)
  {
    hide OpenWindow, ClaimsLeft, Get, MoveToEnd;
    WindowIsExact(h, now);
    WindowSize(h, now);
    KeySurvives(h, key, now);
    var timeless := set k | k in h.rows && !k.operation.Timed?;
    TimelessStay(h, now);
  }

  /** The operation may still be asked about: it is in the window, or an old claim without a time. */
  predicate Timely(h: Host, key: Key, now: int) {
    InWindow(h, key.operation, now) || (key.operation.Legacy? && key in h.rows)
  }

  /** How a request is answered that finds a claim, or comes at the wrong time. */
  lemma AnswersAreExact(h: Host, key: Key, hash: string, now: int, refusal: Option<Error>)
    requires h.started && key.device in h.devices && refusal.None?
    ensures var answer := AdmitStep(h, key, hash, now, refusal).1;
            var late := key.operation.Timed? && key.operation.timestamp < Barrier(h, now) - 7_200_000;
            var known := Timely(h, key, now) && key in h.rows;
            var row := if key in h.rows then h.rows[key] else Row("", Cancelled);
            && (answer == Refuse(OperationExpired) <==> late)
            && (answer == Refuse(OperationInFuture) <==>
                  !late && key.operation.Timed? && key.operation.timestamp > now + 300_000)
            && (answer == Refuse(InvalidOperationId) <==>
                  key.operation.Other? || (key.operation.Legacy? && key !in h.rows))
            && (answer == Refuse(OperationConflict) <==> known && row != Row("", Cancelled) && row.hash != hash)
            && (answer == Refuse(OperationInProgress) <==> known && row == Row(hash, Running))
            && (answer == Refuse(OperationCancelled) <==> known && row in {Row("", Cancelled), Row(hash, Cancelled)})
            && (answer == Refuse(ProcessingFailed) <==> known && row == Row(hash, Failed))
  {
    hide OpenWindow, ClaimsLeft, Get, MoveToEnd;
    WindowIsExact(h, now);
    KeySurvives(h, key, now);
  }

  /** A stored result is the answer exactly while it is cached and the content is the same. */
  lemma StoredIsExact(s: System, key: Key, hash: string, encoded: string, now: int, refusal: Option<Error>)
    requires Inv(s)
    ensures var h := s.host;
            AdmitStep(h, key, hash, now, refusal).1 == Stored(encoded) <==>
              && h.started && key.device in h.devices && Timely(h, key, now)
              && Entry(key, encoded) in h.results && key in h.rows && h.rows[key].hash == hash
  {
    hide OpenWindow, ClaimsLeft, Get, MoveToEnd, WorksOk, Claimed, OutcomesOk, RowsOk, Total, Distinct;
    var h := s.host;
    WindowIsExact(h, now);
    WindowKeeps(h, s.log, now);
    KeySurvives(h, key, now);
    var h1 := OpenWindow(h, now);
    if Entry(key, encoded) in h1.results {
      GetFinds(h1.results, Entry(key, encoded));
    }
  }

  /** A hit becomes the newest entry; the others keep their order. */
  lemma HitGoesLast(h: Host, key: Key, hash: string)
    requires key in h.rows && CacheOk(h) && CachedStep(h, key, hash).1.Stored?
    ensures var (h1, answer) := CachedStep(h, key, hash);
            && |h1.results| == |h.results| && h1.results[|h1.results| - 1] == Entry(key, answer.encoded)
            && h1.results[..|h1.results| - 1] == PopAll(h.results, {key})
            && (forall e :: e in h1.results <==> e in h.results)
  {
    hide PopAll, Total;
    var encoded := CachedStep(h, key, hash).1.encoded;
    OneLess(h.results, key, encoded);
  }

  lemma {:induction false} OneLess(results: seq<Entry>, key: Key, encoded: string)
    requires Distinct(results) && Get(results, key) == Some(encoded)
    ensures |PopAll(results, {key})| == |results| - 1
    ensures forall e :: e in results ==> e.key != key || e == Entry(key, encoded)
  {
    if results[0].key == key {
      NonePopped(results[1..], key);
    } else {
      OneLess(results[1..], key, encoded);
    }
    assert forall e :: e in results ==> e == results[0] || e in results[1..];
  }

  lemma {:induction false} NonePopped(results: seq<Entry>, key: Key)
    requires forall e :: e in results ==> e.key != key
    ensures |PopAll(results, {key})| == |results|
  {
    if results != [] {
      NonePopped(results[1..], key);
    }
  }

  /** Eviction takes the oldest results, and none that there was room for. */
  lemma {:induction false} EvictionIsMinimal(results: seq<Entry>, bytes: int, size: nat, m: nat)
    requires m < Evicted(results, bytes, size)
    ensures |results| - m >= 64 || bytes - Total(results[..m]) + size > 8 * 1024 * 1024
    decreases m
  {
    if m == 0 {
      assert results[..0] == [];
    } else {
      EvictionIsMinimal(results[1..], bytes - |results[0].encoded|, size, m - 1);
      assert results[..m][1..] == results[1..][..m - 1];
    }
  }

  // ----- Outcomes -----------------------------------------------------------------------------------------

  /** A call's outcome is delivered exactly when it is a result of permitted size and nothing
      cancelled the call or ended its host; the result is then cached and may be sent. */
  lemma OutcomeIsExact(s: System, work: nat, outcome: Option<string>, cancelled: bool)
    requires Inv(s) && work in s.host.works && !s.host.works[work].finished
    ensures var h, w := s.host, s.host.works[work];
            var (h1, answer) := FinishStep(h, work, outcome, cancelled);
            var live := !w.cancelled && !cancelled && w.generation == h.generation && h.started;
            && (answer.Success? <==> live && outcome.Some? && |outcome.value| <= 8 * 1024 * 1024)
            && (answer.Success? ==>
                  && answer.value == outcome.value && Entry(w.key, outcome.value) in h1.results
                  && PublishCheck(h1, w.key).None? && h1.rows[w.key] == Row(w.hash, Succeeded))
            && (live && answer.Failure? ==>
                  && answer.error == ProcessingFailed && w.key in h1.rows && h1.rows[w.key] == Row(w.hash, Failed))
            && (!live ==>
                  && answer == Failure(OperationCancelled) && h1.results == h.results
                  && (h.started && w.generation == h.generation && w.key in h.rows ==>
                        h1.rows[w.key].status.Cancelled?)
                  && (!h.started || w.generation != h.generation ==> h1.rows == h.rows))
            && h1.rows.Keys == h.rows.Keys && (forall k :: k in h.rows && k != w.key ==> h1.rows[k] == h.rows[k])
  {
    hide Claimed, OutcomesOk, CacheOk, Evicted, Total, Put;
    if FinishStep(s.host, work, outcome, cancelled).1.Success? {
      StoredLast(s.host, work, outcome.value, cancelled);
    }
  }

  lemma StoredLast(h: Host, work: nat, encoded: string, cancelled: bool)
    requires work in h.works && FinishStep(h, work, Some(encoded), cancelled).1.Success?
    ensures Entry(h.works[work].key, encoded) in FinishStep(h, work, Some(encoded), cancelled).0.results
  {
    hide Evicted, Total;
    PutIsThere(h.results[Evicted(h.results, h.resultBytes, |encoded|)..], h.works[work].key, encoded);
  }

  lemma {:induction false} PutIsThere(results: seq<Entry>, key: Key, encoded: string)
    ensures Entry(key, encoded) in Put(results, key, encoded)
  {
    if results != [] && results[0].key != key {
      PutIsThere(results[1..], key, encoded);
      assert Entry(key, encoded) in Put(results, key, encoded)[1..];
    }
  }

  /** The end of a call gives back its own slot and its own entry, and nothing else. */
  lemma ReleaseIsExact(s: System, work: nat)
    requires Inv(s) && work in s.host.works
    ensures var h, h1 := s.host, ReleaseStep(s.host, work);
            && h1.free == h.free + 1 && h1.works == h.works - {work}
            && (forall k :: k in h1.running <==> k in h.running && h.running[k] != work)
            && (forall k :: k in h1.running ==> h1.running[k] == h.running[k])
            && h1.rows == h.rows && h1.results == h.results
  {
    hide Claimed, OutcomesOk, CacheOk;
  }

  // ----- Cancelling, revoking and restarting ----------------------------------------------------------------

  /** A cancellation is acknowledged exactly for a timely operation, or one that runs, which has
      a claim or finds room for one; it then ends the claim, its call and its result, and
      nothing else. */
  lemma CancelIsExact(h: Host, key: Key, now: int)
    ensures var (h1, refused) := CancelStep(h, key, now);
            && (refused.None? <==>
                  && h.started && key.device in h.devices && (key in h.running || Timely(h, key, now))
                  && (Survives(h, key, now) || |ClaimsLeft(h, now)| < 4096))
            && (refused.None? ==>
                  && key in h1.rows && h1.rows[key].status.Cancelled?
                  && h1.rows[key].hash == (if Survives(h, key, now) then h.rows[key].hash else "")
                  && (forall e :: e in h1.results ==> e.key != key)
                  && (key in h.running && h.running[key] in h.works ==>
                        h1.works[h.running[key]].cancelled)
                  && (forall w :: w in h.works && (key !in h.running || w != h.running[key]) ==>
                        w in h1.works && h1.works[w] == h.works[w])
                  && (forall k :: k != key ==>
                        (k in h1.rows <==> Survives(h, k, now)) && (k in h1.rows ==> h1.rows[k] == h.rows[k])))
            && (refused.Some? ==> h1.works == h.works && forall k :: k in h1.rows ==> h1.rows[k] == h.rows[k])
  {
    hide OpenWindow, ClaimsLeft, Bytes;
    WindowIsExact(h, now);
    WindowSize(h, now);
    forall k ensures k in ClaimsLeft(h, now) <==> Survives(h, k, now) {
      KeySurvives(h, k, now);
    }
  }

  /** Revoking takes everything of the device and nothing of another, except that a stopped
      host's running claims become uncertain. */
  lemma RevokeIsExact(h: Host, device: Device)
    requires WorksOk(h)
    ensures var h1 := RevokeStep(h, device);
            && h1.devices == h.devices - {device}
            && (forall k :: k in h1.rows <==> k in h.rows && k.device != device)
            && (forall k :: k in h1.rows ==>
                  && h1.rows[k].hash == h.rows[k].hash
                  && h1.rows[k].status ==
                     (if !h.started && h.rows[k].status.Running? then Uncertain else h.rows[k].status))
            && (forall e :: e in h1.results <==> e in h.results && e.key.device != device)
            && (forall w :: w in h.works ==>
                  w in h1.works && h1.works[w] ==
                    if h.works[w].key.device == device then h.works[w].(cancelled := true) else h.works[w])
  {
    hide Bytes;
    var h1 := RevokeStep(h, device);
    forall w | w in h.works
      ensures w in WorksOf(h.running, DeviceKeys(h.running.Keys, device)) <==> h.works[w].key.device == device
    {
      if h.works[w].key.device == device {
        assert h.running[h.works[w].key] == w;
      }
    }
  }

  /** After a start nothing is running, and what was has an unknown outcome. */
  lemma StartIsClean(h: Host, bound: bool)
    requires !h.started
    ensures var h1 := StartStep(h, bound);
            && h1.started == bound && h1.rows.Keys == h.rows.Keys
            && (forall k :: k in h.rows ==>
                  h1.rows[k] == if h.rows[k].status.Running? then Row(h.rows[k].hash, Uncertain) else h.rows[k])
  {}

  /** A stop cancels every call and, if it can be saved, every running claim; no result stays. */
  lemma StopIsClean(h: Host, saved: bool)
    requires h.started && WorksOk(h)
    ensures var h1 := StopStep(h, saved);
            && !h1.started && h1.results == [] && h1.rows.Keys == h.rows.Keys
            && (forall w :: w in h.works ==> w in h1.works && h1.works[w] == h.works[w].(cancelled := true))
            && (forall k :: k in h.rows ==>
                  h1.rows[k] ==
                    if saved && h.rows[k].status.Running? then Row(h.rows[k].hash, Cancelled) else h.rows[k])
  {
    forall w | w in h.works ensures w in h.running.Values {
      assert h.running[h.works[w].key] == w;
    }
  }

  /** A running host pairs the device, and no other; from then on it is not turned away as
      unknown until it is revoked. A stopped host pairs nobody. */
  lemma PairIsExact(h: Host, device: Device, key: Key, hash: string, now: int, refusal: Option<Error>)
    ensures var h1 := PairStep(h, device);
            && (forall d :: d in h1.devices <==> d in h.devices || (h.started && d == device))
            && h1 == h.(devices := h1.devices)
            && (h.started && key.device == device && refusal.None? ==>
                  AdmitStep(h1, key, hash, now, refusal).1 != Refuse(Unauthorized))
  {
    hide OpenWindow;
    if refusal.None? {
      OthersAreTurnedAway(PairStep(h, device), key, hash, now, refusal);
    }
  }
}
