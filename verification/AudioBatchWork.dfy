/** audio_file_batch.py: what a finished batch shows for each file is what its worker made of it. */
module AudioBatchWork {
  import opened Wrappers
  import opened AudioBatch
  import opened AudioBatchRuns

  type Work = Result<Item, CallError>

  /** `shown` is what a worker that ended with `work` leaves of `before`. */
  predicate Shows(before: Item, work: Work, shown: Item) {
    match work
    case Success(item) => shown == item
    case Failure(error) =>
      && shown.path == before.path && shown.text == before.text && shown.attempts == before.attempts
      && (error.isCancellation ==> shown.status.Cancelled? && shown.error == "File processing was cancelled")
      && (!error.isCancellation ==> shown.status.Failed? && shown.error == error.message)
  }

  /** What a cancellation leaves of a file: one that never had a worker, one whose worker was done
      too late, and one whose worker failed. */
  predicate Cuts(before: Item, work: Option<Work>, shown: Item) {
    match work
    case None => shown == before.(status := Cancelled, error := "Batch cancelled before processing")
    case Some(Success(item)) =>
      item.status.Succeeded? &&
      shown == Item(item.path, Cancelled, "", "", "", item.attempts, "File processing was cancelled")
    case Some(Failure(_)) => shown == before.(status := Cancelled, error := "File processing was cancelled")
  }

  /** How the workers of a run ended. */
  function WorkOf(log: map<nat, Work>, events: seq<Event>): map<nat, Work>
    decreases events
  {
    if events == [] then log else WorkOf(Logged(log, events[0]), events[1..])
  }

  function Worked(log: map<nat, Work>, i: nat): Option<Work> {
    if i in log then Some(log[i]) else None
  }

  function Logged(log: map<nat, Work>, e: Event): map<nat, Work> {
    if e.WorkerDone? then log[e.index := e.outcome] else log
  }

  // ----- What every step keeps --------------------------------------------------------------------------

  predicate Shown(before: Item, log: map<nat, Work>, i: nat, item: Item, cancelled: bool) {
    (i in log && Shows(before, log[i], item)) || (cancelled && Cuts(before, Worked(log, i), item))
  }

  predicate ItemOk(before: Item, log: map<nat, Work>, i: nat, now: Item, cancelled: bool) {
    if !before.status.Pending? then before.status.Failed? && now == before
    else
      && (now.status.Pending? ==> now == before && i !in log)
      && (now.status.Processing? ==> now == before.(status := Processing, error := ""))
      && (Terminal(now.status) ==> Shown(before, log, i, now, cancelled))
  }

  predicate ItemsOk(before: seq<Item>, t: Table, log: map<nat, Work>) {
    && |before| == |t.results|
    && (forall i :: 0 <= i < |before| ==> ItemOk(before[i], log, i, t.results[i], t.cancelled))
    && (!t.cancelled ==> forall i :: i in t.active ==> !t.active[i])
  }

  ghost predicate LogOk(b: Batch, log: map<nat, Work>) {
    && log.Keys == b.calls.Keys
    && (forall i :: i in b.finished ==> i in log && log[i] == b.finished[i])
  }

  ghost predicate DeliveryOk(before: seq<Item>, b: Batch, log: map<nat, Work>) {
    match b.place
    case Deliver(index, item, _) =>
      && index < |before| && before[index].status.Pending? && index in log
      && Shown(before[index], log, index, item, b.table.cancelled)
    case Pop(index, _) => index in log
    case Done =>
      && b.result.Some? && b.result.value.0 == b.table.results
      && (!b.result.value.1 ==>
            forall i :: 0 <= i < |before| && i < |b.table.results| && before[i].status.Pending? ==>
              Shown(before[i], log, i, b.table.results[i], false))
    case _ => true
  }

  ghost predicate WorkOk(before: seq<Item>, b: Batch, log: map<nat, Work>) {
    ItemsOk(before, b.table, log) && LogOk(b, log) && DeliveryOk(before, b, log)
  }

  /** A worker ends once, so what is logged stays. */
  lemma WorkIsLoggedOnce(l: Limits, before: seq<Item>, b: Batch, log: map<nat, Work>, e: Event)
    requires Inv(l, b) && LogOk(b, log) && Possible(l, b, e) && e.WorkerDone?
    ensures e.index !in log && LogOk(Next(l, b, e), log[e.index := e.outcome])
  {
    hide TableOk, TodoOk, PlaceOk;
  }

  lemma LogGrows(before: seq<Item>, t: Table, log: map<nat, Work>, index: nat, work: Work)
    requires ItemsOk(before, t, log) && index !in log && index < |t.results| && t.results[index].status.Processing?
    ensures ItemsOk(before, t, log[index := work])
  {
    hide Shows;
    var more := log[index := work];
    forall i | 0 <= i < |before| ensures ItemOk(before[i], more, i, t.results[i], t.cancelled) {
      assert ItemOk(before[i], log, i, t.results[i], t.cancelled);
    }
  }

  lemma WorkerIsProcessing(l: Limits, before: seq<Item>, b: Batch, log: map<nat, Work>, e: Event)
    requires Inv(l, b) && DeliveryOk(before, b, log) && Possible(l, b, e) && e.WorkerDone? && e.index !in log
    ensures e.index < |b.table.results| && b.table.results[e.index].status.Processing?
  {
    hide TodoOk;
    assert b.place.Pop? ==> b.place.index in log;
    assert e.index in b.under;
  }

  lemma WorkerWorks(l: Limits, before: seq<Item>, b: Batch, log: map<nat, Work>, e: Event)
    requires Inv(l, b) && WorkOk(before, b, log) && Possible(l, b, e) && e.WorkerDone?
    ensures WorkOk(before, Next(l, b, e), log[e.index := e.outcome])
  {
    hide Inv, ItemsOk, LogOk, Shows;
    WorkIsLoggedOnce(l, before, b, log, e);
    WorkerIsProcessing(l, before, b, log, e);
    LogGrows(before, b.table, log, e.index, e.outcome);
  }

  /** One file changes. */
  lemma OneItem(before: seq<Item>, t: Table, log: map<nat, Work>, index: nat, item: Item, active: map<nat, bool>)
    requires ItemsOk(before, t, log) && index < |t.results|
    requires ItemOk(before[index], log, index, item, t.cancelled)
    requires !t.cancelled ==> forall i :: i in active ==> !active[i]
    ensures ItemsOk(before, t.(results := t.results[index := item], active := active), log)
  {
    hide ItemOk;
  }

  lemma WorkingItem(l: Limits, before: seq<Item>, b: Batch, log: map<nat, Work>, index: nat)
    requires TableOk(l, b) && ItemsOk(before, b.table, log) && index in b.table.active
    ensures index < |before| && before[index].status.Pending? && b.table.results[index].status.Processing?
    ensures b.table.results[index] == before[index].(status := Processing, error := "")
    ensures b.table.active[index] ==> b.table.cancelled
  {}

  lemma ClaimWorks(l: Limits, before: seq<Item>, b: Batch, log: map<nat, Work>, index: nat)
    requires ItemsOk(before, b.table, log) && index < |b.table.results| && MayClaim(b.table, index)
    ensures ItemsOk(before, Claimed(b.table, index), log)
  {
    hide Shown;
    var t := b.table;
    assert ItemOk(before[index], log, index, t.results[index], t.cancelled);
    OneItem(before, t, log, index, t.results[index].(status := Processing, error := ""), t.active[index := false]);
  }

  /** What is collected is what the worker left, unless a cancellation is under way. */
  lemma CollectedWorks(l: Limits, before: seq<Item>, b: Batch, log: map<nat, Work>, index: nat)
    requires TableOk(l, b) && ItemsOk(before, b.table, log) && LogOk(b, log)
    requires index in b.finished && index in b.table.active && index < |b.table.results|
    ensures index < |before| && before[index].status.Pending? && index in log
    ensures Shown(before[index], log, index, Collected(b, index), b.table.cancelled)
  {
    WorkingItem(l, before, b, log, index);
    hide TableOk, ItemsOk;
  }

  lemma DeliveredWorks(l: Limits, before: seq<Item>, b: Batch, log: map<nat, Work>)
    requires ItemsOk(before, b.table, log) && DeliveryOk(before, b, log) && b.place.Deliver?
    requires b.place.index in b.table.active && b.place.index < |b.table.results| && Terminal(b.place.item.status)
    requires TableOk(l, b)
    ensures ItemsOk(before, Published(b.table, b.place.index, b.place.item, Some(b.table.active[b.place.index])), log)
  {
    var Deliver(index, item, _) := b.place;
    var t := Published(b.table, index, item, Some(b.table.active[index]));
    WorkingItem(l, before, b, log, index);
    OneItem(before, b.table, log, index, t.results[index], t.active);
  }

  lemma SweptWorks(before: seq<Item>, b: Batch, log: map<nat, Work>, i: nat, item: Item)
    requires ItemsOk(before, b.table, log) && i < |b.table.results| && b.table.cancelled
    requires item.status.Cancelled? && item == Marked(b.table.results[i])
    ensures ItemsOk(before, Published(b.table, i, item, None), log)
  {
    hide Shows;
    assert ItemOk(before[i], log, i, b.table.results[i], true);
    OneItem(before, b.table, log, i, item, b.table.active);
  }

  /** At the end nothing waits and nothing is under way. */
  lemma ClosedWorks(l: Limits, before: seq<Item>, b: Batch, log: map<nat, Work>, i: nat)
    requires TableOk(l, b) && PlaceOk(l, b) && b.place.Close? && ItemsOk(before, b.table, log)
    requires i < |before| && before[i].status.Pending? && !b.table.cancelled
    ensures i < |b.table.results| && Shown(before[i], log, i, b.table.results[i], false)
  {
    hide Shows;
    assert ItemOk(before[i], log, i, b.table.results[i], false);
  }

  lemma FinishedIsActive(l: Limits, b: Batch, index: nat)
    requires TableOk(l, b) && WorkersOk(l, b) && b.place.Collect? && index in b.finished
    ensures index in b.table.active
  {}

  lemma CollectWorks(l: Limits, before: seq<Item>, b: Batch, log: map<nat, Work>, chosen: seq<nat>)
    requires Inv(l, b) && WorkOk(before, b, log) && b.place.Collect?
    ensures WorkOk(before, StepOf(l, b, chosen), log)
  {
    hide TableOk, TodoOk, WorkersOk, ItemsOk, LogOk, Shown, Collected;
    if StepOf(l, b, chosen).place.Deliver? {
      FinishedIsActive(l, b, b.place.rest[0]);
      CollectedWorks(l, before, b, log, b.place.rest[0]);
    }
    SameLog(b, StepOf(l, b, chosen), log);
  }

  lemma CloseWorks(l: Limits, before: seq<Item>, b: Batch, log: map<nat, Work>, chosen: seq<nat>)
    requires Inv(l, b) && WorkOk(before, b, log) && b.place.Close?
    ensures WorkOk(before, StepOf(l, b, chosen), log)
  {
    hide TableOk, TodoOk, WorkersOk, ItemsOk, LogOk, Shown;
    forall i | 0 <= i < |before| && i < |b.table.results| && before[i].status.Pending? && !b.table.cancelled
      ensures Shown(before[i], log, i, b.table.results[i], false)
    {
      ClosedWorks(l, before, b, log, i);
    }
    SameLog(b, StepOf(l, b, chosen), log);
  }

  lemma SameLog(b: Batch, b1: Batch, log: map<nat, Work>)
    requires LogOk(b, log) && b1.calls == b.calls && b1.finished.Keys <= b.finished.Keys
    requires forall i :: i in b1.finished ==> b1.finished[i] == b.finished[i]
    ensures LogOk(b1, log)
  {}

  lemma TableWorks(l: Limits, before: seq<Item>, b: Batch, log: map<nat, Work>, chosen: seq<nat>)
    requires Inv(l, b) && WorkOk(before, b, log) && (b.place.Claim? || b.place.Deliver? || b.place.SweepWrite?)
    ensures WorkOk(before, StepOf(l, b, chosen), log)
  {
    hide TableOk, TodoOk, WorkersOk, ItemsOk, LogOk, Shown, Published, Claimed, Marked;
    var b1 := StepOf(l, b, chosen);
    if b1.place.Submit? {
      ClaimWorks(l, before, b, log, b.place.index);
    } else if b1.place.Pop? {
      DeliveredWorks(l, before, b, log);
    } else if b.place.SweepWrite? {
      TableSize(l, b);
      SweptWorks(before, b, log, b.place.i, b.place.item);
    }
    SameLog(b, b1, log);
  }

  lemma StepWorks(l: Limits, before: seq<Item>, b: Batch, log: map<nat, Work>, chosen: seq<nat>)
    requires Inv(l, b) && WorkOk(before, b, log) && Possible(l, b, Step(chosen))
    ensures WorkOk(before, StepOf(l, b, chosen), log)
  {
    hide Inv, ItemsOk, LogOk, Shown;
    match b.place
    case Claim(_) => TableWorks(l, before, b, log, chosen);
    case Collect(_) => CollectWorks(l, before, b, log, chosen);
    case Deliver(_, _, _) => TableWorks(l, before, b, log, chosen);
    case SweepWrite(_, _) => TableWorks(l, before, b, log, chosen);
    case Close => CloseWorks(l, before, b, log, chosen);
    case _ => SameLog(b, StepOf(l, b, chosen), log);
  }

  lemma CancelledWorks(before: seq<Item>, t: Table, log: map<nat, Work>)
    requires ItemsOk(before, t, log)
    ensures ItemsOk(before, t.(cancelled := true), log)
  {
    hide Shows;
    forall i | 0 <= i < |before| ensures ItemOk(before[i], log, i, t.results[i], true) {
      assert ItemOk(before[i], log, i, t.results[i], t.cancelled);
    }
  }

  lemma MarkedWorks(before: seq<Item>, t: Table, log: map<nat, Work>, index: nat)
    requires ItemsOk(before, t, log) && t.cancelled && index < |t.results| && t.results[index].status.Pending?
    ensures ItemsOk(before, t.(results := t.results[index := Marked(t.results[index])]), log)
  {
    hide Shows;
    assert ItemOk(before[index], log, index, t.results[index], true);
    OneItem(before, t, log, index, Marked(t.results[index]), t.active);
  }

  /** A cancellation after the end finds nothing to change. */
  lemma CancelWorks(l: Limits, before: seq<Item>, b: Batch, log: map<nat, Work>, e: Event)
    requires Inv(l, b) && WorkOk(before, b, log) && Possible(l, b, e)
    requires e.CancelLock? || e.CancelMark? || e.CancelUnlock?
    ensures WorkOk(before, Next(l, b, e), log)
  {
    hide TodoOk, WorkersOk, ItemsOk, Shows, Marked;
    if e.CancelLock? {
      CancelledWorks(before, b.table, log);
    } else if e.CancelMark? {
      MarkedWorks(before, b.table, log, e.index);
    } else {
      UnlockedWorks(before, b.table, log);
    }
  }

  lemma UnlockedWorks(before: seq<Item>, t: Table, log: map<nat, Work>)
    requires ItemsOk(before, t, log)
    ensures t.cancelled ==> ItemsOk(before, t.(active := map i | i in t.active :: true), log)
  {
    hide ItemOk;
  }

  lemma NextWorks(l: Limits, before: seq<Item>, b: Batch, log: map<nat, Work>, e: Event)
    requires Inv(l, b) && WorkOk(before, b, log) && Possible(l, b, e)
    ensures WorkOk(before, Next(l, b, e), Logged(log, e))
  {
    hide Inv, WorkOk, Possible, StepOf;
    match e
    case Step(chosen) => StepWorks(l, before, b, log, chosen);
    case WorkerDone(_, _, _) => WorkerWorks(l, before, b, log, e);
    case _ => CancelWorks(l, before, b, log, e);
  }

  lemma {:induction false} RunWorks(l: Limits, before: seq<Item>, b: Batch, log: map<nat, Work>, events: seq<Event>,
                                    end: Batch)
    requires Inv(l, b) && WorkOk(before, b, log) && Run(l, b, events, end)
    ensures Inv(l, end) && WorkOk(before, end, WorkOf(log, events))
    decreases events
  {
    hide Inv, WorkOk, Possible, Next, Logged;
    if events != [] {
      NextKeeps(l, b, events[0]);
      NextWorks(l, before, b, log, events[0]);
      RunWorks(l, before, Next(l, b, events[0]), Logged(log, events[0]), events[1..], end);
    }
  }

  /** When a batch is done, its result shows refused imports as they were, and for every other file
      exactly what its own worker made of it. Only in a batch that was cancelled may it show what
      the cancellation left instead: never over a worker's own failure, and nothing of a result. */
  lemma WorkIsShown(l: Limits, b: Batch, events: seq<Event>, end: Batch, i: nat)
    requires Initial(l, b) && Run(l, b, events, end) && end.place.Done? && i < |l.paths|
    ensures end.result.Some? && |end.result.value.0| == |l.paths| == |b.table.results|
    ensures var (files, cancelled), work := end.result.value, WorkOf(map[], events);
            && (!b.table.results[i].status.Pending? ==> files[i] == b.table.results[i])
            && (b.table.results[i].status.Pending? ==>
                  (i in work && Shows(b.table.results[i], work[i], files[i])) ||
                  (cancelled && Cuts(b.table.results[i], Worked(work, i), files[i])))
  {
    hide Run, TodoOk, WorkersOk, Shows, Cuts;
    InitialOk(l, b);
    RunWorks(l, b.table.results, b, map[], events, end);
    assert ItemOk(b.table.results[i], WorkOf(map[], events), i, end.table.results[i], end.table.cancelled);
  }
}
