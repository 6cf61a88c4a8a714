/** audio_file_batch.py over every interleaving of the submitting thread, the workers and any
    number of cancellations. */
module AudioBatchRuns {
  import opened Wrappers
  import opened AudioBatch

  /** Where the submitting thread is. `Claim`, `Deliver`, `SweepWrite` and `Close` take the lock. */
  datatype Place =
    | Begin | Outer | Fill | Claim(index: nat) | Submit(index: nat) | Wait
    | Collect(rest: seq<nat>) | Deliver(index: nat, item: Item, rest: seq<nat>) | Pop(index: nat, rest: seq<nat>)
    | After | Sweep(i: nat) | SweepWrite(i: nat, item: Item) | Close | Done

  datatype Limits = Limits(paths: seq<string>, maxWorkers: nat, maxAttempts: nat)

  /** `locked` while a cancellation is under way; `under` are the submitted files, `finished` the
      results of their workers, `calls` the provider calls made for each file. */
  datatype Batch = Batch(table: Table, locked: bool, place: Place, todo: seq<nat>, cursor: nat, under: set<nat>,
                         finished: map<nat, Result<Item, CallError>>, calls: map<nat, nat>,
                         result: Option<(seq<Item>, bool)>)

  /** A cancellation takes the lock and sets the token, marks what waits file by file, and
      cancels what is under way before it lets go. */
  datatype Event =
    | Step(chosen: seq<nat>)
    | WorkerDone(index: nat, outcome: Result<Item, CallError>, made: nat)
    | CancelLock
    | CancelMark(index: nat)
    | CancelUnlock

  predicate Distinct(s: seq<nat>) {
    forall i, j :: 0 <= i < j < |s| ==> s[i] != s[j]
  }

  predicate NothingPending(t: Table) {
    forall i :: 0 <= i < |t.results| ==> !t.results[i].status.Pending?
  }

  predicate TakesLock(p: Place) {
    p.Claim? || p.Deliver? || p.SweepWrite? || p.Close?
  }

  ghost predicate Possible(l: Limits, b: Batch, e: Event) {
    match e
    case Step(chosen) =>
      && !b.place.Done? && (TakesLock(b.place) ==> !b.locked)
      && (b.place.Begin? ==>
            && Distinct(chosen) && (forall i :: i in chosen ==> i < |b.table.results|)
            && (forall i :: 0 <= i < |b.table.results| && b.table.results[i].status.Pending? ==> i in chosen))
      && (b.place.Wait? ==>
            chosen != [] && Distinct(chosen) && forall i :: i in chosen ==> i in b.under && i in b.finished)
    case WorkerDone(index, outcome, made) =>
      && index in b.under && index !in b.finished && index < |l.paths| && made <= l.maxAttempts
      && (outcome.Success? ==> Terminal(outcome.value.status) && outcome.value.path == l.paths[index])
    case CancelLock => !b.locked
    case CancelMark(index) => b.locked && index < |b.table.results| && b.table.results[index].status.Pending?
    case CancelUnlock => b.locked && NothingPending(b.table)
  }

  function Count(calls: map<nat, nat>, index: nat): nat {
    if index in calls then calls[index] else 0
  }

  /** The item of a finished future, read without the lock. */
  function Collected(b: Batch, index: nat): Item
    requires index in b.finished && index < |b.table.results|
  {
    match b.finished[index]
    case Success(item) => item
    case Failure(error) => FailureItem(b.table, index, error, index in b.table.active && b.table.active[index])
  }

  function StepOf(l: Limits, b: Batch, chosen: seq<nat>): Batch {
    var t := b.table;
    match b.place
    case Begin => b.(todo := chosen, cursor := 0, place := Outer)
    case Outer => b.(place := if b.under == {} && b.cursor >= |b.todo| then After else Fill)
    case Fill =>
      if !t.cancelled && |b.under| < l.maxWorkers && b.cursor < |b.todo| then
        b.(place := Claim(b.todo[b.cursor]), cursor := b.cursor + 1)
      else b.(place := if b.under == {} then After else Wait)
    case Claim(index) =>
      if index < |t.results| && MayClaim(t, index) then b.(table := Claimed(t, index), place := Submit(index))
      else b.(place := Fill)
    case Submit(index) => b.(under := b.under + {index}, place := Fill)
    case Wait => b.(place := Collect(chosen))
    case Collect(rest) =>
      if rest == [] then b.(place := Outer)
      else if rest[0] in b.finished && rest[0] < |t.results| then
        b.(place := Deliver(rest[0], Collected(b, rest[0]), rest[1..]))
      else b
    case Deliver(index, item, rest) =>
      if index < |t.results| && index in t.active then
        b.(table := Published(t, index, item, Some(t.active[index])), place := Pop(index, rest))
      else b
    case Pop(index, rest) => b.(under := b.under - {index}, finished := b.finished - {index}, place := Collect(rest))
    case After => b.(place := if t.cancelled then Sweep(0) else Close)
    case Sweep(i) =>
      if i >= |t.results| then b.(place := Close)
      else if t.results[i].status.Pending? then b.(place := SweepWrite(i, Marked(t.results[i])))
      else b.(place := Sweep(i + 1))
    case SweepWrite(i, item) =>
      if i < |t.results| then b.(table := Published(t, i, item, None), place := Sweep(i + 1)) else b
    case Close => b.(result := Some((t.results, t.cancelled)), place := Done)
    case Done => b
  }

  ghost function Next(l: Limits, b: Batch, e: Event): Batch
    requires Possible(l, b, e)
  {
    match e
    case Step(chosen) => StepOf(l, b, chosen)
    case WorkerDone(index, outcome, made) =>
      b.(finished := b.finished[index := outcome], calls := b.calls[index := Count(b.calls, index) + made])
    case CancelLock => b.(locked := true, table := b.table.(cancelled := true))
    case CancelMark(index) =>
      b.(table := b.table.(results := b.table.results[index := Marked(b.table.results[index])]))
    case CancelUnlock => b.(locked := false, table := b.table.(active := map i | i in b.table.active :: true))
  }

  ghost predicate Run(l: Limits, b: Batch, events: seq<Event>, end: Batch)
    decreases events
  {
    if events == [] then b == end
    else Possible(l, b, events[0]) && Run(l, Next(l, b, events[0]), events[1..], end)
  }

  /** Before the thread starts: imports that were refused have failed already. */
  ghost predicate Initial(l: Limits, b: Batch) {
    && l.maxWorkers > 0 && |b.table.results| == |l.paths| && !b.table.cancelled && b.table.active == map[]
    && (forall i :: 0 <= i < |l.paths| ==>
          b.table.results[i].path == l.paths[i] &&
          (b.table.results[i].status.Pending? || b.table.results[i].status.Failed?))
    && !b.locked && b.place.Begin? && b.todo == [] && b.cursor == 0 && b.under == {}
    && b.finished == map[] && b.calls == map[] && b.result.None?
  }

  // ----- What every step keeps --------------------------------------------------------------------------

  /** The file that is claimed but not submitted. */
  function Submitting(p: Place): set<nat> {
    if p.Submit? then {p.index} else {}
  }

  /** The file that is published but still listed as submitted. */
  function Popping(p: Place): set<nat> {
    if p.Pop? then {p.index} else {}
  }

  ghost predicate TableOk(l: Limits, b: Batch) {
    && |b.table.results| == |l.paths|
    && (forall i :: 0 <= i < |l.paths| ==> b.table.results[i].path == l.paths[i])
    && (b.locked ==> b.table.cancelled)
    && b.table.active.Keys == b.under + Submitting(b.place) - Popping(b.place)
    && (forall i :: i in b.table.active ==> i < |l.paths| && b.table.results[i].status.Processing?)
    && (forall i :: 0 <= i < |l.paths| && b.table.results[i].status.Processing? ==> i in b.table.active)
  }

  /** Files still to be claimed are those that nobody worked on. */
  ghost predicate TodoOk(l: Limits, b: Batch) {
    && Distinct(b.todo) && b.cursor <= |b.todo| && (forall i :: i in b.todo ==> i < |l.paths|)
    && (forall i :: i in b.under || i in b.calls || i in Submitting(b.place) ==> i in b.todo[..b.cursor])
    && (!b.place.Begin? ==>
          forall i :: 0 <= i < |b.table.results| && b.table.results[i].status.Pending? ==>
            i in b.todo[b.cursor..] || b.place == Claim(i) || b.table.cancelled)
    && (b.place.Claim? ==>
          b.place.index in b.todo[..b.cursor] && b.place.index !in b.under && b.place.index !in b.calls)
    && (b.place.Submit? ==> b.place.index !in b.under && b.place.index !in b.calls)
    && (b.place.Begin? ==> b.todo == [] && b.under == {} && b.calls == map[])
  }

  ghost predicate WorkersOk(l: Limits, b: Batch) {
    && l.maxWorkers > 0 && |b.under| <= l.maxWorkers
    && (b.place.Claim? || b.place.Submit? ==> |b.under| < l.maxWorkers)
    && b.finished.Keys <= b.under
    && (forall i :: i in b.finished && b.finished[i].Success? && i < |l.paths| ==>
          Terminal(b.finished[i].value.status) && b.finished[i].value.path == l.paths[i])
    && (forall i :: i in b.under && i in b.calls ==> i in b.finished)
    && (forall i :: i in b.calls ==> b.calls[i] <= l.maxAttempts)
  }

  ghost predicate PlaceOk(l: Limits, b: Batch) {
    match b.place
    case Collect(rest) => Distinct(rest) && forall i :: i in rest ==> i in b.finished
    case Deliver(index, item, rest) =>
      && Distinct(rest) && index !in rest && (forall i :: i in rest ==> i in b.finished)
      && index in b.finished && index < |l.paths| && Terminal(item.status) && item.path == l.paths[index]
    case Pop(index, rest) =>
      && Distinct(rest) && index !in rest && (forall i :: i in rest ==> i in b.finished)
      && index in b.under && index < |l.paths|
    case After => b.under == {} && (b.table.cancelled || b.cursor == |b.todo|)
    case Sweep(i) => Swept(l, b, i)
    case SweepWrite(i, item) =>
      && Swept(l, b, i) && i < |l.paths| && i < |b.table.results|
      && item.status.Cancelled? && Marked(b.table.results[i]) == item
    case Close => b.under == {} && NothingPending(b.table)
    case Done => b.under == {} && NothingPending(b.table) && b.result.Some? && b.result.value.0 == b.table.results
    case _ => true
  }

  ghost predicate Swept(l: Limits, b: Batch, i: nat) {
    && b.under == {} && b.table.cancelled
    && forall j :: 0 <= j < i && j < |b.table.results| ==> !b.table.results[j].status.Pending?
  }

  ghost predicate Inv(l: Limits, b: Batch) {
    TableOk(l, b) && TodoOk(l, b) && WorkersOk(l, b) && PlaceOk(l, b)
  }

  // ----- What stays when something else changes --------------------------------------------------------

  lemma SameTable(l: Limits, b: Batch, b1: Batch)
    requires TableOk(l, b) && b1.table == b.table && b1.locked == b.locked && b1.under == b.under
    requires Submitting(b1.place) == Submitting(b.place) && Popping(b1.place) == Popping(b.place)
    ensures TableOk(l, b1)
  {}

  lemma SameTodo(l: Limits, b: Batch, b1: Batch)
    requires TodoOk(l, b)
    requires b1.todo == b.todo && b1.cursor == b.cursor && b1.under <= b.under && b1.calls == b.calls
    requires !b.place.Begin? && !b1.place.Begin? && !b1.place.Submit?
    requires b1.place == b.place || (!b.place.Claim? && !b1.place.Claim?)
    requires |b1.table.results| == |b.table.results| && (b.table.cancelled ==> b1.table.cancelled)
    requires forall i :: 0 <= i < |b.table.results| && b1.table.results[i].status.Pending? ==>
      b.table.results[i].status.Pending?
    ensures TodoOk(l, b1)
  {}

  lemma SameWorkers(l: Limits, b: Batch, b1: Batch)
    requires WorkersOk(l, b) && b1.under == b.under && b1.finished == b.finished && b1.calls == b.calls
    requires b1.place.Claim? || b1.place.Submit? ==> |b.under| < l.maxWorkers
    ensures WorkersOk(l, b1)
  {}

  /** A place in which no file is between two tables. */
  predicate Settled(p: Place) {
    !p.Begin? && !p.Claim? && !p.Submit? && !p.Pop?
  }

  lemma OnlyPlaceMoves(l: Limits, b: Batch, b1: Batch)
    requires TableOk(l, b) && TodoOk(l, b) && WorkersOk(l, b)
    requires b1 == b.(place := b1.place, result := b1.result) && Settled(b.place) && Settled(b1.place)
    ensures TableOk(l, b1) && TodoOk(l, b1) && WorkersOk(l, b1)
  {
    hide TableOk, TodoOk, WorkersOk;
    SameTable(l, b, b1);
    SameTodo(l, b, b1);
    SameWorkers(l, b, b1);
  }

  lemma QuietStep(l: Limits, b: Batch, chosen: seq<nat>)
    requires b.place.Wait? || b.place.Collect? || b.place.After? || b.place.Sweep? || b.place.Close? || b.place.Outer?
    ensures var b1 := StepOf(l, b, chosen);
            b1 == b.(place := b1.place, result := b1.result) && Settled(b.place) && Settled(b1.place)
  {
    hide Collected, Marked;
  }

  lemma EverythingTaken(l: Limits, b: Batch)
    requires TodoOk(l, b) && !b.place.Begin? && !b.place.Claim? && b.cursor == |b.todo| && !b.table.cancelled
    ensures NothingPending(b.table)
  {
    assert b.todo[|b.todo|..] == [];
  }

  // ----- The submitting thread ----------------------------------------------------------------------------

  lemma BeginKeeps(l: Limits, b: Batch, chosen: seq<nat>)
    requires Inv(l, b) && Possible(l, b, Step(chosen)) && b.place.Begin?
    ensures Inv(l, StepOf(l, b, chosen))
  {
    hide TableOk, WorkersOk;
    SameTable(l, b, StepOf(l, b, chosen));
    SameWorkers(l, b, StepOf(l, b, chosen));
    assert chosen[..0] == [] && chosen[0..] == chosen;
  }

  lemma TakeNext(todo: seq<nat>, cursor: nat)
    requires Distinct(todo) && cursor < |todo|
    ensures todo[cursor] !in todo[..cursor] && todo[cursor] in todo[..cursor + 1]
    ensures forall i :: i in todo[..cursor] ==> i in todo[..cursor + 1]
    ensures forall i :: i in todo[cursor..] ==> i == todo[cursor] || i in todo[cursor + 1..]
  {}

  lemma TakeTodo(l: Limits, b: Batch)
    requires TodoOk(l, b) && b.place.Fill? && b.cursor < |b.todo|
    ensures TodoOk(l, b.(place := Claim(b.todo[b.cursor]), cursor := b.cursor + 1))
  {
    TakeNext(b.todo, b.cursor);
  }

  lemma FillKeeps(l: Limits, b: Batch, chosen: seq<nat>)
    requires Inv(l, b) && Possible(l, b, Step(chosen)) && b.place.Fill?
    ensures Inv(l, StepOf(l, b, chosen))
  {
    hide TableOk, TodoOk, WorkersOk, Possible;
    var b1 := StepOf(l, b, chosen);
    SameTable(l, b, b1);
    SameWorkers(l, b, b1);
    if b1.place.Claim? {
      TakeTodo(l, b);
    } else {
      SameTodo(l, b, b1);
      CursorInside(l, b);
    }
  }

  lemma CursorInside(l: Limits, b: Batch)
    requires TodoOk(l, b)
    ensures b.cursor <= |b.todo|
  {}

  lemma ClaimedTable(l: Limits, b: Batch)
    requires TableOk(l, b) && b.place.Claim? && b.place.index < |l.paths|
    ensures TableOk(l, b.(table := Claimed(b.table, b.place.index), place := Submit(b.place.index)))
  {}

  lemma ClaimedTodo(l: Limits, b: Batch)
    requires TodoOk(l, b) && b.place.Claim? && b.place.index < |b.table.results|
    ensures TodoOk(l, b.(table := Claimed(b.table, b.place.index), place := Submit(b.place.index)))
  {}

  /** A file is claimed only while it waits and nothing is cancelled. */
  lemma ClaimKeeps(l: Limits, b: Batch, chosen: seq<nat>)
    requires Inv(l, b) && Possible(l, b, Step(chosen)) && b.place.Claim?
    ensures Inv(l, StepOf(l, b, chosen))
  {
    hide TableOk, TodoOk, WorkersOk;
    var b1 := StepOf(l, b, chosen);
    TableSize(l, b);
    TodoFits(l, b);
    RoomForOne(l, b);
    ClaimedTodo(l, b);
    SameWorkers(l, b, b1);
    if b1.place.Submit? {
      ClaimedTable(l, b);
    } else {
      SameTable(l, b, b1);
      RefusedClaim(l, b);
    }
  }

  lemma TableSize(l: Limits, b: Batch)
    requires TableOk(l, b)
    ensures |b.table.results| == |l.paths| && (b.locked ==> b.table.cancelled)
  {}

  lemma TodoFits(l: Limits, b: Batch)
    requires TodoOk(l, b) && b.place.Claim?
    ensures b.place.index < |l.paths|
  {
    assert b.place.index in b.todo;
  }

  lemma RoomForOne(l: Limits, b: Batch)
    requires WorkersOk(l, b) && (b.place.Claim? || b.place.Submit?)
    ensures |b.under| < l.maxWorkers
  {}

  /** A refused file is marked already, or will be by the sweep of a cancelled batch. */
  lemma RefusedClaim(l: Limits, b: Batch)
    requires TodoOk(l, b) && b.place.Claim? && b.place.index < |b.table.results|
    requires !MayClaim(b.table, b.place.index)
    ensures TodoOk(l, b.(place := Fill))
  {}

  lemma SubmitKeeps(l: Limits, b: Batch, chosen: seq<nat>)
    requires Inv(l, b) && Possible(l, b, Step(chosen)) && b.place.Submit?
    ensures Inv(l, StepOf(l, b, chosen))
  {
    hide TableOk, TodoOk, WorkersOk;
    SubmittedTable(l, b);
    SubmittedTodo(l, b);
    SubmittedWorkers(l, b);
  }

  lemma SubmittedTable(l: Limits, b: Batch)
    requires TableOk(l, b) && b.place.Submit?
    ensures TableOk(l, b.(under := b.under + {b.place.index}, place := Fill))
  {}

  lemma SubmittedTodo(l: Limits, b: Batch)
    requires TodoOk(l, b) && b.place.Submit?
    ensures TodoOk(l, b.(under := b.under + {b.place.index}, place := Fill))
    ensures b.place.index !in b.under && b.place.index !in b.calls
  {}

  lemma SubmittedWorkers(l: Limits, b: Batch)
    requires WorkersOk(l, b) && b.place.Submit? && b.place.index !in b.under && b.place.index !in b.calls
    ensures WorkersOk(l, b.(under := b.under + {b.place.index}, place := Fill))
  {}

  lemma QuietKeeps(l: Limits, b: Batch, chosen: seq<nat>)
    requires Inv(l, b) && Possible(l, b, Step(chosen))
    requires b.place.Wait? || b.place.Collect? || b.place.After? || b.place.Sweep? || b.place.Close? || b.place.Outer?
    ensures Inv(l, StepOf(l, b, chosen))
  {
    hide TableOk, TodoOk, WorkersOk, PlaceOk, Possible, StepOf;
    QuietStep(l, b, chosen);
    OnlyPlaceMoves(l, b, StepOf(l, b, chosen));
    if b.place.Wait? {
      WaitPlace(l, b, chosen);
    } else if b.place.Collect? {
      CollectPlace(l, b, chosen);
    } else if b.place.Outer? {
      OuterPlace(l, b, chosen);
    } else {
      SweepPlace(l, b, chosen);
    }
  }

  lemma WaitPlace(l: Limits, b: Batch, chosen: seq<nat>)
    requires Possible(l, b, Step(chosen)) && b.place.Wait?
    ensures PlaceOk(l, StepOf(l, b, chosen))
  {
    hide Distinct;
  }

  lemma OuterPlace(l: Limits, b: Batch, chosen: seq<nat>)
    requires TodoOk(l, b) && b.place.Outer?
    ensures PlaceOk(l, StepOf(l, b, chosen))
  {
    hide TodoOk;
    CursorInside(l, b);
  }

  lemma CollectPlace(l: Limits, b: Batch, chosen: seq<nat>)
    requires TableOk(l, b) && WorkersOk(l, b) && PlaceOk(l, b) && b.place.Collect?
    ensures PlaceOk(l, StepOf(l, b, chosen))
  {
    hide TableOk, WorkersOk, Collected, Distinct;
    TableSize(l, b);
    if StepOf(l, b, chosen).place.Deliver? {
      CollectedOk(l, b, b.place.rest[0]);
      RestIsDistinct(b.place.rest);
    }
  }

  lemma RestIsDistinct(rest: seq<nat>)
    requires rest != [] && Distinct(rest)
    ensures Distinct(rest[1..]) && rest[0] !in rest[1..] && forall i :: i in rest[1..] ==> i in rest
  {}

  lemma CollectedOk(l: Limits, b: Batch, index: nat)
    requires TableOk(l, b) && WorkersOk(l, b) && index in b.finished && index < |l.paths|
    ensures Terminal(Collected(b, index).status) && Collected(b, index).path == l.paths[index]
  {}

  lemma DeliveredTable(l: Limits, b: Batch)
    requires TableOk(l, b) && b.place.Deliver? && b.place.index in b.table.active && b.place.index < |l.paths|
    requires Terminal(b.place.item.status) && b.place.item.path == l.paths[b.place.index] && b.place.index in b.under
    ensures var t := Published(b.table, b.place.index, b.place.item, Some(b.table.active[b.place.index]));
            TableOk(l, b.(table := t, place := Pop(b.place.index, b.place.rest)))
  {}

  lemma DeliverKeeps(l: Limits, b: Batch, chosen: seq<nat>)
    requires Inv(l, b) && Possible(l, b, Step(chosen)) && b.place.Deliver?
    ensures Inv(l, StepOf(l, b, chosen))
  {
    hide TableOk, TodoOk, WorkersOk;
    var b1 := StepOf(l, b, chosen);
    TableSize(l, b);
    FinishedIsUnder(l, b);
    if b1.place.Pop? {
      DeliveredTable(l, b);
      SameTodo(l, b, b1);
      SameWorkers(l, b, b1);
    }
  }

  lemma FinishedIsUnder(l: Limits, b: Batch)
    requires WorkersOk(l, b)
    ensures b.finished.Keys <= b.under
  {}

  lemma PopKeeps(l: Limits, b: Batch, chosen: seq<nat>)
    requires Inv(l, b) && Possible(l, b, Step(chosen)) && b.place.Pop?
    ensures Inv(l, StepOf(l, b, chosen))
  {
    hide TableOk, TodoOk, WorkersOk;
    PoppedTable(l, b);
    PoppedWorkers(l, b);
    SameTodo(l, b, StepOf(l, b, chosen));
  }

  lemma PoppedTable(l: Limits, b: Batch)
    requires TableOk(l, b) && b.place.Pop?
    ensures TableOk(l, b.(under := b.under - {b.place.index}, finished := b.finished - {b.place.index},
                          place := Collect(b.place.rest)))
  {}

  lemma PoppedWorkers(l: Limits, b: Batch)
    requires WorkersOk(l, b) && b.place.Pop? && b.place.index in b.under
    ensures WorkersOk(l, b.(under := b.under - {b.place.index}, finished := b.finished - {b.place.index},
                            place := Collect(b.place.rest)))
  {}

  lemma SweepPlace(l: Limits, b: Batch, chosen: seq<nat>)
    requires TableOk(l, b) && TodoOk(l, b) && PlaceOk(l, b) && (b.place.After? || b.place.Sweep? || b.place.Close?)
    ensures PlaceOk(l, StepOf(l, b, chosen))
  {
    hide TableOk, TodoOk;
    TableSize(l, b);
    if b.place.After? && !b.table.cancelled {
      EverythingTaken(l, b);
    }
  }

  lemma SweptTable(l: Limits, b: Batch, i: nat, item: Item)
    requires TableOk(l, b) && b.under == {} && b.place == SweepWrite(i, item) && i < |l.paths|
    requires item == Marked(b.table.results[i]) && item.status.Cancelled?
    ensures TableOk(l, b.(table := Published(b.table, i, item, None), place := Sweep(i + 1)))
  {}

  /** The sweep writes over a file that waits, or writes what a cancellation wrote before it. */
  lemma SweepWriteKeeps(l: Limits, b: Batch, chosen: seq<nat>)
    requires Inv(l, b) && Possible(l, b, Step(chosen)) && b.place.SweepWrite?
    ensures Inv(l, StepOf(l, b, chosen))
  {
    hide TableOk, TodoOk, WorkersOk;
    var b1 := StepOf(l, b, chosen);
    TableSize(l, b);
    SweptTable(l, b, b.place.i, b.place.item);
    SameTodo(l, b, b1);
    SameWorkers(l, b, b1);
  }

  lemma StepKeeps(l: Limits, b: Batch, chosen: seq<nat>)
    requires Inv(l, b) && Possible(l, b, Step(chosen))
    ensures Inv(l, StepOf(l, b, chosen))
  {
    hide Inv, StepOf;
    match b.place
    case Begin => BeginKeeps(l, b, chosen);
    case Outer => QuietKeeps(l, b, chosen);
    case Fill => FillKeeps(l, b, chosen);
    case Claim(_) => ClaimKeeps(l, b, chosen);
    case Submit(_) => SubmitKeeps(l, b, chosen);
    case Wait => QuietKeeps(l, b, chosen);
    case Collect(_) => QuietKeeps(l, b, chosen);
    case Deliver(_, _, _) => DeliverKeeps(l, b, chosen);
    case Pop(_, _) => PopKeeps(l, b, chosen);
    case SweepWrite(_, _) => SweepWriteKeeps(l, b, chosen);
    case _ => QuietKeeps(l, b, chosen);
  }

  // ----- Workers and cancellations ------------------------------------------------------------------------

  lemma WorkerKeeps(l: Limits, b: Batch, index: nat, outcome: Result<Item, CallError>, made: nat)
    requires Inv(l, b) && Possible(l, b, WorkerDone(index, outcome, made))
    ensures Inv(l, Next(l, b, WorkerDone(index, outcome, made)))
  {
    hide TableOk, TodoOk, WorkersOk, PlaceOk;
    var b1 := Next(l, b, WorkerDone(index, outcome, made));
    SameTable(l, b, b1);
    WorkedTodo(l, b, b1, index);
    WorkedWorkers(l, b, index, outcome, made);
    WorkedPlace(l, b, b1);
  }

  lemma WorkedPlace(l: Limits, b: Batch, b1: Batch)
    requires PlaceOk(l, b) && b1 == b.(finished := b1.finished, calls := b1.calls)
    requires b.finished.Keys <= b1.finished.Keys
    ensures PlaceOk(l, b1)
  {
    hide Distinct;
  }

  lemma WorkedTodo(l: Limits, b: Batch, b1: Batch, index: nat)
    requires TodoOk(l, b) && index in b.under && b1 == b.(finished := b1.finished, calls := b1.calls)
    requires b1.calls.Keys == b.calls.Keys + {index}
    ensures TodoOk(l, b1)
  {}

  lemma WorkedWorkers(l: Limits, b: Batch, index: nat, outcome: Result<Item, CallError>, made: nat)
    requires WorkersOk(l, b) && Possible(l, b, WorkerDone(index, outcome, made))
    ensures WorkersOk(l, Next(l, b, WorkerDone(index, outcome, made)))
  {}

  lemma CancelledTableOk(l: Limits, b: Batch, e: Event)
    requires TableOk(l, b) && Possible(l, b, e) && (e.CancelLock? || e.CancelMark? || e.CancelUnlock?)
    ensures TableOk(l, Next(l, b, e))
  {}

  lemma CancelledPlace(l: Limits, b: Batch, e: Event)
    requires PlaceOk(l, b) && Possible(l, b, e) && (e.CancelLock? || e.CancelMark? || e.CancelUnlock?)
    ensures PlaceOk(l, Next(l, b, e))
  {
    hide Distinct;
  }

  lemma CancelledTodo(l: Limits, b: Batch, e: Event)
    requires TodoOk(l, b) && Possible(l, b, e) && (e.CancelLock? || e.CancelMark? || e.CancelUnlock?)
    ensures TodoOk(l, Next(l, b, e))
  {
    hide Distinct;
  }

  lemma CancelKeeps(l: Limits, b: Batch, e: Event)
    requires Inv(l, b) && Possible(l, b, e) && (e.CancelLock? || e.CancelMark? || e.CancelUnlock?)
    ensures Inv(l, Next(l, b, e))
  {
    hide TableOk, TodoOk, WorkersOk, PlaceOk, Possible;
    CancelledTableOk(l, b, e);
    CancelledPlace(l, b, e);
    CancelledTodo(l, b, e);
    CancelRoom(l, b);
    SameWorkers(l, b, Next(l, b, e));
  }

  lemma CancelRoom(l: Limits, b: Batch)
    requires WorkersOk(l, b)
    ensures b.place.Claim? || b.place.Submit? ==> |b.under| < l.maxWorkers
  {}

  lemma NextKeeps(l: Limits, b: Batch, e: Event)
    requires Inv(l, b) && Possible(l, b, e)
    ensures Inv(l, Next(l, b, e))
  {
    hide Inv, Possible, StepOf;
    match e
    case Step(chosen) => StepKeeps(l, b, chosen);
    case WorkerDone(index, outcome, made) => WorkerKeeps(l, b, index, outcome, made);
    case _ => CancelKeeps(l, b, e);
  }

  lemma {:induction false} RunKeeps(l: Limits, b: Batch, events: seq<Event>, end: Batch)
    requires Inv(l, b) && Run(l, b, events, end)
    ensures Inv(l, end)
    decreases events
  {
    hide Inv, Next, Possible;
    if events != [] {
      NextKeeps(l, b, events[0]);
      RunKeeps(l, Next(l, b, events[0]), events[1..], end);
    }
  }

  lemma InitialOk(l: Limits, b: Batch)
    requires Initial(l, b)
    ensures Inv(l, b)
  {}

  // ----- What runs guarantee ------------------------------------------------------------------------------

  lemma ReachedInv(l: Limits, b: Batch, events: seq<Event>, end: Batch)
    requires Initial(l, b) && Run(l, b, events, end)
    ensures Inv(l, end)
  {
    InitialOk(l, b);
    RunKeeps(l, b, events, end);
  }

  function Indices(t: Table, status: Status): set<nat> {
    set i | 0 <= i < |t.results| && t.results[i].status == status
  }

  lemma SmallerSet(a: set<nat>, b: set<nat>)
    requires a <= b
    ensures |a| <= |b|
  {
    assert b == a + (b - a);
  }

  /** Never more files under way than there are workers. */
  lemma ProcessingIsBounded(l: Limits, b: Batch, events: seq<Event>, end: Batch)
    requires Initial(l, b) && Run(l, b, events, end)
    ensures |Indices(end.table, Processing)| <= l.maxWorkers
  {
    hide Run, Initial, TodoOk, PlaceOk;
    ReachedInv(l, b, events, end);
    ProcessingIsUnder(l, end);
    var more := end.under + Submitting(end.place);
    SmallerSet(Indices(end.table, Processing), more);
    assert |more| <= |end.under| + |Submitting(end.place)|;
  }

  lemma ProcessingIsUnder(l: Limits, b: Batch)
    requires TableOk(l, b)
    ensures Indices(b.table, Processing) <= b.under + Submitting(b.place)
  {}

  lemma StepLeavesEnded(l: Limits, b: Batch, chosen: seq<nat>, i: nat)
    requires Inv(l, b) && Possible(l, b, Step(chosen)) && i < |l.paths|
    ensures |b.table.results| == |l.paths| == |StepOf(l, b, chosen).table.results|
    ensures Terminal(b.table.results[i].status) ==>
      StepOf(l, b, chosen).table.results[i] == b.table.results[i]
  {
    hide TodoOk, WorkersOk, Collected, Distinct;
    match b.place
    case Claim(_) =>
    case Deliver(index, _, _) =>
    case SweepWrite(_, _) =>
    case _ =>
  }

  lemma NextLeavesEnded(l: Limits, b: Batch, e: Event, i: nat)
    requires Inv(l, b) && Possible(l, b, e) && i < |l.paths|
    ensures |b.table.results| == |l.paths| == |Next(l, b, e).table.results|
    ensures Terminal(b.table.results[i].status) ==> Next(l, b, e).table.results[i] == b.table.results[i]
  {
    hide TodoOk, WorkersOk, PlaceOk, StepOf;
    if e.Step? {
      StepLeavesEnded(l, b, e.chosen, i);
    }
  }

  /** What has ended stays as it is, even where the sweep and a cancellation write at once. */
  lemma {:induction false} EndedStays(l: Limits, b: Batch, events: seq<Event>, end: Batch, i: nat)
    requires Inv(l, b) && Run(l, b, events, end) && i < |l.paths|
    ensures |b.table.results| == |l.paths| == |end.table.results|
    ensures Terminal(b.table.results[i].status) ==> end.table.results[i] == b.table.results[i]
    decreases events
  {
    hide Inv, Next, Possible;
    if events != [] {
      NextKeeps(l, b, events[0]);
      NextLeavesEnded(l, b, events[0], i);
      EndedStays(l, Next(l, b, events[0]), events[1..], end, i);
    } else {
      EndedSize(l, b);
    }
  }

  lemma EndedSize(l: Limits, b: Batch)
    requires Inv(l, b)
    ensures |b.table.results| == |l.paths|
  {}

  lemma CancelledGainsNothing(l: Limits, b: Batch, e: Event)
    requires Inv(l, b) && Possible(l, b, e) && b.table.cancelled
    ensures Next(l, b, e).table.cancelled
    ensures Indices(Next(l, b, e).table, Succeeded) <= Indices(b.table, Succeeded)
  {
    hide TableOk, TodoOk, WorkersOk, Collected, Distinct;
    if e.Step? {
      StepGainsNothing(l, b, e.chosen);
    }
  }

  lemma StepGainsNothing(l: Limits, b: Batch, chosen: seq<nat>)
    requires PlaceOk(l, b) && b.table.cancelled
    ensures StepOf(l, b, chosen).table.cancelled
    ensures Indices(StepOf(l, b, chosen).table, Succeeded) <= Indices(b.table, Succeeded)
  {
    hide Collected, Distinct;
    match b.place
    case Claim(_) =>
    case Deliver(_, _, _) =>
    case SweepWrite(_, _) =>
    case _ =>
  }

  /** From the moment a cancellation has the lock, no file becomes a success. */
  lemma {:induction false} CancellationWins(l: Limits, b: Batch, events: seq<Event>, end: Batch)
    requires Inv(l, b) && Run(l, b, events, end) && b.table.cancelled
    ensures Indices(end.table, Succeeded) <= Indices(b.table, Succeeded)
    decreases events
  {
    hide Inv, Next, Possible, Indices;
    if events != [] {
      NextKeeps(l, b, events[0]);
      CancelledGainsNothing(l, b, events[0]);
      CancellationWins(l, Next(l, b, events[0]), events[1..], end);
    }
  }

  /** Each file has one worker, so it costs no more calls than one worker may make. */
  lemma CallsAreBounded(l: Limits, b: Batch, events: seq<Event>, end: Batch, index: nat)
    requires Initial(l, b) && Run(l, b, events, end)
    ensures Count(end.calls, index) <= l.maxAttempts
  {
    hide Run, Initial, TableOk, TodoOk, PlaceOk;
    ReachedInv(l, b, events, end);
  }

  /** When the batch is done, its result lists every file, in the order of the input, with an
      outcome that is final. */
  lemma DoneIsComplete(l: Limits, b: Batch, events: seq<Event>, end: Batch, i: nat)
    requires Initial(l, b) && Run(l, b, events, end) && end.place.Done? && i < |l.paths|
    ensures end.result.Some? && |end.result.value.0| == |l.paths|
    ensures end.result.value.0[i].path == l.paths[i] && Terminal(end.result.value.0[i].status)
    ensures end.result.value.0 == end.table.results
  {
    hide Run, Initial, TodoOk, WorkersOk;
    ReachedInv(l, b, events, end);
  }

  // ----- Cancellation is one operation --------------------------------------------------------------------

  /** A cancellation that began at table `t0` has marked some of the files. */
  ghost predicate HalfMarked(t0: Table, t: Table) {
    && |t.results| == |t0.results| && t.cancelled && t.active == t0.active
    && forall i :: 0 <= i < |t.results| ==> t.results[i] == t0.results[i] || t.results[i] == Marked(t0.results[i])
  }

  lemma StillHalfMarked(l: Limits, b: Batch, e: Event, t0: Table)
    requires Possible(l, b, e) && !e.CancelUnlock? && b.locked && HalfMarked(t0, b.table)
    ensures Next(l, b, e).locked && HalfMarked(t0, Next(l, b, e).table)
  {
    hide Collected, Distinct;
  }

  lemma {:induction false} MarksAddUp(l: Limits, b: Batch, events: seq<Event>, end: Batch, t0: Table)
    requires Run(l, b, events, end) && b.locked && HalfMarked(t0, b.table)
    requires forall e :: e in events ==> !e.CancelUnlock?
    requires Possible(l, end, CancelUnlock)
    ensures Next(l, end, CancelUnlock).table == CancelledTable(t0)
    decreases events
  {
    hide HalfMarked;
    if events != [] {
      hide Possible, Next;
      StillHalfMarked(l, b, events[0], t0);
      assert events[0] in events;
      MarksAddUp(l, Next(l, b, events[0]), events[1..], end, t0);
    } else {
      WhollyMarked(b, t0);
    }
  }

  lemma WhollyMarked(b: Batch, t0: Table)
    requires HalfMarked(t0, b.table) && NothingPending(b.table)
    ensures b.table.(active := map i | i in b.table.active :: true) == CancelledTable(t0)
  {
    var t1 := CancelledTable(t0);
    forall i | 0 <= i < |t1.results| ensures b.table.results[i] == t1.results[i] {
    }
    assert b.table.results == t1.results;
  }

  /** While one thread cancels, no other changes the table: from taking the lock to letting go,
      its marks add up to the cancellation of the table as a whole. */
  lemma CancellationIsAtomic(l: Limits, b: Batch, events: seq<Event>, end: Batch)
    requires Possible(l, b, CancelLock) && Run(l, Next(l, b, CancelLock), events, end)
    requires forall e :: e in events ==> !e.CancelUnlock?
    requires Possible(l, end, CancelUnlock)
    ensures Next(l, end, CancelUnlock).table == CancelledTable(b.table)
  {
    MarksAddUp(l, Next(l, b, CancelLock), events, end, b.table);
  }

  /** It reaches everything: what waited has ended, every token is cancelled, and what was under
      way or had ended shows what it showed. */
  lemma CancellationReachesAll(t: Table, i: nat)
    requires i < |t.results|
    ensures var t1 := CancelledTable(t);
            && t1.cancelled && |t1.results| == |t.results| && t1.active.Keys == t.active.Keys
            && (forall k :: k in t1.active ==> t1.active[k])
            && (t.results[i].status.Pending? ==>
                  t1.results[i].status.Cancelled? && t1.results[i].error == "Batch cancelled before processing")
            && (!t.results[i].status.Pending? ==> t1.results[i] == t.results[i])
  {
    var t1 := CancelledTable(t);
    assert t1.active.Keys == t.active.Keys;
  }
}
