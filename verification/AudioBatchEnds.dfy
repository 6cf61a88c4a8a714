/** audio_file_batch.py: the submitting thread comes to an end and never waits for nothing. */
module AudioBatchEnds {
  import opened Wrappers
  import opened AudioBatch
  import opened AudioBatchRuns

  /** Files that are not claimed yet weigh most, then those under way, then the place. */
  function Rank(l: Limits, b: Batch): int {
    var n, u, a := |l.paths|, |b.todo| - b.cursor, |b.under|;
    var sweeping := 2 * n + 10;
    match b.place
    case Begin => sweeping + 16 * n + 4
    case Outer => sweeping + 16 * u + 8 * a + 3
    case Fill => sweeping + 16 * u + 8 * a + 2
    case Claim(_) => sweeping + 16 * u + 8 * a + 12
    case Submit(_) => sweeping + 16 * u + 8 * a + 11
    case Wait => sweeping + 16 * u + 8 * a + 1
    case Collect(rest) => sweeping + 16 * u + 8 * (a - |rest|) + 3 * |rest| + 4
    case Deliver(_, _, rest) => sweeping + 16 * u + 8 * (a - |rest| - 1) + 3 * |rest| + 6
    case Pop(_, rest) => sweeping + 16 * u + 8 * (a - |rest| - 1) + 3 * |rest| + 5
    case After => sweeping - 1
    case Sweep(i) => 2 * Left(n, i) + 3
    case SweepWrite(i, _) => 2 * Left(n, i) + 2
    case Close => 1
    case Done => 0
  }

  function Left(n: nat, i: nat): nat {
    if i < n then n - i else 0
  }

  lemma {:induction false} DistinctAreFew(s: seq<nat>, among: set<nat>)
    requires Distinct(s) && forall i :: i in s ==> i in among
    ensures |s| <= |among|
  {
    if s != [] {
      assert s[0] in among;
      forall i | i in s[1..] ensures i in among - {s[0]} {
        var k :| 0 <= k < |s[1..]| && s[1..][k] == i;
        assert s[k + 1] == i && s[0] != s[k + 1];
      }
      DistinctAreFew(s[1..], among - {s[0]});
    }
  }

  function UpTo(n: nat): (r: set<nat>)
    ensures |r| == n && forall i: nat :: i in r <==> i < n
  {
    if n == 0 then {}
    else
      var fewer := UpTo(n - 1);
      assert n - 1 !in fewer;
      fewer + {n - 1}
  }

  /** What is being collected is under way. */
  lemma CollectedAreFew(l: Limits, b: Batch)
    requires WorkersOk(l, b) && PlaceOk(l, b)
    ensures b.place.Collect? ==> |b.place.rest| <= |b.under|
    ensures b.place.Deliver? || b.place.Pop? ==> |b.place.rest| + 1 <= |b.under|
  {
    match b.place
    case Collect(rest) => DistinctAreFew(rest, b.under);
    case Deliver(index, _, rest) => DistinctAreFew(rest, b.under - {index});
    case Pop(index, rest) => DistinctAreFew(rest, b.under - {index});
    case _ =>
  }

  lemma RankIsNat(l: Limits, b: Batch)
    requires Inv(l, b)
    ensures 0 <= Rank(l, b)
  {
    hide TableOk;
    CollectedAreFew(l, b);
  }

  lemma WaitDescends(l: Limits, b: Batch, chosen: seq<nat>)
    requires b.place.Wait? && chosen != []
    ensures Rank(l, StepOf(l, b, chosen)) < Rank(l, b)
  {}

  lemma CollectDescends(l: Limits, b: Batch, chosen: seq<nat>)
    requires TableOk(l, b) && WorkersOk(l, b) && PlaceOk(l, b) && b.place.Collect?
    ensures Rank(l, StepOf(l, b, chosen)) < Rank(l, b)
  {
    hide Collected, Distinct, TableOk, WorkersOk;
    var rest := b.place.rest;
    if rest != [] {
      assert rest[0] in rest;
      FinishedHasIndex(l, b, rest[0]);
    }
  }

  lemma FinishedHasIndex(l: Limits, b: Batch, index: nat)
    requires TableOk(l, b) && WorkersOk(l, b) && b.place.Collect? && index in b.finished
    ensures index < |b.table.results|
  {
    assert index in b.table.active;
  }

  lemma DeliverDescends(l: Limits, b: Batch, chosen: seq<nat>)
    requires TableOk(l, b) && WorkersOk(l, b) && PlaceOk(l, b) && b.place.Deliver?
    ensures Rank(l, StepOf(l, b, chosen)) < Rank(l, b)
  {
    hide Published, Distinct;
    assert b.place.index in b.table.active;
  }

  lemma PopDescends(l: Limits, b: Batch, chosen: seq<nat>)
    requires b.place.Pop? && b.place.index in b.under
    ensures Rank(l, StepOf(l, b, chosen)) < Rank(l, b)
  {
    assert |b.under - {b.place.index}| == |b.under| - 1;
  }

  lemma SubmitDescends(l: Limits, b: Batch, chosen: seq<nat>)
    requires b.place.Submit? && b.place.index !in b.under
    ensures Rank(l, StepOf(l, b, chosen)) < Rank(l, b)
  {
    assert |b.under + {b.place.index}| == |b.under| + 1;
  }

  lemma BeginDescends(l: Limits, b: Batch, chosen: seq<nat>)
    requires TableOk(l, b) && b.place.Begin? && b.under == {} && Possible(l, b, Step(chosen))
    ensures Rank(l, StepOf(l, b, chosen)) < Rank(l, b)
  {
    DistinctAreFew(chosen, UpTo(|l.paths|));
  }

  lemma TakingDescends(l: Limits, b: Batch, chosen: seq<nat>)
    requires TodoOk(l, b) && (b.place.Outer? || b.place.Fill? || b.place.Claim?)
    ensures Rank(l, StepOf(l, b, chosen)) < Rank(l, b)
  {
    hide Distinct, Claimed;
    if b.place.Claim? {
      assert b.cursor <= |b.todo|;
    }
  }

  lemma SweepDescends(l: Limits, b: Batch, chosen: seq<nat>)
    requires TableOk(l, b) && PlaceOk(l, b)
    requires b.place.After? || b.place.Sweep? || b.place.SweepWrite? || b.place.Close?
    ensures Rank(l, StepOf(l, b, chosen)) < Rank(l, b)
  {
    hide Marked, Published;
  }

  /** Every step of the submitting thread makes the rank smaller. */
  lemma StepDescends(l: Limits, b: Batch, chosen: seq<nat>)
    requires Inv(l, b) && Possible(l, b, Step(chosen))
    ensures Rank(l, Next(l, b, Step(chosen))) < Rank(l, b)
  {
    hide Rank, StepOf, TableOk, WorkersOk;
    match b.place
    case Begin => BeginDescends(l, b, chosen);
    case Submit(_) => SubmitDescends(l, b, chosen);
    case Wait => WaitDescends(l, b, chosen);
    case Collect(_) => CollectDescends(l, b, chosen);
    case Deliver(_, _, _) => DeliverDescends(l, b, chosen);
    case Pop(_, _) => PopDescends(l, b, chosen);
    case Outer => TakingDescends(l, b, chosen);
    case Fill => TakingDescends(l, b, chosen);
    case Claim(_) => TakingDescends(l, b, chosen);
    case _ => SweepDescends(l, b, chosen);
  }

  /** What workers and cancellations do leaves it as it is. */
  lemma OthersKeepRank(l: Limits, b: Batch, e: Event)
    requires Possible(l, b, e) && !e.Step?
    ensures Rank(l, Next(l, b, e)) == Rank(l, b)
  {}

  function Steps(events: seq<Event>): nat {
    if events == [] then 0 else (if events[0].Step? then 1 else 0) + Steps(events[1..])
  }

  lemma {:induction false} StepsAreRanked(l: Limits, b: Batch, events: seq<Event>, end: Batch)
    requires Inv(l, b) && Run(l, b, events, end)
    ensures Steps(events) <= Rank(l, b)
    decreases events
  {
    hide Inv, Possible, Next, Rank;
    if events == [] {
      RankIsNat(l, b);
    } else {
      var e := events[0];
      NextKeeps(l, b, e);
      if e.Step? {
        StepDescends(l, b, e.chosen);
      } else {
        OthersKeepRank(l, b, e);
      }
      StepsAreRanked(l, Next(l, b, e), events[1..], end);
    }
  }

  /** The submitting thread takes no more than eighteen steps a file, whatever workers and
      cancellations do in between. */
  lemma StepsAreBounded(l: Limits, b: Batch, events: seq<Event>, end: Batch)
    requires Initial(l, b) && Run(l, b, events, end)
    ensures Steps(events) <= 18 * |l.paths| + 14
  {
    InitialOk(l, b);
    StepsAreRanked(l, b, events, end);
  }

  // ----- Waiting ------------------------------------------------------------------------------------------

  ghost predicate WaitsForSomething(b: Batch) {
    b.place.Wait? ==> b.under != {}
  }

  lemma NextWaits(l: Limits, b: Batch, e: Event)
    requires Possible(l, b, e) && WaitsForSomething(b)
    ensures WaitsForSomething(Next(l, b, e))
  {
    hide Collected, Distinct, Published, Claimed, Marked;
  }

  lemma {:induction false} RunWaits(l: Limits, b: Batch, events: seq<Event>, end: Batch)
    requires Run(l, b, events, end) && WaitsForSomething(b)
    ensures WaitsForSomething(end)
    decreases events
  {
    hide Possible, Next, WaitsForSomething;
    if events != [] {
      NextWaits(l, b, events[0]);
      RunWaits(l, Next(l, b, events[0]), events[1..], end);
    }
  }

  lemma InitialWaits(l: Limits, b: Batch)
    requires Initial(l, b)
    ensures WaitsForSomething(b)
  {}

  lemma FinishedIsFine(l: Limits, b: Batch)
    requires WorkersOk(l, b)
    ensures b.finished.Keys <= b.under
  {}

  /** The indices of the files that wait, in order. */
  function PendingOf(t: Table, i: nat): (r: seq<nat>)
    requires i <= |t.results|
    ensures forall k :: k in r <==> i <= k < |t.results| && t.results[k].status.Pending?
    ensures Distinct(r)
    decreases |t.results| - i
  {
    if i == |t.results| then []
    else if t.results[i].status.Pending? then
      var rest := PendingOf(t, i + 1);
      assert i !in rest;
      assert ([i] + rest)[1..] == rest;
      [i] + rest
    else PendingOf(t, i + 1)
  }

  /** Until it is done, while no cancellation holds the lock, the thread can go on, unless it
      waits; then files are under way, and as soon as the worker of one of them is done it can. */
  lemma NeverStuck(l: Limits, b: Batch, events: seq<Event>, end: Batch)
    requires Initial(l, b) && Run(l, b, events, end) && !end.place.Done? && !end.locked
    ensures (exists chosen :: Possible(l, end, Step(chosen))) <==> end.place.Wait? ==> end.finished != map[]
    ensures end.place.Wait? ==> end.under != {}
  {
    hide Run, Initial, TodoOk, WorkersOk;
    ReachedInv(l, b, events, end);
    InitialWaits(l, b);
    RunWaits(l, b, events, end);
    if end.place.Begin? {
      assert Possible(l, end, Step(PendingOf(end.table, 0)));
    } else if end.place.Wait? {
      if end.finished != map[] {
        var i :| i in end.finished;
        FinishedIsFine(l, end);
        assert Possible(l, end, Step([i]));
      } else {
        forall chosen ensures !Possible(l, end, Step(chosen)) {
          if chosen != [] {
            assert chosen[0] in chosen;
          }
        }
      }
    } else {
      assert Possible(l, end, Step([]));
    }
  }
}
