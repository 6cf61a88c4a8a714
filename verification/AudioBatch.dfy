/** audio_file_batch.py: one bounded batch of files, its workers and its cancellation. */
module AudioBatch {
  import opened Wrappers

  datatype Status = Pending | Processing | Succeeded | Failed | Cancelled

  datatype Item = Item(path: string, status: Status, text: string, provider: string, model: string,
                       attempts: nat, error: string)

  const BEFORE := "Batch cancelled before processing"
  const DURING := "File processing was cancelled"

  predicate Terminal(status: Status) {
    status.Succeeded? || status.Failed? || status.Cancelled?
  }

  // ----- One file --------------------------------------------------------------------------------------

  /** An exception: whether it stands for a cancellation, may be retried, and after what delay. */
  datatype CallError = CallError(isCancellation: bool, retryable: bool, delay: Option<nat>, message: string)

  datatype Answer = Answer(text: string, provider: string, model: string)

  /** One turn of the retry loop: what the tokens say before and after the call and while
      waiting, and what the provider does. */
  datatype Turn = Turn(cancelledBefore: bool, outcome: Result<Answer, CallError>, cancelledAfter: bool,
                       cancelledWaiting: bool)

  /** The next call is made only after this turn. */
  predicate Retries(t: Turn) {
    && !t.cancelledBefore && t.outcome.Failure? && !t.cancelledAfter && !t.outcome.error.isCancellation
    && t.outcome.error.retryable && t.outcome.error.delay.Some? && !t.cancelledWaiting
  }

  /** The verdict of a turn that is not retried. */
  function Verdict(t: Turn): Status {
    if t.cancelledBefore || t.cancelledAfter then Cancelled
    else if t.outcome.Success? then Succeeded
    else if t.outcome.error.isCancellation then Cancelled
    else if t.outcome.error.retryable && t.outcome.error.delay.Some? && t.cancelledWaiting then Cancelled
    else Failed
  }

  /** The first turn that ends the file: the last allowed one, or one that is not retried. */
  function LastTurn(turns: seq<Turn>, maxAttempts: nat, k: nat): (r: nat)
    requires k < maxAttempts <= |turns|
    ensures k <= r < maxAttempts
    decreases maxAttempts - k
  {
    if k + 1 < maxAttempts && Retries(turns[k]) then LastTurn(turns, maxAttempts, k + 1) else k
  }

  /** The last allowed turn fails without a wait. */
  function Ending(turns: seq<Turn>, maxAttempts: nat): Status
    requires 0 < maxAttempts <= |turns|
  {
    var t := turns[LastTurn(turns, maxAttempts, 0)];
    if LastTurn(turns, maxAttempts, 0) + 1 == maxAttempts then Verdict(t.(cancelledWaiting := false)) else Verdict(t)
  }

  /** At most `maxAttempts` provider calls, another one only after a failure that may be retried;
      the file's record tells how many calls were made. */
  method ProcessOne(current: Item, prepared: Option<CallError>, cancelledPreparing: bool, turns: seq<Turn>,
                    maxAttempts: nat)
    returns (item: Item, calls: nat)
    requires 0 < maxAttempts <= |turns|
    ensures Terminal(item.status) && item.path == current.path
    ensures calls == item.attempts <= maxAttempts
    ensures prepared.Some? ==>
      calls == 0 && item.status == if cancelledPreparing || prepared.value.isCancellation then Cancelled else Failed
    ensures prepared.None? ==>
      var last := LastTurn(turns, maxAttempts, 0);
      && item.status == Ending(turns, maxAttempts)
      && calls == (if turns[last].cancelledBefore then last else last + 1)
      && (forall k :: 0 <= k < last ==> Retries(turns[k]))
      && (item.status.Succeeded? ==>
            turns[last].outcome == Success(Answer(item.text, item.provider, item.model)))
    ensures prepared.None? ==>
      forall k :: 0 <= k < calls ==>
        && !turns[k].cancelledBefore
        && (k + 1 < calls ==>
              && turns[k].outcome.Failure? && !turns[k].cancelledAfter && !turns[k].cancelledWaiting
              && var error := turns[k].outcome.error;
                 error.retryable && !error.isCancellation && error.delay.Some?)
    ensures prepared.None? ==>
      (item.status.Succeeded? <==> calls > 0 && turns[calls - 1].outcome.Success? && !turns[calls - 1].cancelledAfter)
    ensures prepared.None? && item.status.Failed? ==>
      && calls > 0 && turns[calls - 1].outcome.Failure? && !turns[calls - 1].cancelledAfter
      && var error := turns[calls - 1].outcome.error;
         && !error.isCancellation && item.error == error.message
         && (calls == maxAttempts || !error.retryable || error.delay.None?)
    ensures prepared.None? && item.status.Cancelled? ==>
      || (calls < maxAttempts && turns[calls].cancelledBefore)
      || (calls > 0 && (turns[calls - 1].cancelledAfter || turns[calls - 1].cancelledWaiting))
      || (calls > 0 && turns[calls - 1].outcome.Failure? && turns[calls - 1].outcome.error.isCancellation)
  {
    var attempts := 0;
    calls := 0;
    if prepared.Some? {
      var status := if cancelledPreparing || prepared.value.isCancellation then Cancelled else Failed;
      return current.(status := status, attempts := 0,
                      error := if status.Cancelled? then DURING else prepared.value.message), 0;
    }
    while attempts < maxAttempts
      invariant attempts < maxAttempts && calls == attempts
      invariant LastTurn(turns, maxAttempts, 0) == LastTurn(turns, maxAttempts, attempts)
      invariant forall k :: 0 <= k < attempts ==> Retries(turns[k])
      decreases maxAttempts - attempts
    {
      var t := turns[attempts];
      attempts := attempts + 1;
      if t.cancelledBefore {
        return current.(status := Cancelled, attempts := attempts - 1, error := DURING), calls;
      }
      calls := calls + 1;
      match t.outcome
      case Success(answer) =>
        if t.cancelledAfter {
          return current.(status := Cancelled, attempts := attempts, error := DURING), calls;
        }
        return Item(current.path, Succeeded, answer.text, answer.provider, answer.model, attempts, ""), calls;
      case Failure(error) =>
        if t.cancelledAfter || error.isCancellation {
          return current.(status := Cancelled, attempts := attempts, error := DURING), calls;
        }
        if attempts >= maxAttempts || !error.retryable || error.delay.None? {
          return current.(status := Failed, attempts := attempts, error := error.message), calls;
        }
        if t.cancelledWaiting {
          return current.(status := Cancelled, attempts := attempts, error := DURING), calls;
        }
    }
    assert false;
  }

  // ----- The table of results ------------------------------------------------------------------------

  /** `active` holds the token of each file under way: whether it was cancelled. */
  datatype Table = Table(results: seq<Item>, cancelled: bool, active: map<nat, bool>)

  function Marked(item: Item): Item {
    if item.status.Pending? then item.(status := Cancelled, error := BEFORE) else item
  }

  /** `token` is the token of a file under way, None for one that never was. */
  function Published(t: Table, index: nat, item: Item, token: Option<bool>): Table
    requires index < |t.results|
  {
    var late := token.Some? && item.status.Succeeded? && (token.value || t.cancelled);
    var shown := if late then item.(status := Cancelled, text := "", provider := "", model := "", error := DURING)
                 else item;
    t.(results := t.results[index := shown], active := if token.Some? then t.active - {index} else t.active)
  }

  predicate MayClaim(t: Table, index: nat)
    requires index < |t.results|
  {
    !t.cancelled && t.results[index].status.Pending?
  }

  function Claimed(t: Table, index: nat): Table
    requires index < |t.results|
  {
    t.(results := t.results[index := t.results[index].(status := Processing, error := "")],
       active := t.active[index := false])
  }

  function CancelledTable(t: Table): Table {
    Table(seq(|t.results|, i requires 0 <= i < |t.results| => Marked(t.results[i])), true,
          map i | i in t.active :: true)
  }

  function FailureItem(t: Table, index: nat, error: CallError, token: bool): Item
    requires index < |t.results|
  {
    if token || t.cancelled || error.isCancellation then t.results[index].(status := Cancelled, error := DURING)
    else t.results[index].(status := Failed, error := error.message)
  }

  class AudioBatchJob {
    var results: seq<Item>
    var cancelled: bool
    var active: map<nat, bool>

    ghost function Abs(): Table
      reads this
    {
      Table(results, cancelled, active)
    }

    constructor (paths: seq<string>)
      ensures !cancelled && active == map[] && |results| == |paths|
      ensures forall i :: 0 <= i < |paths| ==> results[i] == Item(paths[i], Pending, "", "", "", 0, "")
    {
      results := seq(|paths|, i requires 0 <= i < |paths| => Item(paths[i], Pending, "", "", "", 0, ""));
      cancelled, active := false, map[];
    }

    /** Cancels the batch, everything that waits and everything under way, under the lock. */
    method Cancel()
      modifies this
      ensures Abs() == CancelledTable(old(Abs()))
    {
      cancelled := true;
      var i := 0;
      while i < |results|
        invariant 0 <= i <= |results| == old(|results|)
        invariant cancelled && active == old(active)
        invariant forall k :: 0 <= k < i ==> results[k] == Marked(old(results)[k])
        invariant forall k :: i <= k < |results| ==> results[k] == old(results)[k]
      {
        if results[i].status.Pending? {
          results := results[i := results[i].(status := Cancelled, error := BEFORE)];
        }
        i := i + 1;
      }
      active := map k | k in active :: true;
    }

    method Publish(index: nat, item: Item, token: Option<bool>)
      requires index < |results|
      modifies this
      ensures Abs() == Published(old(Abs()), index, item, token)
    {
      var shown := item;
      if token.Some? && item.status.Succeeded? && (token.value || cancelled) {
        shown := item.(status := Cancelled, text := "", provider := "", model := "", error := DURING);
      }
      results := results[index := shown];
      if token.Some? {
        active := active - {index};
      }
    }

    method ClaimProcessing(index: nat) returns (ok: bool)
      requires index < |results|
      modifies this
      ensures ok == MayClaim(old(Abs()), index)
      ensures Abs() == if ok then Claimed(old(Abs()), index) else old(Abs())
    {
      if cancelled || !results[index].status.Pending? {
        return false;
      }
      active := active[index := false];
      results := results[index := results[index].(status := Processing, error := "")];
      return true;
    }

    method FailureResult(index: nat, error: CallError, token: bool) returns (item: Item)
      requires index < |results|
      ensures item == FailureItem(Abs(), index, error, token)
    {
      if token || cancelled || error.isCancellation {
        return results[index].(status := Cancelled, error := DURING);
      }
      return results[index].(status := Failed, error := error.message);
    }
  }
}
