/** computer_relay_server.py: the burned-ahead egress budget. Months are numbered in calendar
    order; `None` stands for a clock that is not a time-zone aware datetime. */
module EgressBudget {
  import opened Wrappers

  datatype Error = Unavailable | InvalidClock | ClockOrConfig | Exhausted

  /** The rows every process shares. */
  datatype Ledger = Ledger(floor: nat, cap: nat, months: map<nat, nat>)

  /** What one process holds in memory. */
  datatype Lease = Lease(cap: nat, leaseBytes: nat, month: Option<nat>, remaining: nat)

  datatype Step = Step(db: Ledger, lease: Lease, error: Option<Error>, committed: bool)

  const MAX_WRITE := 1_000_000

  function Get(m: map<nat, nat>, k: nat): nat {
    if k in m then m[k] else 0
  }

  function Min(a: int, b: int): int { if a <= b then a else b }

  function Max(a: int, b: int): int { if a >= b then a else b }

  /** How a transaction that reached its commit ends. `Uncertain` is a commit that raised in
      this process although the rows were written. */
  datatype Commit = Done | RolledBack | Uncertain

  function ConsumeStep(db: Ledger, lease: Lease, now: Option<nat>, size: int, commit: Commit): Step {
    if !(0 <= size <= MAX_WRITE) then Step(db, lease, Some(Unavailable), false)
    else if now.None? then Step(db, lease, Some(InvalidClock), false)
    else
      var l := if lease.month != now then lease.(remaining := 0) else lease;
      if l.remaining >= size then Step(db, l.(remaining := l.remaining - size), None, false)
      else ReserveStep(db, l, now.value, size, commit)
  }

  /** The transaction for a write the lease does not cover. */
  function ReserveStep(db: Ledger, l: Lease, current: nat, size: nat, commit: Commit): Step
    requires l.remaining < size
  {
    var reserved := Get(db.months, current);
    var needed := size - l.remaining;
    var grant := Min(l.cap - reserved, Max(needed, l.leaseBytes));
    if current < db.floor || db.cap != l.cap then Step(db, l, Some(ClockOrConfig), false)
    else if reserved > l.cap then Step(db, l, Some(Unavailable), false)
    else if grant < needed then Step(db, l, Some(Exhausted), false)
    else
      var db' := db.(floor := current, months := db.months[current := reserved + grant]);
      match commit
      case Done =>
        Step(db', l.(month := Some(current), remaining := l.remaining + grant - size), None, true)
      case RolledBack => Step(db, l, Some(Unavailable), false)
      case Uncertain => Step(db', l, Some(Unavailable), true)
  }

  // ----- The program --------------------------------------------------------------------------

  class BudgetDatabase {
    var floor: nat
    var cap: nat
    var months: map<nat, nat>

    ghost function Contents(): Ledger
      reads this
    {
      Ledger(floor, cap, months)
    }

    constructor (month: nat, cap: nat)
      ensures Contents() == Ledger(month, cap, map[])
    {
      this.floor, this.cap, this.months := month, cap, map[];
    }
  }

  class EgressBudget {
    const cap: nat
    const leaseBytes: nat
    const db: BudgetDatabase
    var remaining: nat
    var month: Option<nat>

    ghost function Contents(): Lease
      reads this
    {
      Lease(cap, leaseBytes, month, remaining)
    }

    constructor (db: BudgetDatabase, cap: nat, leaseBytes: nat)
      ensures Contents() == Lease(cap, leaseBytes, None, 0) && this.db == db
    {
      this.db, this.cap, this.leaseBytes := db, cap, leaseBytes;
      remaining, month := 0, None;
    }

    method Consume(now: Option<nat>, size: int, commit: Commit) returns (error: Option<Error>)
      modifies this`remaining, this`month, db`floor, db`months
      ensures var step := ConsumeStep(old(db.Contents()), old(Contents()), now, size, commit);
              db.Contents() == step.db && Contents() == step.lease && error == step.error
    {
      hide ReserveStep;
      if !(0 <= size <= MAX_WRITE) {
        return Some(Unavailable);
      }
      if now.None? {
        return Some(InvalidClock);
      }
      if month != now {
        remaining := 0;
      }
      if remaining >= size {
        remaining := remaining - size;
        return None;
      }
      error := Reserve(now.value, size, commit);
    }

    /** BEGIN IMMEDIATE up to the commit or the rollback: nobody else writes in between. */
    method Reserve(current: nat, size: nat, commit: Commit) returns (error: Option<Error>)
      requires remaining < size
      modifies this`remaining, this`month, db`floor, db`months
      ensures var step := ReserveStep(old(db.Contents()), old(Contents()), current, size, commit);
              db.Contents() == step.db && Contents() == step.lease && error == step.error
    {
      var savedFloor, savedMonths := db.floor, db.months;
      if current < db.floor || db.cap != cap {
        return Some(ClockOrConfig);
      }
      db.floor := current;
      var reserved := if current in db.months then db.months[current] else 0;
      if reserved > cap {
        db.floor := savedFloor;
        return Some(Unavailable);
      }
      var needed := size - remaining;
      var grant := Min(cap - reserved, Max(needed, leaseBytes));
      if grant < needed {
        db.floor := savedFloor;
        return Some(Exhausted);
      }
      db.months := db.months[current := reserved + grant];
      if commit.Done? {
        month := Some(current);
        remaining := remaining + (grant - size);
        return None;
      }
      if commit.RolledBack? {
        db.floor, db.months := savedFloor, savedMonths;
      }
      return Some(Unavailable);
    }
  }

  // ----- Every process, every crash, every clock ------------------------------------------------

  /** All processes with the bytes they were allowed to send, and the reservations committed,
      per month. */
  datatype Fleet = Fleet(db: Ledger, leases: seq<Lease>, consumed: map<nat, nat>, commits: map<nat, nat>)

  /** `Crash` also stands for a clean shutdown: the lease is not refunded. */
  datatype Event =
    | Start(leaseBytes: nat)
    | Consume(process: nat, now: Option<nat>, size: int, commit: Commit)
    | CrashAfterCommit(process: nat, now: Option<nat>, size: int)
    | Crash(process: nat)

  function Counted(m: map<nat, nat>, now: Option<nat>, counts: bool, n: int): map<nat, nat>
    requires counts ==> n >= 0
  {
    if counts && now.Some? then m[now.value := Get(m, now.value) + n] else m
  }

  function Apply(f: Fleet, e: Event): Fleet {
    match e
    case Start(leaseBytes) =>
      f.(leases := f.leases + [Lease(f.db.cap, leaseBytes, None, 0)])
    case Consume(i, now, size, commit) =>
      if i >= |f.leases| then f
      else
        var s := ConsumeStep(f.db, f.leases[i], now, size, commit);
        Fleet(s.db, f.leases[i := s.lease],
              Counted(f.consumed, now, s.error.None?, size),
              Counted(f.commits, now, s.committed, 1))
    case CrashAfterCommit(i, now, size) =>
      if i >= |f.leases| then f
      else
        var s := ConsumeStep(f.db, f.leases[i], now, size, Done);
        Fleet(s.db, f.leases[..i] + f.leases[i + 1..], f.consumed,
              Counted(f.commits, now, s.committed, 1))
    case Crash(i) =>
      if i >= |f.leases| then f else f.(leases := f.leases[..i] + f.leases[i + 1..])
  }

  function Run(f: Fleet, events: seq<Event>): Fleet
    decreases events
  {
    if events == [] then f else Run(Apply(f, events[0]), events[1..])
  }

  /** Unspent bytes leased for month m. */
  function Credit(leases: seq<Lease>, m: nat): nat {
    if leases == [] then 0
    else (if leases[0].month == Some(m) then leases[0].remaining else 0) + Credit(leases[1..], m)
  }

  ghost predicate Safe(f: Fleet) {
    && (forall i :: 0 <= i < |f.leases| ==> f.leases[i].cap == f.db.cap)
    && (forall m: nat ::
          Get(f.consumed, m) + Credit(f.leases, m) <= Get(f.db.months, m) <= f.db.cap)
  }

  lemma {:induction false} CreditAppend(a: seq<Lease>, b: seq<Lease>, m: nat)
    ensures Credit(a + b, m) == Credit(a, m) + Credit(b, m)
  {
    if a == [] {
      assert a + b == b;
    } else {
      assert (a + b)[1..] == a[1..] + b;
      CreditAppend(a[1..], b, m);
    }
  }

  lemma CreditUpdate(leases: seq<Lease>, i: nat, l: Lease, m: nat)
    requires i < |leases|
    ensures Credit(leases[i := l], m) + Credit([leases[i]], m) == Credit(leases, m) + Credit([l], m)
    ensures Credit(leases[..i] + leases[i + 1..], m) + Credit([leases[i]], m) == Credit(leases, m)
  {
    var before, after := leases[..i], leases[i + 1..];
    assert leases == before + ([leases[i]] + after);
    assert leases[i := l] == before + ([l] + after);
    CreditAppend(before, [leases[i]] + after, m);
    CreditAppend([leases[i]], after, m);
    CreditAppend(before, [l] + after, m);
    CreditAppend([l], after, m);
    CreditAppend(before, after, m);
  }

  function OneCredit(l: Lease, m: nat): nat {
    if l.month == Some(m) then l.remaining else 0
  }

  /** One call moves bytes between reserved, leased and consumed without creating any. */
  lemma StepBalance(db: Ledger, l: Lease, now: Option<nat>, size: int, commit: Commit, m: nat)
    requires l.cap == db.cap && Get(db.months, m) <= db.cap
    ensures var s := ConsumeStep(db, l, now, size, commit);
            var spent := if s.error.None? && now == Some(m) then size else 0;
            && spent + OneCredit(s.lease, m) - OneCredit(l, m)
               <= Get(s.db.months, m) - Get(db.months, m)
            && Get(db.months, m) <= Get(s.db.months, m) <= db.cap
            && s.db.cap == db.cap && s.lease.cap == l.cap
            && (s.error.None? ==> now.Some? && 0 <= size)
  {}

  /** Unspent bytes a process may still use at `now`. */
  function CreditAt(l: Lease, now: nat): nat {
    if l.month == Some(now) then l.remaining else 0
  }

  /** A process that agrees on cap and month is refused exactly when what is left of the month
      does not cover what its lease is short of; what it takes is no more than that or a lease. */
  lemma ReservationIsModest(db: Ledger, l: Lease, now: nat, size: nat, commit: Commit)
    requires size <= MAX_WRITE && l.cap == db.cap && db.floor <= now && Get(db.months, now) <= db.cap
    ensures var s := ConsumeStep(db, l, Some(now), size, commit);
            var short := size - CreditAt(l, now);
            var taken := Get(s.db.months, now) - Get(db.months, now);
            && (s.error == Some(Exhausted) <==> short > 0 && short > db.cap - Get(db.months, now))
            && (short <= 0 ==> s.error.None? && s.db == db && CreditAt(s.lease, now) == -short)
            && (s.committed ==>
                  && s.db.floor == now && 0 < short <= taken <= Max(short, l.leaseBytes)
                  && (taken == Max(short, l.leaseBytes) || taken == db.cap - Get(db.months, now)))
            && (!s.committed ==> s.db == db)
            && (commit.Done? ==> (s.error.None? <==> short <= db.cap - Get(db.months, now)))
            && (forall m: nat :: m != now ==> Get(s.db.months, m) == Get(db.months, m))
  {}

  /** Short of agreement there is no write: an older month, or another cap, is refused. */
  lemma DisagreementIsRefused(db: Ledger, l: Lease, now: nat, size: nat, commit: Commit)
    requires size <= MAX_WRITE && (now < db.floor || l.cap != db.cap) && size > CreditAt(l, now)
    ensures var s := ConsumeStep(db, l, Some(now), size, commit);
            s.error == Some(ClockOrConfig) && s.db == db && CreditAt(s.lease, now) == CreditAt(l, now)
  {}

  /** A reservation beyond the cap is a damaged database: nothing is granted on it. */
  lemma CorruptionIsRefused(db: Ledger, l: Lease, now: nat, size: nat, commit: Commit)
    requires size <= MAX_WRITE && l.cap == db.cap && db.floor <= now && db.cap < Get(db.months, now)
    requires size > CreditAt(l, now)
    ensures var s := ConsumeStep(db, l, Some(now), size, commit);
            s.error == Some(Unavailable) && s.db == db && CreditAt(s.lease, now) == CreditAt(l, now)
  {}

  lemma {:induction false} ApplyIsSafe(f: Fleet, e: Event)
    requires Safe(f)
    ensures Safe(Apply(f, e))
    ensures Apply(f, e).db.cap == f.db.cap
  {
    var g := Apply(f, e);
    if e.Start? {
      forall m: nat
        ensures Get(g.consumed, m) + Credit(g.leases, m) <= Get(g.db.months, m) <= g.db.cap
      {
        CreditAppend(f.leases, [Lease(f.db.cap, e.leaseBytes, None, 0)], m);
      }
    } else if e.process < |f.leases| {
      var i := e.process;
      forall m: nat
        ensures Get(g.consumed, m) + Credit(g.leases, m) <= Get(g.db.months, m) <= g.db.cap
      {
        hide ConsumeStep;
        var l := f.leases[i];
        if !e.Crash? {
          var commit := if e.Consume? then e.commit else Done;
          var s := ConsumeStep(f.db, l, e.now, e.size, commit);
          StepBalance(f.db, l, e.now, e.size, commit, m);
          CreditUpdate(f.leases, i, s.lease, m);
          assert Credit([s.lease], m) == OneCredit(s.lease, m);
        } else {
          CreditUpdate(f.leases, i, l, m);
        }
        assert Credit([l], m) == OneCredit(l, m);
      }
      CapsKept(f, e);
    }
  }

  lemma CapsKept(f: Fleet, e: Event)
    requires Safe(f) && !e.Start? && e.process < |f.leases|
    ensures var g := Apply(f, e);
            g.db.cap == f.db.cap && forall i :: 0 <= i < |g.leases| ==> g.leases[i].cap == f.db.cap
  {
    if !e.Crash? {
      StepBalance(f.db, f.leases[e.process], e.now, e.size, if e.Consume? then e.commit else Done, 0);
    }
  }

  /** Budget safety: whatever the processes, their crashes and their clocks do, the bytes sent
      in a month and the credit still held for it stay within its reservation, and that stays
      within the cap. */
  lemma {:induction false} BudgetIsSafe(f: Fleet, events: seq<Event>)
    requires Safe(f)
    ensures Safe(Run(f, events))
    ensures Run(f, events).db.cap == f.db.cap
    decreases events
  {
    if events != [] {
      ApplyIsSafe(f, events[0]);
      BudgetIsSafe(Apply(f, events[0]), events[1..]);
    }
  }

  function FreshFleet(month: nat, cap: nat): Fleet {
    Fleet(Ledger(month, cap, map[]), [], map[], map[])
  }

  lemma BudgetHolds(month: nat, cap: nat, events: seq<Event>, m: nat)
    ensures var f := Run(FreshFleet(month, cap), events);
            Get(f.consumed, m) + Credit(f.leases, m) <= Get(f.db.months, m) <= cap
  {
    BudgetIsSafe(FreshFleet(month, cap), events);
  }

  lemma ApplyKeepsThePast(f: Fleet, e: Event, m: nat)
    ensures var g := Apply(f, e);
            && f.db.floor <= g.db.floor
            && (m < f.db.floor ==> Get(g.db.months, m) == Get(f.db.months, m))
  {
    if !e.Start? && !e.Crash? && e.process < |f.leases| {
      hide ConsumeStep;
      StepKeepsThePast(f.db, f.leases[e.process], e.now, e.size, if e.Consume? then e.commit else Done, m);
    }
  }

  lemma StepKeepsThePast(db: Ledger, l: Lease, now: Option<nat>, size: int, commit: Commit, m: nat)
    ensures var s := ConsumeStep(db, l, now, size, commit);
            && db.floor <= s.db.floor
            && (m < db.floor ==> Get(s.db.months, m) == Get(db.months, m))
  {}

  /** Clock rollback cannot reopen a month: behind the stored month reservations are frozen. */
  lemma {:induction false} PastMonthsAreFrozen(f: Fleet, events: seq<Event>, m: nat)
    ensures var g := Run(f, events);
            && f.db.floor <= g.db.floor
            && (m < f.db.floor ==> Get(g.db.months, m) == Get(f.db.months, m))
    decreases events
  {
    if events != [] {
      hide Apply;
      ApplyKeepsThePast(f, events[0], m);
      PastMonthsAreFrozen(Apply(f, events[0]), events[1..], m);
    }
  }

  // ----- How many durable writes ----------------------------------------------------------------

  /** Every committed reservation but the last one of a month takes a full lease. */
  ghost predicate FewCommits(f: Fleet, leaseBytes: nat) {
    && (forall i :: 0 <= i < |f.leases| ==>
          f.leases[i].cap == f.db.cap && f.leases[i].leaseBytes == leaseBytes)
    && (forall m: nat :: MonthCommits(Get(f.commits, m), Get(f.db.months, m), f.db.cap, leaseBytes))
  }

  predicate MonthCommits(commits: nat, reserved: nat, cap: nat, leaseBytes: nat) {
    && reserved <= cap
    && (commits * leaseBytes <= reserved ||
        (reserved == cap && (commits - 1) * leaseBytes < cap))
  }

  predicate SameLease(e: Event, leaseBytes: nat) {
    e.Start? ==> e.leaseBytes == leaseBytes
  }

  lemma StepCommits(db: Ledger, l: Lease, now: Option<nat>, size: int, commit: Commit)
    requires l.cap == db.cap
    ensures var s := ConsumeStep(db, l, now, size, commit);
            && s.db.cap == db.cap && s.lease.cap == l.cap && s.lease.leaseBytes == l.leaseBytes
            && (!s.committed ==> s.db == db)
            && (s.committed ==>
                  && now.Some?
                  && (forall m: nat :: m != now.value ==> Get(s.db.months, m) == Get(db.months, m))
                  && var before, after := Get(db.months, now.value), Get(s.db.months, now.value);
                     before < after <= db.cap && (before + l.leaseBytes <= after || after == db.cap))
  {}

  lemma OneMoreCommit(commits: nat, before: nat, after: nat, cap: nat, leaseBytes: nat)
    requires MonthCommits(commits, before, cap, leaseBytes)
    requires before < after <= cap && (before + leaseBytes <= after || after == cap)
    ensures MonthCommits(commits + 1, after, cap, leaseBytes)
  {
    assert (commits + 1) * leaseBytes == commits * leaseBytes + leaseBytes;
  }

  lemma ApplyCommits(f: Fleet, e: Event, leaseBytes: nat)
    requires FewCommits(f, leaseBytes) && SameLease(e, leaseBytes)
    ensures FewCommits(Apply(f, e), leaseBytes) && Apply(f, e).db.cap == f.db.cap
  {
    if !e.Start? && !e.Crash? && e.process < |f.leases| {
      hide ConsumeStep, MonthCommits;
      var commit := if e.Consume? then e.commit else Done;
      var l := f.leases[e.process];
      var s := ConsumeStep(f.db, l, e.now, e.size, commit);
      StepCommits(f.db, l, e.now, e.size, commit);
      if s.committed {
        var m := e.now.value;
        OneMoreCommit(Get(f.commits, m), Get(f.db.months, m), Get(s.db.months, m), f.db.cap, leaseBytes);
      }
    }
  }

  lemma {:induction false} RunCommits(f: Fleet, events: seq<Event>, leaseBytes: nat)
    requires FewCommits(f, leaseBytes)
    requires forall e :: e in events ==> SameLease(e, leaseBytes)
    ensures FewCommits(Run(f, events), leaseBytes) && Run(f, events).db.cap == f.db.cap
    decreases events
  {
    if events != [] {
      ApplyCommits(f, events[0], leaseBytes);
      RunCommits(Apply(f, events[0]), events[1..], leaseBytes);
    }
  }

  lemma CeilingBound(commits: nat, cap: nat, leaseBytes: nat)
    requires leaseBytes >= 1 && (commits - 1) * leaseBytes < cap
    ensures commits <= (cap + leaseBytes - 1) / leaseBytes
  {
    var n := cap + leaseBytes - 1;
    assert commits * leaseBytes == (commits - 1) * leaseBytes + leaseBytes;
    QuotientBound(commits, n, leaseBytes);
  }

  lemma QuotientBound(k: nat, n: nat, d: nat)
    requires d >= 1 && k * d <= n
    ensures k <= n / d
  {
    var q := n / d;
    ProductMonotone(q + 1, k, d);
    assert (q + 1) * d == q * d + d;
  }

  lemma ProductMonotone(a: int, b: int, d: nat)
    ensures a <= b ==> a * d <= b * d
  {
    if a <= b {
      assert b * d == a * d + (b - a) * d;
    }
  }

  /** With one lease size, a month costs at most ceil(cap / leaseBytes) committed
      reservations over all processes. */
  lemma ReservationsAreFew(month: nat, cap: nat, leaseBytes: nat, events: seq<Event>, m: nat)
    requires cap >= 1 && leaseBytes >= 1
    requires forall e :: e in events ==> SameLease(e, leaseBytes)
    ensures Get(Run(FreshFleet(month, cap), events).commits, m)
            <= (cap + leaseBytes - 1) / leaseBytes
  {
    var f := Run(FreshFleet(month, cap), events);
    RunCommits(FreshFleet(month, cap), events, leaseBytes);
    var commits := Get(f.commits, m);
    assert MonthCommits(commits, Get(f.db.months, m), cap, leaseBytes);
    assert (commits - 1) * leaseBytes == commits * leaseBytes - leaseBytes;
    CeilingBound(commits, cap, leaseBytes);
  }

  // ----- One process spends exactly the cap -------------------------------------------------------

  datatype Request = Request(month: nat, size: int)

  predicate Admissible(requests: seq<Request>, from: nat) {
    requests == [] ||
    (from <= requests[0].month && 0 <= requests[0].size <= MAX_WRITE &&
     Admissible(requests[1..], requests[0].month))
  }

  /** The answers of one process whose commits succeed. */
  function Answers(db: Ledger, l: Lease, requests: seq<Request>): seq<bool>
    decreases requests
  {
    if requests == [] then []
    else
      var s := ConsumeStep(db, l, Some(requests[0].month), requests[0].size, Done);
      [s.error.None?] + Answers(s.db, s.lease, requests[1..])
  }

  /** The plain counter: accept what still fits in the month. */
  function PlainCounter(cap: nat, consumed: map<nat, nat>, requests: seq<Request>): seq<bool>
    requires forall r :: r in requests ==> r.size >= 0
    decreases requests
  {
    if requests == [] then []
    else
      var r := requests[0];
      var fits := Get(consumed, r.month) + r.size <= cap;
      [fits] + PlainCounter(cap, Counted(consumed, Some(r.month), fits, r.size), requests[1..])
  }

  lemma {:induction false} AdmissibleSizes(requests: seq<Request>, from: nat)
    requires Admissible(requests, from)
    ensures forall r :: r in requests ==> r.size >= 0
  {
    if requests != [] {
      AdmissibleSizes(requests[1..], requests[0].month);
      forall r | r in requests
        ensures r.size >= 0
      {
        assert r == requests[0] || r in requests[1..];
      }
    }
  }

  /** From month `from` on nothing was burned: what is reserved is consumed or still leased. */
  ghost predicate Exact(db: Ledger, l: Lease, consumed: map<nat, nat>, from: nat) {
    && l.cap == db.cap && db.floor <= from
    && (l.month.Some? ==> l.month.value <= from)
    && (forall m: nat :: m >= from ==>
          Get(db.months, m) == Get(consumed, m) + OneCredit(l, m) && Get(db.months, m) <= db.cap)
  }

  /** What one call does to the month of the request and to later ones. */
  lemma ExactMonth(db: Ledger, l: Lease, consumed: nat, r: Request, m: nat)
    requires l.cap == db.cap && db.floor <= r.month <= m && 0 <= r.size <= MAX_WRITE
    requires l.month.Some? ==> l.month.value <= r.month
    requires Get(db.months, m) == consumed + OneCredit(l, m) && Get(db.months, m) <= db.cap
    ensures var s := ConsumeStep(db, l, Some(r.month), r.size, Done);
            && (m == r.month ==> s.error.None? == (consumed + r.size <= db.cap))
            && Get(s.db.months, m) <= db.cap
            && Get(s.db.months, m) ==
               consumed + (if m == r.month && s.error.None? then r.size else 0) + OneCredit(s.lease, m)
  {}

  lemma ExactFrame(db: Ledger, l: Lease, now: nat, size: int)
    requires l.cap == db.cap && db.floor <= now && (l.month.Some? ==> l.month.value <= now)
    ensures var s := ConsumeStep(db, l, Some(now), size, Done);
            && s.db.cap == db.cap && s.lease.cap == db.cap && s.db.floor <= now
            && (s.lease.month.Some? ==> s.lease.month.value <= now)
  {}

  lemma ExactStep(db: Ledger, l: Lease, consumed: map<nat, nat>, from: nat, r: Request)
    requires Exact(db, l, consumed, from) && from <= r.month && 0 <= r.size <= MAX_WRITE
    ensures var s := ConsumeStep(db, l, Some(r.month), r.size, Done);
            && s.error.None? == (Get(consumed, r.month) + r.size <= db.cap)
            && s.db.cap == db.cap
            && Exact(s.db, s.lease, Counted(consumed, Some(r.month), s.error.None?, r.size), r.month)
  {
    hide ConsumeStep;
    var s := ConsumeStep(db, l, Some(r.month), r.size, Done);
    ExactFrame(db, l, r.month, r.size);
    ExactMonth(db, l, Get(consumed, r.month), r, r.month);
    forall m: nat | m >= r.month
      ensures Get(s.db.months, m) ==
                Get(Counted(consumed, Some(r.month), s.error.None?, r.size), m) + OneCredit(s.lease, m)
              && Get(s.db.months, m) <= db.cap
    {
      ExactMonth(db, l, Get(consumed, m), r, m);
    }
  }

  /** Budget exactness: with a clock that does not go back and no restart, the leased budget
      gives the answers of the plain counter, whatever the lease size is. */
  lemma {:induction false} LeasesAreExact(db: Ledger, l: Lease, consumed: map<nat, nat>, from: nat,
                                          requests: seq<Request>)
    requires Exact(db, l, consumed, from) && Admissible(requests, from)
    ensures forall r :: r in requests ==> r.size >= 0
    ensures Answers(db, l, requests) == PlainCounter(db.cap, consumed, requests)
    decreases requests
  {
    AdmissibleSizes(requests, from);
    if requests != [] {
      hide ConsumeStep, Exact;
      var r := requests[0];
      var s := ConsumeStep(db, l, Some(r.month), r.size, Done);
      ExactStep(db, l, consumed, from, r);
      LeasesAreExact(s.db, s.lease, Counted(consumed, Some(r.month), s.error.None?, r.size),
                     r.month, requests[1..]);
    }
  }

  lemma FreshProcessIsExact(db: Ledger, leaseBytes: nat, from: nat, requests: seq<Request>)
    requires db.floor <= from && Admissible(requests, from)
    requires forall m: nat :: m >= from ==> Get(db.months, m) == 0
    ensures forall r :: r in requests ==> r.size >= 0
    ensures Answers(db, Lease(db.cap, leaseBytes, None, 0), requests)
            == PlainCounter(db.cap, map[], requests)
  {
    LeasesAreExact(db, Lease(db.cap, leaseBytes, None, 0), map[], from, requests);
  }
}
