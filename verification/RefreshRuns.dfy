/** chatgpt_auth.py over whole runs of any number of sessions in any number of processes: no
    refresh token is presented twice, and a late answer changes nothing but the record its own
    claim left. */
module RefreshRuns {
  import opened Wrappers
  import opened RefreshClaim

  datatype Operation =
    | Claim(generation: nat, now: int, claim: string, revision: Option<string>)
    | Send
    | Complete(replacement: Tokens, revision: Option<string>)
    | Terminate(revision: Option<string>)
    | Abandon
    | SignInStart(number: nat, host: string, revision: Option<string>)
    | SignInRegister(number: nat, client: string, revision: Option<string>)
    | SignInFinish(number: nat, id: Id, client: string, email: string, tokens: Tokens, revision: Option<string>)
    | SignOut(revision: Option<string>)
    | Select(id: Id, revision: Option<string>)
    | Acknowledge(revision: Option<string>)
    | Observe
    | Crash

  /** What was issued, which claims were stored with what they claimed, and which were sent. */
  datatype Log = Log(issued: set<string>, claims: map<string, (Id, Tokens)>, sent: seq<string>, revisions: set<string>)

  datatype World = World(profile: Profile, sessions: map<nat, Session>, log: Log)

  datatype Event = Event(who: nat, operation: Operation)

  function SessionOf(w: World, who: nat): Session {
    if who in w.sessions then w.sessions[who] else CLOSED
  }

  function Revision(o: Operation): Option<string> {
    match o
    case Claim(_, _, _, r) => r
    case Complete(_, r) => r
    case Terminate(r) => r
    case SignInStart(_, _, r) => r
    case SignInRegister(_, _, r) => r
    case SignInFinish(_, _, _, _, _, r) => r
    case SignOut(r) => r
    case Select(_, r) => r
    case Acknowledge(r) => r
    case _ => None
  }

  /** Claims and revisions are random, and the issuer gives every refresh token out once. */
  predicate Possible(w: World, e: Event) {
    var s := SessionOf(w, e.who);
    var revision := Revision(e.operation);
    && (revision.Some? ==> revision.value != "" && revision.value !in w.log.revisions)
    && match e.operation
       case Claim(_, _, claim, _) => s.refresh.None? && claim !in w.log.claims
       case Send => s.refresh.Some? && s.refresh.value.phase.Held?
       case Complete(t, _) =>
         && s.refresh.Some? && s.refresh.value.phase.Sent?
         && t.access != "" && t.refresh != "" && t.refresh !in w.log.issued
       case Terminate(_) => s.refresh.Some? && s.refresh.value.phase.Sent?
       case Abandon => s.refresh.Some?
       case SignInFinish(_, _, _, _, t, _) =>
         && (t.plan ==> t.access != "" && t.refresh != "")
         && t.refresh !in w.log.issued
       case _ => true
  }

  function Moved<T>(w: World, who: nat, step: Step<T>, log: Log): World {
    World(step.profile, w.sessions[who := step.session], log)
  }

  function Issued(log: Log, token: string): Log {
    if token == "" then log else log.(issued := log.issued + {token})
  }

  function ClaimLog(log: Log, account: Id, tokens: Tokens, claim: string): Log {
    log.(claims := log.claims[claim := (account, tokens)])
  }

  function Claimed(w: World, who: nat, step: Step<Access>): World {
    Moved(w, who, step,
          if step.result.Success? && step.result.value.Claimed? && step.session.refresh.Some? then
            var r := step.session.refresh.value; ClaimLog(w.log, r.account, r.tokens, r.claim)
          else w.log)
  }

  function Presented(w: World, who: nat, claim: string, step: Step<string>): World {
    Moved(w, who, step, if step.result.Success? then w.log.(sent := w.log.sent + [claim]) else w.log)
  }

  function Noted(log: Log, revision: Option<string>): Log {
    if revision.Some? then log.(revisions := log.revisions + {revision.value}) else log
  }

  function Act(w: World, e: Event): World
    requires Possible(w, e)
  {
    var p, s, who := w.profile, SessionOf(w, e.who), e.who;
    match e.operation
    case Claim(generation, now, claim, revision) => Claimed(w, who, ClaimStep(p, s, generation, now, claim, revision))
    case Send => Presented(w, who, s.refresh.value.claim, SendStep(p, s))
    case Complete(t, revision) => Moved(w, who, CompleteStep(p, s, t, revision), Issued(w.log, t.refresh))
    case Terminate(revision) => Moved(w, who, TerminateStep(p, s, revision), w.log)
    case Abandon => w.(sessions := w.sessions[who := s.(refresh := None)])
    case SignInStart(number, host, revision) => Moved(w, who, SignInStartStep(p, s, number, host, revision), w.log)
    case SignInRegister(number, client, revision) =>
      Moved(w, who, SignInRegisterStep(p, s, number, client, revision), w.log)
    case SignInFinish(number, id, client, email, t, revision) =>
      Moved(w, who, SignInFinishStep(p, s, number, id, client, email, t, revision), Issued(w.log, t.refresh))
    case SignOut(revision) => Moved(w, who, SignOutStep(p, s, revision), w.log)
    case Select(id, revision) => Moved(w, who, SelectStep(p, s, id, revision), w.log)
    case Acknowledge(revision) => Moved(w, who, AcknowledgeStep(p, s, revision), w.log)
    case Observe => w.(sessions := w.sessions[who := Load(p, s)])
    case Crash => w.(sessions := w.sessions[who := CLOSED])
  }

  function Next(w: World, e: Event): World
    requires Possible(w, e)
  {
    var w1 := Act(w, e);
    w1.(log := Noted(w1.log, Revision(e.operation)))
  }

  predicate Run(w: World, events: seq<Event>, end: World)
    decreases events
  {
    if events == [] then w == end
    else Possible(w, events[0]) && Run(Next(w, events[0]), events[1..], end)
  }

  const START := World(EMPTY, map[], Log({}, map[], [], {}))

  // ----- What every step keeps ------------------------------------------------------------------------

  function Token(r: Record): string {
    if r.tokens.Some? then r.tokens.value.refresh else ""
  }

  /** An unclaimed token was never claimed; a claimed record holds exactly what was claimed. */
  ghost predicate RecordOk(id: Id, r: Record, log: Log) {
    && (Token(r) != "" ==> Token(r) in log.issued)
    && (r.tokens.Some? && r.tokens.value.plan ==> Token(r) != "")
    && match r.pending
       case None => forall c :: c in log.claims && Token(r) != "" ==> log.claims[c].1.refresh != Token(r)
       case Some(c) => c in log.claims && r.tokens.Some? && log.claims[c] == (id, r.tokens.value)
  }

  ghost predicate AccountsOk(accounts: map<Id, Record>, log: Log) {
    && (forall i :: i in accounts ==> RecordOk(i, accounts[i], log))
    && (forall i, j :: i in accounts && j in accounts && Token(accounts[i]) == Token(accounts[j]) != "" ==> i == j)
  }

  ghost predicate ClaimsOk(log: Log) {
    && (forall c :: c in log.claims ==> log.claims[c].1.refresh != "" && log.claims[c].1.refresh in log.issued)
    && (forall c, d :: c in log.claims && d in log.claims && log.claims[c].1.refresh == log.claims[d].1.refresh ==>
          c == d)
    && (forall i :: 0 <= i < |log.sent| ==> log.sent[i] in log.claims)
    && (forall i, j :: 0 <= i < j < |log.sent| ==> log.sent[i] != log.sent[j])
  }

  ghost predicate SessionOk(s: Session, log: Log) {
    s.refresh.Some? ==>
      var r := s.refresh.value;
      && r.claim in log.claims && log.claims[r.claim] == (r.account, r.tokens)
      && (r.phase.Held? ==> r.claim !in log.sent)
      && r.generation <= s.generation
      && (r.generation == s.generation ==> s.data.Some? && s.data.value.active == r.account)
  }

  ghost predicate OthersDiffer(w: World, who: nat, claim: string) {
    forall q :: q in w.sessions && q != who && w.sessions[q].refresh.Some? ==>
      w.sessions[q].refresh.value.claim != claim
  }

  ghost predicate SessionsOk(w: World) {
    forall q :: q in w.sessions ==>
      && SessionOk(w.sessions[q], w.log)
      && (w.sessions[q].refresh.Some? ==> OthersDiffer(w, q, w.sessions[q].refresh.value.claim))
  }

  ghost predicate RevisionsOk(w: World) {
    && w.profile.revision in w.log.revisions + {""}
    && forall q :: q in w.sessions && w.sessions[q].data.Some? ==>
         w.sessions[q].data.value.revision in w.log.revisions + {""}
  }

  ghost predicate Core(w: World) {
    AccountsOk(w.profile.accounts, w.log) && ClaimsOk(w.log) && SessionsOk(w)
  }

  ghost predicate Inv(w: World) {
    Core(w) && RevisionsOk(w)
  }

  // ----- Records ------------------------------------------------------------------------------------------

  lemma SameTokensOk(before: map<Id, Record>, after: map<Id, Record>, log: Log)
    requires AccountsOk(before, log) && after.Keys == before.Keys
    requires forall i :: i in after ==> after[i].tokens == before[i].tokens && after[i].pending == before[i].pending
    ensures AccountsOk(after, log)
  {}

  lemma ClaimedOk(accounts: map<Id, Record>, log: Log, id: Id, claim: string)
    requires AccountsOk(accounts, log) && ClaimsOk(log) && id in accounts && claim !in log.claims
    requires accounts[id].pending.None? && Token(accounts[id]) != ""
    ensures var log1 := ClaimLog(log, id, accounts[id].tokens.value, claim);
            AccountsOk(accounts[id := accounts[id].(pending := Some(claim))], log1) && ClaimsOk(log1)
  {
    var log1 := ClaimLog(log, id, accounts[id].tokens.value, claim);
    var after := accounts[id := accounts[id].(pending := Some(claim))];
    forall i | i in after ensures RecordOk(i, after[i], log1) {
      assert RecordOk(i, accounts[i], log);
    }
  }

  lemma ReplacedOk(accounts: map<Id, Record>, log: Log, id: Id, record: Record)
    requires AccountsOk(accounts, log) && ClaimsOk(log)
    requires record.pending.None? && Token(record) !in log.issued
    requires record.tokens.Some? && record.tokens.value.plan ==> Token(record) != ""
    ensures AccountsOk(accounts[id := record], Issued(log, Token(record))) && ClaimsOk(Issued(log, Token(record)))
  {
    var log1 := Issued(log, Token(record));
    var after := accounts[id := record];
    forall i | i in after ensures RecordOk(i, after[i], log1) {
      if i != id {
        assert RecordOk(i, accounts[i], log);
      }
    }
    forall i, j | i in after && j in after && Token(after[i]) == Token(after[j]) != ""
      ensures i == j
    {
      if i != id {
        assert RecordOk(i, accounts[i], log);
      }
      if j != id {
        assert RecordOk(j, accounts[j], log);
      }
    }
  }

  lemma IssuedOk(accounts: map<Id, Record>, log: Log, token: string)
    requires AccountsOk(accounts, log) && ClaimsOk(log)
    ensures AccountsOk(accounts, Issued(log, token)) && ClaimsOk(Issued(log, token))
  {
    forall i | i in accounts ensures RecordOk(i, accounts[i], Issued(log, token)) {
      assert RecordOk(i, accounts[i], log);
    }
  }

  lemma NotedOk(w: World, revision: Option<string>)
    requires Core(w)
    ensures Core(w.(log := Noted(w.log, revision)))
  {
    var log1 := Noted(w.log, revision);
    forall i | i in w.profile.accounts ensures RecordOk(i, w.profile.accounts[i], log1) {
      assert RecordOk(i, w.profile.accounts[i], w.log);
    }
    forall q | q in w.sessions ensures SessionOk(w.sessions[q], log1) {
      assert SessionOk(w.sessions[q], w.log);
    }
  }

  // ----- Sessions -----------------------------------------------------------------------------------------

  /** A session moves on without touching what it has under way. */
  lemma SessionMoves(w: World, who: nat, profile: Profile, s: Session, log: Log)
    requires SessionsOk(w) && log.claims == w.log.claims && log.sent == w.log.sent
    requires s.refresh == SessionOf(w, who).refresh || s.refresh.None?
    requires SessionOk(s, log)
    ensures SessionsOk(World(profile, w.sessions[who := s], log))
  {
    var w1 := World(profile, w.sessions[who := s], log);
    forall q | q in w1.sessions
      ensures SessionOk(w1.sessions[q], log)
      ensures w1.sessions[q].refresh.Some? ==> OthersDiffer(w1, q, w1.sessions[q].refresh.value.claim)
    {
      if q in w.sessions {
        assert SessionOk(w.sessions[q], w.log);
        if w1.sessions[q].refresh.Some? {
          assert OthersDiffer(w, q, w.sessions[q].refresh.value.claim);
        }
      }
    }
  }

  lemma LoadOk(p: Profile, s: Session, log: Log)
    requires SessionOk(s, log)
    ensures SessionOk(Load(p, s), log) && Load(p, s).refresh == s.refresh && Load(p, s).data == Some(p)
  {}

  lemma CurrentSession(w: World, who: nat)
    requires SessionsOk(w)
    ensures SessionOk(SessionOf(w, who), w.log)
  {}

  // ----- Steps --------------------------------------------------------------------------------------------

  /** A session starts to hold a claim nobody else has. */
  lemma SessionClaims(w: World, who: nat, profile: Profile, s: Session, log: Log)
    requires SessionsOk(w) && s.refresh.Some?
    requires s.refresh.value.claim !in w.log.claims
    requires log.sent == w.log.sent
    requires log.claims == w.log.claims[s.refresh.value.claim := (s.refresh.value.account, s.refresh.value.tokens)]
    requires SessionOk(s, log)
    ensures SessionsOk(World(profile, w.sessions[who := s], log))
  {
    var w1 := World(profile, w.sessions[who := s], log);
    forall q | q in w1.sessions
      ensures SessionOk(w1.sessions[q], log)
      ensures w1.sessions[q].refresh.Some? ==> OthersDiffer(w1, q, w1.sessions[q].refresh.value.claim)
    {
      if q in w.sessions {
        assert SessionOk(w.sessions[q], w.log);
        if w.sessions[q].refresh.Some? {
          assert OthersDiffer(w, q, w.sessions[q].refresh.value.claim);
        }
      }
    }
  }

  /** A session's claim is sent. */
  lemma SessionSends(w: World, who: nat, s: Session, log: Log)
    requires SessionsOk(w) && who in w.sessions && w.sessions[who].refresh.Some? && s.refresh.Some?
    requires s.refresh.value.claim == w.sessions[who].refresh.value.claim
    requires log.claims == w.log.claims && log.sent == w.log.sent + [s.refresh.value.claim]
    requires SessionOk(s, log)
    ensures SessionsOk(World(w.profile, w.sessions[who := s], log))
  {
    var w1 := World(w.profile, w.sessions[who := s], log);
    forall q | q in w1.sessions
      ensures SessionOk(w1.sessions[q], log)
      ensures w1.sessions[q].refresh.Some? ==> OthersDiffer(w1, q, w1.sessions[q].refresh.value.claim)
    {
      assert SessionOk(w.sessions[q], w.log);
      assert OthersDiffer(w, who, s.refresh.value.claim);
      if w.sessions[q].refresh.Some? {
        assert OthersDiffer(w, q, w.sessions[q].refresh.value.claim);
      }
    }
  }

  lemma ClaimKeeps(w: World, e: Event)
    requires Core(w) && Possible(w, e) && e.operation.Claim?
    ensures Core(Act(w, e))
  {
    hide AccountsOk, SessionsOk, SessionOk, ClaimsOk, Load, StillGood;
    var Claim(generation, now, claim, revision) := e.operation;
    var p, s := w.profile, SessionOf(w, e.who);
    var step := ClaimStep(p, s, generation, now, claim, revision);
    CurrentSession(w, e.who);
    LoadOk(p, s, w.log);
    if step.session.refresh.Some? {
      PlanHasToken(p.accounts, w.log, p.active);
      ClaimedOk(p.accounts, w.log, p.active, claim);
      FirstHold(p, Load(p, s), step.session, w.log);
      SessionClaims(w, e.who, step.profile, step.session,
                    ClaimLog(w.log, p.active, p.accounts[p.active].tokens.value, claim));
    } else {
      NothingUnderWay(step.session, w.log);
      SessionMoves(w, e.who, step.profile, step.session, w.log);
    }
  }

  lemma PlanHasToken(accounts: map<Id, Record>, log: Log, id: Id)
    requires AccountsOk(accounts, log) && id in accounts
    ensures accounts[id].tokens.Some? && accounts[id].tokens.value.plan ==> Token(accounts[id]) != ""
  {
    assert RecordOk(id, accounts[id], log);
  }

  lemma NothingUnderWay(s: Session, log: Log)
    requires s.refresh.None?
    ensures SessionOk(s, log)
  {}

  lemma FirstHold(p: Profile, s1: Session, s2: Session, log: Log)
    requires ClaimsOk(log) && s2.refresh.Some? && s2.refresh.value.phase.Held?
    requires s2.refresh.value.generation == s1.generation == s2.generation
    requires s2.data.Some? && s2.data.value.active == s2.refresh.value.account
    requires s2.refresh.value.claim !in log.claims
    ensures SessionOk(s2, ClaimLog(log, s2.refresh.value.account, s2.refresh.value.tokens, s2.refresh.value.claim))
  {}

  lemma SendKeeps(w: World, e: Event)
    requires Core(w) && Possible(w, e) && e.operation.Send?
    ensures Core(Act(w, e))
  {
    hide AccountsOk, SessionsOk, Load;
    var p, s := w.profile, SessionOf(w, e.who);
    var r := s.refresh.value;
    var step := SendStep(p, s);
    CurrentSession(w, e.who);
    LoadOk(p, s, w.log);
    if step.session.refresh.Some? {
      var log1 := w.log.(sent := w.log.sent + [r.claim]);
      SessionSends(w, e.who, step.session, log1);
      SentAccounts(p.accounts, w.log, log1);
    } else {
      SessionMoves(w, e.who, p, step.session, w.log);
    }
  }

  lemma SentAccounts(accounts: map<Id, Record>, log: Log, log1: Log)
    requires AccountsOk(accounts, log) && log1 == log.(sent := log1.sent)
    ensures AccountsOk(accounts, log1)
  {
    forall i | i in accounts ensures RecordOk(i, accounts[i], log1) {
      assert RecordOk(i, accounts[i], log);
    }
  }

  lemma CompleteKeeps(w: World, e: Event)
    requires Core(w) && Possible(w, e) && e.operation.Complete?
    ensures Core(Act(w, e))
  {
    hide AccountsOk, SessionsOk, SessionOk, ClaimsOk, Load;
    var Complete(t, revision) := e.operation;
    var p, s := w.profile, SessionOf(w, e.who);
    var r := s.refresh.value;
    var step := CompleteStep(p, s, t, revision);
    NothingUnderWay(step.session, Issued(w.log, t.refresh));
    SessionMoves(w, e.who, step.profile, step.session, Issued(w.log, t.refresh));
    if step.profile == p {
      IssuedOk(p.accounts, w.log, t.refresh);
    } else {
      ReplacedOk(p.accounts, w.log, r.account, p.accounts[r.account].(tokens := Some(t), pending := None));
    }
  }

  lemma TerminateKeeps(w: World, e: Event)
    requires Core(w) && Possible(w, e) && e.operation.Terminate?
    ensures Core(Act(w, e))
  {
    hide AccountsOk, SessionsOk, SessionOk, ClaimsOk, Load;
    var p, s := w.profile, SessionOf(w, e.who);
    var r := s.refresh.value;
    var step := TerminateStep(p, s, e.operation.revision);
    NothingUnderWay(step.session, w.log);
    SessionMoves(w, e.who, step.profile, step.session, w.log);
    if step.profile != p {
      ClearedOk(p.accounts, w.log, r.account);
    }
  }

  lemma ClearedOk(accounts: map<Id, Record>, log: Log, id: Id)
    requires AccountsOk(accounts, log) && id in accounts
    ensures AccountsOk(accounts[id := accounts[id].(tokens := None, pending := None)], log)
  {
    var after := accounts[id := accounts[id].(tokens := None, pending := None)];
    forall i | i in after ensures RecordOk(i, after[i], log) {
      assert RecordOk(i, accounts[i], log);
    }
  }

  lemma SignInKeeps(w: World, e: Event)
    requires Core(w) && Possible(w, e) && (e.operation.SignInStart? || e.operation.SignInRegister?)
    ensures Core(Act(w, e))
  {
    hide AccountsOk, SessionsOk, ClaimsOk, Load;
    CurrentSession(w, e.who);
    LoadOk(w.profile, SessionOf(w, e.who), w.log);
    var w1 := Act(w, e);
    SessionMoves(w, e.who, w1.profile, w1.sessions[e.who], w.log);
  }

  lemma SignInFinishKeeps(w: World, e: Event)
    requires Core(w) && Possible(w, e) && e.operation.SignInFinish?
    ensures Core(Act(w, e))
  {
    hide AccountsOk, SessionsOk, ClaimsOk, Load;
    var SignInFinish(number, id, client, email, t, revision) := e.operation;
    var p, s := w.profile, SessionOf(w, e.who);
    CurrentSession(w, e.who);
    LoadOk(p, s, w.log);
    var step := SignInFinishStep(p, s, number, id, client, email, t, revision);
    SessionMoves(w, e.who, step.profile, step.session, Issued(w.log, t.refresh));
    if step.result.Failure? {
      IssuedOk(p.accounts, w.log, t.refresh);
    } else {
      var seen := id in p.accounts && p.accounts[id].noticeSeen;
      ReplacedOk(p.accounts, w.log, id, Record(client, email, Some(t), None, seen));
    }
  }

  lemma SignOutKeeps(w: World, e: Event)
    requires Core(w) && Possible(w, e) && e.operation.SignOut?
    ensures Core(Act(w, e))
  {
    hide AccountsOk, SessionsOk, ClaimsOk, Load;
    var p, s := w.profile, SessionOf(w, e.who);
    CurrentSession(w, e.who);
    LoadOk(p, s, w.log);
    var step := SignOutStep(p, s, e.operation.revision);
    SessionMoves(w, e.who, step.profile, step.session, w.log);
    if p.active in p.accounts {
      ClearedOk(p.accounts, w.log, p.active);
    }
  }

  lemma OtherKeeps(w: World, e: Event)
    requires Core(w) && Possible(w, e)
    requires e.operation.Select? || e.operation.Acknowledge? || e.operation.Observe? || e.operation.Crash? ||
             e.operation.Abandon?
    ensures Core(Act(w, e))
  {
    hide AccountsOk, SessionsOk, ClaimsOk, Load;
    CurrentSession(w, e.who);
    LoadOk(w.profile, SessionOf(w, e.who), w.log);
    var w1 := Act(w, e);
    SessionMoves(w, e.who, w1.profile, w1.sessions[e.who], w.log);
    SameTokensOk(w.profile.accounts, w1.profile.accounts, w.log);
  }

  lemma ActKeeps(w: World, e: Event)
    requires Core(w) && Possible(w, e)
    ensures Core(Act(w, e))
  {
    hide Core, Act;
    match e.operation
    case Claim(_, _, _, _) => ClaimKeeps(w, e);
    case Send => SendKeeps(w, e);
    case Complete(_, _) => CompleteKeeps(w, e);
    case Terminate(_) => TerminateKeeps(w, e);
    case SignInStart(_, _, _) => SignInKeeps(w, e);
    case SignInRegister(_, _, _) => SignInKeeps(w, e);
    case SignInFinish(_, _, _, _, _, _) => SignInFinishKeeps(w, e);
    case SignOut(_) => SignOutKeeps(w, e);
    case _ => OtherKeeps(w, e);
  }

  /** A step leaves the profile alone or writes its own revision, and its session has seen
      what it leaves. */
  ghost predicate Revises(w: World, e: Event, w1: World) {
    && (w1.profile != w.profile ==> Revision(e.operation) == Some(w1.profile.revision))
    && e.who in w1.sessions && w1.sessions == w.sessions[e.who := w1.sessions[e.who]]
    && w1.log.revisions == w.log.revisions
    && w1.sessions[e.who].data in {None, Some(w1.profile), SessionOf(w, e.who).data}
  }

  lemma RefreshRevises(w: World, e: Event)
    requires Possible(w, e)
    requires e.operation.Claim? || e.operation.Send? || e.operation.Complete? || e.operation.Terminate?
    ensures Revises(w, e, Act(w, e))
  {
    hide CurrentTokens, StillGood, Current, ClaimStands, SetRecord, Invalidated, SetRecord;
    InvalidatedFrame();
    LoadFrame();
  }

  lemma InvalidatedFrame()
    ensures forall s :: Invalidated(s).data == s.data && Invalidated(s).refresh == s.refresh
  {}

  lemma LoadFrame()
    ensures forall p, s :: Load(p, s).data == Some(p) && Load(p, s).refresh == s.refresh
  {}

  lemma SignInRevises(w: World, e: Event)
    requires Possible(w, e) && (e.operation.SignInStart? || e.operation.SignInRegister? || e.operation.SignInFinish?)
    ensures Revises(w, e, Act(w, e))
  {
    hide AttemptStands, SetRecord, Invalidated, Load;
    InvalidatedFrame();
    LoadFrame();
  }

  lemma OtherRevises(w: World, e: Event)
    requires Possible(w, e)
    requires e.operation.SignOut? || e.operation.Select? || e.operation.Acknowledge? || e.operation.Observe? ||
             e.operation.Crash? || e.operation.Abandon?
    ensures Revises(w, e, Act(w, e))
  {
    hide CurrentTokens, SetRecord, Invalidated, Load;
    InvalidatedFrame();
    LoadFrame();
  }

  lemma ActRevises(w: World, e: Event)
    requires Possible(w, e)
    ensures Revises(w, e, Act(w, e))
  {
    hide Act, Revises, Possible;
    match e.operation
    case Claim(_, _, _, _) => RefreshRevises(w, e);
    case Send => RefreshRevises(w, e);
    case Complete(_, _) => RefreshRevises(w, e);
    case Terminate(_) => RefreshRevises(w, e);
    case SignInStart(_, _, _) => SignInRevises(w, e);
    case SignInRegister(_, _, _) => SignInRevises(w, e);
    case SignInFinish(_, _, _, _, _, _) => SignInRevises(w, e);
    case _ => OtherRevises(w, e);
  }

  lemma RevisionsKeep(w: World, e: Event)
    requires RevisionsOk(w) && Possible(w, e)
    ensures RevisionsOk(Next(w, e))
  {
    hide Act;
    ActRevises(w, e);
  }

  lemma NextKeeps(w: World, e: Event)
    requires Inv(w) && Possible(w, e)
    ensures Inv(Next(w, e))
  {
    hide Core, Act, Possible, RevisionsOk;
    ActKeeps(w, e);
    NotedOk(Act(w, e), Revision(e.operation));
    RevisionsKeep(w, e);
  }

  lemma {:induction false} RunKeeps(w: World, events: seq<Event>, end: World)
    requires Inv(w) && Run(w, events, end)
    ensures Inv(end)
    decreases events
  {
    hide Inv, Next, Possible;
    if events != [] {
      NextKeeps(w, events[0]);
      RunKeeps(Next(w, events[0]), events[1..], end);
    }
  }

  // ----- What runs guarantee ------------------------------------------------------------------------------

  /** No refresh token is presented for a grant twice, whatever the sessions do and wherever
      they crash. */
  lemma PresentedAtMostOnce(events: seq<Event>, w: World, i: nat, j: nat)
    requires Run(START, events, w) && i < j < |w.log.sent|
    ensures w.log.sent[i] in w.log.claims && w.log.sent[j] in w.log.claims
    ensures w.log.claims[w.log.sent[i]].1.refresh != w.log.claims[w.log.sent[j]].1.refresh
  {
    hide Run, AccountsOk, SessionsOk;
    StartOk();
    RunKeeps(START, events, w);
  }

  lemma StartOk()
    ensures Inv(START)
  {}

  /** What is presented is the token of the claim that is recorded as sent. */
  lemma SendPresentsItsClaim(w: World, e: Event)
    requires Inv(w) && Possible(w, e) && e.operation.Send?
    ensures var step := SendStep(w.profile, SessionOf(w, e.who));
            var claim := SessionOf(w, e.who).refresh.value.claim;
            step.result.Success? ==>
              && Next(w, e).log.sent == w.log.sent + [claim]
              && claim in w.log.claims && step.result.value == w.log.claims[claim].1.refresh
              && claim !in w.log.sent
  {
    hide AccountsOk, ClaimsOk, Load, Current;
    CurrentSession(w, e.who);
  }

  /** A late answer either changes nothing that is stored, or replaces exactly the tokens that
      its own claim left, in a profile that is otherwise as it was. */
  lemma LateAnswerIsHarmless(w: World, e: Event)
    requires Inv(w) && Possible(w, e) && (e.operation.Complete? || e.operation.Terminate?)
    ensures var r := SessionOf(w, e.who).refresh.value;
            var p, p1 := w.profile, Next(w, e).profile;
            p1 != p ==>
              && r.account in p.accounts && p.accounts[r.account].pending == Some(r.claim)
              && p.accounts[r.account].tokens == Some(r.tokens)
              && p.active == r.account
              && p1 == p.(accounts := p.accounts[r.account := p1.accounts[r.account]], revision := p1.revision)
              && p1.accounts[r.account] ==
                   p.accounts[r.account].(tokens := p1.accounts[r.account].tokens, pending := None)
  {
    hide ClaimsOk, SessionsOk;
    var s := SessionOf(w, e.who);
    var r := s.refresh.value;
    CurrentSession(w, e.who);
    if ClaimStands(w.profile, r) {
      assert RecordOk(r.account, w.profile.accounts[r.account], w.log);
    }
    LoadOk(w.profile, s, w.log);
  }

  ghost predicate Gone(w: World, claim: string) {
    claim in w.log.claims && forall i :: i in w.profile.accounts ==> w.profile.accounts[i].pending != Some(claim)
  }

  /** A step gives a record no claim but its own new one. */
  ghost predicate NoOldClaim(w: World, e: Event, accounts: map<Id, Record>) {
    forall i :: i in accounts && accounts[i].pending.Some? ==>
      || (e.operation.Claim? && accounts[i].pending == Some(e.operation.claim))
      || (i in w.profile.accounts && w.profile.accounts[i].pending == accounts[i].pending)
  }

  lemma RefreshGivesNoOldClaim(w: World, e: Event)
    requires Possible(w, e)
    requires e.operation.Claim? || e.operation.Send? || e.operation.Complete? || e.operation.Terminate?
    ensures NoOldClaim(w, e, Act(w, e).profile.accounts)
  {
    hide StillGood, Invalidated;
    match e.operation
    case Claim(_, _, _, _) =>
    case Send =>
    case Complete(_, _) =>
    case Terminate(_) =>
  }

  lemma OtherGivesNoOldClaim(w: World, e: Event)
    requires Possible(w, e)
    requires !(e.operation.Claim? || e.operation.Send? || e.operation.Complete? || e.operation.Terminate?)
    ensures NoOldClaim(w, e, Act(w, e).profile.accounts)
  {
    hide AttemptStands;
    match e.operation
    case SignInStart(_, _, _) =>
    case SignInRegister(_, _, _) =>
    case SignInFinish(_, _, _, _, _, _) =>
    case SignOut(_) =>
    case _ =>
  }

  lemma ClaimsStay(w: World, e: Event)
    requires Possible(w, e)
    ensures w.log.claims.Keys <= Next(w, e).log.claims.Keys
  {
    hide CurrentTokens, AttemptStands, Invalidated, Load, StillGood, SetRecord;
  }

  lemma GoneStays(w: World, e: Event, claim: string)
    requires Possible(w, e) && Gone(w, claim)
    ensures Gone(Next(w, e), claim)
  {
    hide Act;
    if e.operation.Claim? || e.operation.Send? || e.operation.Complete? || e.operation.Terminate? {
      RefreshGivesNoOldClaim(w, e);
    } else {
      OtherGivesNoOldClaim(w, e);
    }
    ClaimsStay(w, e);
  }

  /** A claim that sign-in, sign-out or an answer removed never comes back, so an answer to it
      is dropped for the rest of the run. */
  lemma {:induction false} RemovedClaimIsNeverHonoured(w: World, events: seq<Event>, end: World, who: nat,
                                                       replacement: Tokens, revision: Option<string>)
    requires Inv(w) && Run(w, events, end)
    requires SessionOf(end, who).refresh.Some? && Gone(w, SessionOf(end, who).refresh.value.claim)
    ensures var step := CompleteStep(end.profile, SessionOf(end, who), replacement, revision);
            step.profile == end.profile && step.result == Failure(StaleSession)
    decreases events
  {
    hide Inv, Next, Possible, Gone;
    if events != [] {
      NextKeeps(w, events[0]);
      GoneStays(w, events[0], SessionOf(end, who).refresh.value.claim);
      RemovedClaimIsNeverHonoured(Next(w, events[0]), events[1..], end, who, replacement, revision);
    } else {
      GoneDoesNotStand(w, SessionOf(w, who).refresh.value);
    }
  }

  lemma GoneDoesNotStand(w: World, r: Refresh)
    requires Gone(w, r.claim)
    ensures !ClaimStands(w.profile, r)
  {}

  /** A credential is for the account selected in the store and carries its access token. */
  lemma CredentialIsCurrent(w: World, e: Event)
    requires Inv(w) && Possible(w, e)
    ensures match e.operation
            case Claim(generation, now, claim, revision) =>
              var step := ClaimStep(w.profile, SessionOf(w, e.who), generation, now, claim, revision);
              step.result.Success? && step.result.value.Ready? ==> Belongs(step.result.value.credential, step.profile)
            case Complete(t, revision) =>
              var step := CompleteStep(w.profile, SessionOf(w, e.who), t, revision);
              step.result.Success? ==> Belongs(step.result.value, step.profile)
            case _ => true
  {
    hide AccountsOk, ClaimsOk, SessionsOk;
    CurrentSession(w, e.who);
    LoadOk(w.profile, SessionOf(w, e.who), w.log);
  }

  predicate Belongs(c: Credential, p: Profile) {
    && c.account == p.active && c.account in p.accounts
    && p.accounts[c.account].tokens.Some? && p.accounts[c.account].tokens.value.access == c.access
  }

  ghost predicate Writes(w: World, e: Event)
    requires Possible(w, e)
  {
    Next(w, e).profile != w.profile
  }

  /** Every write is noticed: a session that saw the store before it is invalidated by its
      next look, even if everything but the revision is as it was. */
  lemma {:induction false} WritesAreNoticed(w: World, events: seq<Event>, end: World, s: Session)
    requires Inv(w) && events != [] && Run(w, events, end) && Writes(w, events[0])
    requires s.data.Some? && s.data.value.revision in w.log.revisions + {""}
    ensures Load(end.profile, s) == Invalidated(s).(data := Some(end.profile))
  {
    hide Inv, Act, Possible;
    var w1 := Next(w, events[0]);
    ActRevises(w, events[0]);
    RevisedIsNew(w, events[0]);
    NextKeeps(w, events[0]);
    NewStaysNew(w1, events[1..], end, w.log.revisions + {""});
  }

  lemma RevisedIsNew(w: World, e: Event)
    requires Possible(w, e) && Writes(w, e)
    ensures Next(w, e).profile.revision !in w.log.revisions + {""}
    ensures w.log.revisions <= Next(w, e).log.revisions
  {
    hide Act;
    ActRevises(w, e);
  }

  lemma {:induction false} NewStaysNew(w: World, events: seq<Event>, end: World, past: set<string>)
    requires Run(w, events, end) && past <= w.log.revisions + {""} && w.profile.revision !in past
    ensures end.profile.revision !in past
    decreases events
  {
    hide Act;
    if events != [] {
      ActRevises(w, events[0]);
      NewStaysNew(Next(w, events[0]), events[1..], end, past);
    }
  }
}
