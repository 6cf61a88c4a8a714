/** chatgpt_auth.py: what a session answers, in terms of the stored profile and the clock. */
module RefreshAnswers {
  import opened Wrappers
  import opened RefreshClaim

  /** The session saw this very store last, and nothing invalidated it since `generation`. */
  predicate UpToDate(p: Profile, s: Session, generation: nat) {
    s.generation == generation && (s.data.None? || s.data.value == p)
  }

  /** The selected account is signed in, here and in the store. */
  predicate SignedIn(p: Profile, s: Session) {
    p.active in p.accounts && p.active !in s.signouts && p.accounts[p.active].tokens.Some?
  }

  lemma CurrentIsUpToDate(p: Profile, s: Session, generation: nat)
    requires generation <= s.generation
    ensures Current(p, Load(p, s), generation) <==> UpToDate(p, s, generation) && SignedIn(p, s)
  {}

  /** When a token is handed out, when it is refreshed and when neither: by the plan scope, the
      claim, the seconds the token is good for and the time before which it must not be refreshed. */
  lemma ClaimIsExact(p: Profile, s: Session, generation: nat, now: int, claim: string, revision: Option<string>)
    requires generation <= s.generation
    ensures var step := ClaimStep(p, s, generation, now, claim, revision);
            var answer := step.result;
            && (answer == Failure(StaleSession) <==> !(UpToDate(p, s, generation) && SignedIn(p, s)))
            && (UpToDate(p, s, generation) && SignedIn(p, s) ==>
                  var record := p.accounts[p.active];
                  var t := record.tokens.value;
                  var left := t.expiresAt - now;
                  && (answer == Failure(PlanDisabled) <==> !t.plan)
                  && (answer == Success(Ready(Credential(t.access, generation, p.active))) <==>
                        t.plan && record.pending.None? && (left > 60 || (left > 0 && now < t.earliest)))
                  && (answer == Success(RefreshClaim.Claimed) <==>
                        t.plan && record.pending.None? && left <= 60 && now >= t.earliest && revision.Some?)
                  && (answer == Failure(StorageUnavailable) <==>
                        t.plan && record.pending.None? && left <= 60 && now >= t.earliest && revision.None?)
                  && (answer == Failure(RefreshFailed) <==>
                        t.plan && (record.pending.Some? || (left <= 0 && now < t.earliest)))
                  && (answer == Success(RefreshClaim.Claimed) ==>
                        && step.profile == p.(revision := revision.value,
                             accounts := p.accounts[p.active := record.(pending := Some(claim))])
                        && step.session.refresh == Some(Refresh(generation, p.active, t, claim, Held))))
            && (answer != Success(RefreshClaim.Claimed) ==> step.profile == p)
  {
    CurrentIsUpToDate(p, s, generation);
  }

  /** No expired token is ever handed out. */
  lemma CredentialIsUnexpired(p: Profile, s: Session, generation: nat, now: int, claim: string,
                              revision: Option<string>)
    requires generation <= s.generation
    ensures var answer := ClaimStep(p, s, generation, now, claim, revision).result;
            answer.Success? && answer.value.Ready? ==>
              && p.active in p.accounts && p.accounts[p.active].tokens.Some?
              && p.accounts[p.active].tokens.value.expiresAt > now
              && answer.value.credential == Credential(p.accounts[p.active].tokens.value.access, generation, p.active)
  {
    hide ClaimStep;
    ClaimIsExact(p, s, generation, now, claim, revision);
    var answer := ClaimStep(p, s, generation, now, claim, revision).result;
    if answer.Success? && answer.value.Ready? {
      ReadyCarriesStored(p, s, generation, now, claim, revision);
    }
  }

  lemma ReadyCarriesStored(p: Profile, s: Session, generation: nat, now: int, claim: string, revision: Option<string>)
    ensures var answer := ClaimStep(p, s, generation, now, claim, revision).result;
            answer.Success? && answer.value.Ready? ==>
              && p.active in p.accounts && p.accounts[p.active].tokens.Some?
              && answer.value.credential == Credential(p.accounts[p.active].tokens.value.access, generation, p.active)
  {
    hide Load, StillGood;
  }

  // ----- A refresh from end to end ------------------------------------------------------------------------

  /** The token goes out exactly while the session is current. */
  lemma SendIsExact(p: Profile, s: Session)
    requires s.refresh.Some? && s.refresh.value.generation <= s.generation
    ensures var step := SendStep(p, s);
            var r := s.refresh.value;
            && step.profile == p
            && (step.result == Success(r.tokens.refresh) <==> UpToDate(p, s, r.generation) && SignedIn(p, s))
            && (step.result.Success? ==> step.session.refresh == Some(r.(phase := Sent)))
            && (step.result.Failure? ==> step.result.error == StaleSession && step.session.refresh.None?)
  {
    CurrentIsUpToDate(p, s, s.refresh.value.generation);
  }

  /** An answer takes effect exactly while the session is current, the record still holds this
      claim and the store can be written; then the record has the new tokens and no claim. */
  lemma CompleteIsExact(p: Profile, s: Session, replacement: Tokens, revision: Option<string>)
    requires s.refresh.Some? && s.refresh.value.generation <= s.generation
    ensures var step := CompleteStep(p, s, replacement, revision);
            var r := s.refresh.value;
            var honoured := UpToDate(p, s, r.generation) && SignedIn(p, s) &&
                            r.account in p.accounts && p.accounts[r.account].pending == Some(r.claim);
            && step.session.refresh.None?
            && (step.result == Failure(StaleSession) <==> !honoured)
            && (step.result == Success(Credential(replacement.access, r.generation, r.account)) <==>
                  honoured && revision.Some? && replacement.plan)
            && (honoured && revision.Some? ==>
                  step.profile == p.(revision := revision.value,
                    accounts := p.accounts[r.account :=
                      p.accounts[r.account].(tokens := Some(replacement), pending := None)]))
            && (!(honoured && revision.Some?) ==> step.profile == p)
  {
    CurrentIsUpToDate(p, s, s.refresh.value.generation);
  }

  /** An unusable token signs the account out under the same conditions, and this session stays
      out even if that cannot be written. */
  lemma TerminateIsExact(p: Profile, s: Session, revision: Option<string>)
    requires s.refresh.Some? && s.refresh.value.generation <= s.generation
    ensures var step := TerminateStep(p, s, revision);
            var r := s.refresh.value;
            var honoured := UpToDate(p, s, r.generation) && SignedIn(p, s) &&
                            r.account in p.accounts && p.accounts[r.account].pending == Some(r.claim);
            && step.session.refresh.None?
            && (step.result == Failure(StaleSession) <==> !honoured)
            && (step.result == Failure(SignInRequired) <==> honoured && revision.Some?)
            && (honoured ==> r.account in step.session.signouts && step.session.generation == s.generation + 1)
            && (honoured && revision.Some? ==>
                  step.profile == p.(revision := revision.value,
                    accounts := p.accounts[r.account := p.accounts[r.account].(tokens := None, pending := None)]))
            && (!(honoured && revision.Some?) ==> step.profile == p)
  {
    CurrentIsUpToDate(p, s, s.refresh.value.generation);
  }

  /** An undisturbed refresh: the stored token is sent once, the answer is stored and handed out,
      and the next request gets it without another refresh. */
  lemma RefreshSucceeds(p: Profile, s: Session, now: int, claim: string, first: string, replacement: Tokens,
                        second: string, later: int, third: Option<string>)
    requires s.data == Some(p) && SignedIn(p, s) && p.accounts[p.active].pending.None?
    requires p.accounts[p.active].tokens.value.plan && replacement.plan
    requires p.accounts[p.active].tokens.value.expiresAt <= now + 60
    requires p.accounts[p.active].tokens.value.earliest <= now
    requires replacement.expiresAt > later + 60
    ensures var claimed := ClaimStep(p, s, s.generation, now, claim, Some(first));
            && claimed.result == Success(RefreshClaim.Claimed)
            && var sent := SendStep(claimed.profile, claimed.session);
               && sent.result == Success(p.accounts[p.active].tokens.value.refresh) && sent.session.refresh.Some?
               && var done := CompleteStep(sent.profile, sent.session, replacement, Some(second));
                  && done.result == Success(Credential(replacement.access, s.generation, p.active))
                  && ClaimStep(done.profile, done.session, s.generation, later, claim, third).result ==
                     Success(Ready(Credential(replacement.access, s.generation, p.active)))
  {}

  // ----- Signing in and out ---------------------------------------------------------------------------------

  /** A new attempt stands, and ends the one before it. */
  lemma SignInStartIsExact(p: Profile, s: Session, number: nat, host: string, revision: Option<string>)
    ensures var step := SignInStartStep(p, s, number, host, revision);
            && AttemptStands(step.session, number)
            && (forall other: nat :: other != number ==> !AttemptStands(step.session, other))
            && (step.result.Success? <==> p.host != "" || revision.Some?)
            && (step.result.Success? && p.host != "" ==> step.profile == p)
            && (step.result.Success? && p.host == "" ==> step.profile == p.(host := host, revision := revision.value))
            && (step.result.Failure? ==> step.profile == p)
  {}

  /** Nothing was written since the session last looked. */
  predicate UnseenOrSame(p: Profile, s: Session) {
    s.data.None? || s.data.value == p
  }

  /** This attempt is the one under way, nothing invalidated it, and nobody wrote the store since. */
  predicate AttemptHolds(p: Profile, s: Session, number: nat) {
    && s.attempt.Some? && s.attempt.value.number == number && !s.attempt.value.cancelled
    && s.attempt.value.generation == s.generation && UnseenOrSame(p, s)
  }

  lemma SignInRegisterIsExact(p: Profile, s: Session, number: nat, client: string, revision: Option<string>)
    ensures var step := SignInRegisterStep(p, s, number, client, revision);
            && (step.result.Success? <==> AttemptHolds(p, s, number) && revision.Some?)
            && step.profile ==
               if step.result.Success? then p.(pendingClient := client, revision := revision.value) else p
  {}

  /** A sign-in takes effect exactly for the attempt that stands: its account is selected and
      stored as given, unclaimed, the others are as they were, and everything the session had
      under way is stale. */
  lemma SignInFinishIsExact(p: Profile, s: Session, number: nat, id: Id, client: string, email: string,
                            tokens: Tokens, revision: Option<string>)
    ensures var step := SignInFinishStep(p, s, number, id, client, email, tokens, revision);
            && (step.result.Success? <==> AttemptHolds(p, s, number) && revision.Some?)
            && (step.result.Success? ==>
                  var seen := id in p.accounts && p.accounts[id].noticeSeen;
                  && step.profile.active == id && step.profile.host == p.host
                  && step.profile.revision == revision.value
                  && step.profile.accounts == p.accounts[id := Record(client, email, Some(tokens), None, seen)]
                  && step.profile.pendingClient == (if p.pendingClient == client then "" else p.pendingClient)
                  && step.session.generation > s.generation && id !in step.session.signouts)
            && (step.result.Failure? ==> step.profile == p)
            && (step.result.Failure? && UnseenOrSame(p, s) ==> step.session.generation == s.generation)
  {}

  /** What was signed in with is what the next request is given. */
  lemma SignInThenReady(p: Profile, s: Session, number: nat, id: Id, client: string, email: string, tokens: Tokens,
                        revision: Option<string>, now: int, claim: string, next: Option<string>)
    requires tokens.plan && tokens.expiresAt > now + 60
    requires SignInFinishStep(p, s, number, id, client, email, tokens, revision).result.Success?
    ensures var step := SignInFinishStep(p, s, number, id, client, email, tokens, revision);
            ClaimStep(step.profile, step.session, step.session.generation, now, claim, next).result ==
              Success(Ready(Credential(tokens.access, step.session.generation, id)))
  {}

  /** Signing out takes tokens and claim of the selected account, returns the token to revoke,
      and leaves the other accounts alone. */
  lemma SignOutIsExact(p: Profile, s: Session, revision: Option<string>)
    ensures var step := SignOutStep(p, s, revision);
            && (step.result.Failure? <==> p.active in p.accounts && revision.None?)
            && p.active in step.session.signouts && step.session.generation > s.generation
            && (p.active in p.accounts && revision.Some? ==>
                  && step.profile == p.(revision := revision.value,
                       accounts := p.accounts[p.active := p.accounts[p.active].(tokens := None, pending := None)])
                  && step.result ==
                     Success(match p.accounts[p.active].tokens case Some(t) => t.refresh case None => ""))
            && (!(p.active in p.accounts && revision.Some?) ==> step.profile == p)
  {}

  /** After signing out no session of any process gets a credential until the next sign-in or
      selection; where the store could not be written, this session gets none. */
  lemma SignOutThenRefused(p: Profile, s: Session, revision: Option<string>, other: Session, generation: nat, now: int,
                           claim: string, next: Option<string>)
    ensures var step := SignOutStep(p, s, revision);
            && ClaimStep(step.profile, step.session, generation, now, claim, next).result == Failure(StaleSession)
            && (step.result.Success? ==>
                  ClaimStep(step.profile, other, generation, now, claim, next).result == Failure(StaleSession))
  {
    hide StillGood;
  }

  /** Selecting changes the selection alone, and what was under way is stale. */
  lemma SelectIsExact(p: Profile, s: Session, id: Id, revision: Option<string>)
    ensures var step := SelectStep(p, s, id, revision);
            && (step.result.Success? <==> id in p.accounts && revision.Some?)
            && step.profile == (if step.result.Success? then p.(active := id, revision := revision.value) else p)
            && (step.result.Success? ==> step.session.generation > s.generation)
            && (step.result.Failure? && UnseenOrSame(p, s) ==> step.session.generation == s.generation)
            && (step.result == Failure(UnknownAccount) <==> id !in p.accounts)
  {}

  /** Acknowledging changes the notice of the selected account alone, and keeps the session current. */
  lemma AcknowledgeIsExact(p: Profile, s: Session, revision: Option<string>)
    ensures var step := AcknowledgeStep(p, s, revision);
            var entitled := SignedIn(p, s) && p.accounts[p.active].tokens.value.plan;
            && (step.result == Failure(PlanDisabled) <==> !entitled)
            && (entitled && (p.accounts[p.active].noticeSeen || revision.Some?) ==>
                  && step.result.Success?
                  && p.active in step.profile.accounts && step.profile.accounts[p.active].noticeSeen
                  && step.profile == p.(revision := step.profile.revision,
                       accounts := p.accounts[p.active := p.accounts[p.active].(noticeSeen := true)]))
            && (step.result.Failure? ==> step.profile == p)
            && (s.data == Some(p) ==> step.session.generation == s.generation)
  {
    if p.active in p.accounts && p.accounts[p.active].noticeSeen {
      assert p.accounts[p.active := p.accounts[p.active].(noticeSeen := true)] == p.accounts;
    }
  }
}
