/** chatgpt_auth.py: account records shared by processes, and the durable claim that keeps a
    rotating refresh token from being sent twice. */
module RefreshClaim {
  import opened Wrappers

  type Id = string

  /** A token set; `plan` says whether its scopes include the plan scopes. */
  datatype Tokens = Tokens(access: string, refresh: string, plan: bool, expiresAt: int, earliest: int)

  /** `tokens` is None for a signed-out account. */
  datatype Record = Record(client: string, email: string, tokens: Option<Tokens>, pending: Option<string>,
                           noticeSeen: bool)

  /** The one stored value; `active` is "" without a selection. */
  datatype Profile = Profile(host: string, active: Id, accounts: map<Id, Record>, pendingClient: string,
                             revision: string)

  datatype Phase = Held | Sent

  /** A refresh under way in a session, which holds the session's refresh lock. */
  datatype Refresh = Refresh(generation: nat, account: Id, tokens: Tokens, claim: string, phase: Phase)

  datatype Attempt = Attempt(number: nat, generation: nat, cancelled: bool)

  datatype Session = Session(data: Option<Profile>, generation: nat, signouts: set<Id>, attempt: Option<Attempt>,
                             refresh: Option<Refresh>)

  datatype Error =
    | StaleSession | PlanDisabled | RefreshFailed | SignInRequired | StorageUnavailable | UnknownAccount | Cancelled

  datatype Credential = Credential(access: string, generation: nat, account: Id)

  /** A step of one session on the stored profile. */
  datatype Step<T> = Step(profile: Profile, session: Session, result: Result<T, Error>)

  const EMPTY := Profile("", "", map[], "", "")
  const CLOSED := Session(None, 0, {}, None, None)

  // ----- Reading and writing ------------------------------------------------------------------------

  function Invalidated(s: Session): Session {
    s.(generation := s.generation + 1,
       attempt := match s.attempt case None => None case Some(a) => Some(a.(cancelled := true)))
  }

  /** A profile that is not the one last seen invalidates what the session has under way. */
  function Load(p: Profile, s: Session): Session {
    var s1 := if s.data.Some? && s.data.value != p then Invalidated(s) else s;
    s1.(data := Some(p))
  }

  /** Writing under a new revision; None is a store that cannot be written. */
  function Save(p: Profile, s: Session, data: Profile, revision: Option<string>): Step<()> {
    if revision.None? then Step(p, s, Failure(StorageUnavailable))
    else
      var saved := data.(revision := revision.value);
      Step(saved, s.(data := Some(saved)), Success(()))
  }

  function CurrentTokens(p: Profile, s: Session): Option<Tokens> {
    if p.active !in p.accounts || p.active in s.signouts then None else p.accounts[p.active].tokens
  }

  /** check_current: the session of `generation` is still the selected, signed-in one. */
  predicate Current(p: Profile, s: Session, generation: nat) {
    s.generation == generation && CurrentTokens(p, s).Some?
  }

  function SetRecord(p: Profile, id: Id, record: Record): Profile {
    p.(accounts := p.accounts[id := record])
  }

  // ----- Refreshing -----------------------------------------------------------------------------------

  datatype Access = Ready(credential: Credential) | Claimed

  predicate StillGood(t: Tokens, now: int) {
    t.expiresAt > now + 60 || (now < t.earliest && t.expiresAt > now)
  }

  /** The first transaction of `credential`. */
  function ClaimStep(p: Profile, s: Session, generation: nat, now: int, claim: string, revision: Option<string>)
    : Step<Access>
  {
    var s1 := Load(p, s);
    if !Current(p, s1, generation) then Step(p, s1, Failure(StaleSession))
    else
      var record := p.accounts[p.active];
      var tokens := record.tokens.value;
      if !tokens.plan then Step(p, s1, Failure(PlanDisabled))
      else if record.pending.Some? then Step(p, s1, Failure(RefreshFailed))
      else if StillGood(tokens, now) then
        Step(p, s1, Success(Ready(Credential(tokens.access, generation, p.active))))
      else if now < tokens.earliest then Step(p, s1, Failure(RefreshFailed))
      else
        var saved := Save(p, s1, SetRecord(p, p.active, record.(pending := Some(claim))), revision);
        if saved.result.Failure? then Step(saved.profile, saved.session, Failure(StorageUnavailable))
        else
          Step(saved.profile,
               saved.session.(refresh := Some(Refresh(generation, p.active, tokens, claim, Held))),
               Success(Claimed))
  }

  /** The check before the request; after it the token is on its way. */
  function SendStep(p: Profile, s: Session): Step<string>
    requires s.refresh.Some?
  {
    var s1 := Load(p, s);
    var r := s.refresh.value;
    if !Current(p, s1, r.generation) then Step(p, s1.(refresh := None), Failure(StaleSession))
    else Step(p, s1.(refresh := Some(r.(phase := Sent))), Success(r.tokens.refresh))
  }

  predicate ClaimStands(p: Profile, r: Refresh) {
    r.account in p.accounts && p.accounts[r.account].pending == Some(r.claim)
  }

  /** The last transaction of `credential`, on a valid answer. */
  function CompleteStep(p: Profile, s: Session, replacement: Tokens, revision: Option<string>): Step<Credential>
    requires s.refresh.Some?
  {
    var r := s.refresh.value;
    var s1 := Load(p, s).(refresh := None);
    if !Current(p, s1, r.generation) || !ClaimStands(p, r) then Step(p, s1, Failure(StaleSession))
    else
      var record := p.accounts[r.account].(tokens := Some(replacement), pending := None);
      var saved := Save(p, s1, SetRecord(p, r.account, record), revision);
      Step(saved.profile, saved.session,
           if saved.result.Failure? then Failure(StorageUnavailable)
           else if !replacement.plan then Failure(PlanDisabled)
           else Success(Credential(replacement.access, r.generation, r.account)))
  }

  /** The transaction after the issuer declared the token unusable. */
  function TerminateStep(p: Profile, s: Session, revision: Option<string>): Step<()>
    requires s.refresh.Some?
  {
    var r := s.refresh.value;
    var s1 := Load(p, s).(refresh := None);
    if !Current(p, s1, r.generation) || !ClaimStands(p, r) then Step(p, s1, Failure(StaleSession))
    else
      var s2 := Invalidated(s1.(signouts := s1.signouts + {r.account}));
      var record := p.accounts[r.account].(tokens := None, pending := None);
      var saved := Save(p, s2, SetRecord(p, r.account, record), revision);
      Step(saved.profile, saved.session,
           if saved.result.Failure? then Failure(StorageUnavailable) else Failure(SignInRequired))
  }

  // ----- Signing in and out -----------------------------------------------------------------------------

  predicate AttemptStands(s: Session, number: nat) {
    && s.attempt.Some? && s.attempt.value.number == number
    && !s.attempt.value.cancelled && s.attempt.value.generation == s.generation
  }

  /** A new attempt replaces the one under way; the first one ever names the host. */
  function SignInStartStep(p: Profile, s: Session, number: nat, host: string, revision: Option<string>): Step<()> {
    var s1 := Load(p, s);
    var s2 := s1.(attempt := Some(Attempt(number, s1.generation, false)));
    if p.host != "" then Step(p, s2, Success(()))
    else Save(p, s2, p.(host := host), revision)
  }

  function SignInRegisterStep(p: Profile, s: Session, number: nat, client: string, revision: Option<string>): Step<()> {
    var s1 := Load(p, s);
    if !AttemptStands(s1, number) then Step(p, s1, Failure(StaleSession))
    else Save(p, s1, p.(pendingClient := client), revision)
  }

  function SignInFinishStep(p: Profile, s: Session, number: nat, id: Id, client: string, email: string,
                            tokens: Tokens, revision: Option<string>): Step<()>
  {
    var s1 := Load(p, s);
    if !AttemptStands(s1, number) then Step(p, s1, Failure(StaleSession))
    else
      var seen := id in p.accounts && p.accounts[id].noticeSeen;
      var data := SetRecord(p, id, Record(client, email, Some(tokens), None, seen))
                  .(active := id, pendingClient := if p.pendingClient == client then "" else p.pendingClient);
      var saved := Save(p, s1, data, revision);
      if saved.result.Failure? then saved
      else Step(saved.profile, Invalidated(saved.session.(signouts := saved.session.signouts - {id})), Success(()))
  }

  /** Returns the refresh token to revoke, "" if there is none. */
  function SignOutStep(p: Profile, s: Session, revision: Option<string>): Step<string> {
    var s1 := Load(p, s);
    var s2 := Invalidated(s1.(signouts := s1.signouts + {p.active}));
    if p.active !in p.accounts then Step(p, s2, Success(""))
    else
      var record := p.accounts[p.active];
      var token := if record.tokens.Some? then record.tokens.value.refresh else "";
      var saved := Save(p, s2, SetRecord(p, p.active, record.(tokens := None, pending := None)), revision);
      Step(saved.profile, saved.session, if saved.result.Failure? then Failure(StorageUnavailable) else Success(token))
  }

  function SelectStep(p: Profile, s: Session, id: Id, revision: Option<string>): Step<()> {
    var s1 := Load(p, s);
    if id !in p.accounts then Step(p, s1, Failure(UnknownAccount))
    else
      var saved := Save(p, s1, p.(active := id), revision);
      if saved.result.Failure? then saved else saved.(session := Invalidated(saved.session))
  }

  function AcknowledgeStep(p: Profile, s: Session, revision: Option<string>): Step<()> {
    var s1 := Load(p, s);
    var tokens := CurrentTokens(p, s1);
    if tokens.None? || !tokens.value.plan then Step(p, s1, Failure(PlanDisabled))
    else if p.accounts[p.active].noticeSeen then Step(p, s1, Success(()))
    else Save(p, s1, SetRecord(p, p.active, p.accounts[p.active].(noticeSeen := true)), revision)
  }

  // ----- The objects --------------------------------------------------------------------------------------

  /** The secret store that all processes share. */
  class SecretStore {
    var profile: Profile

    constructor ()
      ensures profile == EMPTY
    {
      profile := EMPTY;
    }
  }

  class ChatGPTAuth {
    const store: SecretStore
    var data: Option<Profile>
    var generation: nat
    var signouts: set<Id>
    var attempt: Option<Attempt>
    var refresh: Option<Refresh>

    ghost function Abs(): Session
      reads this
    {
      Session(data, generation, signouts, attempt, refresh)
    }

    /** The call gave exactly what the step function says. */
    ghost predicate Did<T>(step: Step<T>, result: Result<T, Error>)
      reads this, store
    {
      store.profile == step.profile && Abs() == step.session && result == step.result
    }

    constructor (store: SecretStore)
      ensures this.store == store && Abs() == CLOSED
    {
      this.store := store;
      data, generation, signouts, attempt, refresh := None, 0, {}, None, None;
    }

    method Invalidate()
      modifies this`generation, this`attempt
      ensures Abs() == Invalidated(old(Abs()))
    {
      generation := generation + 1;
      if attempt.Some? {
        attempt := Some(attempt.value.(cancelled := true));
      }
    }

    method LoadProfile()
      modifies this`data, this`generation, this`attempt
      ensures Abs() == Load(store.profile, old(Abs()))
    {
      if data.Some? && data.value != store.profile {
        Invalidate();
      }
      data := Some(store.profile);
    }

    method SaveProfile(changed: Profile, revision: Option<string>) returns (result: Result<(), Error>)
      modifies this`data, store
      ensures Did(Save(old(store.profile), old(Abs()), changed, revision), result)
    {
      if revision.None? {
        return Failure(StorageUnavailable);
      }
      var saved := changed.(revision := revision.value);
      store.profile := saved;
      data := Some(saved);
      return Success(());
    }

    method CheckCurrent(expected: nat) returns (ok: bool)
      modifies this`data, this`generation, this`attempt
      ensures Abs() == Load(store.profile, old(Abs()))
      ensures ok == Current(store.profile, Abs(), expected)
    {
      LoadProfile();
      ok := generation == expected && data.value.active in data.value.accounts &&
            data.value.active !in signouts && data.value.accounts[data.value.active].tokens.Some?;
    }

    /** The first transaction of a request for a credential. */
    method Claim(expected: nat, now: int, claim: string, revision: Option<string>)
      returns (result: Result<Access, Error>)
      modifies this, store
      ensures Did(ClaimStep(old(store.profile), old(Abs()), expected, now, claim, revision), result)
    {
      var ok := CheckCurrent(expected);
      if !ok {
        return Failure(StaleSession);
      }
      var profile := data.value;
      var account := profile.active;
      var record := profile.accounts[account];
      var tokens := record.tokens.value;
      if !tokens.plan {
        return Failure(PlanDisabled);
      }
      if record.pending.Some? {
        return Failure(RefreshFailed);
      }
      if tokens.expiresAt > now + 60 || (now < tokens.earliest && tokens.expiresAt > now) {
        return Success(Ready(Credential(tokens.access, expected, account)));
      }
      if now < tokens.earliest {
        return Failure(RefreshFailed);
      }
      var saved := SaveProfile(SetRecord(profile, account, record.(pending := Some(claim))), revision);
      if saved.Failure? {
        return Failure(saved.error);
      }
      refresh := Some(Refresh(expected, account, tokens, claim, Held));
      return Success(Claimed);
    }

    method Send() returns (result: Result<string, Error>)
      requires refresh.Some?
      modifies this
      ensures Did(SendStep(old(store.profile), old(Abs())), result)
    {
      var r := refresh.value;
      var ok := CheckCurrent(r.generation);
      if !ok {
        refresh := None;
        return Failure(StaleSession);
      }
      refresh := Some(r.(phase := Sent));
      return Success(r.tokens.refresh);
    }

    method Complete(replacement: Tokens, revision: Option<string>) returns (result: Result<Credential, Error>)
      requires refresh.Some?
      modifies this, store
      ensures Did(CompleteStep(old(store.profile), old(Abs()), replacement, revision), result)
    {
      var r := refresh.value;
      refresh := None;
      var ok := CheckCurrent(r.generation);
      var profile := data.value;
      if !ok || !(r.account in profile.accounts && profile.accounts[r.account].pending == Some(r.claim)) {
        return Failure(StaleSession);
      }
      var record := profile.accounts[r.account].(tokens := Some(replacement), pending := None);
      var saved := SaveProfile(SetRecord(profile, r.account, record), revision);
      if saved.Failure? {
        return Failure(saved.error);
      }
      if !replacement.plan {
        return Failure(PlanDisabled);
      }
      return Success(Credential(replacement.access, r.generation, r.account));
    }

    method Terminate(revision: Option<string>) returns (result: Result<(), Error>)
      requires refresh.Some?
      modifies this, store
      ensures Did(TerminateStep(old(store.profile), old(Abs()), revision), result)
    {
      var r := refresh.value;
      refresh := None;
      var ok := CheckCurrent(r.generation);
      var profile := data.value;
      if !ok || !(r.account in profile.accounts && profile.accounts[r.account].pending == Some(r.claim)) {
        return Failure(StaleSession);
      }
      signouts := signouts + {r.account};
      Invalidate();
      var record := profile.accounts[r.account].(tokens := None, pending := None);
      var saved := SaveProfile(SetRecord(profile, r.account, record), revision);
      if saved.Failure? {
        return Failure(saved.error);
      }
      return Failure(SignInRequired);
    }

    method SignInStart(number: nat, host: string, revision: Option<string>) returns (result: Result<(), Error>)
      modifies this, store
      ensures Did(SignInStartStep(old(store.profile), old(Abs()), number, host, revision), result)
    {
      LoadProfile();
      attempt := Some(Attempt(number, generation, false));
      if data.value.host != "" {
        return Success(());
      }
      result := SaveProfile(data.value.(host := host), revision);
    }

    method SignInRegister(number: nat, client: string, revision: Option<string>) returns (result: Result<(), Error>)
      modifies this, store
      ensures Did(SignInRegisterStep(old(store.profile), old(Abs()), number, client, revision), result)
    {
      LoadProfile();
      if !(attempt.Some? && attempt.value.number == number && !attempt.value.cancelled &&
           attempt.value.generation == generation) {
        return Failure(StaleSession);
      }
      result := SaveProfile(data.value.(pendingClient := client), revision);
    }

    method SignInFinish(number: nat, id: Id, client: string, email: string, tokens: Tokens, revision: Option<string>)
      returns (result: Result<(), Error>)
      modifies this, store
      ensures Did(SignInFinishStep(old(store.profile), old(Abs()), number, id, client, email, tokens, revision), result)
    {
      LoadProfile();
      if !(attempt.Some? && attempt.value.number == number && !attempt.value.cancelled &&
           attempt.value.generation == generation) {
        return Failure(StaleSession);
      }
      var profile := data.value;
      var seen := id in profile.accounts && profile.accounts[id].noticeSeen;
      var changed := SetRecord(profile, id, Record(client, email, Some(tokens), None, seen)).(active := id);
      if profile.pendingClient == client {
        changed := changed.(pendingClient := "");
      }
      result := SaveProfile(changed, revision);
      if result.Success? {
        signouts := signouts - {id};
        Invalidate();
      }
    }

    method SignOut(revision: Option<string>) returns (result: Result<string, Error>)
      modifies this, store
      ensures Did(SignOutStep(old(store.profile), old(Abs()), revision), result)
    {
      LoadProfile();
      var profile := data.value;
      signouts := signouts + {profile.active};
      Invalidate();
      if profile.active !in profile.accounts {
        return Success("");
      }
      var record := profile.accounts[profile.active];
      var token := if record.tokens.Some? then record.tokens.value.refresh else "";
      var saved := SaveProfile(SetRecord(profile, profile.active, record.(tokens := None, pending := None)), revision);
      if saved.Failure? {
        return Failure(saved.error);
      }
      return Success(token);
    }

    method SelectAccount(id: Id, revision: Option<string>) returns (result: Result<(), Error>)
      modifies this, store
      ensures Did(SelectStep(old(store.profile), old(Abs()), id, revision), result)
    {
      LoadProfile();
      if id !in data.value.accounts {
        return Failure(UnknownAccount);
      }
      result := SaveProfile(data.value.(active := id), revision);
      if result.Success? {
        Invalidate();
      }
    }

    method AcknowledgePlanNotice(revision: Option<string>) returns (result: Result<(), Error>)
      modifies this, store
      ensures Did(AcknowledgeStep(old(store.profile), old(Abs()), revision), result)
    {
      LoadProfile();
      var profile := data.value;
      var tokens := if profile.active !in profile.accounts || profile.active in signouts then None
                    else profile.accounts[profile.active].tokens;
      if tokens.None? || !tokens.value.plan {
        return Failure(PlanDisabled);
      }
      if profile.accounts[profile.active].noticeSeen {
        return Success(());
      }
      result := SaveProfile(SetRecord(profile, profile.active, profile.accounts[profile.active].(noticeSeen := true)),
                            revision);
    }
  }
}
