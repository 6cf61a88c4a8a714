/** computer_relay_server.py: hosts, pending phones and their tunnels. */
module Relay {
  import opened Wrappers
  import opened RelayProtocol

  datatype Limits = Limits(maxHosts: nat, maxPending: nat, maxTunnels: nat, streamsPerHost: nat)

  /** A registration; its number stands for the identity of the object. */
  datatype Owner = Owner(namespace: string, key: string, channel: nat, generation: Bytes, streams: int, tasks: set<nat>)

  datatype Future = Waiting | Resolved(channel: nat) | Dropped

  /** What a phone asked a host for. */
  datatype Request = Request(owner: nat, phone: nat, generation: Bytes, consumed: bool, future: Future)

  datatype Phase = Opening | Awaiting | Tunnel(channel: nat)

  /** A live phone task; a cancelled one only ends. */
  datatype Phone = Phone(owner: nat, pending: string, phase: Phase, cancelled: bool)

  /** `known` and `requests` are the objects that were ever created; `owners` and `pending` the
      dictionaries of the server. */
  datatype State = State(owners: map<string, nat>, known: map<nat, Owner>, pending: set<string>,
                         requests: map<string, Request>, phones: map<nat, Phone>, tunnels: int, nextOwner: nat)

  datatype Error =
    | HostLimit | InvalidSignature | HostOffline | StreamLimit | InvalidAttach | StaleOwner | NotDelivered

  const EMPTY := State(map[], map[], {}, map[], map[], 0, 0)

  /** The signature check: whether a proof over `message` under `key` was presented. */
  type Verifier = (string, Bytes) -> bool

  // ----- Owners ---------------------------------------------------------------------------------------

  predicate IsCurrent(s: State, owner: nat) {
    && owner in s.known && s.known[owner].namespace in s.owners
    && s.owners[s.known[owner].namespace] == owner
  }

  /** Cancelling a task that awaits its future cancels the future. */
  function CancelPhones(s: State, tasks: set<nat>): State {
    s.(phones := map p | p in s.phones ::
         if p in tasks then s.phones[p].(cancelled := true) else s.phones[p],
       requests := map id | id in s.requests ::
         var q := s.requests[id];
         if q.phone in tasks && q.phone in s.phones && s.phones[q.phone].phase.Awaiting? && q.future.Waiting?
         then q.(future := Dropped) else q)
  }

  function DropStep(s: State, owner: nat): State
    requires owner in s.known
  {
    var name := s.known[owner].namespace;
    var left := if IsCurrent(s, owner) then s.(owners := s.owners - {name}) else s;
    CancelPhones(left, s.known[owner].tasks)
  }

  function RegisterStep(s: State, l: Limits, name: string, key: string, channel: nat, generation: Bytes, ok: bool)
    : (State, Result<nat, Error>)
  {
    if !ok then (s, Failure(InvalidSignature))
    else if name !in s.owners && |s.owners| >= l.maxHosts then (s, Failure(HostLimit))
    else
      var id := s.nextOwner;
      var s1 := s.(owners := s.owners[name := id], nextOwner := id + 1,
                   known := s.known[id := Owner(name, key, channel, generation, 0, {})]);
      if name in s.owners && s.owners[name] in s1.known then (DropStep(s1, s.owners[name]), Success(id))
      else (s1, Success(id))
  }

  // ----- Attaching --------------------------------------------------------------------------------------

  /** What an attaching host has to sign. */
  function AttachMessage(host: string, isAddress: string -> bool, nonce: Bytes, id: string): Option<Bytes> {
    var raw := Untoken(id);
    if raw.Failure? then None
    else
      var message := Challenge("attach", host, isAddress, nonce, Some(raw.value));
      if message.Failure? then None else Some(message.value)
  }

  predicate MayAttach(s: State, id: string) {
    && id in s.pending && id in s.requests
    && var q := s.requests[id];
       && !q.consumed && q.future.Waiting? && IsCurrent(s, q.owner)
       && q.generation == s.known[q.owner].generation
  }

  function AttachStep(s: State, id: string, message: Option<Bytes>, verify: Verifier): (State, Result<(), Error>) {
    if !MayAttach(s, id) then (s, Failure(InvalidAttach))
    else
      var q := s.requests[id];
      if message.None? || !verify(s.known[q.owner].key, message.value) then (s, Failure(InvalidSignature))
      else (s.(requests := s.requests[id := q.(consumed := true)]), Success(()))
  }

  /** After the acknowledgement: the future gets the channel unless it is done. */
  function DeliverStep(s: State, id: string, channel: nat): (State, Result<(), Error>)
    requires id in s.requests
  {
    if !s.requests[id].future.Waiting? then (s, Failure(NotDelivered))
    else (s.(requests := s.requests[id := s.requests[id].(future := Resolved(channel))]), Success(()))
  }

  // ----- Phones -------------------------------------------------------------------------------------------

  function AdmitPhone(s: State, o: nat, phone: nat, id: string): State
    requires o in s.known
  {
    var owner := s.known[o];
    s.(pending := s.pending + {id},
       requests := s.requests[id := Request(o, phone, owner.generation, false, Waiting)],
       phones := s.phones[phone := Phone(o, id, Opening, false)],
       known := s.known[o := owner.(streams := owner.streams + 1, tasks := owner.tasks + {phone})],
       tunnels := s.tunnels + 1)
  }

  function OpenStep(s: State, l: Limits, phone: nat, name: string, id: string): (State, Result<(), Error>) {
    if name !in s.owners || s.owners[name] !in s.known then (s, Failure(HostOffline))
    else if s.known[s.owners[name]].streams >= l.streamsPerHost || |s.pending| >= l.maxPending ||
            s.tunnels >= l.maxTunnels then
      (s, Failure(StreamLimit))
    else (AdmitPhone(s, s.owners[name], phone, id), Success(()))
  }

  /** The open frame was written. */
  function OpenedStep(s: State, phone: nat): State
    requires phone in s.phones
  {
    s.(phones := s.phones[phone := s.phones[phone].(phase := Awaiting)])
  }

  /** The phone task goes on with the channel of its future. */
  function ResumeStep(s: State, phone: nat): (State, Result<nat, Error>)
    requires phone in s.phones && s.phones[phone].pending in s.requests
    requires s.requests[s.phones[phone].pending].future.Resolved?
  {
    var p := s.phones[phone];
    var channel := s.requests[p.pending].future.channel;
    if !IsCurrent(s, p.owner) then (s, Failure(StaleOwner))
    else
      (s.(pending := s.pending - {p.pending}, phones := s.phones[phone := p.(phase := Tunnel(channel))]),
       Success(channel))
  }

  /** The phone task ends, for whatever reason. */
  function EndStep(s: State, phone: nat): State
    requires phone in s.phones && s.phones[phone].pending in s.requests && s.phones[phone].owner in s.known
  {
    var p := s.phones[phone];
    var q := s.requests[p.pending];
    var owner := s.known[p.owner];
    s.(pending := s.pending - {p.pending},
       requests := s.requests[p.pending := if q.future.Waiting? then q.(future := Dropped) else q],
       known := s.known[p.owner := owner.(streams := owner.streams - 1, tasks := owner.tasks - {phone})],
       phones := s.phones - {phone}, tunnels := s.tunnels - 1)
  }

  // ----- The server -----------------------------------------------------------------------------------------

  class ComputerRelayServer {
    const limits: Limits
    var owners: map<string, nat>
    var known: map<nat, Owner>
    var pending: set<string>
    var requests: map<string, Request>
    var phones: map<nat, Phone>
    var tunnels: int
    var nextOwner: nat

    ghost function Abs(): State
      reads this
    {
      State(owners, known, pending, requests, phones, tunnels, nextOwner)
    }

    constructor (limits: Limits)
      ensures this.limits == limits && Abs() == EMPTY
    {
      this.limits := limits;
      owners, known, pending, requests, phones, tunnels, nextOwner := map[], map[], {}, map[], map[], 0, 0;
    }

    method Register(name: string, key: string, channel: nat, generation: Bytes, verified: bool)
      returns (r: Result<nat, Error>)
      modifies this
      ensures (Abs(), r) == RegisterStep(old(Abs()), limits, name, key, channel, generation, verified)
    {
      hide CancelPhones;
      if !verified {
        return Failure(InvalidSignature);
      }
      if name !in owners && |owners| >= limits.maxHosts {
        return Failure(HostLimit);
      }
      var previous := if name in owners then Some(owners[name]) else None;
      var id := nextOwner;
      known := known[id := Owner(name, key, channel, generation, 0, {})];
      owners := owners[name := id];
      nextOwner := nextOwner + 1;
      if previous.Some? && previous.value in known {
        DropOwner(previous.value);
      }
      return Success(id);
    }

    /** Takes the owner out if it is still the current one, and cancels its phones. */
    method DropOwner(owner: nat)
      requires owner in known
      modifies this
      ensures Abs() == DropStep(old(Abs()), owner)
    {
      hide CancelPhones;
      var name := known[owner].namespace;
      if name in owners && owners[name] == owner {
        owners := owners - {name};
      }
      CancelTasks(known[owner].tasks);
    }

    method CancelTasks(tasks: set<nat>)
      modifies this
      ensures Abs() == CancelPhones(old(Abs()), tasks)
    {
      requests := map id | id in requests ::
        var q := requests[id];
        if q.phone in tasks && q.phone in phones && phones[q.phone].phase.Awaiting? && q.future.Waiting?
        then q.(future := Dropped) else q;
      phones := map p | p in phones :: if p in tasks then phones[p].(cancelled := true) else phones[p];
    }

    method Attach(id: string, message: Option<Bytes>, verify: Verifier) returns (r: Result<(), Error>)
      modifies this
      ensures (Abs(), r) == AttachStep(old(Abs()), id, message, verify)
    {
      if id !in pending || id !in requests {
        return Failure(InvalidAttach);
      }
      var q := requests[id];
      if q.consumed || !q.future.Waiting? {
        return Failure(InvalidAttach);
      }
      if q.owner !in known || known[q.owner].namespace !in owners || owners[known[q.owner].namespace] != q.owner ||
         q.generation != known[q.owner].generation {
        return Failure(InvalidAttach);
      }
      if message.None? || !verify(known[q.owner].key, message.value) {
        return Failure(InvalidSignature);
      }
      requests := requests[id := q.(consumed := true)];
      return Success(());
    }

    method Deliver(id: string, channel: nat) returns (r: Result<(), Error>)
      requires id in requests
      modifies this
      ensures (Abs(), r) == DeliverStep(old(Abs()), id, channel)
    {
      if !requests[id].future.Waiting? {
        return Failure(NotDelivered);
      }
      requests := requests[id := requests[id].(future := Resolved(channel))];
      return Success(());
    }

    method OpenPhone(phone: nat, name: string, id: string) returns (r: Result<(), Error>)
      modifies this
      ensures (Abs(), r) == OpenStep(old(Abs()), limits, phone, name, id)
    {
      if name !in owners || owners[name] !in known {
        return Failure(HostOffline);
      }
      var o := owners[name];
      var owner := known[o];
      if owner.streams >= limits.streamsPerHost || |pending| >= limits.maxPending || tunnels >= limits.maxTunnels {
        return Failure(StreamLimit);
      }
      requests := requests[id := Request(o, phone, owner.generation, false, Waiting)];
      pending := pending + {id};
      known := known[o := owner.(streams := owner.streams + 1, tasks := owner.tasks + {phone})];
      phones := phones[phone := Phone(o, id, Opening, false)];
      tunnels := tunnels + 1;
      return Success(());
    }

    method ResumePhone(phone: nat) returns (r: Result<nat, Error>)
      requires phone in phones && phones[phone].pending in requests
      requires requests[phones[phone].pending].future.Resolved?
      modifies this
      ensures (Abs(), r) == ResumeStep(old(Abs()), phone)
    {
      var p := phones[phone];
      var channel := requests[p.pending].future.channel;
      if p.owner !in known || known[p.owner].namespace !in owners || owners[known[p.owner].namespace] != p.owner {
        return Failure(StaleOwner);
      }
      pending := pending - {p.pending};
      phones := phones[phone := p.(phase := Tunnel(channel))];
      return Success(channel);
    }

    method EndPhone(phone: nat)
      requires phone in phones && phones[phone].pending in requests && phones[phone].owner in known
      modifies this
      ensures Abs() == EndStep(old(Abs()), phone)
    {
      var p := phones[phone];
      pending := pending - {p.pending};
      if requests[p.pending].future.Waiting? {
        requests := requests[p.pending := requests[p.pending].(future := Dropped)];
      }
      var owner := known[p.owner];
      known := known[p.owner := owner.(streams := owner.streams - 1, tasks := owner.tasks - {phone})];
      phones := phones - {phone};
      tunnels := tunnels - 1;
    }
  }
}
