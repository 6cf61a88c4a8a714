/** computer_relay_server.py: what hosts and phones are granted, in terms of who is connected. */
module RelayAnswers {
  import opened Wrappers
  import opened RelayProtocol
  import opened Relay
  import opened RelayRuns

  /** A host is registered exactly if its proof verified and it is known or there is room. */
  lemma RegisterIsExact(s: State, l: Limits, name: string, key: string, channel: nat, generation: Bytes, ok: bool)
    requires OwnersOk(s)
    ensures var (s1, answer) := RegisterStep(s, l, name, key, channel, generation, ok);
            && (answer.Success? <==> ok && (name in s.owners || |s.owners| < l.maxHosts))
            && (answer == Failure(InvalidSignature) <==> !ok)
            && (answer.Success? ==>
                  && name in s1.owners && s1.owners[name] == answer.value && answer.value !in s.known
                  && answer.value in s1.known && s1.known[answer.value] == Owner(name, key, channel, generation, 0, {})
                  && (forall n :: n != name ==>
                        (n in s1.owners <==> n in s.owners) && (n in s.owners ==> s1.owners[n] == s.owners[n])))
            && (answer.Failure? ==> s1 == s)
  {
    hide CancelPhones, DropStep;
    var id := s.nextOwner;
    var s1 := s.(owners := s.owners[name := id], nextOwner := id + 1,
                 known := s.known[id := Owner(name, key, channel, generation, 0, {})]);
    if name in s.owners {
      DropFrame(s1, s.owners[name]);
    }
  }

  /** Closing a current owner takes it off the register, cancels all of its phones and no other,
      and with them what they wait for. */
  lemma DropIsExact(s: State, owner: nat)
    requires PhonesOk(s) && owner in s.known
    ensures var s1 := DropStep(s, owner);
            && !IsCurrent(s1, owner)
            && (forall n :: n in s1.owners <==>
                  n in s.owners && !(n == s.known[owner].namespace && s.owners[n] == owner))
            && (forall n :: n in s1.owners ==> s1.owners[n] == s.owners[n])
            && (forall p :: p in s.phones ==>
                  p in s1.phones && s1.phones[p] ==
                    if s.phones[p].owner == owner then s.phones[p].(cancelled := true) else s.phones[p])
            && s1.requests.Keys == s.requests.Keys
            && (forall id :: id in s.requests ==>
                  var q := s.requests[id];
                  var waited := q.phone in s.phones && s.phones[q.phone].owner == owner &&
                                s.phones[q.phone].phase.Awaiting? && q.future == Waiting;
                  s1.requests[id] == if waited then q.(future := Dropped) else q)
  {
    hide CancelPhones;
    DropFrame(s, owner);
    TasksAreLive(s, owner);
    FuturesOf(s, s.known[owner].tasks);
    FuturesOf(s.(owners := s.owners - {s.known[owner].namespace}), s.known[owner].tasks);
    var left := if IsCurrent(s, owner) then s.(owners := s.owners - {s.known[owner].namespace}) else s;
    CancelFrame(left, s.known[owner].tasks);
  }

  lemma FuturesOf(s: State, tasks: set<nat>)
    ensures var s1 := CancelPhones(s, tasks);
            && s1.requests.Keys == s.requests.Keys
            && (forall id :: id in s.requests ==>
                  var q := s.requests[id];
                  var waited := q.phone in tasks && q.phone in s.phones && s.phones[q.phone].phase.Awaiting? &&
                                q.future == Waiting;
                  s1.requests[id] == if waited then q.(future := Dropped) else q)
  {}

  /** A phone is let in exactly if its host is registered and neither the host's live phones, nor
      the outstanding requests, nor all live phones have reached their limit; it is then the one
      more of each. */
  lemma OpenIsExact(w: World, setting: Setting, phone: nat, name: string, id: string)
    requires Inv(w, setting) && Possible(w, Open(phone, name, id))
    ensures var s, l := w.state, setting.limits;
            var (s1, answer) := OpenStep(s, l, phone, name, id);
            && (answer.Success? <==>
                  && name in s.owners && |PhonesOf(s, s.owners[name])| < l.streamsPerHost
                  && |Outstanding(s)| < l.maxPending && |s.phones| < l.maxTunnels)
            && (answer == Failure(HostOffline) <==> name !in s.owners)
            && (answer.Success? ==>
                  && s1.phones == s.phones[phone := Phone(s.owners[name], id, Opening, false)]
                  && s1.pending == s.pending + {id} && s1.tunnels == s.tunnels + 1
                  && id in s1.requests && !s1.requests[id].consumed && s1.requests[id].future == Waiting)
            && (answer.Failure? ==> s1 == s)
  {
    hide PhonesOk, AllLiveOk, AttachedOk, TunneledOk, PhonesOf, Outstanding;
    OwnersAreKnown(w.state);
    PendingIsOutstanding(w.state);
    if name in w.state.owners {
      TasksAreLive(w.state, w.state.owners[name]);
    }
  }

  /** The holder of `key` signed this attach. */
  ghost predicate Signed(proofs: set<Proof>, setting: Setting, key: string, nonce: Bytes, id: string) {
    && Untoken(id).Success? && |nonce| == 32 && DnsName(setting.host, setting.isAddress)
    && Proof(key, "attach", setting.host, nonce, Some(Untoken(id).value)) in proofs
  }

  lemma UntokenSize(id: string)
    ensures Untoken(id).Success? ==> |Untoken(id).value| == 32
  {}

  /** Verification accepts exactly what was signed for this attach. */
  lemma VerifiesIsExact(proofs: set<Proof>, setting: Setting, key: string, nonce: Bytes, id: string)
    ensures var message := AttachMessage(setting.host, setting.isAddress, nonce, id);
            (message.Some? && Verifies(proofs, setting, key, message.value)) <==>
            Signed(proofs, setting, key, nonce, id)
  {
    hide Untoken, DnsName, Heading;
    var message := AttachMessage(setting.host, setting.isAddress, nonce, id);
    UntokenSize(id);
    if message.Some? && Verifies(proofs, setting, key, message.value) {
      VerifiedIsSigned(proofs, setting, key, nonce, id);
    }
    if Signed(proofs, setting, key, nonce, id) {
      HostIsAscii(setting.host, setting.isAddress);
      var p := Proof(key, "attach", setting.host, nonce, Some(Untoken(id).value));
      assert Challenge(p.purpose, p.host, setting.isAddress, p.nonce, p.pending) == Success(message.value);
    }
  }

  /** The phone that asked under `id` still waits for a host nobody replaced. */
  ghost predicate IsWaiting(s: State, id: string) {
    && id in s.pending && id in s.requests && !s.requests[id].consumed && s.requests[id].future == Waiting
    && IsCurrent(s, s.requests[id].owner)
  }

  /** An attach is accepted exactly if its phone waits and the host signed it for this relay,
      this connection's nonce and this ID; it then uses up the ID and changes nothing else. */
  lemma AttachIsExact(w: World, setting: Setting, id: string, nonce: Bytes)
    requires Inv(w, setting)
    ensures var s := w.state;
            var (s1, answer) := AttachOf(w, setting, id, nonce);
            && (answer.Success? <==>
                  IsWaiting(s, id) && Signed(w.log.proofs, setting, s.known[s.requests[id].owner].key, nonce, id))
            && (answer.Success? ==> s1 == s.(requests := s.requests[id := s.requests[id].(consumed := true)]))
            && (answer.Failure? ==> s1 == s)
  {
    hide OwnersOk, AllLiveOk, CountsOk, AttachedOk, TunneledOk, AttachMessage, Verifies, Signed;
    var s := w.state;
    if IsWaiting(s, id) {
      GenerationIsKept(s, id);
      VerifiesIsExact(w.log.proofs, setting, s.known[s.requests[id].owner].key, nonce, id);
    }
  }

  lemma GenerationIsKept(s: State, id: string)
    requires PhonesOk(s) && id in s.pending
    ensures id in s.requests && s.requests[id].owner in s.known
    ensures s.requests[id].generation == s.known[s.requests[id].owner].generation
  {}

  /** The phone of a waiting request listens for its host. */
  ghost predicate IsListening(s: State, id: string) {
    && IsWaiting(s, id) && s.requests[id].phone in s.phones
    && s.phones[s.requests[id].phone].phase.Awaiting? && !s.phones[s.requests[id].phone].cancelled
  }

  /** The world in which that phone has its tunnel over `channel`. */
  ghost function Connected(w: World, id: string, nonce: Bytes, channel: nat): World
    requires IsListening(w.state, id)
  {
    var s := w.state;
    var q := s.requests[id];
    World(s.(requests := s.requests[id := q.(consumed := true, future := Resolved(channel))],
             pending := s.pending - {id}, phones := s.phones[q.phone := s.phones[q.phone].(phase := Tunnel(channel))]),
          w.attaching,
          w.log.(attached := w.log.attached + [Attachment(id, channel, nonce, s.known[q.owner].key)],
                 tunneled := w.log.tunneled + [(id, channel)]))
  }

  /** From end to end: a host that signs the attach of a listening phone gets its tunnel. */
  lemma SignedAttachOpensTunnel(w: World, setting: Setting, id: string, nonce: Bytes, channel: nat)
    requires Inv(w, setting) && Possible(w, RelayRuns.Attach(channel, id, nonce)) && IsListening(w.state, id)
    requires Signed(w.log.proofs, setting, w.state.known[w.state.requests[id].owner].key, nonce, id)
    ensures Run(w, setting,
                [RelayRuns.Attach(channel, id, nonce), RelayRuns.Deliver(channel), Resume(w.state.requests[id].phone)],
                Connected(w, id, nonce, channel))
  {
    hide OwnersOk, PhonesOk, AllLiveOk, CountsOk, AttachedOk, TunneledOk, Signed, AttachStep, AttachOf, AttachMessage;
    hide Run;
    var s := w.state;
    var q := s.requests[id];
    var w1 := World(s.(requests := s.requests[id := q.(consumed := true)]), w.attaching[channel := id],
                    w.log.(attached := w.log.attached + [Attachment(id, channel, nonce, s.known[q.owner].key)]));
    AttachIsExact(w, setting, id, nonce);
    AskedByPhone(s, id);
    assert Next(w, setting, RelayRuns.Attach(channel, id, nonce)) == w1;
    var w2 := World(s.(requests := s.requests[id := q.(consumed := true, future := Resolved(channel))]), w.attaching,
                    w1.log);
    assert w1.attaching - {channel} == w.attaching;
    assert w1.state.requests[id := q.(consumed := true, future := Resolved(channel))] == w2.state.requests;
    assert Next(w1, setting, RelayRuns.Deliver(channel)) == w2;
    assert Next(w2, setting, Resume(q.phone)) == Connected(w, id, nonce, channel);
    ThreeSteps(w, setting, RelayRuns.Attach(channel, id, nonce), w1, RelayRuns.Deliver(channel), w2, Resume(q.phone));
  }

  lemma ThreeSteps(w: World, setting: Setting, a: Event, w1: World, b: Event, w2: World, c: Event)
    requires Possible(w, a) && Next(w, setting, a) == w1
    requires Possible(w1, b) && Next(w1, setting, b) == w2
    requires Possible(w2, c)
    ensures Run(w, setting, [a, b, c], Next(w2, setting, c))
  {
    hide Next, Possible;
    assert [a, b, c][1..] == [b, c] && [b, c][1..] == [c] && [c][1..] == [];
    var w3 := Next(w2, setting, c);
    assert Run(w3, setting, [], w3);
    assert Run(w2, setting, [c], w3);
    assert Run(w1, setting, [b, c], w3);
  }

  /** A phone that was let in listens from the moment its request was written to the host, until
      somebody attaches or its owner is replaced. */
  lemma AdmittedPhoneListens(w: World, setting: Setting, phone: nat, name: string, id: string)
    requires Inv(w, setting) && Possible(w, Open(phone, name, id))
    requires OpenStep(w.state, setting.limits, phone, name, id).1.Success?
    ensures var w1 := Next(w, setting, Open(phone, name, id));
            && Possible(w1, Opened(phone))
            && var s2 := Next(w1, setting, Opened(phone)).state;
               IsListening(s2, id) && s2.requests[id].phone == phone && s2.requests[id].owner == w.state.owners[name]
  {
    hide PhonesOk, AllLiveOk, CountsOk, AttachedOk, TunneledOk;
  }

  lemma AskedByPhone(s: State, id: string)
    requires PhonesOk(s) && id in s.pending
    ensures id in s.requests && s.requests[id].phone in s.phones && s.phones[s.requests[id].phone].pending == id
    ensures s.phones[s.requests[id].phone].owner == s.requests[id].owner
  {}

  /** The channel reaches the phone exactly while it still waits for one. */
  lemma DeliverIsExact(s: State, id: string, channel: nat)
    requires id in s.requests
    ensures var (s1, answer) := DeliverStep(s, id, channel);
            && (answer.Success? <==> s.requests[id].future == Waiting)
            && s1 == if answer.Success?
                     then s.(requests := s.requests[id := s.requests[id].(future := Resolved(channel))]) else s
  {}

  /** An ending phone gives back exactly what it took. */
  lemma EndIsExact(s: State, phone: nat)
    requires PhonesOk(s) && phone in s.phones
    ensures s.phones[phone].pending in s.requests && s.phones[phone].owner in s.known
    ensures var s1 := EndStep(s, phone);
            && s1.phones == s.phones - {phone} && s1.pending == s.pending - {s.phones[phone].pending}
            && s1.tunnels == s.tunnels - 1 && s1.owners == s.owners
            && (forall o :: o in s.known ==>
                  o in s1.known && s1.known[o].streams ==
                    if o == s.phones[phone].owner then s.known[o].streams - 1 else s.known[o].streams)
            && s1.requests.Keys == s.requests.Keys
            && (forall id :: id in s.requests ==>
                  if id == s.phones[phone].pending && s.requests[id].future == Waiting
                  then s1.requests[id] == s.requests[id].(future := Dropped)
                  else s1.requests[id] == s.requests[id])
  {}
}
