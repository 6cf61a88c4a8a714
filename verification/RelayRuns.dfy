/** computer_relay_server.py over every interleaving of its connection and phone tasks. */
module RelayRuns {
  import opened Wrappers
  import opened RelayProtocol
  import opened Relay

  /** What the holder of a key signed. */
  datatype Proof = Proof(key: string, purpose: string, host: string, nonce: Bytes, pending: Option<Bytes>)

  datatype Setting = Setting(host: string, isAddress: string -> bool, limits: Limits)

  datatype Attachment = Attachment(id: string, channel: nat, nonce: Bytes, key: string)

  /** `proofs` are the signatures that exist, `attached` the accepted proofs, `channels` every
      data channel that attached, `used` every phone task, `tunneled` the tunnels. */
  datatype Log = Log(proofs: set<Proof>, attached: seq<Attachment>, used: set<nat>, tunneled: seq<(string, nat)>)

  /** `attaching` are the accepted connections that have not delivered their channel yet. */
  datatype World = World(state: State, attaching: map<nat, string>, log: Log)

  datatype Event =
    | Sign(proof: Proof)
    | Register(name: string, key: string, channel: nat, generation: Bytes, verified: bool)
    | Drop(owner: nat)
    | Attach(channel: nat, id: string, nonce: Bytes)
    | Deliver(channel: nat)
    | Lose(channel: nat)
    | Open(phone: nat, name: string, id: string)
    | Opened(phone: nat)
    | Resume(phone: nat)
    | End(phone: nat)

  /** A signature verifies only if the holder of the key made it over those very bytes. */
  ghost predicate Verifies(proofs: set<Proof>, setting: Setting, key: string, message: Bytes) {
    exists p :: p in proofs && p.key == key &&
      Challenge(p.purpose, p.host, setting.isAddress, p.nonce, p.pending) == Success(message)
  }

  ghost function VerifierOf(proofs: set<Proof>, setting: Setting): Verifier {
    (key, message) => Verifies(proofs, setting, key, message)
  }

  ghost function AttachOf(w: World, setting: Setting, id: string, nonce: Bytes): (State, Result<(), Relay.Error>) {
    AttachStep(w.state, id, AttachMessage(setting.host, setting.isAddress, nonce, id),
               VerifierOf(w.log.proofs, setting))
  }

  /** Pending IDs are random and a task runs once. */
  ghost predicate Possible(w: World, e: Event) {
    var s := w.state;
    match e
    case Drop(owner) => owner in s.known
    case Attach(channel, _, _) => channel !in w.attaching && forall a :: a in w.log.attached ==> a.channel != channel
    case Deliver(channel) => channel in w.attaching && w.attaching[channel] in s.requests
    case Lose(channel) => channel in w.attaching
    case Open(phone, _, id) => phone !in w.log.used && id !in s.requests
    case Opened(phone) => phone in s.phones && s.phones[phone].phase.Opening? && !s.phones[phone].cancelled
    case Resume(phone) =>
      && phone in s.phones && s.phones[phone].phase.Awaiting? && !s.phones[phone].cancelled
      && s.phones[phone].pending in s.requests && s.requests[s.phones[phone].pending].future.Resolved?
    case End(phone) =>
      phone in s.phones && s.phones[phone].pending in s.requests && s.phones[phone].owner in s.known
    case _ => true
  }

  function Moved<T>(w: World, step: (State, T)): World {
    w.(state := step.0)
  }

  function Without(attaching: map<nat, string>, channel: nat): map<nat, string> {
    attaching - {channel}
  }

  ghost function Next(w: World, setting: Setting, e: Event): World
    requires Possible(w, e)
  {
    var s := w.state;
    match e
    case Sign(proof) => w.(log := w.log.(proofs := w.log.proofs + {proof}))
    case Register(name, key, channel, generation, verified) =>
      Moved(w, RegisterStep(s, setting.limits, name, key, channel, generation, verified))
    case Drop(owner) => w.(state := DropStep(s, owner))
    case Attach(channel, id, nonce) =>
      var step := AttachOf(w, setting, id, nonce);
      if step.1.Success? then
        World(step.0, w.attaching[channel := id],
              w.log.(attached := w.log.attached + [Attachment(id, channel, nonce, s.known[s.requests[id].owner].key)]))
      else w
    case Deliver(channel) =>
      Moved(w, DeliverStep(s, w.attaching[channel], channel)).(attaching := Without(w.attaching, channel))
    case Lose(channel) => w.(attaching := Without(w.attaching, channel))
    case Open(phone, name, id) =>
      Moved(w, OpenStep(s, setting.limits, phone, name, id)).(log := w.log.(used := w.log.used + {phone}))
    case Opened(phone) => w.(state := OpenedStep(s, phone))
    case Resume(phone) =>
      var step := ResumeStep(s, phone);
      if step.1.Success? then
        World(step.0, w.attaching, w.log.(tunneled := w.log.tunneled + [(s.phones[phone].pending, step.1.value)]))
      else w
    case End(phone) => w.(state := EndStep(s, phone))
  }

  ghost predicate Run(w: World, setting: Setting, events: seq<Event>, end: World)
    decreases events
  {
    if events == [] then w == end
    else Possible(w, events[0]) && Run(Next(w, setting, events[0]), setting, events[1..], end)
  }

  const START := World(EMPTY, map[], Log({}, [], {}, []))

  // ----- What every step keeps ----------------------------------------------------------------------------

  ghost predicate OwnersOk(s: State) {
    && (forall n :: n in s.owners ==> s.owners[n] in s.known && s.known[s.owners[n]].namespace == n)
    && (forall o :: o in s.known ==> o < s.nextOwner)
  }

  /** Phones, their requests and their owners know each other. */
  ghost predicate PhonesOk(s: State) {
    && (forall p :: p in s.phones ==>
          var phone := s.phones[p];
          && phone.owner in s.known && p in s.known[phone.owner].tasks
          && phone.pending in s.requests && s.requests[phone.pending].phone == p
          && s.requests[phone.pending].owner == phone.owner
          && s.requests[phone.pending].generation == s.known[phone.owner].generation
          && (phone.phase.Tunnel? <==> phone.pending !in s.pending))
    && (forall o, p :: o in s.known && p in s.known[o].tasks ==> p in s.phones && s.phones[p].owner == o)
    && (forall id :: id in s.pending ==>
          id in s.requests && s.requests[id].phone in s.phones && s.phones[s.requests[id].phone].pending == id)
  }

  /** A phone that may go on has a current owner; `owner` is the one about to be dropped. */
  ghost predicate LiveOk(s: State, owner: nat) {
    forall p :: p in s.phones && s.phones[p].owner != owner && !s.phones[p].cancelled ==>
      IsCurrent(s, s.phones[p].owner)
  }

  ghost predicate AllLiveOk(s: State) {
    forall p :: p in s.phones && !s.phones[p].cancelled ==> IsCurrent(s, s.phones[p].owner)
  }

  ghost predicate CountsOk(s: State, l: Limits) {
    && s.tunnels == |s.phones| <= l.maxTunnels
    && |s.pending| <= l.maxPending && |s.owners| <= l.maxHosts
    && (forall o :: o in s.known ==> s.known[o].streams == |s.known[o].tasks| <= l.streamsPerHost)
  }

  /** Each accepted proof used up its own request, and is a signature over exactly this attach. */
  ghost predicate AttachedOk(w: World, setting: Setting) {
    var log, requests := w.log, w.state.requests;
    && (forall i :: 0 <= i < |log.attached| ==>
          var a := log.attached[i];
          && a.id in requests && requests[a.id].consumed && requests[a.id].owner in w.state.known
          && w.state.known[requests[a.id].owner].key == a.key && SignedAttach(log.proofs, setting, a))
    && (forall i, j :: 0 <= i < j < |log.attached| ==> log.attached[i].id != log.attached[j].id)
    && (forall c :: c in w.attaching ==> AttachedTo(log.attached, w.attaching[c], c))
    && (forall id :: id in requests && requests[id].future.Resolved? ==>
          AttachedTo(log.attached, id, requests[id].future.channel))
  }

  predicate AttachedTo(attached: seq<Attachment>, id: string, channel: nat) {
    exists i :: 0 <= i < |attached| && attached[i].id == id && attached[i].channel == channel
  }

  ghost predicate SignedAttach(proofs: set<Proof>, setting: Setting, a: Attachment) {
    Untoken(a.id).Success? &&
    Proof(a.key, "attach", setting.host, a.nonce, Some(Untoken(a.id).value)) in proofs
  }

  /** A tunnel took its ID out of the pending ones for good. */
  ghost predicate TunneledOk(w: World) {
    var s, tunneled := w.state, w.log.tunneled;
    && (forall i :: 0 <= i < |tunneled| ==> tunneled[i].0 in s.requests && tunneled[i].0 !in s.pending)
    && (forall i, j :: 0 <= i < j < |tunneled| ==> tunneled[i].0 != tunneled[j].0)
    && (forall p :: p in s.phones ==> p in w.log.used)
    && (forall id :: id in s.requests ==> s.requests[id].phone in w.log.used)
  }

  ghost predicate Inv(w: World, setting: Setting) {
    && OwnersOk(w.state) && PhonesOk(w.state) && AllLiveOk(w.state) && CountsOk(w.state, setting.limits)
    && AttachedOk(w, setting) && TunneledOk(w)
  }

  // ----- Proofs -------------------------------------------------------------------------------------------

  /** A verified attach was signed as such: the challenge tells purpose, host, nonce and pending
      ID apart from any other. */
  lemma VerifiedIsSigned(proofs: set<Proof>, setting: Setting, key: string, nonce: Bytes, id: string)
    requires AttachMessage(setting.host, setting.isAddress, nonce, id).Some?
    requires Verifies(proofs, setting, key, AttachMessage(setting.host, setting.isAddress, nonce, id).value)
    ensures Untoken(id).Success? && Proof(key, "attach", setting.host, nonce, Some(Untoken(id).value)) in proofs
  {
    hide Untoken;
    var message := AttachMessage(setting.host, setting.isAddress, nonce, id).value;
    var p :| p in proofs && p.key == key &&
      Challenge(p.purpose, p.host, setting.isAddress, p.nonce, p.pending) == Success(message);
    hide Challenge;
    ChallengeIsInjective("attach", setting.host, nonce, Some(Untoken(id).value), p.purpose, p.host, p.nonce, p.pending,
                         setting.isAddress);
  }

  // ----- Phones -------------------------------------------------------------------------------------------

  lemma CancelledPhones(s: State, tasks: set<nat>)
    requires PhonesOk(s)
    ensures PhonesOk(CancelPhones(s, tasks))
  {}

  lemma SameLinks(s: State, s1: State)
    requires PhonesOk(s) && s1 == s.(owners := s1.owners)
    ensures PhonesOk(s1)
  {}

  /** Without its owner, all of the owner's phones are cancelled. */
  lemma DroppedPhones(s: State, owner: nat)
    requires OwnersOk(s) && PhonesOk(s) && owner in s.known
    ensures OwnersOk(DropStep(s, owner)) && PhonesOk(DropStep(s, owner))
  {
    hide PhonesOk, CancelPhones;
    var name := s.known[owner].namespace;
    var left := if IsCurrent(s, owner) then s.(owners := s.owners - {name}) else s;
    SameLinks(s, left);
    CancelledPhones(left, s.known[owner].tasks);
    CancelFrame(left, s.known[owner].tasks);
  }

  lemma CancelFrame(s: State, tasks: set<nat>)
    ensures var s1 := CancelPhones(s, tasks);
            && s1 == s.(phones := s1.phones, requests := s1.requests)
            && s1.phones.Keys == s.phones.Keys && s1.requests.Keys == s.requests.Keys
            && (forall p :: p in s.phones ==>
                  s1.phones[p] == if p in tasks then s.phones[p].(cancelled := true) else s.phones[p])
            && (forall id :: id in s.requests ==>
                  s1.requests[id] == s.requests[id] ||
                  (s.requests[id].future.Waiting? && s1.requests[id] == s.requests[id].(future := Dropped)))
  {}

  lemma DroppedLive(s: State, owner: nat)
    requires PhonesOk(s) && LiveOk(s, owner) && owner in s.known
    ensures AllLiveOk(DropStep(s, owner))
  {
    hide CancelPhones;
    var name := s.known[owner].namespace;
    var left := if IsCurrent(s, owner) then s.(owners := s.owners - {name}) else s;
    CancelFrame(left, s.known[owner].tasks);
  }

  lemma NewOwner(s: State, name: string, key: string, channel: nat, generation: Bytes)
    requires OwnersOk(s) && PhonesOk(s) && AllLiveOk(s)
    ensures var s1 := s.(owners := s.owners[name := s.nextOwner], nextOwner := s.nextOwner + 1,
                         known := s.known[s.nextOwner := Owner(name, key, channel, generation, 0, {})]);
            && OwnersOk(s1) && PhonesOk(s1)
            && (name in s.owners ==> LiveOk(s1, s.owners[name]))
            && (name !in s.owners ==> AllLiveOk(s1))
  {}

  lemma RegisteredPhones(s: State, l: Limits, name: string, key: string, channel: nat, generation: Bytes, ok: bool)
    requires OwnersOk(s) && PhonesOk(s) && AllLiveOk(s)
    ensures var s1 := RegisterStep(s, l, name, key, channel, generation, ok).0;
            OwnersOk(s1) && PhonesOk(s1) && AllLiveOk(s1)
  {
    hide OwnersOk, PhonesOk, AllLiveOk, LiveOk, DropStep;
    var s1 := s.(owners := s.owners[name := s.nextOwner], nextOwner := s.nextOwner + 1,
                 known := s.known[s.nextOwner := Owner(name, key, channel, generation, 0, {})]);
    NewOwner(s, name, key, channel, generation);
    OwnersAreKnown(s);
    if name in s.owners {
      DroppedPhones(s1, s.owners[name]);
      DroppedLive(s1, s.owners[name]);
    }
  }

  lemma OwnersAreKnown(s: State)
    requires OwnersOk(s)
    ensures forall n :: n in s.owners ==> s.owners[n] in s.known
    ensures s.nextOwner !in s.known
  {}

  lemma OpenedPhones(s: State, o: nat, phone: nat, id: string)
    requires PhonesOk(s) && o in s.known && phone !in s.phones && id !in s.requests
    ensures PhonesOk(AdmitPhone(s, o, phone, id))
  {
    var s1 := AdmitPhone(s, o, phone, id);
    forall p | p in s1.phones
      ensures s1.phones[p].pending in s1.requests && s1.requests[s1.phones[p].pending].phone == p
    {
      if p != phone {
        assert s.phones[p].pending in s.requests;
      }
    }
  }

  lemma OpenedLive(s: State, name: string, phone: nat, id: string)
    requires OwnersOk(s) && AllLiveOk(s) && name in s.owners
    ensures var s1 := AdmitPhone(s, s.owners[name], phone, id); OwnersOk(s1) && AllLiveOk(s1)
  {}

  lemma ResumedPhones(s: State, phone: nat)
    requires PhonesOk(s) && phone in s.phones && s.phones[phone].pending in s.requests
    requires s.requests[s.phones[phone].pending].future.Resolved?
    ensures PhonesOk(ResumeStep(s, phone).0)
  {}

  lemma EndedPhones(s: State, phone: nat)
    requires PhonesOk(s) && phone in s.phones && s.phones[phone].pending in s.requests
    requires s.phones[phone].owner in s.known
    ensures PhonesOk(EndStep(s, phone))
  {}

  lemma EndedLive(s: State, phone: nat)
    requires OwnersOk(s) && AllLiveOk(s) && phone in s.phones && s.phones[phone].pending in s.requests
    requires s.phones[phone].owner in s.known
    ensures OwnersOk(EndStep(s, phone)) && AllLiveOk(EndStep(s, phone))
  {}

  lemma RequestChanges(s: State, id: string, q: Request)
    requires PhonesOk(s) && id in s.requests
    requires q.phone == s.requests[id].phone && q.owner == s.requests[id].owner
    requires q.generation == s.requests[id].generation
    ensures PhonesOk(s.(requests := s.requests[id := q]))
  {}

  lemma OpenedAgain(s: State, phone: nat)
    requires PhonesOk(s) && phone in s.phones && s.phones[phone].phase.Opening?
    ensures PhonesOk(OpenedStep(s, phone))
  {}

  // ----- Counts -------------------------------------------------------------------------------------------

  lemma CancelledCounts(s: State, tasks: set<nat>, l: Limits)
    requires CountsOk(s, l)
    ensures CountsOk(CancelPhones(s, tasks), l)
  {
    hide CancelPhones;
    CancelFrame(s, tasks);
    var s1 := CancelPhones(s, tasks);
    assert |s1.phones| == |s1.phones.Keys| && |s.phones| == |s.phones.Keys|;
  }

  lemma FewerOwners(owners: map<string, nat>, name: string)
    ensures |owners - {name}| <= |owners|
  {
    assert owners.Keys == (owners - {name}).Keys + (owners.Keys * {name});
    assert |owners| == |owners.Keys| && |owners - {name}| == |(owners - {name}).Keys|;
  }

  lemma DroppedCounts(s: State, owner: nat, l: Limits)
    requires CountsOk(s, l) && owner in s.known
    ensures CountsOk(DropStep(s, owner), l)
  {
    hide CancelPhones;
    var name := s.known[owner].namespace;
    var left := if IsCurrent(s, owner) then s.(owners := s.owners - {name}) else s;
    FewerOwners(s.owners, name);
    CancelledCounts(left, s.known[owner].tasks, l);
  }

  lemma RegisteredCounts(s: State, l: Limits, name: string, key: string, channel: nat, generation: Bytes, ok: bool)
    requires CountsOk(s, l)
    ensures CountsOk(RegisterStep(s, l, name, key, channel, generation, ok).0, l)
  {
    hide DropStep;
    if ok && (name in s.owners || |s.owners| < l.maxHosts) {
      var s1 := s.(owners := s.owners[name := s.nextOwner], nextOwner := s.nextOwner + 1,
                   known := s.known[s.nextOwner := Owner(name, key, channel, generation, 0, {})]);
      OneMoreOwner(s.owners, name, s.nextOwner);
      assert CountsOk(s1, l);
      if name in s.owners && s.owners[name] in s1.known {
        DroppedCounts(s1, s.owners[name], l);
      }
    }
  }

  lemma OneMoreOwner(owners: map<string, nat>, name: string, id: nat)
    ensures |owners[name := id]| == if name in owners then |owners| else |owners| + 1
  {
    assert owners[name := id].Keys == owners.Keys + {name};
    assert |owners| == |owners.Keys| && |owners[name := id]| == |owners[name := id].Keys|;
  }

  lemma NewTask(s: State, o: nat, phone: nat)
    requires PhonesOk(s) && o in s.known && phone !in s.phones
    ensures phone !in s.known[o].tasks
  {}

  lemma OneMore<T>(a: set<T>, x: T)
    ensures |a + {x}| == if x in a then |a| else |a| + 1
  {
    if x in a {
      assert a + {x} == a;
    }
  }

  lemma MapSize<K, V>(m: map<K, V>)
    ensures |m| == |m.Keys|
  {}

  lemma AdmittedStreams(s: State, o: nat, phone: nat, id: string, l: Limits)
    requires CountsOk(s, l) && o in s.known && phone !in s.known[o].tasks && s.known[o].streams < l.streamsPerHost
    ensures var s1 := AdmitPhone(s, o, phone, id);
            forall k :: k in s1.known ==> s1.known[k].streams == |s1.known[k].tasks| <= l.streamsPerHost
  {
    OneMore(s.known[o].tasks, phone);
  }

  lemma AdmittedCounts(s: State, o: nat, phone: nat, id: string, l: Limits)
    requires CountsOk(s, l) && PhonesOk(s) && o in s.known && phone !in s.phones
    requires s.known[o].streams < l.streamsPerHost && |s.pending| < l.maxPending && s.tunnels < l.maxTunnels
    ensures CountsOk(AdmitPhone(s, o, phone, id), l)
  {
    hide PhonesOk, AdmitPhone;
    var s1 := AdmitPhone(s, o, phone, id);
    NewTask(s, o, phone);
    AdmittedStreams(s, o, phone, id, l);
    AdmitFrame(s, o, phone, id);
    OneMore(s.pending, id);
    OneMore(s.phones.Keys, phone);
    MapSize(s1.phones);
    MapSize(s.phones);
  }

  lemma PhaseCounts(s: State, phone: nat, q: Phone, l: Limits, pending: set<string>)
    requires CountsOk(s, l) && phone in s.phones && pending <= s.pending
    ensures CountsOk(s.(phones := s.phones[phone := q], pending := pending), l)
  {
    assert s.phones[phone := q].Keys == s.phones.Keys;
    assert |s.phones[phone := q]| == |s.phones[phone := q].Keys| && |s.phones| == |s.phones.Keys|;
    assert s.pending == pending + (s.pending - pending);
  }

  lemma EndedCounts(s: State, phone: nat, l: Limits)
    requires CountsOk(s, l) && PhonesOk(s) && phone in s.phones && s.phones[phone].pending in s.requests
    requires s.phones[phone].owner in s.known
    ensures CountsOk(EndStep(s, phone), l)
  {
    var s1 := EndStep(s, phone);
    assert s1.phones.Keys == s.phones.Keys - {phone};
    assert |s1.phones| == |s1.phones.Keys| && |s.phones| == |s.phones.Keys|;
    assert s.pending == s1.pending + (s.pending * {s.phones[phone].pending});
  }

  // ----- Histories ----------------------------------------------------------------------------------------

  /** Requests stay what they are, are never unconsumed, and get no channel in this step. */
  ghost predicate Follows(s: State, s1: State) {
    && (forall id :: id in s.requests ==>
          && id in s1.requests && s1.requests[id].owner == s.requests[id].owner
          && s1.requests[id].phone == s.requests[id].phone && (s.requests[id].consumed ==> s1.requests[id].consumed))
    && (forall id :: id in s1.requests && s1.requests[id].future.Resolved? ==>
          id in s.requests && s.requests[id].future == s1.requests[id].future)
    && (forall o :: o in s.known ==> o in s1.known && s1.known[o].key == s.known[o].key)
  }

  lemma AttachedFollows(w: World, w1: World, setting: Setting)
    requires AttachedOk(w, setting) && Follows(w.state, w1.state)
    requires w1.log.attached == w.log.attached && w.log.proofs <= w1.log.proofs
    requires w1.attaching.Keys <= w.attaching.Keys
    requires forall c :: c in w1.attaching ==> w1.attaching[c] == w.attaching[c]
    ensures AttachedOk(w1, setting)
  {
    hide AttachedTo;
    var log, log1 := w.log, w1.log;
    forall i | 0 <= i < |log1.attached|
      ensures SignedAttach(log1.proofs, setting, log1.attached[i])
    {
      assert SignedAttach(log.proofs, setting, log.attached[i]);
    }
  }

  lemma TunneledFollows(w: World, w1: World)
    requires TunneledOk(w) && Follows(w.state, w1.state) && w1.log.tunneled == w.log.tunneled
    requires forall id :: id in w1.state.pending && id in w.state.requests ==> id in w.state.pending
    requires w.log.used <= w1.log.used && w1.state.phones.Keys <= w1.log.used
    requires forall id :: id in w1.state.requests && id !in w.state.requests ==>
      w1.state.requests[id].phone in w1.log.used
    ensures TunneledOk(w1)
  {}

  lemma DropFollows(s: State, owner: nat)
    requires owner in s.known
    ensures var s1 := DropStep(s, owner);
            && Follows(s, s1) && s1.pending == s.pending
            && s1.phones.Keys == s.phones.Keys && s1.requests.Keys == s.requests.Keys
  {
    hide CancelPhones;
    var left := if IsCurrent(s, owner) then s.(owners := s.owners - {s.known[owner].namespace}) else s;
    CancelFrame(left, s.known[owner].tasks);
  }

  lemma RegisterFollows(s: State, l: Limits, name: string, key: string, channel: nat, generation: Bytes, ok: bool)
    requires OwnersOk(s)
    ensures var s1 := RegisterStep(s, l, name, key, channel, generation, ok).0;
            && Follows(s, s1) && s1.pending == s.pending
            && s1.phones.Keys == s.phones.Keys && s1.requests.Keys == s.requests.Keys
  {
    hide OwnersOk, DropStep, Follows;
    var s1 := s.(owners := s.owners[name := s.nextOwner], nextOwner := s.nextOwner + 1,
                 known := s.known[s.nextOwner := Owner(name, key, channel, generation, 0, {})]);
    OwnersAreKnown(s);
    NewOwnerFollows(s, s1);
    NothingFollows(s);
    if name in s.owners {
      DropFollows(s1, s.owners[name]);
      ThenFollows(s, s1, DropStep(s1, s.owners[name]));
    }
  }

  lemma NewOwnerFollows(s: State, s1: State)
    requires s1 == s.(owners := s1.owners, known := s1.known, nextOwner := s1.nextOwner)
    requires forall o :: o in s.known ==> o in s1.known && s1.known[o] == s.known[o]
    ensures Follows(s, s1)
  {}

  lemma ThenFollows(s: State, s1: State, s2: State)
    requires Follows(s, s1) && Follows(s1, s2)
    ensures Follows(s, s2)
  {}

  lemma PhoneFollows(s: State, phone: nat)
    requires phone in s.phones && s.phones[phone].pending in s.requests && s.phones[phone].owner in s.known
    ensures Follows(s, EndStep(s, phone)) && Follows(s, OpenedStep(s, phone))
    ensures s.requests[s.phones[phone].pending].future.Resolved? ==> Follows(s, ResumeStep(s, phone).0)
  {}

  lemma AdmitFollows(s: State, o: nat, phone: nat, id: string)
    requires o in s.known && id !in s.requests
    ensures Follows(s, AdmitPhone(s, o, phone, id))
  {}

  // ----- Steps --------------------------------------------------------------------------------------------

  /** A request changes without its owner or phone. */
  lemma RequestKeeps(s: State, id: string, q: Request, l: Limits)
    requires OwnersOk(s) && PhonesOk(s) && AllLiveOk(s) && CountsOk(s, l) && id in s.requests
    requires q.phone == s.requests[id].phone && q.owner == s.requests[id].owner
    requires q.generation == s.requests[id].generation
    ensures var s1 := s.(requests := s.requests[id := q]);
            OwnersOk(s1) && PhonesOk(s1) && AllLiveOk(s1) && CountsOk(s1, l)
  {
    hide PhonesOk;
    RequestChanges(s, id, q);
  }

  lemma AttachedAppends(w: World, setting: Setting, channel: nat, id: string, nonce: Bytes, q: Request)
    requires AttachedOk(w, setting) && id in w.state.requests && !w.state.requests[id].consumed
    requires w.state.requests[id].owner in w.state.known
    requires q == w.state.requests[id].(consumed := true) && !q.future.Resolved?
    requires var a := Attachment(id, channel, nonce, w.state.known[q.owner].key);
             SignedAttach(w.log.proofs, setting, a)
    ensures var a := Attachment(id, channel, nonce, w.state.known[q.owner].key);
            AttachedOk(World(w.state.(requests := w.state.requests[id := q]), w.attaching[channel := id],
                             w.log.(attached := w.log.attached + [a])), setting)
  {
    hide AttachedTo, SignedAttach;
    var a := Attachment(id, channel, nonce, w.state.known[q.owner].key);
    var attached := w.log.attached + [a];
    assert attached[|w.log.attached|] == a;
    AttachedGrows(w.log.attached, a);
  }

  lemma AttachedGrows(attached: seq<Attachment>, a: Attachment)
    ensures AttachedTo(attached + [a], a.id, a.channel)
    ensures forall id, c :: AttachedTo(attached, id, c) ==> AttachedTo(attached + [a], id, c)
  {
    assert (attached + [a])[|attached|] == a;
    forall id, c | AttachedTo(attached, id, c) ensures AttachedTo(attached + [a], id, c) {
      var i :| 0 <= i < |attached| && attached[i].id == id && attached[i].channel == c;
      assert (attached + [a])[i] == attached[i];
    }
  }

  lemma AttachKeeps(w: World, setting: Setting, e: Event)
    requires Inv(w, setting) && Possible(w, e) && e.Attach?
    ensures Inv(Next(w, setting, e), setting)
  {
    hide OwnersOk, PhonesOk, AllLiveOk, CountsOk, AttachedOk, Untoken, Challenge, Verifies, AttachMessage;
    var s := w.state;
    var Attach(channel, id, nonce) := e;
    if AttachOf(w, setting, id, nonce).1.Success? {
      var q := s.requests[id].(consumed := true);
      VerifiedIsSigned(w.log.proofs, setting, s.known[q.owner].key, nonce, id);
      RequestKeeps(s, id, q, setting.limits);
      AttachedAppends(w, setting, channel, id, nonce, q);
    }
  }

  lemma DeliverKeeps(w: World, setting: Setting, e: Event)
    requires Inv(w, setting) && Possible(w, e) && e.Deliver?
    ensures Inv(Next(w, setting, e), setting)
  {
    hide OwnersOk, PhonesOk, AllLiveOk, CountsOk, AttachedTo, SignedAttach;
    var id := w.attaching[e.channel];
    RequestKeeps(w.state, id, w.state.requests[id].(future := Resolved(e.channel)), setting.limits);
  }

  lemma SignKeeps(w: World, setting: Setting, e: Event)
    requires Inv(w, setting) && (e.Sign? || e.Lose?) && Possible(w, e)
    ensures Inv(Next(w, setting, e), setting)
  {
    hide OwnersOk, PhonesOk, AllLiveOk, CountsOk, AttachedOk;
    var w1 := Next(w, setting, e);
    AttachedFollows(w, w1, setting);
  }

  lemma DropKeeps(w: World, setting: Setting, e: Event)
    requires Inv(w, setting) && Possible(w, e) && e.Drop?
    ensures Inv(Next(w, setting, e), setting)
  {
    hide OwnersOk, PhonesOk, AllLiveOk, LiveOk, CountsOk, AttachedOk, DropStep, Follows, TunneledOk;
    var s := w.state;
    NobodyExcepted(s, e.owner);
    DroppedPhones(s, e.owner);
    DroppedLive(s, e.owner);
    DroppedCounts(s, e.owner, setting.limits);
    DropFollows(s, e.owner);
    AttachedFollows(w, Next(w, setting, e), setting);
    UsedPhones(w);
    TunneledFollows(w, Next(w, setting, e));
  }

  lemma NobodyExcepted(s: State, owner: nat)
    requires AllLiveOk(s)
    ensures LiveOk(s, owner)
  {}

  lemma UsedPhones(w: World)
    requires TunneledOk(w)
    ensures w.state.phones.Keys <= w.log.used
    ensures forall id :: id in w.state.requests ==> w.state.requests[id].phone in w.log.used
  {}

  lemma RegisterKeeps(w: World, setting: Setting, e: Event)
    requires Inv(w, setting) && Possible(w, e) && e.Register?
    ensures Inv(Next(w, setting, e), setting)
  {
    hide OwnersOk, PhonesOk, AllLiveOk, CountsOk, AttachedOk, RegisterStep, Follows, TunneledOk;
    var s, l := w.state, setting.limits;
    var Register(name, key, channel, generation, verified) := e;
    RegisteredPhones(s, l, name, key, channel, generation, verified);
    RegisteredCounts(s, l, name, key, channel, generation, verified);
    RegisterFollows(s, l, name, key, channel, generation, verified);
    AttachedFollows(w, Next(w, setting, e), setting);
    UsedPhones(w);
    TunneledFollows(w, Next(w, setting, e));
  }

  lemma OpenKeeps(w: World, setting: Setting, e: Event)
    requires Inv(w, setting) && Possible(w, e) && e.Open?
    ensures Inv(Next(w, setting, e), setting)
  {
    hide OwnersOk, PhonesOk, AllLiveOk, CountsOk, AttachedOk, Follows, TunneledOk, AdmitPhone;
    var s := w.state;
    var Open(phone, name, id) := e;
    var w1 := Next(w, setting, e);
    UsedPhones(w);
    NothingFollows(s);
    if OpenStep(s, setting.limits, phone, name, id).1.Success? {
      var o := s.owners[name];
      OpenedPhones(s, o, phone, id);
      OpenedLive(s, name, phone, id);
      AdmittedCounts(s, o, phone, id, setting.limits);
      AdmitFollows(s, o, phone, id);
      AdmitFrame(s, o, phone, id);
    }
    AttachedFollows(w, w1, setting);
    TunneledFollows(w, w1);
  }

  lemma NothingFollows(s: State)
    ensures Follows(s, s)
  {}

  lemma AdmitFrame(s: State, o: nat, phone: nat, id: string)
    requires o in s.known
    ensures var s1 := AdmitPhone(s, o, phone, id);
            && s1.owners == s.owners && s1.tunnels == s.tunnels + 1
            && s1.pending == s.pending + {id} && s1.phones.Keys == s.phones.Keys + {phone}
            && s1.requests.Keys == s.requests.Keys + {id} && s1.requests[id].phone == phone
  {}

  lemma PhoneKeeps(w: World, setting: Setting, e: Event)
    requires Inv(w, setting) && Possible(w, e) && (e.Opened? || e.End?)
    ensures Inv(Next(w, setting, e), setting)
  {
    hide AllLiveOk, CountsOk, AttachedOk, Follows, TunneledOk, EndStep, OwnersOk, PhonesOk;
    var s := w.state;
    var w1 := Next(w, setting, e);
    UsedPhones(w);
    PhoneIsKnown(s, e.phone);
    PhoneFollows(s, e.phone);
    if e.Opened? {
      OpenedAgain(s, e.phone);
      PhaseLive(s, e.phone, s.phones[e.phone].(phase := Awaiting), s.pending);
      PhaseCounts(s, e.phone, s.phones[e.phone].(phase := Awaiting), setting.limits, s.pending);
    } else {
      EndedPhones(s, e.phone);
      EndedLive(s, e.phone);
      EndedCounts(s, e.phone, setting.limits);
      EndFrame(s, e.phone);
    }
    AttachedFollows(w, w1, setting);
    TunneledFollows(w, w1);
  }

  lemma PhoneIsKnown(s: State, phone: nat)
    requires PhonesOk(s) && phone in s.phones
    ensures s.phones[phone].pending in s.requests && s.phones[phone].owner in s.known
    ensures !s.phones[phone].phase.Tunnel? ==> s.phones[phone].pending in s.pending
  {}

  lemma EndFrame(s: State, phone: nat)
    requires phone in s.phones && s.phones[phone].pending in s.requests && s.phones[phone].owner in s.known
    ensures var s1 := EndStep(s, phone);
            s1.pending <= s.pending && s1.phones.Keys <= s.phones.Keys && s1.requests.Keys == s.requests.Keys
  {}

  lemma PhaseLive(s: State, phone: nat, q: Phone, pending: set<string>)
    requires OwnersOk(s) && AllLiveOk(s) && phone in s.phones
    requires q.owner == s.phones[phone].owner && q.cancelled == s.phones[phone].cancelled
    ensures var s1 := s.(phones := s.phones[phone := q], pending := pending); OwnersOk(s1) && AllLiveOk(s1)
  {}

  lemma ResumeKeeps(w: World, setting: Setting, e: Event)
    requires Inv(w, setting) && Possible(w, e) && e.Resume?
    ensures Inv(Next(w, setting, e), setting)
  {
    hide AllLiveOk, CountsOk, AttachedOk, Follows, OwnersOk, PhonesOk;
    var s, w1 := w.state, Next(w, setting, e);
    var p := s.phones[e.phone];
    PhoneIsKnown(s, e.phone);
    PhoneFollows(s, e.phone);
    ResumedPhones(s, e.phone);
    if ResumeStep(s, e.phone).1.Success? {
      var q := p.(phase := Tunnel(s.requests[p.pending].future.channel));
      PhaseLive(s, e.phone, q, s.pending - {p.pending});
      PhaseCounts(s, e.phone, q, setting.limits, s.pending - {p.pending});
      AttachedFollows(w, w1, setting);
    }
  }

  lemma NextKeeps(w: World, setting: Setting, e: Event)
    requires Inv(w, setting) && Possible(w, e)
    ensures Inv(Next(w, setting, e), setting)
  {
    hide Inv, Next, Possible;
    match e
    case Sign(_) => SignKeeps(w, setting, e);
    case Register(_, _, _, _, _) => RegisterKeeps(w, setting, e);
    case Drop(_) => DropKeeps(w, setting, e);
    case Attach(_, _, _) => AttachKeeps(w, setting, e);
    case Deliver(_) => DeliverKeeps(w, setting, e);
    case Lose(_) => SignKeeps(w, setting, e);
    case Open(_, _, _) => OpenKeeps(w, setting, e);
    case Opened(_) => PhoneKeeps(w, setting, e);
    case Resume(_) => ResumeKeeps(w, setting, e);
    case End(_) => PhoneKeeps(w, setting, e);
  }

  lemma {:induction false} RunKeeps(w: World, setting: Setting, events: seq<Event>, end: World)
    requires Inv(w, setting) && Run(w, setting, events, end)
    ensures Inv(end, setting)
    decreases events
  {
    hide Inv, Next, Possible;
    if events != [] {
      NextKeeps(w, setting, events[0]);
      RunKeeps(Next(w, setting, events[0]), setting, events[1..], end);
    }
  }

  lemma StartOk(setting: Setting)
    ensures Inv(START, setting)
  {}

  // ----- What runs guarantee ------------------------------------------------------------------------------

  /** A pending ID gives at most one tunnel. */
  lemma PendingIsUsedOnce(setting: Setting, events: seq<Event>, w: World, i: nat, j: nat)
    requires Run(START, setting, events, w) && i < j < |w.log.tunneled|
    ensures w.log.tunneled[i].0 != w.log.tunneled[j].0
  {
    hide Run, OwnersOk, PhonesOk, AllLiveOk, CountsOk, AttachedOk;
    StartOk(setting);
    RunKeeps(START, setting, events, w);
  }

  /** A tunnel starts only while the host that was asked is the registered one, over the channel
      of an accepted attach, whose proof is the host key's signature over this relay, the nonce of
      that connection and this pending ID. */
  lemma TunnelIsProven(w: World, setting: Setting, phone: nat)
    requires Inv(w, setting) && Possible(w, Resume(phone)) && ResumeStep(w.state, phone).1.Success?
    ensures var p := w.state.phones[phone];
            && IsCurrent(w.state, p.owner)
            && exists a ::
                 a in w.log.attached && a.id == p.pending && a.channel == ResumeStep(w.state, phone).1.value &&
                 a.key == w.state.known[p.owner].key && SignedAttach(w.log.proofs, setting, a)
  {
    hide OwnersOk, AllLiveOk, CountsOk, TunneledOk;
    var s := w.state;
    var p := s.phones[phone];
    var channel := s.requests[p.pending].future.channel;
    assert AttachedTo(w.log.attached, p.pending, channel);
    var i :| 0 <= i < |w.log.attached| && w.log.attached[i].id == p.pending && w.log.attached[i].channel == channel;
    assert w.log.attached[i] in w.log.attached;
  }

  function PhonesOf(s: State, owner: nat): set<nat> {
    set p | p in s.phones && s.phones[p].owner == owner
  }

  /** The requests of the phones that have no tunnel yet. */
  function Outstanding(s: State): set<string> {
    set p | p in s.phones && !s.phones[p].phase.Tunnel? :: s.phones[p].pending
  }

  lemma TasksAreLive(s: State, owner: nat)
    requires PhonesOk(s) && owner in s.known
    ensures s.known[owner].tasks == PhonesOf(s, owner)
  {}

  lemma PendingIsOutstanding(s: State)
    requires PhonesOk(s)
    ensures s.pending == Outstanding(s)
  {
    forall id | id in s.pending ensures id in Outstanding(s) {
      var p := s.requests[id].phone;
      assert !s.phones[p].phase.Tunnel?;
    }
  }

  /** Stream, tunnel and pending counts are those of the live phone tasks, and within limits. */
  lemma CountsAreExact(setting: Setting, events: seq<Event>, w: World, owner: nat)
    requires Run(START, setting, events, w) && owner in w.state.known
    ensures var s, l := w.state, setting.limits;
            && s.tunnels == |s.phones| <= l.maxTunnels
            && s.pending == Outstanding(s) && |s.pending| <= l.maxPending && |s.owners| <= l.maxHosts
            && s.known[owner].streams == |PhonesOf(s, owner)| <= l.streamsPerHost
  {
    hide Run, OwnersOk, PhonesOk, AllLiveOk, AttachedOk, TunneledOk, PhonesOf, Outstanding;
    StartOk(setting);
    RunKeeps(START, setting, events, w);
    TasksAreLive(w.state, owner);
    PendingIsOutstanding(w.state);
  }

  /** A registered host stays registered until its own connection is closed or the same host
      registers again: closing the one it replaced does not touch it. */
  lemma SuccessorStays(w: World, setting: Setting, e: Event, owner: nat)
    requires Inv(w, setting) && Possible(w, e) && IsCurrent(w.state, owner)
    requires e != Drop(owner) && (e.Register? ==> e.name != w.state.known[owner].namespace)
    ensures IsCurrent(Next(w, setting, e).state, owner)
  {
    hide PhonesOk, AllLiveOk, CountsOk, AttachedOk, TunneledOk, CancelPhones, AttachOf, DropStep, RegisterStep;
    if e.Drop? {
      DropFrame(w.state, e.owner);
    } else if e.Register? {
      var s := w.state;
      OwnersAreKnown(s);
      RegisterFrame(s, setting.limits, e);
    } else if e.Attach? {
      AttachFrame(w, setting, e.id, e.nonce);
    }
  }

  lemma DropFrame(s: State, owner: nat)
    requires owner in s.known
    ensures var s1 := DropStep(s, owner);
            && s1.known == s.known
            && s1.owners == if IsCurrent(s, owner) then s.owners - {s.known[owner].namespace} else s.owners
  {
    hide CancelPhones;
    CancelFrame(s, s.known[owner].tasks);
    CancelFrame(s.(owners := s.owners - {s.known[owner].namespace}), s.known[owner].tasks);
  }

  lemma RegisterFrame(s: State, l: Limits, e: Event)
    requires OwnersOk(s) && e.Register?
    ensures var s1 := RegisterStep(s, l, e.name, e.key, e.channel, e.generation, e.verified).0;
            && (forall o :: o in s.known ==> o in s1.known && s1.known[o] == s.known[o])
            && (forall n :: n in s.owners && n != e.name ==> n in s1.owners && s1.owners[n] == s.owners[n])
  {
    hide DropStep;
    var s1 := s.(owners := s.owners[e.name := s.nextOwner], nextOwner := s.nextOwner + 1,
                 known := s.known[s.nextOwner := Owner(e.name, e.key, e.channel, e.generation, 0, {})]);
    if e.name in s.owners {
      DropFrame(s1, s.owners[e.name]);
    }
  }

  lemma AttachFrame(w: World, setting: Setting, id: string, nonce: Bytes)
    ensures var s1 := AttachOf(w, setting, id, nonce).0; s1.owners == w.state.owners && s1.known == w.state.known
  {
    hide AttachMessage, VerifierOf;
  }
}
