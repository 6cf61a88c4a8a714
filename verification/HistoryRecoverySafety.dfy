/** history_store.py: what recovery guarantees for any set of leftover snapshots. */
module HistoryRecoverySafety {
  import opened Wrappers
  import opened HistorySnapshots
  import opened HistoryRecovery

  predicate NoDuplicates<T(==)>(s: seq<T>) {
    forall i, j :: 0 <= i < j < |s| ==> s[i] != s[j]
  }

  /** The directory listing names each snapshot once. */
  ghost predicate Enumerates(listing: seq<string>, temps: map<string, File>) {
    NoDuplicates(listing) && forall n :: n in listing <==> n in temps
  }

  predicate IsObject(folder: Folder, name: string) {
    name in folder.temps && folder.temps[name].contents.Valid?
  }

  predicate CanRecover(rules: Rules, folder: Folder, name: string) {
    IsObject(folder, name) && IsRecoverable(rules, folder.temps[name].contents.payload)
  }

  predicate FromFuture(folder: Folder, name: string) {
    IsObject(folder, name) && IsFuture(folder.temps[name].contents.payload)
  }

  /** `name` is strictly newer than every other snapshot that can be recovered. */
  ghost predicate NewestToRecover(rules: Rules, folder: Folder, name: string) {
    && CanRecover(rules, folder, name) && folder.temps[name].mtime.Some?
    && forall m :: m != name && CanRecover(rules, folder, m) ==>
         folder.temps[m].mtime.Some? && folder.temps[m].mtime.value < folder.temps[name].mtime.value
  }

  ghost predicate NewestOfFuture(folder: Folder, name: string) {
    && FromFuture(folder, name) && folder.temps[name].mtime.Some?
    && forall m :: m != name && FromFuture(folder, m) ==>
         folder.temps[m].mtime.Some? && folder.temps[m].mtime.value < folder.temps[name].mtime.value
  }

  predicate NewerThanPrimary(folder: Folder, name: string)
    requires name in folder.temps
  {
    folder.primary.Some? ==>
      && folder.primary.value.mtime.Some? && folder.temps[name].mtime.Some?
      && folder.temps[name].mtime.value > folder.primary.value.mtime.value
  }

  predicate PrimaryIsReadable(folder: Folder) {
    folder.primary.Some? ==> !folder.primary.value.contents.Unreadable?
  }

  /** The committed primary has a version this program must not write over. */
  predicate LaterPrimary(folder: Folder) {
    && folder.primary.Some? && folder.primary.value.contents.Valid?
    && !IsSupported(folder.primary.value.contents.payload)
  }

  /** The only snapshot that may take the place of the primary. */
  ghost predicate MayBePromoted(rules: Rules, folder: Folder, name: string) {
    && IsObject(folder, name) && NewerThanPrimary(folder, name)
    && !LaterPrimary(folder)
    && (|| NewestToRecover(rules, folder, name)
        || (folder.primary.None? && (forall m :: !CanRecover(rules, folder, m)) && NewestOfFuture(folder, name)))
  }

  // ----- Reading ------------------------------------------------------------------------------------------

  function AsSnapshot(temps: map<string, File>, name: string): Snapshot
    requires name in temps && temps[name].contents.Valid?
  {
    Snapshot(name, temps[name].mtime, temps[name].contents.payload)
  }

  lemma {:induction false} ReadOnlyDropsJunk(temps: map<string, File>, listing: seq<string>, faults: Faults,
                                             found: seq<Snapshot>)
    ensures var t := ReadTemps(temps, listing, faults, found).0;
            forall n :: n in t ==> n in temps && t[n] == temps[n]
    ensures var t := ReadTemps(temps, listing, faults, found).0;
            forall n :: n in temps && n !in t ==> temps[n].contents.Malformed? || temps[n].contents.NonMapping?
    decreases listing
  {
    if listing != [] {
      var name := listing[0];
      if name !in temps {
        ReadOnlyDropsJunk(temps, listing[1..], faults, found);
      } else if temps[name].contents.Valid? {
        ReadOnlyDropsJunk(temps, listing[1..], faults, found + [AsSnapshot(temps, name)]);
      } else if !temps[name].contents.Unreadable? {
        ReadOnlyDropsJunk(Without(temps, name, faults), listing[1..], faults, found);
      }
    }
  }

  /** The snapshots read so far and those still to read. */
  ghost predicate Reading(temps: map<string, File>, listing: seq<string>, found: seq<Snapshot>) {
    && NoDuplicates(listing) && NoDuplicates(found)
    && (forall s :: s in found ==>
          s.name in temps && temps[s.name].contents.Valid? && s == AsSnapshot(temps, s.name) && s.name !in listing)
    && (forall n :: n in temps && temps[n].contents.Valid? ==> n in listing || AsSnapshot(temps, n) in found)
  }

  lemma ReadingStep(temps: map<string, File>, listing: seq<string>, found: seq<Snapshot>, faults: Faults)
    requires Reading(temps, listing, found) && listing != []
    ensures var name := listing[0];
            if name !in temps then Reading(temps, listing[1..], found)
            else if temps[name].contents.Valid? then Reading(temps, listing[1..], found + [AsSnapshot(temps, name)])
            else Reading(Without(temps, name, faults), listing[1..], found)
  {
    var rest := listing[1..];
    assert forall n :: n in listing ==> n == listing[0] || n in rest;
    assert listing[0] !in rest;
  }

  /** What was read is exactly the JSON objects, each once. */
  lemma {:induction false} ReadIsExact(temps: map<string, File>, listing: seq<string>, faults: Faults,
                                       found: seq<Snapshot>)
    requires Reading(temps, listing, found)
    ensures var (t, r) := ReadTemps(temps, listing, faults, found);
            r.Success? ==> Reading(t, [], r.value) && forall n :: n in t && n in listing ==> !t[n].contents.Unreadable?
    decreases listing
  {
    hide Reading;
    if listing != [] {
      var name := listing[0];
      ReadingStep(temps, listing, found, faults);
      assert forall n :: n in listing ==> n == name || n in listing[1..];
      if name !in temps {
        ReadIsExact(temps, listing[1..], faults, found);
        ReadOnlyDropsJunk(temps, listing[1..], faults, found);
      } else if temps[name].contents.Valid? {
        ReadIsExact(temps, listing[1..], faults, found + [AsSnapshot(temps, name)]);
        ReadOnlyDropsJunk(temps, listing[1..], faults, found + [AsSnapshot(temps, name)]);
      } else if !temps[name].contents.Unreadable? {
        ReadIsExact(Without(temps, name, faults), listing[1..], faults, found);
        ReadOnlyDropsJunk(Without(temps, name, faults), listing[1..], faults, found);
      }
    } else {
      assert listing == [];
    }
  }

  lemma {:induction false} ReadSucceeds(temps: map<string, File>, listing: seq<string>, faults: Faults,
                                        found: seq<Snapshot>)
    requires forall n :: n in temps ==> !temps[n].contents.Unreadable?
    ensures ReadTemps(temps, listing, faults, found).1.Success?
    decreases listing
  {
    if listing != [] {
      var name := listing[0];
      if name !in temps {
        ReadSucceeds(temps, listing[1..], faults, found);
      } else if temps[name].contents.Valid? {
        ReadSucceeds(temps, listing[1..], faults, found + [AsSnapshot(temps, name)]);
      } else {
        ReadSucceeds(Without(temps, name, faults), listing[1..], faults, found);
      }
    }
  }

  // ----- Removing -------------------------------------------------------------------------------------------

  lemma {:induction false} RemovingOnlyRemoves(temps: map<string, File>, names: seq<string>, faults: Faults)
    ensures var t := WithoutAll(temps, names, faults);
            forall n :: n in t ==> n in temps && t[n] == temps[n]
    ensures var t := WithoutAll(temps, names, faults);
            forall n :: n in temps && n !in names ==> n in t
    decreases names
  {
    if names != [] {
      RemovingOnlyRemoves(Without(temps, names[0], faults), names[1..], faults);
    }
  }

  // ----- The newest snapshot ----------------------------------------------------------------------------------

  lemma LoneNewest(candidates: seq<Snapshot>)
    requires candidates != [] && AllOrdered(candidates) && |NewestOnes(candidates)| == 1
    ensures var e := NewestOnes(candidates)[0];
            e in candidates && e.mtime == Some(Newest(candidates)) &&
            forall s :: s in candidates && s != e ==> s.mtime.value < e.mtime.value
  {
    hide Newest, NewestOnes;
    var ones := NewestOnes(candidates);
    assert ones[0] in ones;
    forall s | s in candidates && s != ones[0] ensures s.mtime.value < ones[0].mtime.value {
      assert forall x :: x in ones ==> x == ones[0];
      assert s !in ones;
    }
  }

  lemma {:induction false} FilterNoDuplicates(found: seq<Snapshot>, keep: Snapshot -> bool)
    requires NoDuplicates(found)
    ensures NoDuplicates(Filter(found, keep))
  {
    if found != [] {
      FilterNoDuplicates(found[1..], keep);
      var rest := Filter(found[1..], keep);
      assert forall s :: s in rest ==> s in found[1..];
      assert found[0] !in found[1..];
    }
  }

  lemma FirstTwoDiffer(found: seq<Snapshot>)
    requires NoDuplicates(found) && |found| > 1
    ensures found[0] != found[1]
  {}

  lemma NewestStandsAlone(candidates: seq<Snapshot>, e: Snapshot)
    requires AllOrdered(candidates) && NoDuplicates(candidates) && e in candidates
    requires forall s :: s in candidates && s != e ==> s.mtime.value < e.mtime.value
    ensures candidates != [] && NewestOnes(candidates) == [e] && Newest(candidates) == e.mtime.value
  {
    hide Newest;
    var ones := NewestOnes(candidates);
    FilterNoDuplicates(candidates, (s: Snapshot) => s.mtime == Some(Newest(candidates)));
    var top :| top in candidates && top.mtime.value == Newest(candidates);
    assert top == e;
    assert forall s :: s in ones ==> s == e;
    assert forall i :: 0 <= i < |ones| ==> ones[i] in ones;
    if |ones| > 1 {
      FirstTwoDiffer(ones);
    }
  }

  // ----- The decision -------------------------------------------------------------------------------------------

  lemma CandidatesMatch(rules: Rules, folder: Folder, found: seq<Snapshot>)
    requires Reading(folder.temps, [], found)
    ensures forall s :: s in found ==> IsObject(folder, s.name) && s == AsSnapshot(folder.temps, s.name)
    ensures forall n :: IsObject(folder, n) ==> AsSnapshot(folder.temps, n) in found
    ensures forall n :: CanRecover(rules, folder, n) ==> AsSnapshot(folder.temps, n) in Recoverable(rules, found)
    ensures forall n :: FromFuture(folder, n) ==> AsSnapshot(folder.temps, n) in Future(found)
    ensures forall s :: s in Recoverable(rules, found) ==> CanRecover(rules, folder, s.name)
    ensures forall s :: s in Future(found) ==> FromFuture(folder, s.name)
  {
    hide IsRecoverable, IsFuture, Filter;
  }

  lemma PromotedIsNewest(rules: Rules, folder: Folder, found: seq<Snapshot>)
    requires Reading(folder.temps, [], found) && AllOrdered(found)
    ensures var good := Recoverable(rules, found);
            good != [] && |NewestOnes(good)| == 1 ==> NewestToRecover(rules, folder, NewestOnes(good)[0].name)
    ensures var future := Future(found);
            future != [] && |NewestOnes(future)| == 1 ==> NewestOfFuture(folder, NewestOnes(future)[0].name)
  {
    hide IsRecoverable, IsFuture, Filter, Newest, NewestOnes, Reading;
    CandidatesMatch(rules, folder, found);
    var good, future := Recoverable(rules, found), Future(found);
    if good != [] && |NewestOnes(good)| == 1 {
      LoneNewest(good);
    }
    if future != [] && |NewestOnes(future)| == 1 {
      LoneNewest(future);
    }
  }

  lemma DecisionIsSafe(rules: Rules, folder: Folder, found: seq<Snapshot>)
    requires Reading(folder.temps, [], found) && AllOrdered(found)
    requires PrimaryIsReadable(folder)
    ensures var d := Decide(rules, folder.primary, found);
            && (d.Promote? ==>
                  && d.snapshot in found && MayBePromoted(rules, folder, d.snapshot.name))
            && (d.Keep? ==> if folder.primary.Some? then folder.primary.value.contents.Valid? else found == [])
  {
    hide IsRecoverable, IsFuture, IsSupported, ContainerIsValid, Filter, Newest, NewestOnes, Reading, Names;
    CandidatesMatch(rules, folder, found);
    PromotedIsNewest(rules, folder, found);
    var d := Decide(rules, folder.primary, found);
    if d.Promote? {
      var good := Recoverable(rules, found);
      if good != [] {
        LoneNewest(good);
        assert d.snapshot.mtime == Some(Newest(good));
      } else {
        LoneNewest(Future(found));
      }
    }
  }

  // ----- What recovery guarantees -----------------------------------------------------------------------------

  lemma AfterReading(folder: Folder, listing: seq<string>, faults: Faults)
    requires Enumerates(listing, folder.temps)
    ensures var (t, read) := ReadTemps(folder.temps, listing, faults, []);
            && (read.Success? ==> Reading(t, [], read.value))
            && (forall n :: n in t ==> n in folder.temps && t[n] == folder.temps[n])
            && (forall n :: IsObject(folder, n) ==> n in t)
  {
    assert Reading(folder.temps, listing, []);
    ReadIsExact(folder.temps, listing, faults, []);
    ReadOnlyDropsJunk(folder.temps, listing, faults, []);
  }

  lemma SameChoice(rules: Rules, folder: Folder, temps: map<string, File>, name: string)
    requires forall n :: n in temps ==> n in folder.temps && temps[n] == folder.temps[n]
    requires forall n :: IsObject(folder, n) ==> n in temps
    ensures MayBePromoted(rules, folder.(temps := temps), name) ==> MayBePromoted(rules, folder, name)
    ensures MayBePromoted(rules, folder, name) ==> MayBePromoted(rules, folder.(temps := temps), name)
  {
    hide IsRecoverable, IsFuture, IsSupported;
    var mid := folder.(temps := temps);
    assert forall n :: IsObject(mid, n) <==> IsObject(folder, n);
    assert forall n :: CanRecover(rules, mid, n) <==> CanRecover(rules, folder, n);
    assert forall n :: FromFuture(mid, n) <==> FromFuture(folder, n);
  }

  /** The snapshot `name` was moved over the primary. */
  ghost predicate Promoted(folder: Folder, after: Folder, name: string) {
    name in folder.temps && name !in after.temps && after.primary == Some(folder.temps[name])
  }

  /** Recovery over any folder. When it raises, the primary and every JSON object among the
      snapshots are still there. When it returns, the result is what is left as the primary:
      the old primary, or the one snapshot that is newer than it and than all the others. */
  lemma RecoveryIsSafe(rules: Rules, folder: Folder, listing: seq<string>, faults: Faults)
    requires Enumerates(listing, folder.temps)
    ensures var (after, outcome) := Recover(rules, folder, listing, faults);
      && (outcome.Failure? ==>
            && after.primary == folder.primary
            && forall n :: IsObject(folder, n) ==> n in after.temps && after.temps[n] == folder.temps[n])
      && (outcome.Success? ==>
            && outcome.value == PayloadOf(after.primary)
            && (outcome.value.None? ==> after.primary.None? && folder.primary.None? && forall n :: !IsObject(folder, n))
            && (after.primary == folder.primary ||
                exists name :: Promoted(folder, after, name) && MayBePromoted(rules, folder, name)))
  {
    hide Decide, ReadTemps, WithoutAll, Others, MayBePromoted, Reading;
    AfterReading(folder, listing, faults);
    var (t, read) := ReadTemps(folder.temps, listing, faults, []);
    var (after, outcome) := Recover(rules, folder, listing, faults);
    if read.Success? && AllOrdered(read.value) && PrimaryIsReadable(folder) {
      var mid := folder.(temps := t);
      var d := Decide(rules, folder.primary, read.value);
      DecisionIsSafe(rules, mid, read.value);
      CandidatesMatch(rules, mid, read.value);
      if d.Promote? && !faults.notReplaced {
        var name := d.snapshot.name;
        SameChoice(rules, folder, t, name);
        RemovingOnlyRemoves(t - {name}, Others(d.obsolete, name), faults);
        assert after.primary == Some(folder.temps[name]) by {
          ReadBack(t, d.snapshot);
        }
        assert Promoted(folder, after, name);
      } else if d.Keep? {
        RemovingOnlyRemoves(t, d.obsolete, faults);
      }
    }
  }

  lemma ReadBack(temps: map<string, File>, s: Snapshot)
    requires s.name in temps && temps[s.name].contents.Valid? && s == AsSnapshot(temps, s.name)
    ensures File(Valid(s.payload), s.mtime) == temps[s.name]
  {}

  /** A primary of a later or unknown version is never written over and costs no snapshot;
      a snapshot of a later or unknown version is never removed. */
  lemma LaterVersionsAreKept(rules: Rules, folder: Folder, listing: seq<string>, faults: Faults, name: string)
    requires Enumerates(listing, folder.temps) && IsObject(folder, name)
    ensures var after := Recover(rules, folder, listing, faults).0;
      && (LaterPrimary(folder) ==> after.primary == folder.primary && name in after.temps)
      && (!IsSupported(folder.temps[name].contents.payload) ==>
            name in after.temps || (folder.primary.None? && Promoted(folder, after, name)))
  {
    hide ReadTemps, WithoutAll, Others, Filter, NewestOnes, Newest, IsRecoverable, IsFuture, ContainerIsValid, Reading,
      AllOrdered, Names, IsSupported;
    AfterReading(folder, listing, faults);
    var (t, read) := ReadTemps(folder.temps, listing, faults, []);
    if read.Success? && AllOrdered(read.value) && PrimaryIsReadable(folder) {
      ObsoleteIsSupported(rules, folder.(temps := t), read.value, name);
      var d := Decide(rules, folder.primary, read.value);
      if d.Keep? {
        RemovingOnlyRemoves(t, d.obsolete, faults);
      } else if d.Promote? {
        RemovingOnlyRemoves(t - {d.snapshot.name}, Others(d.obsolete, d.snapshot.name), faults);
        if d.snapshot.name == name {
          ReadBack(t, d.snapshot);
        }
      }
    }
  }

  lemma {:induction false} NamesOf(found: seq<Snapshot>)
    ensures forall n :: n in Names(found) ==> exists s :: s in found && s.name == n
  {}

  /** Only snapshots of a supported version are ever listed for removal. */
  lemma ObsoleteIsSupported(rules: Rules, folder: Folder, found: seq<Snapshot>, name: string)
    requires Reading(folder.temps, [], found) && AllOrdered(found) && IsObject(folder, name)
    requires PrimaryIsReadable(folder)
    ensures var d := Decide(rules, folder.primary, found);
      && (d.Promote? ==> d.snapshot in found && IsObject(folder, d.snapshot.name) &&
                         d.snapshot == AsSnapshot(folder.temps, d.snapshot.name))
      && ((d.Keep? || d.Promote?) && name in d.obsolete ==> IsSupported(folder.temps[name].contents.payload))
      && (d.Promote? && folder.primary.Some? ==> d.snapshot in Recoverable(rules, found))
      && (d.Promote? && d.snapshot in Recoverable(rules, found) ==> IsSupported(d.snapshot.payload))
      && (LaterPrimary(folder) ==> d == Keep([]))
  {
    hide Filter, NewestOnes, Newest, IsRecoverable, IsFuture, ContainerIsValid, IsSupported, Names, Reading;
    CandidatesMatch(rules, folder, found);
    var good, rejected := Recoverable(rules, found), Rejected(rules, found);
    SupportedOnes(rules, found);
    NamesOf(rejected);
    NamesOf(rejected + good);
    if good != [] {
      assert NewestOnes(good)[0] in NewestOnes(good);
    }
    if Future(found) != [] {
      assert NewestOnes(Future(found))[0] in NewestOnes(Future(found));
    }
  }

  lemma SupportedOnes(rules: Rules, found: seq<Snapshot>)
    ensures forall s :: s in Recoverable(rules, found) ==> IsSupported(s.payload)
    ensures forall s :: s in Rejected(rules, found) ==> IsSupported(s.payload)
  {
    hide Filter;
  }

  /** The other direction: the one snapshot that may take the place of the primary is what recovery
      returns, unless the file system fails. */
  lemma NewestIsRecovered(rules: Rules, folder: Folder, listing: seq<string>, faults: Faults, name: string)
    requires Enumerates(listing, folder.temps) && !faults.notReplaced
    requires forall n :: n in folder.temps ==> !folder.temps[n].contents.Unreadable?
    requires forall n :: IsObject(folder, n) ==> folder.temps[n].mtime.Some?
    requires PrimaryIsReadable(folder) && MayBePromoted(rules, folder, name)
    ensures var (after, outcome) := Recover(rules, folder, listing, faults);
            outcome == Success(Some(folder.temps[name].contents.payload)) && Promoted(folder, after, name)
  {
    hide ReadTemps, WithoutAll, Others, Decide, IsRecoverable, Reading, NewestToRecover, NewestOfFuture;
    AfterReading(folder, listing, faults);
    ReadSucceeds(folder.temps, listing, faults, []);
    var (t, read) := ReadTemps(folder.temps, listing, faults, []);
    SameChoice(rules, folder, t, name);
    CandidatesMatch(rules, folder.(temps := t), read.value);
    DecidesForNewest(rules, folder.(temps := t), read.value, name);
    var d := Decide(rules, folder.primary, read.value);
    RemovingOnlyRemoves(t - {name}, Others(d.obsolete, name), faults);
    ReadBack(t, AsSnapshot(t, name));
  }

  lemma DecidesForNewest(rules: Rules, folder: Folder, found: seq<Snapshot>, name: string)
    requires Reading(folder.temps, [], found) && AllOrdered(found)
    requires PrimaryIsReadable(folder) && MayBePromoted(rules, folder, name)
    ensures var d := Decide(rules, folder.primary, found); d.Promote? && d.snapshot == AsSnapshot(folder.temps, name)
  {
    hide Filter, NewestOnes, Newest, IsRecoverable, IsFuture, ContainerIsValid, IsSupported, Names, Reading;
    CandidatesMatch(rules, folder, found);
    var good := Recoverable(rules, found);
    if NewestToRecover(rules, folder, name) {
      NewestAmong(folder, found, good, name);
    } else {
      NoneOf(good);
      NewestAmong(folder, found, Future(found), name);
    }
  }

  lemma NoneOf(found: seq<Snapshot>)
    requires forall s :: s !in found
    ensures found == []
  {
    if found != [] {
      FirstIsFound(found);
    }
  }

  /** Of the snapshots that a filter leaves, `name` is the one newest. */
  lemma NewestAmong(folder: Folder, found: seq<Snapshot>, chosen: seq<Snapshot>, name: string)
    requires Reading(folder.temps, [], found) && AllOrdered(found) && IsObject(folder, name)
    requires exists keep: Snapshot -> bool :: chosen == Filter(found, keep)
    requires var e := AsSnapshot(folder.temps, name);
             e in chosen && forall s :: s in chosen && s != e ==> s.mtime.Some? && s.mtime.value < e.mtime.value
    ensures chosen != [] && NewestOnes(chosen) == [AsSnapshot(folder.temps, name)]
    ensures Newest(chosen) == folder.temps[name].mtime.value
  {
    hide Newest, NewestOnes;
    var keep :| chosen == Filter(found, keep);
    FilterNoDuplicates(found, keep);
    NewestStandsAlone(chosen, AsSnapshot(folder.temps, name));
  }

  // ----- Running recovery again -------------------------------------------------------------------------------

  /** Nothing is left to recover. */
  ghost predicate Settled(rules: Rules, folder: Folder) {
    && (forall n :: n in folder.temps ==> !folder.temps[n].contents.Unreadable?)
    && (forall n :: IsObject(folder, n) ==> folder.temps[n].mtime.Some?)
    && if folder.primary.None? then forall n :: !IsObject(folder, n)
       else
         && folder.primary.value.contents.Valid?
         && (|| LaterPrimary(folder)
             || (forall n :: CanRecover(rules, folder, n) ==>
                   !NewerThanPrimary(folder, n) && folder.primary.value.mtime.Some?))
  }

  lemma FirstIsFound(found: seq<Snapshot>)
    requires found != []
    ensures found[0] in found
  {}

  lemma SettledDecision(rules: Rules, folder: Folder, found: seq<Snapshot>)
    requires Reading(folder.temps, [], found) && AllOrdered(found) && Settled(rules, folder)
    ensures var d := Decide(rules, folder.primary, found); d.Keep? && (folder.primary.None? ==> d == Keep([]))
  {
    hide Filter, Newest, IsRecoverable, IsFuture, ContainerIsValid, IsSupported, Names, Reading;
    CandidatesMatch(rules, folder, found);
    if folder.primary.None? {
      assert forall s :: s in found ==> IsObject(folder, s.name);
      if found != [] {
        FirstIsFound(found);
      }
    } else {
      var good := Recoverable(rules, found);
      assert AllOrdered(good);
      if good != [] {
        var newest := Newest(good);
        var s :| s in good && s.mtime.value == newest;
        assert CanRecover(rules, folder, s.name);
      }
    }
  }

  lemma SettledStays(rules: Rules, folder: Folder, listing: seq<string>, faults: Faults)
    requires Enumerates(listing, folder.temps) && Settled(rules, folder)
    ensures var (after, outcome) := Recover(rules, folder, listing, faults);
            after.primary == folder.primary && outcome == Success(PayloadOf(folder.primary))
  {
    hide ReadTemps, WithoutAll, Decide, IsRecoverable, IsSupported, Reading;
    AfterReading(folder, listing, faults);
    ReadSucceeds(folder.temps, listing, faults, []);
    var (t, read) := ReadTemps(folder.temps, listing, faults, []);
    var mid := folder.(temps := t);
    CandidatesMatch(rules, mid, read.value);
    assert forall n :: IsObject(mid, n) <==> IsObject(folder, n);
    assert forall n :: CanRecover(rules, mid, n) <==> CanRecover(rules, folder, n);
    SettledDecision(rules, mid, read.value);
  }

  lemma KeepSettles(rules: Rules, folder: Folder, found: seq<Snapshot>, temps: map<string, File>)
    requires Reading(folder.temps, [], found) && AllOrdered(found)
    requires PrimaryIsReadable(folder)
    requires forall n :: n in folder.temps ==> !folder.temps[n].contents.Unreadable?
    requires Decide(rules, folder.primary, found).Keep?
    requires forall n :: n in temps ==> n in folder.temps && temps[n] == folder.temps[n]
    ensures Settled(rules, folder.(temps := temps))
  {
    hide Filter, Newest, NewestOnes, IsRecoverable, IsFuture, ContainerIsValid, Names, Reading, IsSupported;
    CandidatesMatch(rules, folder, found);
    var good := Recoverable(rules, found);
    assert AllOrdered(good);
    var after := folder.(temps := temps);
    assert forall n :: IsObject(after, n) ==> IsObject(folder, n);
    forall n | CanRecover(rules, after, n) && folder.primary.Some? && !LaterPrimary(folder)
      ensures !NewerThanPrimary(after, n) && folder.primary.value.mtime.Some?
    {
      assert AsSnapshot(folder.temps, n) in good;
    }
  }

  lemma PromoteSettles(rules: Rules, folder: Folder, found: seq<Snapshot>, temps: map<string, File>)
    requires Reading(folder.temps, [], found) && AllOrdered(found)
    requires PrimaryIsReadable(folder)
    requires forall n :: n in folder.temps ==> !folder.temps[n].contents.Unreadable?
    requires Decide(rules, folder.primary, found).Promote?
    requires var s := Decide(rules, folder.primary, found).snapshot;
             forall n :: n in temps ==> n != s.name && n in folder.temps && temps[n] == folder.temps[n]
    ensures var s := Decide(rules, folder.primary, found).snapshot;
            Settled(rules, Folder(Some(File(Valid(s.payload), s.mtime)), temps))
  {
    hide Filter, Newest, NewestOnes, IsRecoverable, IsFuture, ContainerIsValid, Names, Reading, IsSupported;
    CandidatesMatch(rules, folder, found);
    var good := Recoverable(rules, found);
    var s := Decide(rules, folder.primary, found).snapshot;
    var after := Folder(Some(File(Valid(s.payload), s.mtime)), temps);
    assert forall n :: IsObject(after, n) ==> IsObject(folder, n);
    if good != [] {
      LoneNewest(good);
      forall n | CanRecover(rules, after, n) ensures !NewerThanPrimary(after, n) {
        assert AsSnapshot(folder.temps, n) in good;
      }
    } else {
      LoneNewest(Future(found));
      FutureOnes(found);
    }
  }

  lemma FutureOnes(found: seq<Snapshot>)
    ensures forall s :: s in Future(found) ==> !IsSupported(s.payload)
  {
    hide Filter;
  }

  lemma DecisionSettles(rules: Rules, folder: Folder, found: seq<Snapshot>, faults: Faults)
    requires Reading(folder.temps, [], found) && AllOrdered(found)
    requires PrimaryIsReadable(folder)
    requires forall n :: n in folder.temps ==> !folder.temps[n].contents.Unreadable?
    ensures var (after, outcome) := Carry(folder, Decide(rules, folder.primary, found), faults);
            outcome.Success? ==> Settled(rules, after)
  {
    hide WithoutAll, Others, Decide, Reading, Settled;
    var d := Decide(rules, folder.primary, found);
    if d.Keep? {
      RemovingOnlyRemoves(folder.temps, d.obsolete, faults);
      KeepSettles(rules, folder, found, WithoutAll(folder.temps, d.obsolete, faults));
    } else if d.Promote? {
      var rest := folder.temps - {d.snapshot.name};
      RemovingOnlyRemoves(rest, Others(d.obsolete, d.snapshot.name), faults);
      PromoteSettles(rules, folder, found, WithoutAll(rest, Others(d.obsolete, d.snapshot.name), faults));
    }
  }

  /** Running recovery again gives the same document, whatever the removals left behind. */
  lemma RecoveryIsIdempotent(rules: Rules, folder: Folder, listing: seq<string>, faults: Faults,
                             again: seq<string>, later: Faults)
    requires Enumerates(listing, folder.temps)
    requires Enumerates(again, Recover(rules, folder, listing, faults).0.temps)
    requires Recover(rules, folder, listing, faults).1.Success?
    ensures var (after, outcome) := Recover(rules, folder, listing, faults);
            var (after2, outcome2) := Recover(rules, after, again, later);
            outcome2 == outcome && after2.primary == after.primary
  {
    hide Decide, ReadTemps, Carry, Settled, Reading, Recover;
    var (after, outcome) := Recover(rules, folder, listing, faults);
    RecoverySettles(rules, folder, listing, faults);
    SettledStays(rules, after, again, later);
    RecoveryIsSafe(rules, folder, listing, faults);
  }

  lemma RecoverySettles(rules: Rules, folder: Folder, listing: seq<string>, faults: Faults)
    requires Enumerates(listing, folder.temps)
    ensures var (after, outcome) := Recover(rules, folder, listing, faults); outcome.Success? ==> Settled(rules, after)
  {
    hide Decide, ReadTemps, Carry, Settled, Reading;
    AfterReading(folder, listing, faults);
    var (t, read) := ReadTemps(folder.temps, listing, faults, []);
    if read.Success? && AllOrdered(read.value) && PrimaryIsReadable(folder) {
      AllReadable(folder, listing, faults);
      DecisionSettles(rules, folder.(temps := t), read.value, faults);
    }
  }

  lemma AllReadable(folder: Folder, listing: seq<string>, faults: Faults)
    requires Enumerates(listing, folder.temps)
    ensures var (t, read) := ReadTemps(folder.temps, listing, faults, []);
            read.Success? ==> forall n :: n in t ==> !t[n].contents.Unreadable?
  {
    assert Reading(folder.temps, listing, []);
    ReadIsExact(folder.temps, listing, faults, []);
    ReadOnlyDropsJunk(folder.temps, listing, faults, []);
  }

  // ----- What recovery removes --------------------------------------------------------------------------------

  /** The schema marker says version `n`: the current marker, else the old one, else it is absent. */
  predicate HasVersion(payload: Payload, n: int) {
    if "schema_version" in payload then payload["schema_version"] == Int(n)
    else if "version" in payload then payload["version"] == Int(n)
    else n == 0
  }

  predicate IsList(payload: Payload, key: string) {
    key in payload && payload[key].List?
  }

  /** A file with one list of records, as its version writes it. */
  predicate SoundFile(payload: Payload) {
    || (HasVersion(payload, 1) && IsList(payload, "records"))
    || (HasVersion(payload, 0) &&
        (|| (IsList(payload, "records") && "entries" !in payload && "history" !in payload)
         || (IsList(payload, "entries") && "records" !in payload && "history" !in payload)
         || (IsList(payload, "history") && "records" !in payload && "entries" !in payload)))
  }

  lemma PresentAre(payload: Payload)
    ensures PresentKeys(payload, LEGACY_KEYS) == LegacyKeys(payload)
  {
    assert LEGACY_KEYS[1..] == ["entries", "history"] && LEGACY_KEYS[1..][1..] == ["history"];
    assert PresentKeys(payload, ["history"]) == if "history" in payload then ["history"] else [];
    assert PresentKeys(payload, ["entries", "history"]) ==
      (if "entries" in payload then ["entries"] else []) + PresentKeys(payload, ["history"]);
  }

  lemma ContainersAre(payload: Payload)
    ensures LegacyContainersAreLists(payload) <==>
      && ("records" in payload ==> payload["records"].List?)
      && ("entries" in payload ==> payload["entries"].List?)
      && ("history" in payload ==> payload["history"].List?)
  {
    assert LEGACY_KEYS[0] == "records" && LEGACY_KEYS[1] == "entries" && LEGACY_KEYS[2] == "history";
  }

  lemma ContainerIsSound(payload: Payload)
    ensures ContainerIsValid(payload) <==> SoundFile(payload)
  {
    hide PresentKeys, LegacyContainersAreLists;
    PresentAre(payload);
    ContainersAre(payload);
  }

  function LegacyKeys(payload: Payload): seq<string> {
    (if "records" in payload then ["records"] else []) +
    ((if "entries" in payload then ["entries"] else []) + (if "history" in payload then ["history"] else []))
  }

  /** An entry that migration may read: its provider and its model, where it names them, are texts,
      and what a record knows of it is accepted as a record. */
  predicate Migrates(rules: Rules, item: Json) {
    && item.Object?
    && ("provider" in item.fields ==> item.fields["provider"].Text?)
    && ("model" in item.fields ==> item.fields["model"].Text?)
    && rules.accepts(map k | k in item.fields && k in RECORD_KEYS :: item.fields[k])
  }

  predicate AllMigrate(rules: Rules, payload: Payload, key: string) {
    IsList(payload, key) ==> forall item :: item in payload[key].items ==> Migrates(rules, item)
  }

  /** A legacy file can be recovered exactly if it has one list of records and each of them migrates. */
  lemma LegacyFileIsExact(rules: Rules, payload: Payload)
    requires HasVersion(payload, 0)
    ensures IsRecoverable(rules, payload) <==>
      && SoundFile(payload) && AllMigrate(rules, payload, "records") && AllMigrate(rules, payload, "entries")
      && AllMigrate(rules, payload, "history")
  {
    hide PresentKeys, AllMigrate, LegacyEntriesAreSafe, LegacySource, Migrated;
    ContainerIsSound(payload);
    if SoundFile(payload) {
      EntriesAre(rules, payload);
    }
  }

  lemma EntriesAre(rules: Rules, payload: Payload)
    requires SoundFile(payload) && HasVersion(payload, 0)
    ensures AllMigrate(rules, payload, "records") && AllMigrate(rules, payload, "entries") &&
            AllMigrate(rules, payload, "history") <==>
            && LegacyEntriesAreSafe(payload)
            && forall item :: item in LegacySource(payload) ==> item.Object? && rules.accepts(Migrated(item.fields))
  {
    assert LEGACY_KEYS[0] == "records" && LEGACY_KEYS[1] == "entries" && LEGACY_KEYS[2] == "history";
    var key := if "records" in payload then "records" else if "entries" in payload then "entries" else "history";
    assert IsList(payload, key) && LegacySource(payload) == payload[key].items;
    assert LegacyEntriesAreSafe(payload) <==> forall item :: item in payload[key].items ==> LegacyEntryIsSafe(item);
    forall item | item in payload[key].items
      ensures Migrates(rules, item) <==>
              LegacyEntryIsSafe(item) && rules.accepts(Migrated(item.fields))
    {
      if item.Object? {
        assert Migrated(item.fields) == map k | k in item.fields && k in RECORD_KEYS :: item.fields[k];
      }
    }
  }

  /** The primary is of one of the two versions and has its one list of records. */
  predicate SoundPrimary(folder: Folder) {
    && folder.primary.Some? && folder.primary.value.contents.Valid?
    && SoundFile(folder.primary.value.contents.payload)
  }

  /** `name` is not newer than the primary. */
  predicate Superseded(folder: Folder, file: File) {
    && folder.primary.Some? && folder.primary.value.mtime.Some? && file.mtime.Some?
    && file.mtime.value <= folder.primary.value.mtime.value
  }

  lemma ObsoleteIsSuperseded(rules: Rules, folder: Folder, found: seq<Snapshot>, name: string)
    requires Reading(folder.temps, [], found) && AllOrdered(found)
    requires IsObject(folder, name) && PrimaryIsReadable(folder)
    ensures var d := Decide(rules, folder.primary, found);
      && (d.Keep? && name in d.obsolete ==>
            SoundPrimary(folder) && (CanRecover(rules, folder, name) ==> Superseded(folder, folder.temps[name])))
      && (d.Promote? && name in d.obsolete ==>
            && SoundFile(d.snapshot.payload) && d.snapshot.mtime.Some?
            && (CanRecover(rules, folder, name) ==> folder.temps[name].mtime.value <= d.snapshot.mtime.value))
  {
    hide IsRecoverable, IsFuture, IsSupported, ContainerIsValid, Filter, NewestOnes, Reading, Names, SoundFile, Newest;
    CandidatesMatch(rules, folder, found);
    var good := Recoverable(rules, found);
    assert AllOrdered(good);
    if folder.primary.Some? && folder.primary.value.contents.Valid? {
      ContainerIsSound(folder.primary.value.contents.payload);
    }
    if good != [] {
      var newest := Newest(good);
      assert CanRecover(rules, folder, name) ==> AsSnapshot(folder.temps, name).mtime.value <= newest;
      var e := NewestOnes(good)[0];
      assert e in NewestOnes(good);
      RecoverableOnes(rules, found, e);
    }
  }

  lemma RecoverableOnes(rules: Rules, found: seq<Snapshot>, e: Snapshot)
    requires e in Recoverable(rules, found)
    ensures SoundFile(e.payload)
  {
    hide IsRecoverable, ContainerIsValid, SoundFile;
    RecoverableIsSound(rules, e.payload);
    ContainerIsSound(e.payload);
  }

  /** A JSON object among the snapshots is gone only if it became the primary, or the primary
      that is now in place is sound; one that could have been recovered is then no newer than
      that primary. Under an unsound primary every JSON object is still there. */
  lemma OnlySupersededIsRemoved(rules: Rules, folder: Folder, listing: seq<string>, faults: Faults, name: string)
    requires Enumerates(listing, folder.temps) && IsObject(folder, name)
    ensures var after := Recover(rules, folder, listing, faults).0;
      name !in after.temps ==>
        || Promoted(folder, after, name)
        || (SoundPrimary(after) && (CanRecover(rules, folder, name) ==> Superseded(after, folder.temps[name])))
  {
    hide Decide, ReadTemps, WithoutAll, Others, Reading, SoundFile, IsRecoverable;
    AfterReading(folder, listing, faults);
    var (t, read) := ReadTemps(folder.temps, listing, faults, []);
    if read.Success? && AllOrdered(read.value) && PrimaryIsReadable(folder) {
      var mid := folder.(temps := t);
      var d := Decide(rules, folder.primary, read.value);
      ObsoleteIsSuperseded(rules, mid, read.value, name);
      DecisionIsSafe(rules, mid, read.value);
      CandidatesMatch(rules, mid, read.value);
      if d.Keep? {
        RemovingOnlyRemoves(t, d.obsolete, faults);
      } else if d.Promote? {
        RemovingOnlyRemoves(t - {d.snapshot.name}, Others(d.obsolete, d.snapshot.name), faults);
        if d.snapshot.name == name {
          ReadBack(t, d.snapshot);
        }
      }
    }
  }

  /** Without a newer rival, a primary that is a JSON object is what recovery returns, and it
      stays as it is. */
  lemma PrimaryIsReturned(rules: Rules, folder: Folder, listing: seq<string>, faults: Faults)
    requires Enumerates(listing, folder.temps) && folder.primary.Some? && folder.primary.value.contents.Valid?
    requires forall n :: n in folder.temps ==> !folder.temps[n].contents.Unreadable?
    requires forall n :: IsObject(folder, n) ==> folder.temps[n].mtime.Some?
    requires LaterPrimary(folder) || forall n :: CanRecover(rules, folder, n) ==> Superseded(folder, folder.temps[n])
    ensures var (after, outcome) := Recover(rules, folder, listing, faults);
            outcome == Success(Some(folder.primary.value.contents.payload)) && after.primary == folder.primary
  {
    hide Recover, IsRecoverable, IsSupported;
    assert Settled(rules, folder);
    SettledStays(rules, folder, listing, faults);
  }

  lemma {:induction false} RemovingRemoves(temps: map<string, File>, names: seq<string>, faults: Faults, name: string)
    requires name in names && name !in faults.kept
    ensures name !in WithoutAll(temps, names, faults)
    decreases names
  {
    if names[0] == name {
      RemovingOnlyRemoves(Without(temps, name, faults), names[1..], faults);
    } else {
      RemovingRemoves(Without(temps, names[0], faults), names[1..], faults, name);
    }
  }

  lemma {:induction false} NameIsListed(found: seq<Snapshot>, s: Snapshot)
    requires s in found
    ensures s.name in Names(found)
  {
    if found[0] != s {
      NameIsListed(found[1..], s);
    }
  }

  lemma SupportedIsListed(rules: Rules, folder: Folder, found: seq<Snapshot>, name: string)
    requires Reading(folder.temps, [], found) && IsObject(folder, name)
    requires IsSupported(folder.temps[name].contents.payload)
    ensures name in Names(Rejected(rules, found) + Recoverable(rules, found))
    ensures Recoverable(rules, found) == [] ==> name in Names(Rejected(rules, found))
  {
    hide Filter, Names, IsRecoverable, IsSupported;
    var s := AsSnapshot(folder.temps, name);
    assert s in found;
    NameIsListed(Rejected(rules, found) + Recoverable(rules, found), s);
    if Recoverable(rules, found) == [] {
      NameIsListed(Rejected(rules, found), s);
    }
  }

  lemma SoundIsSupported(payload: Payload)
    ensures SoundFile(payload) ==> IsSupported(payload)
  {}

  lemma SupportedIsObsolete(rules: Rules, folder: Folder, found: seq<Snapshot>, name: string)
    requires Reading(folder.temps, [], found) && AllOrdered(found)
    requires IsObject(folder, name) && PrimaryIsReadable(folder)
    requires IsSupported(folder.temps[name].contents.payload)
    ensures var d := Decide(rules, folder.primary, found);
      && (d.Keep? && SoundPrimary(folder) ==> name in d.obsolete)
      && (d.Promote? && SoundFile(d.snapshot.payload) ==> name in d.obsolete)
  {
    hide IsRecoverable, IsFuture, IsSupported, ContainerIsValid, Filter, NewestOnes, Reading, Names, SoundFile, Newest;
    SupportedIsListed(rules, folder, found, name);
    if folder.primary.Some? && folder.primary.value.contents.Valid? {
      ContainerIsSound(folder.primary.value.contents.payload);
      SoundIsSupported(folder.primary.value.contents.payload);
    }
    if Future(found) != [] {
      var e := NewestOnes(Future(found))[0];
      assert e in NewestOnes(Future(found));
      FutureOnes(found);
      SoundIsSupported(e.payload);
    }
  }

  /** Once the primary in place is sound, no snapshot of a version this program understands is
      left behind, unless it could not be removed. */
  lemma LeftoversAreRemoved(rules: Rules, folder: Folder, listing: seq<string>, faults: Faults, name: string)
    requires Enumerates(listing, folder.temps) && IsObject(folder, name) && name !in faults.kept
    requires IsSupported(folder.temps[name].contents.payload)
    ensures var (after, outcome) := Recover(rules, folder, listing, faults);
      outcome.Success? && SoundPrimary(after) ==> name !in after.temps
  {
    hide Decide, ReadTemps, WithoutAll, Others, Reading, SoundFile, IsRecoverable, IsSupported;
    AfterReading(folder, listing, faults);
    var (t, read) := ReadTemps(folder.temps, listing, faults, []);
    if read.Success? && AllOrdered(read.value) && PrimaryIsReadable(folder) {
      var mid := folder.(temps := t);
      var d := Decide(rules, folder.primary, read.value);
      SupportedIsObsolete(rules, mid, read.value, name);
      if d.Keep? && name in d.obsolete {
        RemovingRemoves(t, d.obsolete, faults, name);
      } else if d.Promote? {
        var rest := Others(d.obsolete, d.snapshot.name);
        RemovingOnlyRemoves(t - {d.snapshot.name}, rest, faults);
        if name in rest {
          RemovingRemoves(t - {d.snapshot.name}, rest, faults, name);
        }
      }
    }
  }

  // ----- When recovery succeeds -------------------------------------------------------------------------------

  /** Without anything to promote: no file at all, or a JSON object as primary that is of a later
      version or no older than everything that could be recovered. */
  ghost predicate StaysAsItIs(rules: Rules, folder: Folder) {
    match folder.primary
    case None => forall n :: !IsObject(folder, n)
    case Some(file) =>
      && file.contents.Valid?
      && (LaterPrimary(folder) || forall n :: CanRecover(rules, folder, n) ==> Superseded(folder, folder.temps[n]))
  }

  lemma KeepsExactly(rules: Rules, folder: Folder, found: seq<Snapshot>)
    requires Reading(folder.temps, [], found) && AllOrdered(found) && PrimaryIsReadable(folder)
    ensures var d := Decide(rules, folder.primary, found);
            && (d.Keep? ==> StaysAsItIs(rules, folder))
            && (StaysAsItIs(rules, folder) ==> !d.Fail?)
  {
    hide Filter, NewestOnes, Newest, IsRecoverable, IsFuture, ContainerIsValid, IsSupported, Names, Reading;
    CandidatesMatch(rules, folder, found);
    var good := Recoverable(rules, found);
    if good != [] {
      FirstIsFound(good);
      assert CanRecover(rules, folder, good[0].name);
    }
    if found != [] {
      FirstIsFound(found);
      assert IsObject(folder, found[0].name);
    }
  }

  lemma SameRest(rules: Rules, folder: Folder, temps: map<string, File>)
    requires forall n :: n in temps ==> n in folder.temps && temps[n] == folder.temps[n]
    requires forall n :: IsObject(folder, n) ==> n in temps
    ensures StaysAsItIs(rules, folder.(temps := temps)) <==> StaysAsItIs(rules, folder)
  {
    hide IsRecoverable, IsSupported;
    var mid := folder.(temps := temps);
    assert forall n :: IsObject(mid, n) <==> IsObject(folder, n);
    assert forall n :: CanRecover(rules, mid, n) <==> CanRecover(rules, folder, n);
  }

  /** Unless the file system fails, recovery succeeds exactly if something may be promoted or
      everything may stay as it is. */
  lemma SuccessIsExact(rules: Rules, folder: Folder, listing: seq<string>, faults: Faults)
    requires Enumerates(listing, folder.temps) && !faults.notReplaced
    requires forall n :: n in folder.temps ==> !folder.temps[n].contents.Unreadable?
    requires forall n :: IsObject(folder, n) ==> folder.temps[n].mtime.Some?
    requires PrimaryIsReadable(folder)
    ensures Recover(rules, folder, listing, faults).1.Success? <==>
            (exists n :: MayBePromoted(rules, folder, n)) || StaysAsItIs(rules, folder)
  {
    hide ReadTemps, WithoutAll, Others, Decide, Reading, MayBePromoted, StaysAsItIs;
    AfterReading(folder, listing, faults);
    ReadSucceeds(folder.temps, listing, faults, []);
    var (t, read) := ReadTemps(folder.temps, listing, faults, []);
    var mid := folder.(temps := t);
    CandidatesMatch(rules, mid, read.value);
    var d := Decide(rules, folder.primary, read.value);
    SameRest(rules, folder, t);
    KeepsExactly(rules, mid, read.value);
    if n :| MayBePromoted(rules, folder, n) {
      NewestIsRecovered(rules, folder, listing, faults, n);
    } else if d.Promote? {
      DecisionIsSafe(rules, mid, read.value);
      SameChoice(rules, folder, t, d.snapshot.name);
    }
  }
}
