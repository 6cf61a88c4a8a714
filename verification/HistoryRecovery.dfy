/** history_store.py: recovery of an interrupted write from whatever snapshots were left. */
module HistoryRecovery {
  import opened Wrappers
  import opened HistorySnapshots

  datatype Contents = Unreadable | Malformed | NonMapping | Valid(payload: Payload)

  /** `mtime` is None where the file system does not tell it. */
  datatype File = File(contents: Contents, mtime: Option<int>)

  datatype Folder = Folder(primary: Option<File>, temps: map<string, File>)

  datatype Error =
    | PrimaryUnreadable | SnapshotUnreadable | Unordered | NotNewer | NoPrimaryMtime | Tied | NotReplaced
    | Corrupt | StructurallyCorrupt

  /** Which removals fail, and whether the replacement does. */
  datatype Faults = Faults(kept: set<string>, notReplaced: bool)

  datatype Snapshot = Snapshot(name: string, mtime: Option<int>, payload: Payload)

  type Outcome = Result<Option<Payload>, Error>

  // ----- Reading the snapshots ----------------------------------------------------------------------

  function Without(temps: map<string, File>, name: string, faults: Faults): map<string, File> {
    if name in faults.kept then temps else temps - {name}
  }

  function WithoutAll(temps: map<string, File>, names: seq<string>, faults: Faults): map<string, File>
    decreases names
  {
    if names == [] then temps else WithoutAll(Without(temps, names[0], faults), names[1..], faults)
  }

  /** Reads `listing` in order and removes what is not a JSON object. */
  function ReadTemps(temps: map<string, File>, listing: seq<string>, faults: Faults, found: seq<Snapshot>)
    : (map<string, File>, Result<seq<Snapshot>, Error>)
    decreases listing
  {
    if listing == [] then (temps, Success(found))
    else
      var name := listing[0];
      if name !in temps then ReadTemps(temps, listing[1..], faults, found)
      else
        match temps[name].contents
        case Unreadable => (temps, Failure(SnapshotUnreadable))
        case Valid(payload) =>
          ReadTemps(temps, listing[1..], faults, found + [Snapshot(name, temps[name].mtime, payload)])
        case _ => ReadTemps(Without(temps, name, faults), listing[1..], faults, found)
  }

  predicate AllOrdered(found: seq<Snapshot>) {
    forall s :: s in found ==> s.mtime.Some?
  }

  function Filter(found: seq<Snapshot>, keep: Snapshot -> bool): (r: seq<Snapshot>)
    ensures forall s :: s in r <==> s in found && keep(s)
    ensures |r| <= |found|
  {
    if found == [] then []
    else (if keep(found[0]) then [found[0]] else []) + Filter(found[1..], keep)
  }

  function Names(found: seq<Snapshot>): (r: seq<string>)
    ensures |r| == |found| && forall i :: 0 <= i < |r| ==> r[i] == found[i].name
  {
    if found == [] then [] else [found[0].name] + Names(found[1..])
  }

  function Recoverable(rules: Rules, found: seq<Snapshot>): seq<Snapshot> {
    Filter(found, (s: Snapshot) => IsRecoverable(rules, s.payload))
  }

  function Rejected(rules: Rules, found: seq<Snapshot>): seq<Snapshot> {
    Filter(found, (s: Snapshot) => IsSupported(s.payload) && !IsRecoverable(rules, s.payload))
  }

  function Future(found: seq<Snapshot>): seq<Snapshot> {
    Filter(found, (s: Snapshot) => IsFuture(s.payload))
  }

  // ----- The decision --------------------------------------------------------------------------------

  function Newest(found: seq<Snapshot>): (r: int)
    requires found != [] && AllOrdered(found)
    ensures forall s :: s in found ==> s.mtime.value <= r
    ensures exists s :: s in found && s.mtime.value == r
  {
    var m := found[0].mtime.value;
    assert found[0] in found;
    if |found| == 1 then m
    else
      var rest := Newest(found[1..]);
      assert forall s :: s in found ==> s == found[0] || s in found[1..];
      if m > rest then m else rest
  }

  function NewestOnes(found: seq<Snapshot>): (r: seq<Snapshot>)
    requires found != [] && AllOrdered(found)
    ensures r != [] && forall s :: s in r <==> s in found && s.mtime == Some(Newest(found))
  {
    var r := Filter(found, (s: Snapshot) => s.mtime == Some(Newest(found)));
    var s :| s in found && s.mtime.value == Newest(found);
    assert s in r;
    r
  }

  /** What recovery does: fail, leave the primary, or put a snapshot in its place. */
  datatype Decision =
    | Fail(error: Error)
    | Keep(obsolete: seq<string>)
    | Promote(snapshot: Snapshot, obsolete: seq<string>)

  function PromoteNewest(candidates: seq<Snapshot>, obsolete: seq<string>): Decision
    requires candidates != [] && AllOrdered(candidates)
  {
    var newest := NewestOnes(candidates);
    if |newest| > 1 then Fail(Tied) else Promote(newest[0], obsolete)
  }

  function WithoutPrimary(rules: Rules, found: seq<Snapshot>): Decision
    requires AllOrdered(found)
  {
    var good := Recoverable(rules, found);
    if found == [] then Keep([])
    else if good != [] then PromoteNewest(good, Names(Rejected(rules, found) + good))
    else if Future(found) == [] then Fail(StructurallyCorrupt)
    else PromoteNewest(Future(found), [])
  }

  function WithCorruptPrimary(rules: Rules, mtime: Option<int>, found: seq<Snapshot>): Decision
    requires AllOrdered(found)
  {
    var good := Recoverable(rules, found);
    if good == [] then Fail(Corrupt)
    else if mtime.None? then Fail(NoPrimaryMtime)
    else if Newest(good) <= mtime.value then Fail(NotNewer)
    else PromoteNewest(good, Names(Rejected(rules, found) + good))
  }

  function WithPrimary(rules: Rules, payload: Payload, mtime: Option<int>, found: seq<Snapshot>): Decision
    requires AllOrdered(found)
  {
    var good := Recoverable(rules, found);
    if !IsSupported(payload) then Keep([])
    else if good == [] then Keep(if ContainerIsValid(payload) then Names(Rejected(rules, found)) else [])
    else if mtime.None? then Fail(NoPrimaryMtime)
    else if Newest(good) > mtime.value then PromoteNewest(good, Names(Rejected(rules, found) + good))
    else Keep(if ContainerIsValid(payload) then Names(Rejected(rules, found) + good) else [])
  }

  function Decide(rules: Rules, primary: Option<File>, found: seq<Snapshot>): Decision
    requires AllOrdered(found)
  {
    if primary.None? then WithoutPrimary(rules, found)
    else if primary.value.contents.Valid? then
      WithPrimary(rules, primary.value.contents.payload, primary.value.mtime, found)
    else WithCorruptPrimary(rules, primary.value.mtime, found)
  }

  function Others(names: seq<string>, name: string): (r: seq<string>)
    ensures forall n :: n in r <==> n in names && n != name
  {
    if names == [] then []
    else (if names[0] == name then [] else [names[0]]) + Others(names[1..], name)
  }

  function PayloadOf(primary: Option<File>): Option<Payload> {
    if primary.Some? && primary.value.contents.Valid? then Some(primary.value.contents.payload) else None
  }

  function Carry(folder: Folder, decision: Decision, faults: Faults): (Folder, Outcome) {
    match decision
    case Fail(error) => (folder, Failure(error))
    case Keep(obsolete) =>
      (folder.(temps := WithoutAll(folder.temps, obsolete, faults)), Success(PayloadOf(folder.primary)))
    case Promote(s, obsolete) =>
      if faults.notReplaced then (folder, Failure(NotReplaced))
      else
        (Folder(Some(File(Valid(s.payload), s.mtime)),
                WithoutAll(folder.temps - {s.name}, Others(obsolete, s.name), faults)),
         Success(Some(s.payload)))
  }

  /** Recovery in a folder whose snapshots are enumerated as `listing`. */
  function Recover(rules: Rules, folder: Folder, listing: seq<string>, faults: Faults): (Folder, Outcome) {
    if folder.primary.Some? && folder.primary.value.contents.Unreadable? then (folder, Failure(PrimaryUnreadable))
    else
      var (temps, read) := ReadTemps(folder.temps, listing, faults, []);
      var folder1 := folder.(temps := temps);
      if read.Failure? then (folder1, Failure(read.error))
      else if !AllOrdered(read.value) then (folder1, Failure(Unordered))
      else Carry(folder1, Decide(rules, folder.primary, read.value), faults)
  }

  // ----- The store itself --------------------------------------------------------------------------------

  function Remaining(names: seq<string>, except: Option<string>): seq<string> {
    if except.Some? then Others(names, except.value) else names
  }

  lemma RemoveOne(temps: map<string, File>, names: seq<string>, except: Option<string>, faults: Faults)
    requires names != []
    ensures WithoutAll(temps, Remaining(names, except), faults) ==
      if except == Some(names[0]) then WithoutAll(temps, Remaining(names[1..], except), faults)
      else WithoutAll(Without(temps, names[0], faults), Remaining(names[1..], except), faults)
  {
    hide Without;
    if except.Some? {
      if except.value == names[0] {
        assert Others(names, except.value) == Others(names[1..], except.value);
      } else {
        assert Others(names, except.value)[1..] == Others(names[1..], except.value);
      }
    }
  }

  lemma RemoveNone(temps: map<string, File>, except: Option<string>, faults: Faults)
    ensures WithoutAll(temps, Remaining([], except), faults) == temps
  {}

  class HistoryFolder {
    var primary: Option<File>
    var temps: map<string, File>

    ghost function Abs(): Folder
      reads this
    {
      Folder(primary, temps)
    }

    constructor (folder: Folder)
      ensures Abs() == folder
    {
      primary, temps := folder.primary, folder.temps;
    }

    method RemoveBestEffort(name: string, faults: Faults)
      modifies this`temps
      ensures temps == Without(old(temps), name, faults)
    {
      if name !in faults.kept {
        temps := temps - {name};
      }
    }

    method RemoveEach(names: seq<string>, except: Option<string>, faults: Faults)
      modifies this`temps
      ensures temps == WithoutAll(old(temps), if except.Some? then Others(names, except.value) else names, faults)
    {
      hide Others, WithoutAll;
      var i := 0;
      assert names[0..] == names;
      while i < |names|
        invariant 0 <= i <= |names|
        invariant WithoutAll(old(temps), Remaining(names, except), faults) ==
                  WithoutAll(temps, Remaining(names[i..], except), faults)
        decreases |names| - i
      {
        assert names[i..][1..] == names[i + 1..];
        RemoveOne(temps, names[i..], except, faults);
        if except != Some(names[i]) {
          RemoveBestEffort(names[i], faults);
        }
        i := i + 1;
      }
      RemoveNone(temps, except, faults);
    }

    method ReadTemporaries(listing: seq<string>, faults: Faults) returns (r: Result<seq<Snapshot>, Error>)
      modifies this`temps
      ensures (temps, r) == ReadTemps(old(temps), listing, faults, [])
    {
      var found: seq<Snapshot> := [];
      var i := 0;
      assert listing[0..] == listing;
      while i < |listing|
        invariant 0 <= i <= |listing|
        invariant ReadTemps(old(temps), listing, faults, []) == ReadTemps(temps, listing[i..], faults, found)
        decreases |listing| - i
      {
        assert listing[i..][1..] == listing[i + 1..];
        var name := listing[i];
        if name in temps {
          var contents := temps[name].contents;
          if contents.Unreadable? {
            return Failure(SnapshotUnreadable);
          }
          if contents.Valid? {
            found := found + [Snapshot(name, temps[name].mtime, contents.payload)];
          } else {
            RemoveBestEffort(name, faults);
          }
        }
        i := i + 1;
      }
      return Success(found);
    }

    /** os.replace: the snapshot becomes the primary. */
    method Replace(s: Snapshot, faults: Faults) returns (ok: bool)
      modifies this
      ensures ok == !faults.notReplaced
      ensures Abs() == if ok then Folder(Some(File(Valid(s.payload), s.mtime)), old(temps) - {s.name}) else old(Abs())
    {
      if faults.notReplaced {
        return false;
      }
      primary := Some(File(Valid(s.payload), s.mtime));
      temps := temps - {s.name};
      return true;
    }

    method RecoverInterruptedWrite(rules: Rules, listing: seq<string>, faults: Faults) returns (r: Outcome)
      modifies this
      ensures (Abs(), r) == Recover(rules, old(Abs()), listing, faults)
    {
      hide IsRecoverable, IsSupported, IsFuture, ContainerIsValid, ReadTemps, WithoutAll, Filter, NewestOnes, Newest,
        Names, Others;
      if primary.Some? && primary.value.contents.Unreadable? {
        return Failure(PrimaryUnreadable);
      }
      var read := ReadTemporaries(listing, faults);
      if read.Failure? {
        return Failure(read.error);
      }
      var found := read.value;
      if exists s :: s in found && s.mtime.None? {
        return Failure(Unordered);
      }
      if primary.Some? && primary.value.contents.Valid? {
        r := RecoverOver(rules, primary.value.contents.payload, found, faults);
      } else {
        r := RecoverMissing(rules, found, faults);
      }
    }

    /** The committed primary is a JSON object. */
    method RecoverOver(rules: Rules, current: Payload, found: seq<Snapshot>, faults: Faults) returns (r: Outcome)
      requires AllOrdered(found) && primary.Some? && primary.value.contents == Valid(current)
      modifies this
      ensures (Abs(), r) == Carry(old(Abs()), WithPrimary(rules, current, old(primary).value.mtime, found), faults)
    {
      hide IsRecoverable, ContainerIsValid, WithoutAll, Filter, NewestOnes, Newest, Names, Others;
      WithoutNone(temps, faults);
      var version := PayloadVersion(current);
      if version.None? {
        return Success(Some(current));
      }
      if version.value > SCHEMA_VERSION {
        return Success(Some(current));
      }
      var good, rejected := Recoverable(rules, found), Rejected(rules, found);
      var containerValid := ContainerIsValid(current);
      if !containerValid && good == [] {
        return Success(Some(current));
      }
      if good == [] {
        RemoveEach(Names(rejected), None, faults);
        return Success(Some(current));
      }
      var mtime := primary.value.mtime;
      if mtime.None? {
        return Failure(NoPrimaryMtime);
      }
      var newest := NewestOnes(good);
      if Newest(good) <= mtime.value && !containerValid {
        return Success(Some(current));
      }
      if Newest(good) > mtime.value && |newest| > 1 {
        return Failure(Tied);
      }
      if newest[0].mtime.value > mtime.value {
        var ok := Replace(newest[0], faults);
        if !ok {
          return Failure(NotReplaced);
        }
        RemoveEach(Names(rejected + good), Some(newest[0].name), faults);
        return Success(Some(newest[0].payload));
      }
      RemoveEach(Names(rejected + good), None, faults);
      return Success(Some(current));
    }

    /** There is no primary, or it is not a JSON object. */
    method RecoverMissing(rules: Rules, found: seq<Snapshot>, faults: Faults) returns (r: Outcome)
      requires AllOrdered(found)
      requires primary.Some? ==> !primary.value.contents.Valid?
      modifies this
      ensures (Abs(), r) == Carry(old(Abs()), Decide(rules, old(primary), found), faults)
    {
      hide IsRecoverable, IsSupported, IsFuture, WithoutAll, Filter, NewestOnes, Newest, Names, Others;
      var good, rejected := Recoverable(rules, found), Rejected(rules, found);
      WithoutNone(temps, faults);
      NothingGood(rules, found);
      if primary.Some? && good != [] {
        if primary.value.mtime.None? {
          return Failure(NoPrimaryMtime);
        }
        if Newest(good) <= primary.value.mtime.value {
          return Failure(NotNewer);
        }
      }
      if found == [] {
        if primary.Some? {
          return Failure(Corrupt);
        }
        return Success(None);
      }
      var candidates := good;
      if good == [] {
        if primary.Some? {
          return Failure(Corrupt);
        }
        candidates := Future(found);
        if candidates == [] {
          return Failure(StructurallyCorrupt);
        }
      }
      var newest := NewestOnes(candidates);
      if |newest| > 1 {
        return Failure(Tied);
      }
      var ok := Replace(newest[0], faults);
      if !ok {
        return Failure(NotReplaced);
      }
      if good != [] {
        RemoveEach(Names(rejected + good), Some(newest[0].name), faults);
      } else {
        NoOthers(newest[0].name);
        WithoutNone(temps, faults);
      }
      return Success(Some(newest[0].payload));
    }
  }

  lemma WithoutNone(temps: map<string, File>, faults: Faults)
    ensures WithoutAll(temps, [], faults) == temps
  {}

  lemma NoOthers(name: string)
    ensures Others([], name) == []
  {}

  lemma NothingGood(rules: Rules, found: seq<Snapshot>)
    ensures found == [] ==> Recoverable(rules, found) == [] && Future(found) == []
  {}
}
