/** dictionary_snippets.py: canonical text with its index maps, and the plain left-to-right
    search that snippet expansion has to agree with. */
module SnippetText {
  import opened Wrappers

  /** The Unicode tables the program reads: NFC, case folding and character classes. */
  datatype Unicode = Unicode(nfc: string -> string, fold: string -> string, isMark: char -> bool,
                             isAlnum: char -> bool, isIgnored: char -> bool)
  {
    ghost predicate Valid() {
      && (forall s :: s != [] ==> nfc(s) != [])
      && (forall s :: s != [] ==> fold(s) != [])
    }
  }

  datatype Snippet = Snippet(trigger: string, replacement: string, enabled: bool, caseSensitive: bool)

  datatype Rule = Rule(index: nat, snippet: Snippet)

  // ----- Clusters -----------------------------------------------------------------------------

  /** Whether the character at `end` takes part in the composition begun at `start`. */
  predicate Joins(u: Unicode, text: string, start: nat, end: nat)
    requires start < end < |text|
  {
    var raw := text[start..end];
    u.isMark(text[end]) || u.nfc(raw + [text[end]]) != u.nfc(raw) + u.nfc([text[end]])
  }

  function ClusterScan(u: Unicode, text: string, start: nat, end: nat): (r: nat)
    requires start < end <= |text|
    ensures end <= r <= |text|
    decreases |text| - end
  {
    if end < |text| && Joins(u, text, start, end) then ClusterScan(u, text, start, end + 1) else end
  }

  function ClusterEnd(u: Unicode, text: string, start: nat): (r: nat)
    requires start < |text|
    ensures start < r <= |text|
  {
    ClusterScan(u, text, start, start + 1)
  }

  method CanonicalClusterEnd(u: Unicode, text: string, start: nat) returns (end: nat)
    requires start < |text|
    ensures end == ClusterEnd(u, text, start)
  {
    end := start + 1;
    var raw := [text[start]];
    while end < |text|
      invariant start < end <= |text| && raw == text[start..end]
      invariant ClusterEnd(u, text, start) == ClusterScan(u, text, start, end)
    {
      var character := text[end];
      assert raw + [character] == text[start..end + 1];
      if u.isMark(character) {
        raw := raw + [character];
        end := end + 1;
        continue;
      }
      var combined := u.nfc(raw + [character]);
      var separate := u.nfc(raw) + u.nfc([character]);
      if combined == separate {
        break;
      }
      raw := raw + [character];
      end := end + 1;
    }
  }

  /** `i` is reached from the boundary `b` by whole clusters. */
  predicate Reaches(u: Unicode, text: string, b: nat, i: nat)
    requires b <= |text|
    decreases |text| - b
  {
    b == i || (b < i && b < |text| && Reaches(u, text, ClusterEnd(u, text, b), i))
  }

  predicate Boundary(u: Unicode, text: string, i: nat) {
    Reaches(u, text, 0, i)
  }

  /** NFC of a cluster, folded where the rule ignores case. */
  function Normal(u: Unicode, caseSensitive: bool, cluster: string): string {
    if caseSensitive then u.nfc(cluster) else u.fold(u.nfc(cluster))
  }

  function NormalCluster(u: Unicode, text: string, caseSensitive: bool, i: nat): string
    requires i < |text|
  {
    Normal(u, caseSensitive, text[i..ClusterEnd(u, text, i)])
  }

  /** The canonical text from boundary `i` on. */
  function Canon(u: Unicode, text: string, caseSensitive: bool, i: nat): string
    requires i <= |text|
    decreases |text| - i
  {
    if i == |text| then ""
    else NormalCluster(u, text, caseSensitive, i) + Canon(u, text, caseSensitive, ClusterEnd(u, text, i))
  }

  lemma {:induction false} ReachesTransitive(u: Unicode, text: string, a: nat, b: nat, c: nat)
    requires a <= |text| && b <= |text| && Reaches(u, text, a, b) && Reaches(u, text, b, c)
    ensures Reaches(u, text, a, c)
    decreases |text| - a
  {
    hide ClusterEnd;
    if a < b {
      ReachesTransitive(u, text, ClusterEnd(u, text, a), b, c);
      ReachesForward(u, text, b, c);
    }
  }

  lemma {:induction false} ReachesForward(u: Unicode, text: string, b: nat, i: nat)
    requires b <= |text| && Reaches(u, text, b, i)
    ensures b <= i <= |text|
    decreases |text| - b
  {
    hide ClusterEnd;
    if b < i {
      ReachesForward(u, text, ClusterEnd(u, text, b), i);
    }
  }

  /** No boundary lies inside a cluster. */
  lemma {:induction false} ClustersDoNotOverlap(u: Unicode, text: string, b: nat, i: nat, j: nat)
    requires b <= |text| && Reaches(u, text, b, i) && Reaches(u, text, b, j) && i < |text| && i < j
    ensures Reaches(u, text, i, j) && ClusterEnd(u, text, i) <= j
    decreases |text| - b
  {
    hide ClusterEnd;
    if b < i {
      ClustersDoNotOverlap(u, text, ClusterEnd(u, text, b), i, j);
    } else {
      ReachesForward(u, text, ClusterEnd(u, text, b), j);
    }
  }

  // ----- The plain search ----------------------------------------------------------------------

  /** Where a run of whole clusters from `i` on ends whose canonical text is `key`. */
  function MatchEnd(u: Unicode, text: string, caseSensitive: bool, i: nat, key: string): (r: Option<nat>)
    requires i <= |text|
    ensures r.Some? ==> i <= r.value <= |text|
    decreases |text| - i
  {
    if key == "" then Some(i)
    else if i == |text| then None
    else
      var cluster := NormalCluster(u, text, caseSensitive, i);
      if cluster <= key then
        MatchEnd(u, text, caseSensitive, ClusterEnd(u, text, i), key[|cluster|..])
      else None
  }

  predicate WordCharacter(u: Unicode, c: char) {
    c == '_' || u.isAlnum(c)
  }

  predicate HasWordBoundaries(u: Unicode, text: string, start: nat, end: nat)
    requires start <= |text|
  {
    && (start > 0 ==> !WordCharacter(u, text[start - 1]))
    && (end < |text| ==> !WordCharacter(u, text[end]))
  }

  function Key(u: Unicode, s: Snippet): string {
    if s.caseSensitive then s.trigger else u.fold(s.trigger)
  }

  /** Where rule `r` applied at `i` ends. */
  function Match(u: Unicode, text: string, i: nat, r: Rule): (end: Option<nat>)
    requires i < |text|
    ensures end.Some? ==> i <= end.value <= |text|
  {
    var key := Key(u, r.snippet);
    var end := MatchEnd(u, text, r.snippet.caseSensitive, i, key);
    if r.snippet.enabled && key != "" && Boundary(u, text, i) && end.Some? &&
       HasWordBoundaries(u, text, i, end.value)
    then end else None
  }

  lemma {:induction false} MatchAdvances(u: Unicode, text: string, caseSensitive: bool, i: nat, key: string)
    requires i < |text| && key != "" && MatchEnd(u, text, caseSensitive, i, key).Some?
    ensures var end := MatchEnd(u, text, caseSensitive, i, key).value;
            i < end && Reaches(u, text, i, end)
    decreases |text| - i
  {
    hide ClusterEnd, NormalCluster;
    var next := ClusterEnd(u, text, i);
    var rest := key[|NormalCluster(u, text, caseSensitive, i)|..];
    if rest != "" {
      MatchAdvances(u, text, caseSensitive, next, rest);
    }
  }

  /** Longest folded trigger first, then list order. */
  function SortKey(u: Unicode, r: Rule): (int, int) {
    (-|u.fold(r.snippet.trigger)|, r.index)
  }

  predicate Precedes(a: (int, int), b: (int, int)) {
    a.0 < b.0 || (a.0 == b.0 && a.1 < b.1)
  }

  ghost predicate Ordered<T(!new)>(s: seq<T>, key: T -> (int, int)) {
    forall i, j :: 0 <= i < j < |s| ==> !Precedes(key(s[j]), key(s[i]))
  }

  /** `x` in front of the first element that does not precede it. */
  function Insert<T(!new)>(x: T, s: seq<T>, key: T -> (int, int)): (r: seq<T>)
    ensures forall y :: y in r <==> y == x || y in s
    ensures |r| == |s| + 1
    ensures Ordered(s, key) ==> Ordered(r, key)
  {
    if s == [] || !Precedes(key(s[0]), key(x)) then [x] + s
    else
      var rest := Insert(x, s[1..], key);
      assert Ordered(s, key) ==> forall y :: y in s[1..] ==> !Precedes(key(y), key(s[0]));
      [s[0]] + rest
  }

  function Sort<T(!new)>(s: seq<T>, key: T -> (int, int)): (r: seq<T>)
    ensures forall y :: y in r <==> y in s
    ensures |r| == |s| && Ordered(r, key)
  {
    if s == [] then [] else Insert(s[0], Sort(s[1..], key), key)
  }

  /** `r` goes before `x`: its folded trigger is longer, or as long and `r` is listed first. */
  predicate Outranks(u: Unicode, r: Rule, x: Rule) {
    var a, b := |u.fold(r.snippet.trigger)|, |u.fold(x.snippet.trigger)|;
    a > b || (a == b && r.index <= x.index)
  }

  /** The first of the rules that `ok` accepts, in sort order. */
  function Best(u: Unicode, rules: seq<Rule>, ok: Rule -> bool): (r: Option<Rule>)
    ensures r.None? ==> forall x :: x in rules ==> !ok(x)
    ensures r.Some? ==> r.value in rules && ok(r.value)
    ensures r.Some? ==> forall x :: x in rules && ok(x) ==> Outranks(u, r.value, x)
  {
    if rules == [] then None
    else
      var rest := Best(u, rules[1..], ok);
      if !ok(rules[0]) || (rest.Some? && Precedes(SortKey(u, rest.value), SortKey(u, rules[0]))) then rest
      else Some(rules[0])
  }

  ghost predicate DistinctIndices(rules: seq<Rule>) {
    forall x, y :: x in rules && y in rules && x.index == y.index ==> x == y
  }

  /** The best rule does not depend on the order in which the rules are looked at. */
  lemma BestIsUnique(u: Unicode, rules: seq<Rule>, ok: Rule -> bool, r: Rule)
    requires DistinctIndices(rules) && r in rules && ok(r)
    requires forall x :: x in rules && ok(x) ==> Outranks(u, r, x)
    ensures Best(u, rules, ok) == Some(r)
  {}

  /** What sorting by key puts in front is what outranks the rest. */
  lemma SortedIsRanked(u: Unicode, r: Rule, x: Rule)
    ensures !Precedes(SortKey(u, x), SortKey(u, r)) <==> Outranks(u, r, x)
  {}

  function Matching(u: Unicode, text: string, i: nat): Rule -> bool
    requires i < |text|
  {
    r => Match(u, text, i, r).Some?
  }

  function Search(u: Unicode, rules: seq<Rule>, text: string, i: nat): (r: Option<Rule>)
    requires i < |text|
    ensures r.Some? ==> Match(u, text, i, r.value).Some?
  {
    Best(u, rules, Matching(u, text, i))
  }

  /** Everything of `text` from `i` on, each match replaced once and never looked at again. */
  function Expanded(u: Unicode, rules: seq<Rule>, text: string, i: nat): string
    requires i <= |text|
    decreases |text| - i
  {
    if i == |text| then ""
    else
      var found := Search(u, rules, text, i);
      if found.None? then [text[i]] + Expanded(u, rules, text, i + 1)
      else
        var end := Match(u, text, i, found.value).value;
        MatchAdvances(u, text, found.value.snippet.caseSensitive, i, Key(u, found.value.snippet));
        found.value.snippet.replacement + Expanded(u, rules, text, end)
  }

  /** The canonical text of the clusters from `i` up to `end`. */
  function CanonBetween(u: Unicode, text: string, caseSensitive: bool, i: nat, end: nat): string
    decreases |text| - i
  {
    if i >= end || i >= |text| then ""
    else
      var next := ClusterEnd(u, text, i);
      var composed := u.nfc(text[i..next]);
      (if caseSensitive then composed else u.fold(composed)) + CanonBetween(u, text, caseSensitive, next, end)
  }

  /** A key matches up to `end` exactly when whole clusters lead from `i` to `end` and their
      canonical text is the key. */
  lemma {:induction false} MatchEndIsExact(u: Unicode, text: string, caseSensitive: bool, i: nat, key: string, end: nat)
    requires u.Valid() && i <= |text|
    ensures MatchEnd(u, text, caseSensitive, i, key) == Some(end) <==>
            Reaches(u, text, i, end) && CanonBetween(u, text, caseSensitive, i, end) == key
    decreases |text| - i
  {
    hide ClusterEnd, NormalCluster;
    if i < |text| {
      var cluster := NormalCluster(u, text, caseSensitive, i);
      var next := ClusterEnd(u, text, i);
      CanonStep(u, text, caseSensitive, i);
      NormalClusterIs(u, text, caseSensitive, i);
      if i < end {
        if cluster <= key {
          MatchEndIsExact(u, text, caseSensitive, next, key[|cluster|..], end);
          assert key == cluster + key[|cluster|..];
        } else {
          NotAPrefix(cluster, CanonBetween(u, text, caseSensitive, next, end), key);
        }
      } else if key != "" && MatchEnd(u, text, caseSensitive, i, key).Some? {
        MatchAdvances(u, text, caseSensitive, i, key);
      }
    }
  }

  lemma NotAPrefix(cluster: string, rest: string, key: string)
    requires !(cluster <= key)
    ensures cluster + rest != key
  {
    assert cluster <= cluster + rest;
  }

  /** A rule matches a span exactly when it is enabled and has a trigger, the span is made of
      whole clusters whose canonical text is the trigger's, and no word runs across its ends. */
  lemma MatchIsExact(u: Unicode, text: string, i: nat, r: Rule, end: nat)
    requires u.Valid() && i < |text|
    ensures var key := if r.snippet.caseSensitive then r.snippet.trigger else u.fold(r.snippet.trigger);
            Match(u, text, i, r) == Some(end) <==>
            && r.snippet.enabled && key != "" && Boundary(u, text, i) && Reaches(u, text, i, end)
            && CanonBetween(u, text, r.snippet.caseSensitive, i, end) == key
            && (i == 0 || !(text[i - 1] == '_' || u.isAlnum(text[i - 1])))
            && (end >= |text| || !(text[end] == '_' || u.isAlnum(text[end])))
  {
    hide MatchEnd, Boundary, CanonBetween, Reaches;
    MatchEndIsExact(u, text, r.snippet.caseSensitive, i, Key(u, r.snippet), end);
  }

  // ----- Canonical text and its maps --------------------------------------------------------------

  datatype Canonical = Canonical(value: string, originalToNormalized: seq<nat>, normalizedEnds: seq<nat>,
                                 clusterStarts: seq<bool>, clusterBoundaries: seq<bool>)

  /** Position of boundary `i` in the canonical text. */
  function Position(u: Unicode, text: string, caseSensitive: bool, i: nat): int
    requires i <= |text|
  {
    |Canon(u, text, caseSensitive, 0)| - |Canon(u, text, caseSensitive, i)|
  }

  /** The maps are right for the cluster at `i`. */
  ghost predicate Mapped(u: Unicode, text: string, caseSensitive: bool, i: nat,
                         starts: seq<nat>, ends: seq<nat>, boundaries: seq<bool>)
    requires i < |text|
  {
    var end := ClusterEnd(u, text, i);
    var a := Position(u, text, caseSensitive, i);
    var z := a + |NormalCluster(u, text, caseSensitive, i)|;
    && 0 <= a <= z <= |ends| && z < |boundaries| && i < |starts|
    && starts[i] == a
    && (forall p :: a <= p < z ==> ends[p] == end)
    && (forall p :: a < p <= z ==> (boundaries[p] <==> p == z))
  }

  ghost predicate Describes(c: Canonical, u: Unicode, text: string, caseSensitive: bool) {
    && c.value == Canon(u, text, caseSensitive, 0)
    && |c.clusterStarts| == |text| + 1
    && |c.normalizedEnds| == |c.value| && |c.clusterBoundaries| == |c.value| + 1
    && (forall i :: 0 <= i < |text| ==> (c.clusterStarts[i] <==> Boundary(u, text, i)))
    && (forall i :: 0 <= i < |text| && Boundary(u, text, i) ==>
          Mapped(u, text, caseSensitive, i, c.originalToNormalized, c.normalizedEnds, c.clusterBoundaries))
  }

  function Repeat<T>(x: T, n: nat): seq<T> {
    seq(n, _ => x)
  }

  lemma CanonStep(u: Unicode, text: string, caseSensitive: bool, i: nat)
    requires u.Valid() && i < |text|
    ensures var n := NormalCluster(u, text, caseSensitive, i);
            && n != ""
            && Canon(u, text, caseSensitive, i) == n + Canon(u, text, caseSensitive, ClusterEnd(u, text, i))
            && Position(u, text, caseSensitive, ClusterEnd(u, text, i)) == Position(u, text, caseSensitive, i) + |n|
  {
    hide ClusterEnd;
  }

  /** Maps that were right stay right when they grow. */
  lemma MappedGrows(u: Unicode, text: string, caseSensitive: bool, i: nat,
                    starts: seq<nat>, ends: seq<nat>, boundaries: seq<bool>,
                    starts': seq<nat>, ends': seq<nat>, boundaries': seq<bool>)
    requires i < |text| && Mapped(u, text, caseSensitive, i, starts, ends, boundaries)
    requires starts <= starts' && ends <= ends' && boundaries <= boundaries'
    ensures Mapped(u, text, caseSensitive, i, starts', ends', boundaries')
  {
    hide ClusterEnd, NormalCluster, Position;
  }

  lemma MappedNow(u: Unicode, text: string, caseSensitive: bool, i: nat,
                  starts: seq<nat>, ends: seq<nat>, boundaries: seq<bool>)
    requires u.Valid() && i < |text| && |ends| == Position(u, text, caseSensitive, i)
    requires |starts| == i && |boundaries| == |ends| + 1
    ensures var end := ClusterEnd(u, text, i);
            var n := |NormalCluster(u, text, caseSensitive, i)|;
            n > 0 && Mapped(u, text, caseSensitive, i, starts + Repeat(|ends| as nat, end - i), ends + Repeat(end, n),
                            (boundaries + Repeat(false, n))[|ends| + n := true])
  {
    hide ClusterEnd, NormalCluster, Position;
    CanonStep(u, text, caseSensitive, i);
  }

  method CanonicalText(u: Unicode, text: string, caseSensitive: bool) returns (c: Canonical)
    requires u.Valid()
    ensures Describes(c, u, text, caseSensitive)
  {
    hide ClusterEnd, NormalCluster, Position, Mapped, Canon, Reaches;
    var value := "";
    var originalToNormalized: seq<nat> := [];
    var normalizedEnds: seq<nat> := [];
    var clusterStarts := Repeat(false, |text| + 1);
    var clusterBoundaries := [false];
    var originalIndex: nat, normalizedIndex: nat := 0, 0;
    CanonEmpty(u, text, caseSensitive);
    while originalIndex < |text|
      invariant originalIndex <= |text| && Boundary(u, text, originalIndex)
      invariant |clusterStarts| == |text| + 1 && |originalToNormalized| == originalIndex
      invariant |value| == normalizedIndex == |normalizedEnds| && |clusterBoundaries| == normalizedIndex + 1
      invariant normalizedIndex == Position(u, text, caseSensitive, originalIndex)
      invariant value + Canon(u, text, caseSensitive, originalIndex) == Canon(u, text, caseSensitive, 0)
      invariant forall i :: originalIndex <= i <= |text| ==> !clusterStarts[i]
      invariant forall i :: 0 <= i < originalIndex ==> (clusterStarts[i] <==> Boundary(u, text, i))
      invariant forall i :: 0 <= i < originalIndex && Boundary(u, text, i) ==>
        Mapped(u, text, caseSensitive, i, originalToNormalized, normalizedEnds, clusterBoundaries)
    {
      var clusterStart := originalIndex;
      originalIndex := CanonicalClusterEnd(u, text, clusterStart);
      var cluster := Normal(u, caseSensitive, text[clusterStart..originalIndex]);
      ghost var starts, ends, boundaries := originalToNormalized, normalizedEnds, clusterBoundaries;
      CanonStep(u, text, caseSensitive, clusterStart);
      NormalClusterIs(u, text, caseSensitive, clusterStart);
      MappedNow(u, text, caseSensitive, clusterStart, starts, ends, boundaries);
      NextBoundary(u, text, clusterStart);
      clusterStarts := clusterStarts[clusterStart := true];
      originalToNormalized := originalToNormalized + Repeat(normalizedIndex, originalIndex - clusterStart);
      ghost var before := value;
      value := value + cluster;
      normalizedIndex := normalizedIndex + |cluster|;
      clusterBoundaries := clusterBoundaries + Repeat(false, |cluster|);
      clusterBoundaries := clusterBoundaries[normalizedIndex := true];
      normalizedEnds := normalizedEnds + Repeat(originalIndex, |cluster|);
      assert value + Canon(u, text, caseSensitive, originalIndex) == Canon(u, text, caseSensitive, 0) by {
        Joined(before, cluster, Canon(u, text, caseSensitive, originalIndex));
      }
      forall i | 0 <= i < clusterStart && Boundary(u, text, i)
        ensures Mapped(u, text, caseSensitive, i, originalToNormalized, normalizedEnds, clusterBoundaries)
      {
        MappedGrows(u, text, caseSensitive, i, starts, ends, boundaries,
                    originalToNormalized, normalizedEnds, clusterBoundaries);
      }
    }
    originalToNormalized := originalToNormalized + [normalizedIndex];
    forall i | 0 <= i < |text| && Boundary(u, text, i)
      ensures Mapped(u, text, caseSensitive, i, originalToNormalized, normalizedEnds, clusterBoundaries)
    {
      MappedGrows(u, text, caseSensitive, i, originalToNormalized[..|text|], normalizedEnds, clusterBoundaries,
                  originalToNormalized, normalizedEnds, clusterBoundaries);
    }
    CanonAtEnd(u, text, caseSensitive);
    c := Canonical(value, originalToNormalized, normalizedEnds, clusterStarts, clusterBoundaries);
  }

  lemma Joined(a: string, b: string, c: string)
    ensures a + b + c == a + (b + c)
  {}

  lemma CanonEmpty(u: Unicode, text: string, caseSensitive: bool)
    ensures Position(u, text, caseSensitive, 0) == 0 && Boundary(u, text, 0)
    ensures "" + Canon(u, text, caseSensitive, 0) == Canon(u, text, caseSensitive, 0)
  {}

  lemma CanonAtEnd(u: Unicode, text: string, caseSensitive: bool)
    ensures Canon(u, text, caseSensitive, |text|) == ""
    ensures forall value: string :: value + Canon(u, text, caseSensitive, |text|) == value
  {}

  lemma NormalClusterIs(u: Unicode, text: string, caseSensitive: bool, i: nat)
    requires i < |text|
    ensures NormalCluster(u, text, caseSensitive, i) == Normal(u, caseSensitive, text[i..ClusterEnd(u, text, i)])
  {}

  /** Inside a cluster there is no boundary, behind it there is the next one. */
  lemma NextBoundary(u: Unicode, text: string, i: nat)
    requires i < |text| && Boundary(u, text, i)
    ensures Boundary(u, text, ClusterEnd(u, text, i))
    ensures forall j :: i < j < ClusterEnd(u, text, i) ==> !Boundary(u, text, j)
  {
    hide ClusterEnd;
    ReachesTransitive(u, text, 0, i, ClusterEnd(u, text, i));
    forall j | i < j < ClusterEnd(u, text, i)
      ensures !Boundary(u, text, j)
    {
      if Boundary(u, text, j) {
        ClustersDoNotOverlap(u, text, 0, i, j);
      }
    }
  }

  // ----- The maps find what the plain search finds -------------------------------------------------

  /** What the index maps say about a key at boundary `i`. */
  function MapMatch(c: Canonical, start: nat, key: string): Option<nat> {
    var p := start + |key|;
    if 0 < p <= |c.value| && p <= |c.normalizedEnds| && p < |c.clusterBoundaries| &&
       c.value[start..p] == key && c.clusterBoundaries[p]
    then Some(c.normalizedEnds[p - 1]) else None
  }

  lemma {:induction false} MapMatchAgrees(u: Unicode, text: string, caseSensitive: bool, c: Canonical,
                                          i: nat, key: string)
    requires u.Valid() && Describes(c, u, text, caseSensitive)
    requires i <= |text| && Boundary(u, text, i) && key != ""
    ensures Position(u, text, caseSensitive, i) >= 0
    ensures MapMatch(c, Position(u, text, caseSensitive, i), key) == MatchEnd(u, text, caseSensitive, i, key)
    decreases |text| - i
  {
    hide ClusterEnd, NormalCluster, Boundary, Canon;
    CanonAtEnd(u, text, caseSensitive);
    if i < |text| {
      var n := NormalCluster(u, text, caseSensitive, i);
      var end := ClusterEnd(u, text, i);
      var a := Position(u, text, caseSensitive, i);
      CanonStep(u, text, caseSensitive, i);
      CanonSuffix(u, text, caseSensitive, i);
      NextBoundary(u, text, i);
      assert Mapped(u, text, caseSensitive, i, c.originalToNormalized, c.normalizedEnds, c.clusterBoundaries);
      ClusterHere(c, a, n, key, Canon(u, text, caseSensitive, end));
      if |key| > |n| {
        MapMatchAgrees(u, text, caseSensitive, c, end, key[|n|..]);
      } else if n == key {
        assert key[|n|..] == "";
        assert c.normalizedEnds[a + |n| - 1] == end;
      } else {
        assert !(n <= key);
      }
    }
  }

  /** The canonical text from the position of `i` on is what starts with the cluster at `i`. */
  lemma {:induction false} CanonSuffix(u: Unicode, text: string, caseSensitive: bool, i: nat)
    requires u.Valid() && i <= |text| && Boundary(u, text, i)
    ensures 0 <= Position(u, text, caseSensitive, i) <= |Canon(u, text, caseSensitive, 0)|
    ensures Canon(u, text, caseSensitive, 0)[Position(u, text, caseSensitive, i)..] == Canon(u, text, caseSensitive, i)
  {
    SuffixFrom(u, text, caseSensitive, 0, i);
  }

  lemma {:induction false} SuffixFrom(u: Unicode, text: string, caseSensitive: bool, b: nat, i: nat)
    requires u.Valid() && b <= |text| && Reaches(u, text, b, i) && i <= |text|
    ensures var s, t := Canon(u, text, caseSensitive, b), Canon(u, text, caseSensitive, i);
            |t| <= |s| && s[|s| - |t|..] == t
    decreases |text| - b
  {
    hide ClusterEnd, NormalCluster;
    if b < i {
      var next := ClusterEnd(u, text, b);
      SuffixFrom(u, text, caseSensitive, next, i);
      CanonStep(u, text, caseSensitive, b);
      SuffixOfJoin(NormalCluster(u, text, caseSensitive, b), Canon(u, text, caseSensitive, next),
                   Canon(u, text, caseSensitive, i));
    }
  }

  lemma SuffixOfJoin(a: string, s: string, t: string)
    requires |t| <= |s| && s[|s| - |t|..] == t
    ensures (a + s)[|a + s| - |t|..] == t
  {}

  /** Comparing a key with the text at the start of a cluster. */
  lemma ClusterHere(c: Canonical, a: nat, n: string, key: string, rest: string)
    requires a <= |c.value| && c.value[a..] == n + rest && n != "" && key != ""
    requires |c.normalizedEnds| == |c.value| && |c.clusterBoundaries| == |c.value| + 1
    requires forall p :: a < p <= a + |n| ==> (c.clusterBoundaries[p] <==> p == a + |n|)
    ensures |key| < |n| ==> MapMatch(c, a, key) == None
    ensures |key| == |n| ==> MapMatch(c, a, key) == if key == n then Some(c.normalizedEnds[a + |n| - 1]) else None
    ensures |key| > |n| ==> MapMatch(c, a, key) == if n <= key then MapMatch(c, a + |n|, key[|n|..]) else None
  {
    var p := a + |key|;
    if p <= |c.value| {
      assert c.value[a..p] == (n + rest)[..|key|];
      if |key| >= |n| {
        assert c.value[a..p] == n + c.value[a + |n|..p];
        assert n <= key ==> key == n + key[|n|..];
      }
    }
  }
}
