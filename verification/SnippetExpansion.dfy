/** dictionary_snippets.py: expansion with a trie over canonical text, against the plain
    left-to-right search. */
module SnippetExpansion {
  import opened Wrappers
  import opened SnippetText
  import opened SnippetTrie

  datatype Error = TextTooLong | ExpansionTooLong

  function Enumerate(snippets: seq<Snippet>): (r: seq<Rule>)
    ensures DistinctIndices(r)
    ensures |r| == |snippets| && forall i :: 0 <= i < |r| ==> r[i].index == i && r[i].snippet == snippets[i]
  {
    seq(|snippets|, i requires 0 <= i < |snippets| => Rule(i, snippets[i]))
  }

  function Enabled(rules: seq<Rule>): (r: seq<Rule>)
    ensures forall x :: x in r <==> x in rules && x.snippet.enabled
  {
    if rules == [] then []
    else if rules[0].snippet.enabled then [rules[0]] + Enabled(rules[1..])
    else Enabled(rules[1..])
  }

  function Active(u: Unicode, snippets: seq<Snippet>): (r: seq<Rule>)
    ensures forall x :: x in r <==> x in Enumerate(snippets) && x.snippet.enabled
    ensures Ordered(r, (x: Rule) => SortKey(u, x))
  {
    Sort(Enabled(Enumerate(snippets)), (x: Rule) => SortKey(u, x))
  }

  // ----- Whole utterances -----------------------------------------------------------------------

  function Spoken(u: Unicode, s: string): string {
    if s == "" then "" else (if u.isIgnored(s[0]) then "" else [s[0]]) + Spoken(u, s[1..])
  }

  /** What is compared of an utterance: its characters in order, without those to be ignored. */
  lemma {:induction false} SpokenIsExact(u: Unicode, a: string, c: char, b: string)
    ensures Spoken(u, a + [c] + b) == Spoken(u, a) + (if u.isIgnored(c) then "" else [c]) + Spoken(u, b)
    ensures Spoken(u, "") == ""
  {
    if a == "" {
      assert a + [c] + b == [c] + b;
    } else {
      assert (a + [c] + b)[1..] == a[1..] + [c] + b;
      SpokenIsExact(u, a[1..], c, b);
    }
  }

  function SpokenKey(u: Unicode, s: string, caseSensitive: bool): string {
    Spoken(u, Normal(u, caseSensitive, s))
  }

  function Utters(u: Unicode, text: string): Rule -> bool {
    (r: Rule) =>
      var s := r.snippet;
      var key := SpokenKey(u, s.trigger, s.caseSensitive);
      s.enabled && key != "" && key == SpokenKey(u, text, s.caseSensitive)
  }

  /** The first candidate that is uttered is the best rule that is. */
  method ExpandSpokenTrigger(u: Unicode, snippets: seq<Snippet>, candidates: seq<Rule>, text: string, limit: nat)
    returns (result: Result<Option<string>, Error>)
    requires candidates == Active(u, snippets)
    ensures var best := Best(u, Enumerate(snippets), Utters(u, text));
            result == if best.None? then Success(None)
                      else if |best.value.snippet.replacement| > limit then Failure(ExpansionTooLong)
                      else Success(Some(best.value.snippet.replacement))
  {
    hide Best, Active, Enumerate;
    var i := 0;
    while i < |candidates|
      invariant 0 <= i <= |candidates|
      invariant forall j :: 0 <= j < i ==> !Utters(u, text)(candidates[j])
    {
      var s := candidates[i].snippet;
      var key := SpokenKey(u, s.trigger, s.caseSensitive);
      if key != "" && key == SpokenKey(u, text, s.caseSensitive) {
        FirstIsBest(u, snippets, candidates, text, i);
        if |s.replacement| > limit {
          return Failure(ExpansionTooLong);
        }
        return Success(Some(s.replacement));
      }
      i := i + 1;
    }
    NoneUttered(u, snippets, candidates, text);
    return Success(None);
  }

  lemma FirstIsBest(u: Unicode, snippets: seq<Snippet>, candidates: seq<Rule>, text: string, i: nat)
    requires candidates == Active(u, snippets) && i < |candidates|
    requires Utters(u, text)(candidates[i])
    requires forall j :: 0 <= j < i ==> !Utters(u, text)(candidates[j])
    ensures Best(u, Enumerate(snippets), Utters(u, text)) == Some(candidates[i])
  {
    hide Best, Enumerate, Active, Utters, SortKey, Outranks;
    var r, ok := candidates[i], Utters(u, text);
    ActiveIsSorted(u, snippets);
    UttersEnabled(u, text);
    forall x | x in Enumerate(snippets) && ok(x) ensures Outranks(u, r, x) {
      FirstOutranks(u, candidates, ok, i, x);
    }
    BestIsUnique(u, Enumerate(snippets), ok, r);
  }

  lemma ActiveIsSorted(u: Unicode, snippets: seq<Snippet>)
    ensures Ranked(u, Active(u, snippets))
    ensures forall x :: x in Active(u, snippets) <==> x in Enumerate(snippets) && x.snippet.enabled
  {
    hide Enumerate, Sort, Enabled, SortKey;
  }

  predicate Ranked(u: Unicode, rules: seq<Rule>) {
    forall i, j :: 0 <= i < j < |rules| ==> !Precedes(SortKey(u, rules[j]), SortKey(u, rules[i]))
  }

  lemma UttersEnabled(u: Unicode, text: string)
    ensures forall x :: Utters(u, text)(x) ==> x.snippet.enabled
  {}

  /** In sort order, the first rule that is accepted outranks every other one that is. */
  lemma FirstOutranks(u: Unicode, rules: seq<Rule>, ok: Rule -> bool, i: nat, x: Rule)
    requires Ranked(u, rules) && i < |rules| && x in rules && ok(x)
    requires forall j :: 0 <= j < i ==> !ok(rules[j])
    ensures Outranks(u, rules[i], x)
  {
    hide SortKey, Precedes, Outranks;
    var j :| 0 <= j < |rules| && rules[j] == x;
    SortedIsRanked(u, rules[i], x);
    RankIsReflexive(u, x);
  }

  lemma RankIsReflexive(u: Unicode, x: Rule)
    ensures Outranks(u, x, x)
  {}

  lemma NoneUttered(u: Unicode, snippets: seq<Snippet>, candidates: seq<Rule>, text: string)
    requires candidates == Active(u, snippets)
    requires forall j :: 0 <= j < |candidates| ==> !Utters(u, text)(candidates[j])
    ensures Best(u, Enumerate(snippets), Utters(u, text)) == None
  {
    hide Enumerate;
    forall x | x in Enumerate(snippets) ensures !Utters(u, text)(x) {
      if x.snippet.enabled {
        assert x in candidates;
      }
    }
  }

  // ----- Matches at one position ------------------------------------------------------------------

  datatype Found = Found(rule: Rule, end: nat)

  datatype Index = Index(canonical: Canonical, trie: TrieNode)

  function FoundAll(rules: seq<Rule>, end: nat): (r: seq<Found>)
    ensures forall m :: m in r <==> m.end == end && m.rule in rules
  {
    if rules == [] then [] else [Found(rules[0], end)] + FoundAll(rules[1..], end)
  }

  /** What the walk has to have collected after `depth` characters. */
  predicate Collected(u: Unicode, text: string, i: nat, c: Canonical, start: nat, depth: nat,
                      used: seq<Rule>, caseSensitive: bool, m: Found)
    requires i <= |text|
  {
    var key := Key(u, m.rule.snippet);
    && m.rule in used && Belongs(m.rule, caseSensitive)
    && 0 < |key| <= depth
    && MapMatch(c, start, key) == Some(m.end) && HasWordBoundaries(u, text, i, m.end)
  }

  method Collect(u: Unicode, text: string, index: nat, c: Canonical, root: TrieNode, ghost at: Paths,
                 ghost used: seq<Rule>, caseSensitive: bool)
    returns (matches: seq<Found>)
    requires u.Valid() && index < |text| && Describes(c, u, text, caseSensitive)
    requires Trie(u, root, at, used, caseSensitive)
    ensures forall m :: m in matches <==>
      m.rule in used && Belongs(m.rule, caseSensitive) && Match(u, text, index, m.rule) == Some(m.end)
  {
    hide Trie, Boundary, Describes, MatchEnd, MapMatch, HasWordBoundaries, Collected, Match, FoundAll;
    matches := [];
    StartKnown(c, u, text, caseSensitive, index);
    if !c.clusterStarts[index] {
      return;
    }
    var start := c.originalToNormalized[index];
    var node := root;
    var cursor := start;
    RootIsThere(u, root, at, used, caseSensitive);
    assert c.value[start..start] == "";
    NothingShorter(u, text, index, c, start, used, caseSensitive);
    ghost var depth: nat := 0;
    while cursor < |c.value|
      invariant start <= cursor <= |c.value| && depth == cursor - start
      invariant c.value[start..cursor] in at && at[c.value[start..cursor]] == node
      invariant forall m :: m in matches <==>
        Collected(u, text, index, c, start, depth, used, caseSensitive, m)
    {
      ghost var path := c.value[start..cursor];
      NodeAt(u, root, at, path, c.value[cursor], used, caseSensitive);
      SliceGrows(c.value, start, cursor);
      if c.value[cursor] !in node.children {
        DeadEnd(u, root, at, text, index, c, start, cursor, used, caseSensitive);
        break;
      }
      node := node.children[c.value[cursor]];
      cursor := cursor + 1;
      NodeRules(u, root, at, c.value[start..cursor], used, caseSensitive);
      ghost var before := matches;
      if node.rules != [] && c.clusterBoundaries[cursor] {
        var end := c.normalizedEnds[cursor - 1];
        if HasWordBoundaries(u, text, index, end) {
          matches := matches + FoundAll(node.rules, end);
        }
      }
      MatchesGrow(u, text, index, c, start, depth, cursor, node.rules, used, caseSensitive, before, matches);
      depth := depth + 1;
    }
    if cursor == |c.value| {
      BeyondTheEnd(u, text, index, c, start, used, caseSensitive);
    }
    CollectedAll(u, text, index, c, start, used, caseSensitive);
  }

  lemma StartKnown(c: Canonical, u: Unicode, text: string, caseSensitive: bool, i: nat)
    requires Describes(c, u, text, caseSensitive) && i < |text| && u.Valid()
    ensures i < |c.clusterStarts| && (c.clusterStarts[i] <==> Boundary(u, text, i))
    ensures |c.normalizedEnds| == |c.value| && |c.clusterBoundaries| == |c.value| + 1
    ensures Boundary(u, text, i) ==>
      && i < |c.originalToNormalized| && c.originalToNormalized[i] <= |c.value|
      && c.originalToNormalized[i] == Position(u, text, caseSensitive, i)
    ensures !Boundary(u, text, i) ==> forall r :: Match(u, text, i, r).None?
  {
    hide Boundary, Canon, NormalCluster, ClusterEnd;
    if Boundary(u, text, i) {
      assert Mapped(u, text, caseSensitive, i, c.originalToNormalized, c.normalizedEnds, c.clusterBoundaries);
    }
  }

  lemma NothingShorter(u: Unicode, text: string, i: nat, c: Canonical, start: nat, used: seq<Rule>, caseSensitive: bool)
    requires i <= |text|
    ensures forall m :: !Collected(u, text, i, c, start, 0, used, caseSensitive, m)
  {}

  lemma NodeAt(u: Unicode, root: TrieNode, at: Paths, path: string, c: char, used: seq<Rule>, caseSensitive: bool)
    requires Trie(u, root, at, used, caseSensitive) && path in at
    ensures c in at[path].children <==> path + [c] in at
    ensures c in at[path].children ==> at[path].children[c] == at[path + [c]]
  {
    NodesDiffer(root, at, Children(at), path, c);
  }

  lemma NodeRules(u: Unicode, root: TrieNode, at: Paths, path: string, used: seq<Rule>, caseSensitive: bool)
    requires Trie(u, root, at, used, caseSensitive) && path in at
    ensures forall r :: r in at[path].rules <==>
      r in used && Belongs(r, caseSensitive) && Key(u, r.snippet) == path
  {
    RulesAt(u, Rules(at), path, used, caseSensitive);
  }

  lemma RulesAt(u: Unicode, rules: map<string, seq<Rule>>, path: string, used: seq<Rule>, caseSensitive: bool)
    requires Holds(u, rules, used, caseSensitive) && path in rules
    ensures forall r :: r in rules[path] <==> r in used && Belongs(r, caseSensitive) && Key(u, r.snippet) == path
  {}

  /** What a node reached at `cursor` adds. */
  predicate Added(u: Unicode, text: string, i: nat, c: Canonical, cursor: nat, rules: seq<Rule>, m: Found)
    requires i <= |text| && 0 < cursor <= |c.normalizedEnds| && cursor < |c.clusterBoundaries|
  {
    && m.rule in rules && c.clusterBoundaries[cursor]
    && m.end == c.normalizedEnds[cursor - 1] && HasWordBoundaries(u, text, i, m.end)
  }

  /** The rules of one more character are those whose key is exactly the text walked over. */
  lemma OneDeeper(u: Unicode, text: string, i: nat, c: Canonical, start: nat, depth: nat, cursor: nat,
                  rules: seq<Rule>, used: seq<Rule>, caseSensitive: bool)
    requires i <= |text| && cursor == start + depth + 1 <= |c.value|
    requires |c.normalizedEnds| == |c.value| && |c.clusterBoundaries| == |c.value| + 1
    requires forall r :: r in rules <==>
      r in used && Belongs(r, caseSensitive) && Key(u, r.snippet) == c.value[start..cursor]
    ensures forall m: Found ::
      Collected(u, text, i, c, start, depth + 1, used, caseSensitive, m) <==>
      Collected(u, text, i, c, start, depth, used, caseSensitive, m) || Added(u, text, i, c, cursor, rules, m)
  {
    forall m: Found
      ensures Collected(u, text, i, c, start, depth + 1, used, caseSensitive, m) <==>
              Collected(u, text, i, c, start, depth, used, caseSensitive, m) ||
              Added(u, text, i, c, cursor, rules, m)
    {
      hide HasWordBoundaries, Key;
      assert m.rule in rules <==>
        m.rule in used && Belongs(m.rule, caseSensitive) && Key(u, m.rule.snippet) == c.value[start..cursor];
      if |Key(u, m.rule.snippet)| == depth + 1 {
        assert start + |Key(u, m.rule.snippet)| == cursor;
      }
    }
  }

  lemma MatchesGrow(u: Unicode, text: string, i: nat, c: Canonical, start: nat, depth: nat, cursor: nat,
                    rules: seq<Rule>, used: seq<Rule>, caseSensitive: bool, before: seq<Found>, after: seq<Found>)
    requires i <= |text| && cursor == start + depth + 1 <= |c.value|
    requires |c.normalizedEnds| == |c.value| && |c.clusterBoundaries| == |c.value| + 1
    requires forall r :: r in rules <==>
      r in used && Belongs(r, caseSensitive) && Key(u, r.snippet) == c.value[start..cursor]
    requires forall m: Found :: m in before <==> Collected(u, text, i, c, start, depth, used, caseSensitive, m)
    requires after == if rules != [] && c.clusterBoundaries[cursor] &&
                         HasWordBoundaries(u, text, i, c.normalizedEnds[cursor - 1])
                      then before + FoundAll(rules, c.normalizedEnds[cursor - 1]) else before
    ensures forall m: Found :: m in after <==> Collected(u, text, i, c, start, depth + 1, used, caseSensitive, m)
  {
    hide HasWordBoundaries, Collected, FoundAll;
    OneDeeper(u, text, i, c, start, depth, cursor, rules, used, caseSensitive);
    forall m: Found
      ensures m in after <==> m in before || Added(u, text, i, c, cursor, rules, m)
    {
    }
  }

  lemma SliceGrows(s: string, a: nat, b: nat)
    requires a <= b < |s|
    ensures s[a..b] + [s[b]] == s[a..b + 1]
  {}

  /** Where the trie has no child, no longer key can match. */
  lemma DeadEnd(u: Unicode, root: TrieNode, at: Paths, text: string, i: nat, c: Canonical, start: nat,
                cursor: nat, used: seq<Rule>, caseSensitive: bool)
    requires Trie(u, root, at, used, caseSensitive) && i <= |text|
    requires start <= cursor < |c.value| && c.value[start..cursor + 1] !in at
    ensures forall m: Found ::
      Collected(u, text, i, c, start, |Key(u, m.rule.snippet)|, used, caseSensitive, m) <==>
      Collected(u, text, i, c, start, cursor - start, used, caseSensitive, m)
  {
    hide HasWordBoundaries, MapMatch, Trie, Key;
    forall m: Found | m.rule in used && Belongs(m.rule, caseSensitive) && |Key(u, m.rule.snippet)| > cursor - start
      ensures MapMatch(c, start, Key(u, m.rule.snippet)).None?
    {
      NoLongerKey(u, root, at, c, start, cursor, m.rule, used, caseSensitive);
    }
  }

  lemma NoLongerKey(u: Unicode, root: TrieNode, at: Paths, c: Canonical, start: nat, cursor: nat, r: Rule,
                    used: seq<Rule>, caseSensitive: bool)
    requires Trie(u, root, at, used, caseSensitive)
    requires start <= cursor < |c.value| && c.value[start..cursor + 1] !in at
    requires r in used && Belongs(r, caseSensitive) && |Key(u, r.snippet)| > cursor - start
    ensures MapMatch(c, start, Key(u, r.snippet)).None?
  {
    hide Tree, Holds, Key;
    var key := Key(u, r.snippet);
    KeyIsThere(u, Rules(at), r, used, caseSensitive);
    PrefixClosed(root, at, Children(at), key, cursor - start + 1);
    if start + |key| <= |c.value| {
      assert c.value[start..start + |key|][..cursor - start + 1] == c.value[start..cursor + 1];
    }
  }

  lemma KeyIsThere(u: Unicode, rules: map<string, seq<Rule>>, r: Rule, used: seq<Rule>, caseSensitive: bool)
    requires Holds(u, rules, used, caseSensitive) && r in used && Belongs(r, caseSensitive)
    ensures Key(u, r.snippet) in rules
  {}

  lemma BeyondTheEnd(u: Unicode, text: string, i: nat, c: Canonical, start: nat, used: seq<Rule>, caseSensitive: bool)
    requires i <= |text| && start <= |c.value|
    ensures forall m: Found ::
      Collected(u, text, i, c, start, |Key(u, m.rule.snippet)|, used, caseSensitive, m) <==>
      Collected(u, text, i, c, start, |c.value| - start, used, caseSensitive, m)
  {
    hide HasWordBoundaries, Key;
  }

  /** Without a bound on the key, collected is matched. */
  lemma CollectedAll(u: Unicode, text: string, i: nat, c: Canonical, start: nat, used: seq<Rule>, caseSensitive: bool)
    requires u.Valid() && i < |text| && Describes(c, u, text, caseSensitive) && Boundary(u, text, i)
    requires start == Position(u, text, caseSensitive, i)
    ensures forall m: Found ::
      (m.rule in used && Belongs(m.rule, caseSensitive) && Match(u, text, i, m.rule) == Some(m.end)) <==>
      Collected(u, text, i, c, start, |Key(u, m.rule.snippet)|, used, caseSensitive, m)
  {
    hide HasWordBoundaries, Key, MapMatch, MatchEnd, Describes, Boundary, Position;
    forall m: Found | Key(u, m.rule.snippet) != ""
      ensures MapMatch(c, start, Key(u, m.rule.snippet)) ==
              MatchEnd(u, text, caseSensitive, i, Key(u, m.rule.snippet))
    {
      MapMatchAgrees(u, text, caseSensitive, c, i, Key(u, m.rule.snippet));
    }
  }

  // ----- Expansion --------------------------------------------------------------------------------

  ghost predicate Ready(u: Unicode, text: string, candidates: seq<Rule>, modes: set<bool>,
                        indexes: map<bool, Index>, ats: map<bool, Paths>)
    reads set m, n | m in ats && n in ats[m].Values :: n
  {
    forall m :: m in modes ==>
      && m in indexes && m in ats
      && Describes(indexes[m].canonical, u, text, m)
      && Trie(u, indexes[m].trie, ats[m], candidates, m)
  }

  /** What expansion is for. */
  function Expansion(u: Unicode, snippets: seq<Snippet>, text: string, limit: nat): Result<string, Error> {
    var rules := Enumerate(snippets);
    var standalone := Best(u, rules, Utters(u, text));
    if |text| > limit then Failure(TextTooLong)
    else if Enabled(rules) == [] || text == "" then Success(text)
    else if standalone.Some? then
      if |standalone.value.snippet.replacement| > limit then Failure(ExpansionTooLong)
      else Success(standalone.value.snippet.replacement)
    else
      var expanded := Expanded(u, rules, text, 0);
      if |expanded| > limit then Failure(ExpansionTooLong) else Success(expanded)
  }

  lemma NoMode(modes: set<bool>)
    requires true !in modes && false !in modes
    ensures modes == {}
  {
    assert forall mode :: mode !in modes;
  }

  lemma SomeMode(modes: set<bool>)
    requires modes != {}
    ensures exists mode :: mode in modes
  {
    if true !in modes && false !in modes {
      NoMode(modes);
    }
  }

  method Prepare(u: Unicode, text: string, candidates: seq<Rule>, modes: set<bool>)
    returns (indexes: map<bool, Index>, ghost ats: map<bool, Paths>)
    requires u.Valid()
    ensures Ready(u, text, candidates, modes, indexes, ats)
  {
    hide Describes, Trie;
    indexes := map[];
    ats := map[];
    var remaining := modes;
    while remaining != {}
      invariant remaining <= modes
      invariant Ready(u, text, candidates, modes - remaining, indexes, ats)
      decreases |remaining|
    {
      SomeMode(remaining);
      var mode :| mode in remaining;
      var canonical := CanonicalText(u, text, mode);
      var trie; ghost var at;
      trie, at := BuildSnippetTrie(u, candidates, mode);
      indexes := indexes[mode := Index(canonical, trie)];
      ats := ats[mode := at];
      remaining := remaining - {mode};
    }
  }

  /** The best match at `index`; the modes may be visited in any order. */
  method FindMatch(u: Unicode, text: string, index: nat, snippets: seq<Snippet>, candidates: seq<Rule>,
                   modes: set<bool>, indexes: map<bool, Index>, ghost ats: map<bool, Paths>)
    returns (found: Option<Found>)
    requires u.Valid() && index < |text| && candidates == Active(u, snippets)
    requires Ready(u, text, candidates, modes, indexes, ats)
    requires forall r :: r in candidates ==> r.snippet.caseSensitive in modes
    ensures var best := Search(u, Enumerate(snippets), text, index);
            && (found.None? <==> best.None?)
            && (found.Some? ==>
                  best == Some(found.value.rule) && Match(u, text, index, best.value) == Some(found.value.end))
  {
    hide Describes, Trie, Match, Active, Enumerate, Best;
    var matches: seq<Found> := [];
    var remaining := modes;
    while remaining != {}
      invariant remaining <= modes
      invariant forall m :: m in matches <==>
        && m.rule in candidates && m.rule.snippet.caseSensitive in modes - remaining
        && Match(u, text, index, m.rule) == Some(m.end)
      decreases |remaining|
    {
      SomeMode(remaining);
      var mode :| mode in remaining;
      var more := Collect(u, text, index, indexes[mode].canonical, indexes[mode].trie, ats[mode], candidates, mode);
      matches := matches + more;
      remaining := remaining - {mode};
    }
    matches := Sort(matches, (m: Found) => SortKey(u, m.rule));
    FirstMatchIsBest(u, text, index, snippets, candidates, matches);
    if matches == [] {
      return None;
    }
    return Some(matches[0]);
  }

  lemma FirstMatchIsBest(u: Unicode, text: string, i: nat, snippets: seq<Snippet>, candidates: seq<Rule>,
                         matches: seq<Found>)
    requires i < |text| && candidates == Active(u, snippets)
    requires forall m :: m in matches <==> m.rule in candidates && Match(u, text, i, m.rule) == Some(m.end)
    requires Ordered(matches, (m: Found) => SortKey(u, m.rule))
    ensures var best := Search(u, Enumerate(snippets), text, i);
            && (matches == [] <==> best.None?)
            && (matches != [] ==> best == Some(matches[0].rule))
  {
    hide Enumerate, Best;
    var ok := Matching(u, text, i);
    forall x | x in Enumerate(snippets) && ok(x)
      ensures Found(x, Match(u, text, i, x).value) in matches
    {
      EnabledMatch(u, text, i, x);
      assert x in candidates;
    }
    if matches != [] {
      var r := matches[0].rule;
      forall x | x in Enumerate(snippets) && ok(x)
        ensures Outranks(u, r, x)
      {
        SortedIsRanked(u, r, x);
        var m := Found(x, Match(u, text, i, x).value);
        var j :| 0 <= j < |matches| && matches[j] == m;
        assert j > 0 ==> !Precedes(SortKey(u, matches[j].rule), SortKey(u, matches[0].rule));
      }
      assert matches[0] in matches;
      BestIsUnique(u, Enumerate(snippets), ok, r);
    }
  }

  lemma EnabledMatch(u: Unicode, text: string, i: nat, r: Rule)
    requires i < |text| && Match(u, text, i, r).Some?
    ensures r.snippet.enabled
  {}

  /** Fast equals simple: the trie walk over canonical text gives exactly what the plain
      search gives, within the limit. */
  method Expand(u: Unicode, snippets: seq<Snippet>, text: string, limit: nat)
    returns (result: Result<string, Error>)
    requires u.Valid()
    ensures result == Expansion(u, snippets, text, limit)
  {
    hide Best, Active, Enumerate, Expanded, Match, Search, Ready, Enabled, Utters, Key, Boundary, MatchEnd;
    if |text| > limit {
      return Failure(TextTooLong);
    }
    var candidates := Active(u, snippets);
    NoCandidates(u, snippets);
    if candidates == [] || text == "" {
      return Success(text);
    }
    var standalone := ExpandSpokenTrigger(u, snippets, candidates, text, limit);
    if standalone.Failure? {
      return Failure(standalone.error);
    }
    if standalone.value.Some? {
      return Success(standalone.value.value);
    }
    var modes := set r | r in candidates :: r.snippet.caseSensitive;
    ghost var ats;
    var indexes;
    indexes, ats := Prepare(u, text, candidates, modes);
    var output := "";
    var index: nat := 0;
    ghost var whole := Expanded(u, Enumerate(snippets), text, 0);
    while index < |text|
      invariant index <= |text| && |output| <= limit
      invariant whole == output + Expanded(u, Enumerate(snippets), text, index)
      invariant Ready(u, text, candidates, modes, indexes, ats)
    {
      var found := FindMatch(u, text, index, snippets, candidates, modes, indexes, ats);
      ExpandedStep(u, Enumerate(snippets), text, index);
      if found.None? {
        if |output| + 1 > limit {
          return Failure(ExpansionTooLong);
        }
        output := output + [text[index]];
        index := index + 1;
      } else {
        var replacement := found.value.rule.snippet.replacement;
        if |output| + |replacement| > limit {
          return Failure(ExpansionTooLong);
        }
        output := output + replacement;
        index := found.value.end;
      }
    }
    ExpandedEnd(u, Enumerate(snippets), text);
    assert output + "" == output;
    return Success(output);
  }

  /** Of the rules that match at a position, the longest folded trigger wins, then the one that
      is listed first. */
  lemma LongestTriggerWins(u: Unicode, rules: seq<Rule>, text: string, i: nat, x: Rule)
    requires i < |text| && x in rules && Match(u, text, i, x).Some?
    ensures var found := Search(u, rules, text, i);
            && found.Some? && found.value in rules && Match(u, text, i, found.value).Some?
            && |u.fold(x.snippet.trigger)| <= |u.fold(found.value.snippet.trigger)|
            && (|u.fold(x.snippet.trigger)| == |u.fold(found.value.snippet.trigger)| ==> found.value.index <= x.index)
  {
    hide Match, Best;
    assert Matching(u, text, i)(x);
  }

  lemma NoCandidates(u: Unicode, snippets: seq<Snippet>)
    ensures Active(u, snippets) == [] <==> Enabled(Enumerate(snippets)) == []
  {
    hide Enumerate, Enabled, Sort;
  }

  lemma ExpandedStep(u: Unicode, rules: seq<Rule>, text: string, i: nat)
    requires i < |text|
    ensures var found := Search(u, rules, text, i);
            && (found.None? ==> Expanded(u, rules, text, i) == [text[i]] + Expanded(u, rules, text, i + 1))
            && (found.Some? ==>
                  var end := Match(u, text, i, found.value).value;
                  && i < end <= |text|
                  && Expanded(u, rules, text, i) == found.value.snippet.replacement + Expanded(u, rules, text, end))
  {
    hide Best;
    var found := Search(u, rules, text, i);
    if found.Some? {
      MatchAdvances(u, text, found.value.snippet.caseSensitive, i, Key(u, found.value.snippet));
    }
  }

  lemma ExpandedEnd(u: Unicode, rules: seq<Rule>, text: string)
    ensures Expanded(u, rules, text, |text|) == ""
  {}

  // ----- What expansion means ----------------------------------------------------------------------

  /** A piece of the input: one character kept, or a span replaced by a rule. */
  datatype Piece = Kept(start: nat) | Replaced(start: nat, end: nat, rule: Rule)

  function PieceEnd(p: Piece): nat {
    match p
    case Kept(start) => start + 1
    case Replaced(_, end, _) => end
  }

  /** A character is kept where no rule matches; a span is replaced by the best rule that
      matches there, is made of whole clusters and ends at word boundaries. */
  ghost predicate Faithful(u: Unicode, rules: seq<Rule>, text: string, p: Piece) {
    && p.start < |text|
    && match p
       case Kept(i) => forall r :: r in rules ==> Match(u, text, i, r).None?
       case Replaced(i, end, rule) =>
         && i < end <= |text|
         && rule in rules && Match(u, text, i, rule) == Some(end)
         && Boundary(u, text, i) && Boundary(u, text, end) && HasWordBoundaries(u, text, i, end)
         && (forall r :: r in rules && Match(u, text, i, r).Some? ==>
               && |u.fold(r.snippet.trigger)| <= |u.fold(rule.snippet.trigger)|
               && (|u.fold(r.snippet.trigger)| == |u.fold(rule.snippet.trigger)| ==> rule.index <= r.index))
  }

  /** Consecutive faithful pieces from `from` to the end of the text. */
  ghost predicate Tiles(u: Unicode, rules: seq<Rule>, text: string, pieces: seq<Piece>, from: nat)
    decreases pieces
  {
    if pieces == [] then from == |text|
    else
      && pieces[0].start == from
      && Faithful(u, rules, text, pieces[0])
      && Tiles(u, rules, text, pieces[1..], PieceEnd(pieces[0]))
  }

  function Shown(text: string, p: Piece): string {
    match p
    case Kept(i) => if i < |text| then [text[i]] else ""
    case Replaced(_, _, rule) => rule.snippet.replacement
  }

  function Assemble(text: string, pieces: seq<Piece>): string {
    if pieces == [] then "" else Shown(text, pieces[0]) + Assemble(text, pieces[1..])
  }

  function Pieces(u: Unicode, rules: seq<Rule>, text: string, i: nat): seq<Piece>
    requires i <= |text|
    decreases |text| - i
  {
    if i == |text| then []
    else
      var found := Search(u, rules, text, i);
      if found.None? then [Kept(i)] + Pieces(u, rules, text, i + 1)
      else
        var end := Match(u, text, i, found.value).value;
        MatchAdvances(u, text, found.value.snippet.caseSensitive, i, Key(u, found.value.snippet));
        [Replaced(i, end, found.value)] + Pieces(u, rules, text, end)
  }

  lemma FirstPieceIsFaithful(u: Unicode, rules: seq<Rule>, text: string, i: nat)
    requires i < |text|
    ensures Faithful(u, rules, text, Pieces(u, rules, text, i)[0])
  {
    hide Best, HasWordBoundaries, Reaches;
    var found := Search(u, rules, text, i);
    if found.None? {
      forall r | r in rules ensures Match(u, text, i, r).None? {
        assert !Matching(u, text, i)(r);
      }
    } else {
      var r := found.value;
      var end := Match(u, text, i, r).value;
      MatchAdvances(u, text, r.snippet.caseSensitive, i, Key(u, r.snippet));
      ReachesTransitive(u, text, 0, i, end);
      forall x | x in rules && Match(u, text, i, x).Some?
        ensures Outranks(u, r, x)
      {
        assert Matching(u, text, i)(x);
      }
    }
  }

  /** The expanded text is put together from faithful pieces that tile the input. */
  lemma {:induction false} ExpansionTilesInput(u: Unicode, rules: seq<Rule>, text: string, i: nat)
    requires i <= |text|
    ensures Tiles(u, rules, text, Pieces(u, rules, text, i), i)
    ensures Expanded(u, rules, text, i) == Assemble(text, Pieces(u, rules, text, i))
    decreases |text| - i
  {
    hide Best, Faithful, HasWordBoundaries, Match, Search;
    if i < |text| {
      FirstPieceIsFaithful(u, rules, text, i);
      ExpandedStep(u, rules, text, i);
      var pieces := Pieces(u, rules, text, i);
      var next := PieceEnd(pieces[0]);
      assert pieces[1..] == Pieces(u, rules, text, next);
      ExpansionTilesInput(u, rules, text, next);
    }
  }

  /** There is only one way to tile the input, so any such tiling gives the expansion. */
  lemma {:induction false} TilingIsUnique(u: Unicode, rules: seq<Rule>, text: string, pieces: seq<Piece>, i: nat)
    requires DistinctIndices(rules) && i <= |text| && Tiles(u, rules, text, pieces, i)
    ensures pieces == Pieces(u, rules, text, i)
    decreases |pieces|
  {
    hide Best, Match, HasWordBoundaries, Reaches;
    if pieces != [] {
      var p := pieces[0];
      FirstPieceIsUnique(u, rules, text, p);
      TilingIsUnique(u, rules, text, pieces[1..], PieceEnd(p));
      if p.Replaced? {
        ExpandedStep(u, rules, text, i);
      }
      assert pieces == [p] + pieces[1..];
    }
  }

  lemma FirstPieceIsUnique(u: Unicode, rules: seq<Rule>, text: string, p: Piece)
    requires DistinctIndices(rules) && Faithful(u, rules, text, p)
    ensures Search(u, rules, text, p.start) == if p.Kept? then None else Some(p.rule)
  {
    hide Match, HasWordBoundaries, Reaches;
    if p.Replaced? {
      BestIsUnique(u, rules, Matching(u, text, p.start), p.rule);
    }
  }

  /** The whole text utters the trigger of `r`: alike without ignored characters, in its mode. */
  predicate Says(u: Unicode, text: string, r: Rule) {
    var s, trigger, said := r.snippet, u.nfc(r.snippet.trigger), u.nfc(text);
    var key := Spoken(u, if s.caseSensitive then trigger else u.fold(trigger));
    s.enabled && key != "" && key == Spoken(u, if s.caseSensitive then said else u.fold(said))
  }

  /** The whole of expansion. A text over the limit is refused. One that utters a trigger alone
      becomes the replacement of the highest ranked rule that it utters; any other becomes its
      pieces put together, of which there is only one choice; either way, if the limit allows. */
  lemma ExpansionIsExact(u: Unicode, snippets: seq<Snippet>, text: string, limit: nat, pieces: seq<Piece>)
    requires Tiles(u, Enumerate(snippets), text, pieces, 0)
    ensures var rules, r := Enumerate(snippets), Expansion(u, snippets, text, limit);
            && (r == Failure(TextTooLong) <==> |text| > limit)
            && (|text| <= limit ==>
                  && (forall x ::
                        (x in rules && text != "" && Says(u, text, x) &&
                         forall y :: y in rules && Says(u, text, y) ==> Outranks(u, x, y)) ==>
                          r == Fitting(x.snippet.replacement, limit))
                  && (text == "" || (forall x :: x in rules ==> !Says(u, text, x)) ==>
                        r == Fitting(Assemble(text, pieces), limit)))
  {
    hide Best, Expanded, Assemble, Tiles, Enumerate, Enabled, Spoken, Outranks;
    var rules, ok := Enumerate(snippets), Utters(u, text);
    TilingIsUnique(u, rules, text, pieces, 0);
    ExpansionTilesInput(u, rules, text, 0);
    forall x | x in rules && Says(u, text, x) && (forall y :: y in rules && Says(u, text, y) ==> Outranks(u, x, y))
      ensures Best(u, rules, ok) == Some(x)
    {
      BestIsUnique(u, rules, ok, x);
    }
    if Enabled(rules) == [] || text == "" {
      NothingEnabled(u, rules, text, 0);
    }
  }

  function Fitting(output: string, limit: nat): Result<string, Error> {
    if |output| <= limit then Success(output) else Failure(ExpansionTooLong)
  }

  /** Rules that are switched off change nothing. */
  lemma {:induction false} NothingEnabled(u: Unicode, rules: seq<Rule>, text: string, i: nat)
    requires i <= |text| && (Enabled(rules) == [] || text == "")
    ensures Expanded(u, rules, text, i) == text[i..]
    decreases |text| - i
  {
    hide Best, Match, Expanded;
    if i < |text| {
      NothingEnabled(u, rules, text, i + 1);
      ExpandedStep(u, rules, text, i);
      NothingMatches(u, rules, text, i);
    } else {
      ExpandedEnd(u, rules, text);
    }
  }

  lemma NothingMatches(u: Unicode, rules: seq<Rule>, text: string, i: nat)
    requires i < |text| && Enabled(rules) == []
    ensures Search(u, rules, text, i).None?
  {
    hide Best;
    assert forall x :: x in rules ==> (x.snippet.enabled <==> x in Enabled(rules));
  }
}
