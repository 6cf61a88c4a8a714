/** dictionary_snippets.py: the trie of trigger keys. */
module SnippetTrie {
  import opened Wrappers
  import opened SnippetText

  class TrieNode {
    var children: map<char, TrieNode>
    var rules: seq<Rule>

    constructor ()
      ensures children == map[] && rules == []
    {
      children, rules := map[], [];
    }
  }

  type Paths = map<string, TrieNode>

  ghost function Children(at: Paths): map<string, map<char, TrieNode>>
    reads at.Values
  {
    map s | s in at :: at[s].children
  }

  ghost function Rules(at: Paths): map<string, seq<Rule>>
    reads at.Values
  {
    map s | s in at :: at[s].rules
  }

  /** `at` names every node of the tree under `root` by the path that leads to it. */
  ghost predicate Tree(root: TrieNode, at: Paths, children: map<string, map<char, TrieNode>>) {
    && "" in at && at[""] == root && children.Keys == at.Keys
    && (forall s, t :: s in at && t in at && s != t ==> at[s] != at[t])
    && (forall s, c :: s in at ==> (c in children[s] <==> s + [c] in at))
    && (forall s, c :: s in at && c in children[s] ==> children[s][c] == at[s + [c]])
    && (forall s :: s in at && s != "" ==> s[..|s| - 1] in at)
  }

  /** A rule that belongs in the trie of its mode. */
  predicate Belongs(r: Rule, caseSensitive: bool) {
    r.snippet.enabled && r.snippet.caseSensitive == caseSensitive
  }

  /** Each path holds the rules whose key it is, and every key is a path. */
  ghost predicate Holds(u: Unicode, rules: map<string, seq<Rule>>, used: seq<Rule>, caseSensitive: bool) {
    && (forall s, r :: s in rules ==>
          (r in rules[s] <==> r in used && Belongs(r, caseSensitive) && Key(u, r.snippet) == s))
    && (forall r :: r in used && Belongs(r, caseSensitive) ==> Key(u, r.snippet) in rules)
  }

  ghost predicate Trie(u: Unicode, root: TrieNode, at: Paths, used: seq<Rule>, caseSensitive: bool)
    reads at.Values
  {
    Tree(root, at, Children(at)) && Holds(u, Rules(at), used, caseSensitive)
  }

  /** Every prefix of a path is a path. */
  lemma {:induction false} PrefixClosed(root: TrieNode, at: Paths, children: map<string, map<char, TrieNode>>,
                                        s: string, n: nat)
    requires Tree(root, at, children) && s in at && n <= |s|
    ensures s[..n] in at
    decreases |s|
  {
    if n < |s| {
      PrefixClosed(root, at, children, s[..|s| - 1], n);
      assert s[..|s| - 1][..n] == s[..n];
    } else {
      assert s[..n] == s;
    }
  }

  lemma SamePath(s: string, d: char, path: string, c: char)
    ensures s + [d] == path + [c] <==> s == path && d == c
  {
    if s + [d] == path + [c] {
      assert (s + [d])[..|s|] == s && (path + [c])[..|path|] == path;
      assert (s + [d])[|s|] == d && (path + [c])[|path|] == c;
    }
  }

  /** Adding one leaf. */
  lemma TreeGrows(root: TrieNode, at: Paths, children: map<string, map<char, TrieNode>>,
                  path: string, c: char, child: TrieNode)
    requires Tree(root, at, children) && path in at && c !in children[path]
    requires child !in at.Values
    ensures Tree(root, at[path + [c] := child],
                 children[path := children[path][c := child]][path + [c] := map[]])
  {
    var leaf := path + [c];
    assert leaf[..|leaf| - 1] == path;
    var at' := at[leaf := child];
    var children' := children[path := children[path][c := child]][leaf := map[]];
    forall s, d | s in at'
      ensures d in children'[s] <==> s + [d] in at'
      ensures d in children'[s] ==> children'[s][d] == at'[s + [d]]
    {
      SamePath(s, d, path, c);
      assert (leaf + [d])[..|leaf + [d]| - 1] == leaf;
    }
  }

  method Grow(u: Unicode, root: TrieNode, ghost at: Paths, node: TrieNode, ghost path: string,
              c: char, ghost used: seq<Rule>, caseSensitive: bool)
    returns (child: TrieNode, ghost grown: Paths)
    requires Trie(u, root, at, used, caseSensitive)
    requires path in at && at[path] == node && c !in node.children
    modifies node
    ensures Trie(u, root, grown, used, caseSensitive)
    ensures path + [c] in grown && grown[path + [c]] == child
    ensures fresh(grown.Values - at.Values)
  {
    hide Tree, Holds;
    ghost var children, rules := Children(at), Rules(at);
    NodesDiffer(root, at, children, path, c);
    child := new TrieNode();
    node.children := node.children[c := child];
    grown := at[path + [c] := child];
    TreeGrows(root, at, children, path, c, child);
    LeafHoldsNothing(u, rules, path + [c], used, caseSensitive);
    Snapshot(at, path, c, child, children, rules);
  }

  lemma Snapshot(at: Paths, path: string, c: char, child: TrieNode,
                 children: map<string, map<char, TrieNode>>, rules: map<string, seq<Rule>>)
    requires path in at && children.Keys == rules.Keys == at.Keys && path + [c] !in at
    requires forall s :: s in at && s != path ==> at[s].children == children[s]
    requires at[path].children == children[path][c := child] && child.children == map[]
    requires forall s :: s in at ==> at[s].rules == rules[s]
    requires child.rules == []
    ensures var grown := at[path + [c] := child];
            && Children(grown) == children[path := children[path][c := child]][path + [c] := map[]]
            && Rules(grown) == rules[path + [c] := []]
  {
    var leaf := path + [c];
    var grown := at[leaf := child];
    var more := children[path := children[path][c := child]][leaf := map[]];
    assert Children(grown) == more by {
      assert more.Keys == grown.Keys;
      assert forall s :: s in more ==> grown[s].children == more[s];
    }
    assert Rules(grown) == rules[leaf := []];
  }

  /** The child for `c`, created if there is none. */
  method SetDefault(u: Unicode, root: TrieNode, ghost at: Paths, node: TrieNode, ghost path: string,
                    c: char, ghost used: seq<Rule>, caseSensitive: bool)
    returns (child: TrieNode, ghost grown: Paths)
    requires Trie(u, root, at, used, caseSensitive)
    requires path in at && at[path] == node
    modifies node
    ensures Trie(u, root, grown, used, caseSensitive)
    ensures path + [c] in grown && grown[path + [c]] == child
    ensures fresh(grown.Values - at.Values)
  {
    if c in node.children {
      NodesDiffer(root, at, Children(at), path, c);
      child := node.children[c];
      grown := at;
    } else {
      hide Trie;
      child, grown := Grow(u, root, at, node, path, c, used, caseSensitive);
    }
  }

  lemma NodesDiffer(root: TrieNode, at: Paths, children: map<string, map<char, TrieNode>>, path: string, c: char)
    requires Tree(root, at, children) && path in at
    ensures c in children[path] <==> path + [c] in at
    ensures c in children[path] ==> children[path][c] == at[path + [c]]
    ensures forall s :: s in at && s != path ==> at[s] != at[path]
  {}

  lemma LeafHoldsNothing(u: Unicode, rules: map<string, seq<Rule>>, leaf: string, used: seq<Rule>, caseSensitive: bool)
    requires Holds(u, rules, used, caseSensitive) && leaf !in rules
    ensures Holds(u, rules[leaf := []], used, caseSensitive)
  {}

  lemma RuleAdded(u: Unicode, rules: map<string, seq<Rule>>, rule: Rule, used: seq<Rule>, caseSensitive: bool)
    requires Holds(u, rules, used, caseSensitive) && Belongs(rule, caseSensitive)
    requires Key(u, rule.snippet) in rules
    ensures var key := Key(u, rule.snippet);
            Holds(u, rules[key := rules[key] + [rule]], used + [rule], caseSensitive)
  {}

  /** The node for a key, with the nodes on the way to it. */
  method NodeFor(u: Unicode, root: TrieNode, ghost at: Paths, key: string, ghost used: seq<Rule>, caseSensitive: bool)
    returns (node: TrieNode, ghost grown: Paths)
    requires Trie(u, root, at, used, caseSensitive)
    modifies at.Values
    ensures Trie(u, root, grown, used, caseSensitive)
    ensures key in grown && grown[key] == node
    ensures fresh(grown.Values - at.Values)
  {
    hide Trie;
    node := root;
    grown := at;
    var i := 0;
    RootIsThere(u, root, at, used, caseSensitive);
    while i < |key|
      invariant 0 <= i <= |key|
      invariant Trie(u, root, grown, used, caseSensitive)
      invariant key[..i] in grown && grown[key[..i]] == node
      invariant fresh(grown.Values - at.Values)
    {
      assert node in grown.Values;
      node, grown := SetDefault(u, root, grown, node, key[..i], key[i], used, caseSensitive);
      assert key[..i] + [key[i]] == key[..i + 1];
      i := i + 1;
    }
    assert key[..i] == key;
  }

  method AddRule(u: Unicode, root: TrieNode, ghost at: Paths, node: TrieNode, rule: Rule, ghost used: seq<Rule>,
                 caseSensitive: bool)
    requires Trie(u, root, at, used, caseSensitive) && Belongs(rule, caseSensitive)
    requires Key(u, rule.snippet) in at && at[Key(u, rule.snippet)] == node
    modifies node
    ensures Trie(u, root, at, used + [rule], caseSensitive)
  {
    hide Tree, Holds;
    ghost var key := Key(u, rule.snippet);
    ghost var children, rules := Children(at), Rules(at);
    NodesDiffer(root, at, children, key, ' ');
    node.rules := node.rules + [rule];
    RuleAdded(u, rules, rule, used, caseSensitive);
    assert Children(at) == children && Rules(at) == rules[key := rules[key] + [rule]];
  }

  method Insert(u: Unicode, root: TrieNode, ghost at: Paths, rule: Rule, ghost used: seq<Rule>, caseSensitive: bool)
    returns (ghost grown: Paths)
    requires Trie(u, root, at, used, caseSensitive) && Belongs(rule, caseSensitive)
    modifies at.Values
    ensures Trie(u, root, grown, used + [rule], caseSensitive)
    ensures fresh(grown.Values - at.Values)
  {
    hide Trie;
    var trigger := if caseSensitive then rule.snippet.trigger else u.fold(rule.snippet.trigger);
    var node;
    node, grown := NodeFor(u, root, at, trigger, used, caseSensitive);
    assert node in grown.Values;
    AddRule(u, root, grown, node, rule, used, caseSensitive);
  }

  lemma RootIsThere(u: Unicode, root: TrieNode, at: Paths, used: seq<Rule>, caseSensitive: bool)
    requires Trie(u, root, at, used, caseSensitive)
    ensures "" in at && at[""] == root
  {}

  ghost predicate SortedFrom(u: Unicode, rules: map<string, seq<Rule>>, path: string) {
    forall s :: s in rules && path <= s ==> Ordered(rules[s], (r: Rule) => SortKey(u, r))
  }

  /** Whatever was in order still is. */
  ghost predicate StillSorted(u: Unicode, before: map<string, seq<Rule>>, after: map<string, seq<Rule>>) {
    && before.Keys == after.Keys
    && (forall s :: s in before && Ordered(before[s], (r: Rule) => SortKey(u, r)) ==>
          Ordered(after[s], (r: Rule) => SortKey(u, r)))
  }

  method SortNode(u: Unicode, root: TrieNode, ghost at: Paths, node: TrieNode, ghost path: string,
                  ghost used: seq<Rule>, caseSensitive: bool)
    requires Trie(u, root, at, used, caseSensitive) && path in at && at[path] == node
    modifies node
    ensures Trie(u, root, at, used, caseSensitive) && Children(at) == old(Children(at))
    ensures StillSorted(u, old(Rules(at)), Rules(at))
    ensures Ordered(Rules(at)[path], (r: Rule) => SortKey(u, r))
  {
    hide Tree, Holds, Ordered;
    ghost var children, rules := Children(at), Rules(at);
    NodesDiffer(root, at, children, path, ' ');
    node.rules := Sort(node.rules, (r: Rule) => SortKey(u, r));
    assert Children(at) == children && Rules(at) == rules[path := node.rules];
    SortingHolds(u, rules, path, node.rules, used, caseSensitive);
  }

  lemma SortingHolds(u: Unicode, rules: map<string, seq<Rule>>, path: string, sorted: seq<Rule>,
                     used: seq<Rule>, caseSensitive: bool)
    requires Holds(u, rules, used, caseSensitive) && path in rules
    requires forall r :: r in sorted <==> r in rules[path]
    ensures Holds(u, rules[path := sorted], used, caseSensitive)
  {}

  /** Visits `node` and everything below it. */
  method SortBelow(u: Unicode, root: TrieNode, ghost at: Paths, node: TrieNode, ghost path: string,
                   ghost used: seq<Rule>, caseSensitive: bool, ghost depth: nat)
    requires Trie(u, root, at, used, caseSensitive) && path in at && at[path] == node
    requires forall s :: s in at ==> |s| <= depth
    modifies at.Values
    ensures Trie(u, root, at, used, caseSensitive) && Children(at) == old(Children(at))
    ensures StillSorted(u, old(Rules(at)), Rules(at)) && SortedFrom(u, Rules(at), path)
    decreases depth - |path|
  {
    hide Tree, Trie, Ordered, Holds;
    ghost var start, children := Rules(at), Children(at);
    SortNode(u, root, at, node, path, used, caseSensitive);
    var todo := node.children.Keys;
    while todo != {}
      invariant Trie(u, root, at, used, caseSensitive) && Children(at) == children
      invariant todo <= node.children.Keys
      invariant StillSorted(u, start, Rules(at))
      invariant Ordered(Rules(at)[path], (r: Rule) => SortKey(u, r))
      invariant forall c :: c in node.children.Keys - todo ==> SortedFrom(u, Rules(at), path + [c])
      decreases |todo|
    {
      var c :| c in todo;
      ChildOf(u, root, at, path, c, used, caseSensitive);
      ghost var before := Rules(at);
      SortBelow(u, root, at, node.children[c], path + [c], used, caseSensitive, depth);
      todo := todo - {c};
      assert node.children == children[path];
    }
    TreeOf(u, root, at, used, caseSensitive);
    AllBelow(u, root, at, Children(at), Rules(at), path);
  }

  lemma TreeOf(u: Unicode, root: TrieNode, at: Paths, used: seq<Rule>, caseSensitive: bool)
    requires Trie(u, root, at, used, caseSensitive)
    ensures Tree(root, at, Children(at))
  {}

  lemma ChildOf(u: Unicode, root: TrieNode, at: Paths, path: string, c: char, used: seq<Rule>, caseSensitive: bool)
    requires Trie(u, root, at, used, caseSensitive) && path in at && c in at[path].children
    ensures path + [c] in at && at[path + [c]] == at[path].children[c]
  {
    NodesDiffer(root, at, Children(at), path, c);
  }

  lemma AllBelow(u: Unicode, root: TrieNode, at: Paths, children: map<string, map<char, TrieNode>>,
                 rules: map<string, seq<Rule>>, path: string)
    requires Tree(root, at, children) && path in at && rules.Keys == at.Keys
    requires Ordered(rules[path], (r: Rule) => SortKey(u, r))
    requires forall c :: c in children[path] ==> SortedFrom(u, rules, path + [c])
    ensures SortedFrom(u, rules, path)
  {
    hide Ordered, Tree;
    forall s | s in rules && path <= s
      ensures Ordered(rules[s], (r: Rule) => SortKey(u, r))
    {
      if s != path {
        var c := s[|path|];
        PrefixClosed(root, at, children, s, |path| + 1);
        assert s[..|path| + 1] == path + [c];
        NodesDiffer(root, at, children, path, c);
      }
    }
  }

  ghost function Depth(paths: set<string>): (d: nat)
    ensures forall s :: s in paths ==> |s| <= d
  {
    if paths == {} then 0
    else
      var s :| s in paths;
      var rest := Depth(paths - {s});
      if |s| > rest then |s| else rest
  }

  method BuildSnippetTrie(u: Unicode, snippets: seq<Rule>, caseSensitive: bool)
    returns (root: TrieNode, ghost at: Paths)
    ensures Trie(u, root, at, snippets, caseSensitive) && fresh(at.Values)
    ensures SortedFrom(u, Rules(at), "")
  {
    hide Tree, Holds;
    root := new TrieNode();
    at := map["" := root];
    EmptyTrie(u, root, caseSensitive);
    assert Children(at) == map["" := map[]] && Rules(at) == map["" := []];
    var i := 0;
    while i < |snippets|
      invariant 0 <= i <= |snippets|
      invariant Trie(u, root, at, snippets[..i], caseSensitive) && fresh(at.Values)
    {
      assert snippets[..i + 1] == snippets[..i] + [snippets[i]];
      if Belongs(snippets[i], caseSensitive) {
        at := Insert(u, root, at, snippets[i], snippets[..i], caseSensitive);
      } else {
        Skipped(u, Rules(at), snippets[..i], snippets[i], caseSensitive);
      }
      i := i + 1;
    }
    assert snippets[..i] == snippets;
    RootIsThere(u, root, at, snippets, caseSensitive);
    SortBelow(u, root, at, root, "", snippets, caseSensitive, Depth(at.Keys));
  }

  lemma EmptyTrie(u: Unicode, root: TrieNode, caseSensitive: bool)
    ensures Tree(root, map["" := root], map["" := map[]]) && Holds(u, map["" := []], [], caseSensitive)
  {}

  lemma Skipped(u: Unicode, rules: map<string, seq<Rule>>, used: seq<Rule>, r: Rule, caseSensitive: bool)
    requires Holds(u, rules, used, caseSensitive) && !Belongs(r, caseSensitive)
    ensures Holds(u, rules, used + [r], caseSensitive)
  {}
}
