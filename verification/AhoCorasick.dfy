/** The Aho-Corasick matcher of privacy_search.py: the trie, the breadth-first
    failure links with terminal propagation, and the scan of a query. */
module AhoCorasick {
  import opened Common

  datatype Node = Node(transitions: map<char, nat>, failure: nat, terminal: bool)

  predicate IsSuffix(y: string, x: string) {
    |y| <= |x| && x[|x| - |y|..] == y
  }

  predicate IsPrefix(y: string, x: string) {
    y <= x
  }

  // ------------------------------------------------------------ the trie

  /** labels[i] spells the path from the root to node i. */
  ghost predicate Trie(nodes: seq<Node>, labels: seq<string>) {
    && |nodes| == |labels| > 0 && labels[0] == ""
    && (forall s, c :: 0 <= s < |nodes| && c in nodes[s].transitions ==>
          && 0 < nodes[s].transitions[c] < |nodes|
          && labels[nodes[s].transitions[c]] == labels[s] + [c])
    && (forall i, j :: 0 <= i < j < |labels| ==> labels[i] != labels[j])
    && (forall t :: 0 < t < |labels| ==> HasParent(nodes, labels, t))
  }

  ghost predicate HasParent(nodes: seq<Node>, labels: seq<string>, t: nat)
    requires t < |labels| == |nodes|
  {
    labels[t] != "" && exists s :: 0 <= s < |nodes| && IsParent(nodes, labels, s, t)
  }

  ghost predicate IsParent(nodes: seq<Node>, labels: seq<string>, s: nat, t: nat)
    requires s < |nodes| == |labels| && t < |labels| && labels[t] != ""
  {
    var n := |labels[t]| - 1;
    labels[s] == labels[t][..n] && labels[t][n] in nodes[s].transitions && nodes[s].transitions[labels[t][n]] == t
  }

  ghost predicate InTrie(labels: seq<string>, x: string) {
    exists i :: 0 <= i < |labels| && labels[i] == x
  }

  /** A labelled child is reached by its transition. */
  lemma TransitionFound(nodes: seq<Node>, labels: seq<string>, s: nat, c: char)
    requires Trie(nodes, labels) && s < |nodes|
    ensures InTrie(labels, labels[s] + [c]) <==> c in nodes[s].transitions
  {
    if InTrie(labels, labels[s] + [c]) {
      var t :| 0 <= t < |labels| && labels[t] == labels[s] + [c];
      assert t != 0;
      assert HasParent(nodes, labels, t);
      var p :| 0 <= p < |nodes| && IsParent(nodes, labels, p, t);
      assert labels[p] == labels[s];
      assert p == s;
    }
    if c in nodes[s].transitions {
      assert labels[nodes[s].transitions[c]] == labels[s] + [c];
    }
  }

  /** Adding one child keeps the trie. */
  lemma ExtendTrie(nodes: seq<Node>, labels: seq<string>, s: nat, c: char, nodes2: seq<Node>, labels2: seq<string>)
    requires Trie(nodes, labels) && s < |nodes| && c !in nodes[s].transitions
    requires nodes2 == nodes[s := nodes[s].(transitions := nodes[s].transitions[c := |nodes|])]
             + [Node(map[], 0, false)]
    requires labels2 == labels + [labels[s] + [c]]
    ensures Trie(nodes2, labels2)
    ensures forall x :: InTrie(labels2, x) <==> InTrie(labels, x) || x == labels[s] + [c]
  {
    TransitionFound(nodes, labels, s, c);
    var last := |nodes|;
    assert !InTrie(labels, labels2[last]);
    forall t | 0 < t < |labels2| ensures HasParent(nodes2, labels2, t) {
      if t < last {
        assert HasParent(nodes, labels, t);
        var p :| 0 <= p < |nodes| && IsParent(nodes, labels, p, t);
        assert IsParent(nodes2, labels2, p, t);
      } else {
        assert IsParent(nodes2, labels2, s, t);
      }
    }
    forall x ensures InTrie(labels2, x) <==> InTrie(labels, x) || x == labels[s] + [c] {
      if InTrie(labels, x) {
        var i :| 0 <= i < |labels| && labels[i] == x;
        assert labels2[i] == x;
      }
      assert labels2[last] == labels[s] + [c];
    }
  }

  /** Every prefix of a label is a label. */
  lemma {:induction false} PrefixInTrie(nodes: seq<Node>, labels: seq<string>, t: nat, n: nat)
    requires Trie(nodes, labels) && t < |labels| && n <= |labels[t]|
    ensures InTrie(labels, labels[t][..n])
    decreases |labels[t]|
  {
    if n == |labels[t]| {
      assert labels[t][..n] == labels[t];
    } else {
      assert t != 0;
      assert HasParent(nodes, labels, t);
      var p :| 0 <= p < |nodes| && IsParent(nodes, labels, p, t);
      PrefixInTrie(nodes, labels, p, n);
      assert labels[p][..n] == labels[t][..n];
    }
  }

  // ------------------------------------------------------------ what links and flags mean

  /** f labels the longest proper suffix of x that is in the trie. */
  ghost predicate LongestProper(labels: seq<string>, x: string, f: nat) {
    && f < |labels| && |labels[f]| < |x| && IsSuffix(labels[f], x)
    && forall y :: IsSuffix(y, x) && |y| < |x| && InTrie(labels, y) ==> |y| <= |labels[f]|
  }

  ghost predicate PatternEnds(patterns: set<string>, x: string) {
    exists p :: p in patterns && IsSuffix(p, x)
  }

  /** Node t's link and flag have their final values. */
  ghost predicate Settled(nodes: seq<Node>, labels: seq<string>, patterns: set<string>, t: nat)
    requires t < |nodes| == |labels|
  {
    && (if t == 0 then nodes[t].failure == 0 else LongestProper(labels, labels[t], nodes[t].failure))
    && (nodes[t].terminal <==> PatternEnds(patterns, labels[t]))
  }

  /** The finished automaton. */
  ghost predicate Automaton(nodes: seq<Node>, labels: seq<string>, patterns: set<string>) {
    && Trie(nodes, labels)
    && (forall p :: p in patterns ==> InTrie(labels, p))
    && (forall t :: 0 <= t < |nodes| ==> Settled(nodes, labels, patterns, t))
  }

  lemma SuffixTrans(z: string, y: string, x: string)
    requires IsSuffix(z, y) && IsSuffix(y, x)
    ensures IsSuffix(z, x)
  {
    assert x[|x| - |z|..] == y[|y| - |z|..];
  }

  lemma SuffixesNest(y: string, z: string, x: string)
    requires IsSuffix(y, x) && IsSuffix(z, x) && |y| <= |z|
    ensures IsSuffix(y, z)
  {
    assert z[|z| - |y|..] == x[|x| - |y|..];
  }

  lemma SuffixSnoc(y: string, x: string, c: char)
    requires IsSuffix(y, x)
    ensures IsSuffix(y + [c], x + [c])
  {
    assert (x + [c])[|x| - |y|..] == x[|x| - |y|..] + [c];
  }

  lemma SuffixOfSnoc(z: string, x: string, c: char)
    requires IsSuffix(z, x + [c]) && z != ""
    ensures z == z[..|z| - 1] + [c] && IsSuffix(z[..|z| - 1], x)
  {
    var y := z[..|z| - 1];
    assert z[|z| - 1] == (x + [c])[|x|];
    assert forall i :: 0 <= i < |y| ==> z[i] == (x + [c])[|x| + 1 - |z| + i];
    assert x[|x| - |y|..] == y;
  }

  /** The state of the fallback loops: from s, only suffixes of x no longer than
      label s can still be extended by c. */
  ghost predicate Chasing(labels: seq<string>, x: string, c: char, s: nat) {
    && s < |labels| && IsSuffix(labels[s], x)
    && forall y :: IsSuffix(y, x) && InTrie(labels, y) && InTrie(labels, y + [c]) ==> |y| <= |labels[s]|
  }

  lemma ChaseOn(nodes: seq<Node>, labels: seq<string>, patterns: set<string>, x: string, c: char, s: nat)
    requires Trie(nodes, labels) && Chasing(labels, x, c, s)
    requires 0 < s < |nodes| && Settled(nodes, labels, patterns, s) && c !in nodes[s].transitions
    ensures Chasing(labels, x, c, nodes[s].failure)
    ensures |labels[nodes[s].failure]| < |labels[s]|
  {
    var f := nodes[s].failure;
    SuffixTrans(labels[f], labels[s], x);
    forall y | IsSuffix(y, x) && InTrie(labels, y) && InTrie(labels, y + [c]) ensures |y| <= |labels[f]| {
      TransitionFound(nodes, labels, s, c);
      SuffixesNest(y, labels[s], x);
      assert y != labels[s];
    }
  }

  /** Where a chase over the suffixes of x ends is the longest suffix of x + c in the trie. */
  lemma ChaseEnd(nodes: seq<Node>, labels: seq<string>, x: string, c: char, s: nat, r: nat)
    requires Trie(nodes, labels) && Chasing(labels, x, c, s)
    requires s == 0 || c in nodes[s].transitions
    requires r == if c in nodes[s].transitions then nodes[s].transitions[c] else 0
    ensures LongestSuffix(labels, x + [c], r) && |labels[r]| <= |labels[s]| + 1
  {
    if c in nodes[s].transitions {
      SuffixSnoc(labels[s], x, c);
    }
    forall z | IsSuffix(z, x + [c]) && InTrie(labels, z) ensures |z| <= |labels[r]| {
      if z != "" {
        LastStep(nodes, labels, x, c, z);
        var y := z[..|z| - 1];
        assert |y| <= |labels[s]|;
        if s == 0 {
          assert y == "" == labels[0];
          TransitionFound(nodes, labels, 0, c);
        }
      }
    }
  }

  lemma LastStep(nodes: seq<Node>, labels: seq<string>, x: string, c: char, z: string)
    requires Trie(nodes, labels) && IsSuffix(z, x + [c]) && InTrie(labels, z) && z != ""
    ensures var y := z[..|z| - 1]; z == y + [c] && IsSuffix(y, x) && InTrie(labels, y)
  {
    SuffixOfSnoc(z, x, c);
    var t :| 0 <= t < |labels| && labels[t] == z;
    PrefixInTrie(nodes, labels, t, |z| - 1);
  }

  /** r labels the longest suffix of x in the trie, x itself included. */
  ghost predicate LongestSuffix(labels: seq<string>, x: string, r: nat) {
    && r < |labels| && IsSuffix(labels[r], x)
    && forall y :: IsSuffix(y, x) && InTrie(labels, y) ==> |y| <= |labels[r]|
  }

  lemma ProperSuffix(y: string, x: string)
    requires x != ""
    ensures IsSuffix(y, x) && |y| < |x| <==> IsSuffix(y, x[1..])
  {
    if |y| < |x| {
      assert x[1..][|x| - 1 - |y|..] == x[|x| - |y|..];
    }
  }

  lemma LongestProperIsLongest(labels: seq<string>, x: string, f: nat)
    requires x != ""
    ensures LongestProper(labels, x, f) <==> LongestSuffix(labels, x[1..], f)
  {
    forall y ensures IsSuffix(y, x) && |y| < |x| <==> IsSuffix(y, x[1..]) {
      ProperSuffix(y, x);
    }
  }

  /** The longest suffix in the trie sees every pattern that ends here. */
  lemma LongestSeesPatterns(labels: seq<string>, patterns: set<string>, x: string, r: nat)
    requires LongestSuffix(labels, x, r) && forall p :: p in patterns ==> InTrie(labels, p)
    ensures PatternEnds(patterns, x) <==> PatternEnds(patterns, labels[r])
  {
    if PatternEnds(patterns, x) {
      var p :| p in patterns && IsSuffix(p, x);
      SuffixesNest(p, labels[r], x);
    }
    if PatternEnds(patterns, labels[r]) {
      var p :| p in patterns && IsSuffix(p, labels[r]);
      SuffixTrans(p, labels[r], x);
    }
  }

  // ------------------------------------------------------------ inserting the patterns

  ghost predicate Inserted(nodes: seq<Node>, labels: seq<string>, patterns: set<string>) {
    && (forall p :: p in patterns ==> InTrie(labels, p))
    && (forall t :: 0 <= t < |nodes| ==>
        t < |labels| && nodes[t].failure == 0 && (nodes[t].terminal <==> labels[t] in patterns))
  }

  ghost function SetOf(patterns: seq<string>): set<string> {
    set p | p in patterns
  }

  ghost predicate StartsOne(patterns: set<string>, x: string) {
    exists p :: p in patterns && IsPrefix(x, p)
  }

  /** One pattern: walk, adding the missing nodes, and flag the end. */
  method InsertPattern(nodes0: seq<Node>, pattern: string, ghost labels0: seq<string>, ghost patterns: set<string>)
    returns (nodes: seq<Node>, ghost labels: seq<string>)
    requires Trie(nodes0, labels0) && Inserted(nodes0, labels0, patterns)
    ensures Trie(nodes, labels) && Inserted(nodes, labels, patterns + {pattern})
    ensures forall x :: InTrie(labels, x) <==> InTrie(labels0, x) || IsPrefix(x, pattern)
  {
    nodes, labels := nodes0, labels0;
    var state: nat, j := 0, 0;
    assert InTrie(labels, "") by { assert labels[0] == ""; }
    while j < |pattern|
      invariant 0 <= j <= |pattern| && state < |nodes|
      invariant Trie(nodes, labels) && Inserted(nodes, labels, patterns)
      invariant labels[state] == pattern[..j]
      invariant forall x :: InTrie(labels, x) <==> InTrie(labels0, x) || IsPrefix(x, pattern[..j])
    {
      var c := pattern[j];
      assert pattern[..j + 1] == pattern[..j] + [c];
      PrefixesOfSnoc(pattern[..j], c);
      TransitionFound(nodes, labels, state, c);
      if c in nodes[state].transitions {
        state := nodes[state].transitions[c];
      } else {
        var next := |nodes|;
        ghost var nodes1, labels1 := nodes, labels;
        nodes := nodes[state := nodes[state].(transitions := nodes[state].transitions[c := next])];
        nodes := nodes + [Node(map[], 0, false)];
        labels := labels + [labels[state] + [c]];
        ExtendTrie(nodes1, labels1, state, c, nodes, labels);
        state := next;
      }
      j := j + 1;
    }
    assert pattern[..j] == pattern;
    ghost var nodes1 := nodes;
    nodes := nodes[state := nodes[state].(terminal := true)];
    TrieIgnoresLinks(nodes1, nodes, labels);
    assert InTrie(labels, pattern);
  }

  lemma PrefixesOfSnoc(x: string, c: char)
    ensures forall y :: IsPrefix(y, x + [c]) <==> IsPrefix(y, x) || y == x + [c]
  {
    forall y ensures IsPrefix(y, x + [c]) <==> IsPrefix(y, x) || y == x + [c] {
      if y <= x + [c] && |y| <= |x| {
        assert (x + [c])[..|y|] == x[..|y|];
      }
    }
  }

  /** Failure links and flags are not part of the trie. */
  lemma TrieIgnoresLinks(nodes: seq<Node>, nodes2: seq<Node>, labels: seq<string>)
    requires Trie(nodes, labels) && |nodes2| == |nodes|
    requires forall t :: 0 <= t < |nodes| ==> nodes2[t].transitions == nodes[t].transitions
    ensures Trie(nodes2, labels)
  {
    forall t | 0 < t < |labels| ensures HasParent(nodes2, labels, t) {
      assert HasParent(nodes, labels, t);
      var s :| 0 <= s < |nodes| && IsParent(nodes, labels, s, t);
      assert IsParent(nodes2, labels, s, t);
    }
  }

  /** The pattern loop: the trie of all patterns' prefixes. */
  method InsertAll(patterns: seq<string>) returns (nodes: seq<Node>, ghost labels: seq<string>)
    ensures Trie(nodes, labels) && Inserted(nodes, labels, SetOf(patterns))
    ensures forall x :: InTrie(labels, x) <==> x == "" || StartsOne(SetOf(patterns), x)
  {
    nodes, labels := [Node(map[], 0, false)], [""];
    var i := 0;
    while i < |patterns|
      invariant 0 <= i <= |patterns|
      invariant Trie(nodes, labels) && Inserted(nodes, labels, SetOf(patterns[..i]))
      invariant forall x :: InTrie(labels, x) <==> x == "" || StartsOne(SetOf(patterns[..i]), x)
    {
      nodes, labels := InsertPattern(nodes, patterns[i], labels, SetOf(patterns[..i]));
      assert patterns[..i + 1] == patterns[..i] + [patterns[i]];
      assert SetOf(patterns[..i + 1]) == SetOf(patterns[..i]) + {patterns[i]};
      i := i + 1;
    }
    assert patterns[..i] == patterns;
  }

  // ------------------------------------------------------------ breadth-first failure links

  /** The queue discipline: everything ever queued is settled, the rest is as
      inserted; the queue is sorted by depth, and depths in it differ by at most one. */
  ghost predicate Frontier(nodes: seq<Node>, labels: seq<string>, patterns: set<string>,
                           pending: seq<nat>, done: set<nat>)
  {
    && Trie(nodes, labels)
    && (forall i, j :: 0 <= i < j < |pending| ==> pending[i] != pending[j])
    && (forall t :: t in pending ==> 0 < t < |nodes| && t !in done)
    && (forall t :: t in done ==> 0 < t < |nodes|)
    && (forall t :: 0 <= t < |nodes| ==>
          if t == 0 || t in pending || t in done then Settled(nodes, labels, patterns, t)
          else Fresh(nodes, labels, patterns, t))
  }

  ghost predicate Fresh(nodes: seq<Node>, labels: seq<string>, patterns: set<string>, t: nat)
    requires t < |nodes| == |labels|
  {
    nodes[t].failure == 0 && (nodes[t].terminal <==> labels[t] in patterns)
  }

  ghost predicate Sorted(labels: seq<string>, pending: seq<nat>, low: nat) {
    && (forall t :: t in pending ==> t < |labels| && low <= |labels[t]| <= low + 1)
    && (forall i :: 0 <= i < |pending| ==> pending[i] < |labels|)
    && (forall i, j :: 0 <= i < j < |pending| ==> |labels[pending[i]]| <= |labels[pending[j]]|)
  }

  ghost predicate QueueSorted(labels: seq<string>, pending: seq<nat>) {
    pending == [] || (pending[0] < |labels| && Sorted(labels, pending, |labels[pending[0]]|))
  }

  /** Children of the root and of every finished node are queued or finished. */
  ghost predicate ChildrenQueued(nodes: seq<Node>, pending: seq<nat>, done: set<nat>, s: nat)
    requires s < |nodes|
  {
    forall c :: c in nodes[s].transitions ==> nodes[s].transitions[c] in pending || nodes[s].transitions[c] in done
  }

  ghost predicate Expanded(nodes: seq<Node>, pending: seq<nat>, done: set<nat>) {
    forall s :: 0 <= s < |nodes| && (s == 0 || s in done) ==> ChildrenQueued(nodes, pending, done, s)
  }

  /** Whatever is queued or finished is a child of the root or of a finished node. */
  ghost predicate Rooted(nodes: seq<Node>, labels: seq<string>, pending: seq<nat>, done: set<nat>) {
    forall t :: 0 <= t < |labels| && (t in pending || t in done) ==>
      |labels[t]| == 1 || exists s :: s in done && s < |nodes| && t in nodes[s].transitions.Values
  }

  /** When a node of depth d is at the head, all nodes up to that depth are settled. */
  lemma {:induction false} ShallowSettled(nodes: seq<Node>, labels: seq<string>, patterns: set<string>,
                                          pending: seq<nat>, done: set<nat>, d: nat, t: nat)
    requires Frontier(nodes, labels, patterns, pending, done) && Expanded(nodes, pending, done)
    requires forall q :: q in pending ==> q < |labels| && |labels[q]| >= d
    requires t < |labels| && |labels[t]| <= d
    ensures t == 0 || t in pending || t in done
    decreases |labels[t]|
  {
    if t != 0 {
      assert HasParent(nodes, labels, t);
      var p :| 0 <= p < |nodes| && IsParent(nodes, labels, p, t);
      ShallowSettled(nodes, labels, patterns, pending, done, d, p);
      assert p == 0 || p in done;
      assert ChildrenQueued(nodes, pending, done, p);
    }
  }

  /** The inner while loop: fall back until c can be followed or the root is reached. */
  method FallBack(nodes: seq<Node>, start: nat, c: char, ghost labels: seq<string>, ghost patterns: set<string>,
                  ghost x: string)
    returns (s: nat, ghost steps: nat)
    requires Trie(nodes, labels) && Chasing(labels, x, c, start)
    requires forall t :: 0 <= t < |nodes| && |labels[t]| <= |labels[start]| ==> Settled(nodes, labels, patterns, t)
    ensures s < |nodes| && Chasing(labels, x, c, s) && (s == 0 || c in nodes[s].transitions)
    ensures steps + |labels[s]| <= |labels[start]|
  {
    s, steps := start, 0;
    while s != 0 && c !in nodes[s].transitions
      invariant s < |nodes| && Chasing(labels, x, c, s)
      invariant steps + |labels[s]| <= |labels[start]|
      decreases |labels[s]|
    {
      ChaseOn(nodes, labels, patterns, x, c, s);
      s := nodes[s].failure;
      steps := steps + 1;
    }
  }

  function Follow(nodes: seq<Node>, s: nat, c: char): nat
    requires s < |nodes|
  {
    if c in nodes[s].transitions then nodes[s].transitions[c] else 0
  }

  lemma StartChase(labels: seq<string>, x: string, c: char, f: nat)
    requires LongestSuffix(labels, x, f)
    ensures Chasing(labels, x, c, f)
  {
  }

  /** A settled node's link is where the chase for a child's link starts. */
  lemma FirstLink(nodes: seq<Node>, labels: seq<string>, patterns: set<string>, state: nat, c: char)
    requires Trie(nodes, labels) && 0 < state < |nodes| && Settled(nodes, labels, patterns, state)
    ensures labels[state] != "" && nodes[state].failure < |labels|
    ensures |labels[nodes[state].failure]| < |labels[state]|
    ensures Chasing(labels, labels[state][1..], c, nodes[state].failure)
  {
    hide IsSuffix, InTrie;
    assert HasParent(nodes, labels, state);
    LongestProperIsLongest(labels, labels[state], nodes[state].failure);
  }

  lemma LastLink(labels: seq<string>, x: string, c: char, link: nat)
    requires x != "" && LongestSuffix(labels, x[1..] + [c], link)
    ensures LongestProper(labels, x + [c], link)
  {
    hide LongestSuffix, LongestProper;
    assert x[1..] + [c] == (x + [c])[1..];
    LongestProperIsLongest(labels, x + [c], link);
  }

  /** The link of a child: chase from the parent's link, then follow c. */
  method LinkOf(nodes: seq<Node>, state: nat, c: char, ghost labels: seq<string>, ghost patterns: set<string>)
    returns (link: nat)
    requires Trie(nodes, labels) && 0 < state < |nodes|
    requires forall t :: 0 <= t < |nodes| && |labels[t]| <= |labels[state]| ==> Settled(nodes, labels, patterns, t)
    ensures link < |labels| && LongestProper(labels, labels[state] + [c], link) && |labels[link]| <= |labels[state]|
  {
    assert Settled(nodes, labels, patterns, state);
    hide Settled, LongestProper, LongestSuffix, Chasing, IsSuffix;
    FirstLink(nodes, labels, patterns, state, c);
    var fallback, _ := FallBack(nodes, nodes[state].failure, c, labels, patterns, labels[state][1..]);
    link := Follow(nodes, fallback, c);
    ChaseEnd(nodes, labels, labels[state][1..], c, fallback, link);
    LastLink(labels, labels[state], c, link);
  }

  /** A child whose parent is being expanded gets its link and flag. */
  method SettleChild(nodes0: seq<Node>, state: nat, c: char, ghost labels: seq<string>, ghost patterns: set<string>)
    returns (nodes: seq<Node>)
    requires Trie(nodes0, labels) && (forall p :: p in patterns ==> InTrie(labels, p))
    requires 0 < state < |nodes0| && c in nodes0[state].transitions
    requires forall t :: 0 <= t < |nodes0| && |labels[t]| <= |labels[state]| ==> Settled(nodes0, labels, patterns, t)
    requires Fresh(nodes0, labels, patterns, nodes0[state].transitions[c])
    ensures |nodes| == |nodes0| && Settled(nodes, labels, patterns, nodes0[state].transitions[c])
    ensures forall t :: 0 <= t < |nodes| ==> nodes[t].transitions == nodes0[t].transitions
    ensures forall t :: 0 <= t < |nodes| && t != nodes0[state].transitions[c] ==> nodes[t] == nodes0[t]
  {
    hide LongestProper, PatternEnds, InTrie;
    var next := nodes0[state].transitions[c];
    assert labels[next] == labels[state] + [c];
    var link := LinkOf(nodes0, state, c, labels, patterns);
    FlagMeaning(labels, patterns, labels[next], link);
    assert Settled(nodes0, labels, patterns, link);
    nodes := nodes0[next := nodes0[next].(failure := link)];
    if nodes[nodes[next].failure].terminal {
      nodes := nodes[next := nodes[next].(terminal := true)];
    }
  }

  /** A pattern ends at x iff x is one or a pattern ends at its failure link. */
  lemma FlagMeaning(labels: seq<string>, patterns: set<string>, x: string, f: nat)
    requires LongestProper(labels, x, f) && forall p :: p in patterns ==> InTrie(labels, p)
    ensures f < |labels|
    ensures PatternEnds(patterns, x) <==> x in patterns || PatternEnds(patterns, labels[f])
  {
    if PatternEnds(patterns, x) {
      var p :| p in patterns && IsSuffix(p, x);
      if |p| < |x| {
        SuffixesNest(p, labels[f], x);
      }
    }
    if x in patterns {
      assert IsSuffix(x, x);
    }
    if PatternEnds(patterns, labels[f]) {
      var p :| p in patterns && IsSuffix(p, labels[f]);
      SuffixTrans(p, labels[f], x);
    }
  }

  /** Settling one fresh child and queueing it keeps the queue discipline. */
  lemma FrontierStep(nodes: seq<Node>, nodes2: seq<Node>, labels: seq<string>, patterns: set<string>,
                     pending: seq<nat>, done: set<nat>, next: nat)
    requires Frontier(nodes, labels, patterns, pending, done) && |nodes2| == |nodes|
    requires 0 < next < |nodes| && next !in pending && next !in done
    requires Settled(nodes2, labels, patterns, next)
    requires forall t :: 0 <= t < |nodes| ==> nodes2[t].transitions == nodes[t].transitions
    requires forall t :: 0 <= t < |nodes| && t != next ==> nodes2[t] == nodes[t]
    ensures Frontier(nodes2, labels, patterns, pending + [next], done)
  {
    hide Trie, LongestProper, PatternEnds;
    TrieIgnoresLinks(nodes, nodes2, labels);
    forall t | 0 <= t < |nodes2|
      ensures if t == 0 || t in pending + [next] || t in done then Settled(nodes2, labels, patterns, t)
              else Fresh(nodes2, labels, patterns, t)
    {
      if t != next {
        assert nodes2[t] == nodes[t];
        assert t in pending + [next] <==> t in pending;
      }
    }
  }

  /** The expansion of one node under way: its children for todo still wait. */
  ghost predicate Expanding(nodes: seq<Node>, labels: seq<string>, pending: seq<nat>, done: set<nat>, state: nat,
                            todo: set<char>)
  {
    && 0 < state < |nodes| == |labels| && state in done
    && (forall s :: 0 <= s < |nodes| && s != state && (s == 0 || s in done) ==> ChildrenQueued(nodes, pending, done, s))
    && (forall c :: c in nodes[state].transitions ==>
          if c in todo then nodes[state].transitions[c] !in pending && nodes[state].transitions[c] !in done
          else nodes[state].transitions[c] in pending)
    && todo <= nodes[state].transitions.Keys
    && Rooted(nodes, labels, pending, done)
    && Sorted(labels, pending, |labels[state]|)
    && (forall t :: 0 <= t < |labels| && |labels[t]| <= |labels[state]| ==> t == 0 || t in pending || t in done)
  }

  lemma ExpandingStep(nodes: seq<Node>, nodes2: seq<Node>, labels: seq<string>, pending: seq<nat>, done: set<nat>,
                      state: nat, todo: set<char>, c: char)
    requires Trie(nodes, labels) && Expanding(nodes, labels, pending, done, state, todo) && c in todo
    requires |nodes2| == |nodes| && forall t :: 0 <= t < |nodes| ==> nodes2[t].transitions == nodes[t].transitions
    ensures Expanding(nodes2, labels, pending + [nodes[state].transitions[c]], done, state, todo - {c})
  {
    var next := nodes[state].transitions[c];
    var longer := pending + [next];
    assert labels[next] == labels[state] + [c];
    forall s | 0 <= s < |nodes2| && s != state && (s == 0 || s in done)
      ensures ChildrenQueued(nodes2, longer, done, s)
    {
      assert ChildrenQueued(nodes, pending, done, s);
    }
    forall b | b in nodes2[state].transitions
      ensures if b in todo - {c} then nodes2[state].transitions[b] !in longer && nodes2[state].transitions[b] !in done
              else nodes2[state].transitions[b] in longer
    {
      assert labels[nodes[state].transitions[b]] == labels[state] + [b];
      assert b != c ==> (labels[state] + [b])[|labels[state]|] != (labels[state] + [c])[|labels[state]|];
    }
    SortedStep(labels, pending, |labels[state]|, next);
    forall t | 0 <= t < |labels| && (t in longer || t in done)
      ensures |labels[t]| == 1 || exists s :: s in done && s < |nodes2| && t in nodes2[s].transitions.Values
    {
      if t == next {
        assert next in nodes2[state].transitions.Values;
      } else if |labels[t]| != 1 {
        var s :| s in done && s < |nodes| && t in nodes[s].transitions.Values;
        assert t in nodes2[s].transitions.Values;
      }
    }
  }

  lemma SortedStep(labels: seq<string>, pending: seq<nat>, low: nat, next: nat)
    requires Sorted(labels, pending, low) && next < |labels| && |labels[next]| == low + 1
    ensures Sorted(labels, pending + [next], low)
  {
    forall i | 0 <= i < |pending| ensures |labels[pending[i]]| <= low + 1 {
      assert pending[i] in pending;
    }
  }

  /** A child whose parent is only now being expanded has not been queued. */
  lemma ChildWaits(nodes: seq<Node>, labels: seq<string>, pending: seq<nat>, done: set<nat>, state: nat, c: char)
    requires Trie(nodes, labels) && Rooted(nodes, labels, pending, done)
    requires 0 < state < |nodes| && state !in done && c in nodes[state].transitions
    ensures nodes[state].transitions[c] !in pending && nodes[state].transitions[c] !in done
  {
    var next := nodes[state].transitions[c];
    assert labels[next] == labels[state] + [c];
    assert HasParent(nodes, labels, state);
    forall s, b | s in done && s < |nodes| && b in nodes[s].transitions ensures nodes[s].transitions[b] != next {
      assert labels[nodes[s].transitions[b]] == labels[s] + [b];
      SnocDiffers(labels[s], b, labels[state], c);
    }
  }

  lemma SnocDiffers(x: string, b: char, y: string, c: char)
    requires x != y
    ensures x + [b] != y + [c]
  {
    assert (x + [b])[..|x| + 1 - 1] == x && (y + [c])[..|y| + 1 - 1] == y;
  }

  lemma ExpandReady(nodes: seq<Node>, labels: seq<string>, patterns: set<string>, pending: seq<nat>, done: set<nat>,
                    state: nat, todo: set<char>, c: char)
    requires Frontier(nodes, labels, patterns, pending, done)
    requires Expanding(nodes, labels, pending, done, state, todo) && c in todo
    ensures 0 < state < |nodes| == |labels| && Trie(nodes, labels) && c in nodes[state].transitions
    ensures var next := nodes[state].transitions[c];
            0 < next < |nodes| && next !in pending && next !in done && Fresh(nodes, labels, patterns, next)
    ensures forall t :: 0 <= t < |nodes| && |labels[t]| <= |labels[state]| ==> Settled(nodes, labels, patterns, t)
  {
    hide LongestProper, PatternEnds, InTrie;
  }

  lemma ExpandedAll(nodes: seq<Node>, labels: seq<string>, pending: seq<nat>, done: set<nat>, state: nat)
    requires Expanding(nodes, labels, pending, done, state, {})
    ensures Expanded(nodes, pending, done) && Rooted(nodes, labels, pending, done) && QueueSorted(labels, pending)
  {
    HeadIsLow(labels, pending, |labels[state]|);
    assert ChildrenQueued(nodes, pending, done, state);
  }

  /** The body of the breadth-first loop. */
  method Expand(nodes0: seq<Node>, ghost labels: seq<string>, ghost patterns: set<string>, pending0: seq<nat>,
                ghost done: set<nat>)
    returns (nodes: seq<Node>, pending: seq<nat>)
    requires Frontier(nodes0, labels, patterns, pending0, done) && Expanded(nodes0, pending0, done)
    requires Rooted(nodes0, labels, pending0, done) && (forall p :: p in patterns ==> InTrie(labels, p))
    requires pending0 != [] && QueueSorted(labels, pending0)
    ensures |nodes| == |nodes0| && forall t :: 0 <= t < |nodes| ==> nodes[t].transitions == nodes0[t].transitions
    ensures Frontier(nodes, labels, patterns, pending, done + {pending0[0]})
    ensures Expanded(nodes, pending, done + {pending0[0]}) && Rooted(nodes, labels, pending, done + {pending0[0]})
    ensures QueueSorted(labels, pending)
  {
    var state := pending0[0];
    assert state in pending0;
    nodes, pending := nodes0, pending0[1..];
    ghost var done2 := done + {state};
    PopFrontier(nodes, labels, patterns, pending0, done);
    var todo := nodes[state].transitions.Keys;
    while todo != {}
      invariant |nodes| == |nodes0| && forall t :: 0 <= t < |nodes| ==> nodes[t].transitions == nodes0[t].transitions
      invariant Frontier(nodes, labels, patterns, pending, done2)
      invariant Expanding(nodes, labels, pending, done2, state, todo)
    {
      var c :| c in todo;
      ExpandReady(nodes, labels, patterns, pending, done2, state, todo, c);
      hide Trie, Settled, Fresh, Frontier, Expanding;
      var next := nodes[state].transitions[c];
      ghost var nodes1 := nodes;
      nodes := SettleChild(nodes, state, c, labels, patterns);
      FrontierStep(nodes1, nodes, labels, patterns, pending, done2, next);
      ExpandingStep(nodes1, nodes, labels, pending, done2, state, todo, c);
      pending := pending + [next];
      todo := todo - {c};
    }
    ExpandedAll(nodes, labels, pending, done2, state);
  }

  lemma HeadIsLow(labels: seq<string>, pending: seq<nat>, low: nat)
    requires Sorted(labels, pending, low)
    ensures QueueSorted(labels, pending)
  {
    if pending != [] {
      assert pending[0] in pending;
      forall t | t in pending ensures |labels[pending[0]]| <= |labels[t]| {
        var i :| 0 <= i < |pending| && pending[i] == t;
      }
    }
  }

  lemma PopQueue(nodes: seq<Node>, labels: seq<string>, patterns: set<string>, pending: seq<nat>, done: set<nat>)
    requires Frontier(nodes, labels, patterns, pending, done) && pending != []
    ensures Frontier(nodes, labels, patterns, pending[1..], done + {pending[0]})
  {
    hide Trie, Settled, Fresh;
    assert pending[0] in pending;
    assert forall t :: t in pending <==> t == pending[0] || t in pending[1..];
  }

  lemma PopSorted(labels: seq<string>, pending: seq<nat>)
    requires QueueSorted(labels, pending) && pending != []
    ensures pending[0] < |labels| && Sorted(labels, pending[1..], |labels[pending[0]]|)
    ensures forall q :: q in pending ==> q < |labels| && |labels[q]| >= |labels[pending[0]]|
  {
    assert forall t :: t in pending[1..] ==> t in pending;
  }

  lemma PopFrontier(nodes: seq<Node>, labels: seq<string>, patterns: set<string>, pending: seq<nat>, done: set<nat>)
    requires Frontier(nodes, labels, patterns, pending, done) && Expanded(nodes, pending, done)
    requires Rooted(nodes, labels, pending, done)
    requires pending != [] && QueueSorted(labels, pending)
    ensures Frontier(nodes, labels, patterns, pending[1..], done + {pending[0]})
    ensures Expanding(nodes, labels, pending[1..], done + {pending[0]}, pending[0], nodes[pending[0]].transitions.Keys)
  {
    hide Settled, Fresh, Sorted, QueueSorted;
    PopQueue(nodes, labels, patterns, pending, done);
    PopSorted(labels, pending);
    var state := pending[0];
    var rest, done2 := pending[1..], done + {state};
    assert state in pending;
    assert forall t :: t in pending <==> t == state || t in rest;
    forall t | 0 <= t < |labels| && |labels[t]| <= |labels[state]| ensures t == 0 || t in rest || t in done2 {
      ShallowSettled(nodes, labels, patterns, pending, done, |labels[state]|, t);
    }
    hide Frontier;
    forall c | c in nodes[state].transitions
      ensures nodes[state].transitions[c] !in rest && nodes[state].transitions[c] !in done2
    {
      ChildWaits(nodes, labels, pending, done, state, c);
      assert nodes[state].transitions[c] != state by { ChildDiffers(nodes, labels, state, c); }
    }
    forall s | 0 <= s < |nodes| && s != state && (s == 0 || s in done2) ensures ChildrenQueued(nodes, rest, done2, s) {
      assert ChildrenQueued(nodes, pending, done, s);
    }
  }

  lemma ChildDiffers(nodes: seq<Node>, labels: seq<string>, s: nat, c: char)
    requires Trie(nodes, labels) && s < |nodes| && c in nodes[s].transitions
    ensures nodes[s].transitions[c] != s
  {
    assert labels[nodes[s].transitions[c]] == labels[s] + [c];
  }

  /** The whole breadth-first pass. */
  method LinkAll(nodes0: seq<Node>, ghost labels: seq<string>, ghost patterns: set<string>) returns (nodes: seq<Node>)
    requires Trie(nodes0, labels) && Inserted(nodes0, labels, patterns) && "" !in patterns
    ensures Automaton(nodes, labels, patterns)
  {
    nodes := nodes0;
    var pending := RootChildren(nodes, labels, patterns);
    ghost var done: set<nat> := {};
    while pending != []
      invariant |nodes| == |nodes0| && forall t :: 0 <= t < |nodes| ==> nodes[t].transitions == nodes0[t].transitions
      invariant Frontier(nodes, labels, patterns, pending, done) && Expanded(nodes, pending, done)
      invariant Rooted(nodes, labels, pending, done) && done <= Upto(|nodes|)
      invariant QueueSorted(labels, pending)
      decreases |nodes0| - |done|
    {
      hide Trie, Settled, Fresh, Expanded, Rooted, Sorted;
      ghost var state := pending[0];
      assert state in pending && state !in done && state < |nodes|;
      Fewer(done, state, |nodes|);
      nodes, pending := Expand(nodes, labels, patterns, pending, done);
      done := done + {state};
    }
    forall t | 0 <= t < |nodes| ensures Settled(nodes, labels, patterns, t) {
      ShallowSettled(nodes, labels, patterns, pending, done, |labels[t]|, t);
    }
  }

  ghost function Upto(n: nat): (r: set<nat>)
    ensures |r| == n && forall t: nat :: t in r <==> t < n
  {
    if n == 0 then {} else Upto(n - 1) + {n - 1}
  }

  lemma Fewer(done: set<nat>, t: nat, n: nat)
    requires done <= Upto(n) && t < n && t !in done
    ensures done + {t} <= Upto(n) && |done| < n && |done + {t}| == |done| + 1
  {
    var rest := Upto(n) - (done + {t});
    assert Upto(n) == done + {t} + rest;
  }

  /** The queue starts with the root's children, whose link stays the root. */
  method RootChildren(nodes: seq<Node>, ghost labels: seq<string>, ghost patterns: set<string>)
    returns (pending: seq<nat>)
    requires Trie(nodes, labels) && Inserted(nodes, labels, patterns) && "" !in patterns
    ensures Frontier(nodes, labels, patterns, pending, {}) && Expanded(nodes, pending, {})
    ensures Rooted(nodes, labels, pending, {})
    ensures QueueSorted(labels, pending)
  {
    pending := [];
    var todo := nodes[0].transitions.Keys;
    while todo != {}
      invariant todo <= nodes[0].transitions.Keys
      invariant forall i, j :: 0 <= i < j < |pending| ==> pending[i] != pending[j]
      invariant forall t :: t in pending ==> 0 < t < |nodes| && |labels[t]| == 1
      invariant forall c :: c in nodes[0].transitions ==> (c in todo <==> nodes[0].transitions[c] !in pending)
    {
      var c :| c in todo;
      var next := nodes[0].transitions[c];
      assert labels[next] == labels[0] + [c];
      forall b | b in nodes[0].transitions && b != c ensures nodes[0].transitions[b] != next {
        assert labels[nodes[0].transitions[b]] == labels[0] + [b];
        assert (labels[0] + [b])[0] != (labels[0] + [c])[0];
      }
      pending := pending + [next];
      todo := todo - {c};
    }
    RootSettled(nodes, labels, patterns, pending);
  }

  lemma ShortEnds(patterns: set<string>, x: string)
    requires |x| <= 1 && "" !in patterns
    ensures PatternEnds(patterns, x) <==> x in patterns
  {
    if x in patterns {
      assert IsSuffix(x, x);
    }
    if p :| p in patterns && IsSuffix(p, x) {
      assert |p| == |x|;
    }
  }

  lemma ShortSettled(nodes: seq<Node>, labels: seq<string>, patterns: set<string>, t: nat)
    requires Trie(nodes, labels) && Inserted(nodes, labels, patterns) && "" !in patterns
    requires t < |nodes| && (t == 0 || |labels[t]| == 1)
    ensures Settled(nodes, labels, patterns, t)
  {
    ShortEnds(patterns, labels[t]);
    hide PatternEnds;
    assert IsSuffix(labels[0], labels[t]);
  }

  lemma RootSettled(nodes: seq<Node>, labels: seq<string>, patterns: set<string>, pending: seq<nat>)
    requires Trie(nodes, labels) && Inserted(nodes, labels, patterns) && "" !in patterns
    requires forall i, j :: 0 <= i < j < |pending| ==> pending[i] != pending[j]
    requires forall t :: t in pending ==> 0 < t < |nodes| && |labels[t]| == 1
    ensures Frontier(nodes, labels, patterns, pending, {})
    ensures QueueSorted(labels, pending)
  {
    forall t | t in pending || t == 0 ensures Settled(nodes, labels, patterns, t) {
      ShortSettled(nodes, labels, patterns, t);
    }
    hide Settled, IsSuffix, InTrie;
    forall i | 0 <= i < |pending| ensures pending[i] < |labels| && |labels[pending[i]]| == 1 {
      assert pending[i] in pending;
    }
  }

  // ------------------------------------------------------------ scanning

  ghost predicate AnyOccurs(patterns: set<string>, text: string) {
    exists p :: p in patterns && OccursIn(p, text)
  }

  /** Some pattern ends within the first n characters. */
  ghost predicate SeenBy(patterns: set<string>, text: string, n: nat)
    requires n <= |text|
  {
    exists i :: 0 <= i <= n && PatternEnds(patterns, text[..i])
  }

  lemma SeenIsOccurs(patterns: set<string>, text: string)
    ensures SeenBy(patterns, text, |text|) <==> AnyOccurs(patterns, text)
  {
    if SeenBy(patterns, text, |text|) {
      var i :| 0 <= i <= |text| && PatternEnds(patterns, text[..i]);
      var p :| p in patterns && IsSuffix(p, text[..i]);
      assert text[i - |p|..i] == text[..i][i - |p|..] == p;
      assert OccursIn(p, text);
    }
    if p :| p in patterns && OccursIn(p, text) {
      var a, b :| 0 <= a <= b <= |text| && text[a..b] == p;
      assert text[..b][a..] == text[a..b];
      assert IsSuffix(p, text[..b]);
      assert PatternEnds(patterns, text[..b]);
    }
  }

  /** One character of the scan. */
  method Advance(nodes: seq<Node>, state0: nat, c: char, ghost labels: seq<string>, ghost patterns: set<string>,
                 ghost x: string)
    returns (state: nat, ghost fell: nat)
    requires Automaton(nodes, labels, patterns) && state0 < |nodes| && LongestSuffix(labels, x, state0)
    ensures state < |nodes| && LongestSuffix(labels, x + [c], state)
    ensures fell + |labels[state]| <= |labels[state0]| + 1
    ensures nodes[state].terminal <==> PatternEnds(patterns, x + [c])
  {
    StartChase(labels, x, c, state0);
    hide LongestSuffix, Chasing, InTrie, PatternEnds, Settled;
    var s;
    s, fell := FallBack(nodes, state0, c, labels, patterns, x);
    state := Follow(nodes, s, c);
    ChaseEnd(nodes, labels, x, c, s, state);
    InRange(labels, x + [c], state);
    LongestSeesPatterns(labels, patterns, x + [c], state);
    FlagIsEnd(nodes, labels, patterns, state);
  }

  /** The scan of validate_query: it stops at the first flagged state. It finds
      something iff some pattern occurs in the text, with at most one fallback
      step per character over the whole scan. */
  method Scan(nodes: seq<Node>, text: string, ghost labels: seq<string>, ghost patterns: set<string>)
    returns (found: bool, ghost steps: nat)
    requires Automaton(nodes, labels, patterns) && "" !in patterns
    ensures found <==> AnyOccurs(patterns, text)
    ensures steps <= |text|
  {
    hide *;
    var state := 0;
    steps := 0;
    var i := 0;
    SeenIsOccurs(patterns, text);
    ScanStart(nodes, labels, patterns);
    SeenStart(patterns, text);
    assert text[..0] == "";
    while i < |text|
      invariant 0 <= i <= |text| && state < |nodes|
      invariant LongestSuffix(labels, text[..i], state)
      invariant !SeenBy(patterns, text, i)
      invariant steps + |labels[state]| <= i
    {
      assert text[..i + 1] == text[..i] + [text[i]];
      ghost var fell;
      state, fell := Advance(nodes, state, text[i], labels, patterns, text[..i]);
      steps := steps + fell;
      SeenStep(patterns, text, i);
      if nodes[state].terminal { return true, steps; }
      i := i + 1;
    }
    return false, steps;
  }

  lemma SeenStart(patterns: set<string>, text: string)
    requires !PatternEnds(patterns, "")
    ensures !SeenBy(patterns, text, 0)
  {
    assert text[..0] == "";
  }

  lemma SeenStep(patterns: set<string>, text: string, n: nat)
    requires n < |text|
    ensures SeenBy(patterns, text, n + 1) <==> SeenBy(patterns, text, n) || PatternEnds(patterns, text[..n + 1])
    ensures PatternEnds(patterns, text[..n + 1]) ==> SeenBy(patterns, text, |text|)
  {
    hide PatternEnds;
  }

  lemma ScanStart(nodes: seq<Node>, labels: seq<string>, patterns: set<string>)
    requires Automaton(nodes, labels, patterns) && "" !in patterns
    ensures |nodes| > 0 && |labels| == |nodes| && labels[0] == ""
    ensures LongestSuffix(labels, "", 0) && !PatternEnds(patterns, "")
  {
    forall p | p in patterns ensures !IsSuffix(p, "") {
      assert p != "";
    }
  }

  lemma InRange(labels: seq<string>, x: string, r: nat)
    requires LongestSuffix(labels, x, r)
    ensures r < |labels|
  {
  }

  lemma FlagIsEnd(nodes: seq<Node>, labels: seq<string>, patterns: set<string>, t: nat)
    requires t < |nodes| == |labels| && Settled(nodes, labels, patterns, t)
    ensures nodes[t].terminal <==> PatternEnds(patterns, labels[t])
  {
  }
}
