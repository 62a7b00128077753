/** The egress boundary of privacy_search.py: the sanitizer built from protected
    terms, and the pipeline that checks every query before the first search. */
module PrivacySearch {
  import opened Common
  import opened AhoCorasick

  const MAX_ABSTRACT_QUERIES := 16
  const MAX_QUERY_BYTES := 4096
  const MAX_TOTAL_QUERY_BYTES := 16384
  const MAX_PII_TERMS := 100000
  const MAX_PII_TERM_BYTES := 4096

  /** str.strip, the UTF-8 length, and NFKC followed by casefold. */
  datatype TextRules = TextRules(strip: string -> string, utf8Length: string -> nat, normalize: string -> string)

  /** What the Unicode tables guarantee. */
  ghost predicate RulesOk(rules: TextRules) {
    && (forall x :: x != "" ==> rules.normalize(x) != "")
    && (forall x :: rules.strip(rules.strip(x)) == rules.strip(x))
  }

  datatype Verdict = Clean | Violation | Malformed

  /** The text is accepted by the size checks. */
  predicate Acceptable(rules: TextRules, query: string, limit: nat) {
    rules.strip(query) != "" && rules.utf8Length(rules.strip(query)) <= limit
  }

  ghost function TermSet(rules: TextRules, terms: seq<string>): set<string> {
    set t | t in terms :: rules.normalize(rules.strip(t))
  }

  class EgressSanitizer {
    const rules: TextRules
    const nodes: seq<Node>
    ghost const labels: seq<string>
    ghost const patterns: set<string>

    ghost predicate Valid() {
      Automaton(nodes, labels, patterns) && "" !in patterns
    }

    constructor (rules: TextRules, nodes: seq<Node>, ghost labels: seq<string>, ghost patterns: set<string>)
      requires Automaton(nodes, labels, patterns) && "" !in patterns
      ensures Valid() && this.rules == rules && this.patterns == patterns
    {
      this.rules, this.nodes, this.labels, this.patterns := rules, nodes, labels, patterns;
    }

    /** __init__: null stands for its ValueError. */
    static method Create(rules: TextRules, terms: seq<string>) returns (s: EgressSanitizer?)
      requires RulesOk(rules)
      ensures s == null <==>
              || (exists t :: t in terms && (rules.strip(t) == "" || rules.utf8Length(rules.strip(t)) > 4096))
              || |TermSet(rules, terms)| > 100000
      ensures s != null ==> fresh(s) && s.Valid() && s.rules == rules && s.patterns == TermSet(rules, terms)
      ensures s != null ==>
                forall p :: p in s.patterns <==> exists t :: t in terms && p == rules.normalize(rules.strip(t))
    {
      var normalized: set<string> := {};
      var i := 0;
      while i < |terms|
        invariant 0 <= i <= |terms| && normalized == TermSet(rules, terms[..i])
        invariant forall t :: t in terms[..i] ==> Acceptable(rules, t, MAX_PII_TERM_BYTES)
        invariant |normalized| <= MAX_PII_TERMS && "" !in normalized
      {
        var t := terms[i];
        if !Acceptable(rules, t, MAX_PII_TERM_BYTES) { return null; }
        assert terms[..i + 1] == terms[..i] + [t];
        normalized := normalized + {rules.normalize(rules.strip(t))};
        assert normalized == TermSet(rules, terms[..i + 1]);
        if |normalized| > MAX_PII_TERMS {
          Grows(rules, terms, i + 1);
          return null;
        }
        i := i + 1;
      }
      assert terms[..i] == terms;
      var patterns := Sequenced(normalized);
      var nodes, labels := InsertAll(patterns);
      nodes := LinkAll(nodes, labels, normalized);
      s := new EgressSanitizer(rules, nodes, labels, normalized);
    }

    static lemma Grows(rules: TextRules, terms: seq<string>, n: nat)
      requires n <= |terms|
      ensures |TermSet(rules, terms[..n])| <= |TermSet(rules, terms)|
    {
      var a, b := TermSet(rules, terms[..n]), TermSet(rules, terms);
      SubsetSize(a, b);
    }

    /** tuple(sorted(terms)), in whatever order. */
    static method Sequenced(terms: set<string>) returns (list: seq<string>)
      ensures SetOf(list) == terms
    {
      list := [];
      var todo := terms;
      while todo != {}
        invariant SetOf(list) == terms - todo && todo <= terms
      {
        var t :| t in todo;
        assert SetOf(list + [t]) == SetOf(list) + {t};
        list := list + [t];
        todo := todo - {t};
      }
    }

    /** validate_query: a violation is raised iff some protected term occurs in
        the normalised query, wherever it starts. */
    method ValidateQuery(query: string) returns (v: Verdict)
      requires Valid()
      ensures v == Malformed <==> rules.strip(query) == "" || rules.utf8Length(rules.strip(query)) > 4096
      ensures v == Violation <==> v != Malformed && Leaks(query)
      ensures v == Violation <==>
              && v != Malformed
              && exists p :: p in patterns && OccursIn(p, rules.normalize(rules.strip(query)))
    {
      if !Acceptable(rules, query, MAX_QUERY_BYTES) { return Malformed; }
      var found, _ := Scan(nodes, rules.normalize(rules.strip(query)), labels, patterns);
      v := if found then Violation else Clean;
    }

    ghost predicate Leaks(query: string) {
      AnyOccurs(patterns, rules.normalize(rules.strip(query)))
    }
  }

  ghost function TotalBytes(rules: TextRules, queries: seq<string>): nat {
    if queries == [] then 0
    else TotalBytes(rules, queries[..|queries| - 1]) + rules.utf8Length(rules.strip(queries[|queries| - 1]))
  }

  /** What _validate_abstract_queries demands. */
  ghost predicate WellSized(rules: TextRules, queries: seq<string>) {
    && 0 < |queries| <= 16
    && (forall q :: q in queries ==> rules.strip(q) != "" && rules.utf8Length(rules.strip(q)) <= 4096)
    && TotalBytes(rules, queries) <= 16384
  }

  method CleanQueries(rules: TextRules, queries: seq<string>) returns (ok: bool, cleaned: seq<string>)
    ensures ok <==> WellSized(rules, queries)
    ensures ok ==> |cleaned| == |queries| && forall i :: 0 <= i < |queries| ==> cleaned[i] == rules.strip(queries[i])
  {
    cleaned := [];
    if queries == [] || |queries| > MAX_ABSTRACT_QUERIES { return false, []; }
    var total := 0;
    var i := 0;
    while i < |queries|
      invariant 0 <= i <= |queries| && |cleaned| == i
                && total == TotalBytes(rules, queries[..i]) <= MAX_TOTAL_QUERY_BYTES
      invariant forall j :: 0 <= j < i ==>
                cleaned[j] == rules.strip(queries[j]) && Acceptable(rules, queries[j], MAX_QUERY_BYTES)
    {
      if !Acceptable(rules, queries[i], MAX_QUERY_BYTES) { return false, []; }
      assert queries[..i + 1][..i] == queries[..i];
      total := total + rules.utf8Length(rules.strip(queries[i]));
      if total > MAX_TOTAL_QUERY_BYTES {
        TotalGrows(rules, queries, i + 1);
        return false, [];
      }
      cleaned := cleaned + [rules.strip(queries[i])];
      i := i + 1;
    }
    assert queries[..i] == queries;
    ok := true;
  }

  lemma {:induction false} TotalGrows(rules: TextRules, queries: seq<string>, n: nat)
    requires n <= |queries|
    ensures TotalBytes(rules, queries[..n]) <= TotalBytes(rules, queries)
    decreases |queries|
  {
    if n < |queries| {
      var init := queries[..|queries| - 1];
      TotalGrows(rules, init, n);
      assert init[..n] == queries[..n];
    } else {
      assert queries[..n] == queries;
    }
  }

  /** retrieve: all or nothing. No query reaches the searcher unless every query
      of the intent is clean; calls records the queries handed to it. */
  method Retrieve(sanitizer: EgressSanitizer, queries: seq<string>, searcher: string -> seq<string>)
    returns (v: Verdict, results: seq<string>, calls: seq<string>)
    requires sanitizer.Valid() && RulesOk(sanitizer.rules)
    ensures v == Malformed <==> !WellSized(sanitizer.rules, queries)
    ensures v == Violation <==> WellSized(sanitizer.rules, queries) && exists q :: q in queries && sanitizer.Leaks(q)
    ensures v != Clean ==> calls == [] && results == []
    ensures v == Clean ==> |calls| == |queries| && forall i :: 0 <= i < |queries| ==>
            calls[i] == sanitizer.rules.strip(queries[i])
    ensures results == Concatenated(searcher, calls)
    ensures exists cuts :: AnswersAt(searcher, calls, results, cuts)
  {
    hide AnswersAt;
    results, calls := [], [];
    ghost var none := AnswersInOrder(searcher, []);
    var ok, cleaned := CleanQueries(sanitizer.rules, queries);
    if !ok { return Malformed, [], []; }
    var i := 0;
    while i < |cleaned|
      invariant 0 <= i <= |cleaned|
      invariant forall j :: 0 <= j < i ==> !sanitizer.Leaks(queries[j])
    {
      assert queries[i] in queries;
      assert Acceptable(sanitizer.rules, queries[i], MAX_QUERY_BYTES);
      var verdict := sanitizer.ValidateQuery(cleaned[i]);
      if verdict != Clean { return Violation, [], []; }
      i := i + 1;
    }
    i := 0;
    while i < |cleaned|
      invariant 0 <= i <= |cleaned| && calls == cleaned[..i]
      invariant results == Concatenated(searcher, calls)
    {
      assert cleaned[..i + 1][..i] == cleaned[..i];
      results := results + searcher(cleaned[i]);
      calls := calls + [cleaned[i]];
      i := i + 1;
    }
    v := Clean;
    ghost var cuts := AnswersInOrder(searcher, calls);
  }

  /** What the searcher answers to each call stands between two cuts, in the order of the calls. */
  ghost predicate AnswersAt(searcher: string -> seq<string>, calls: seq<string>, results: seq<string>, cuts: seq<int>) {
    && |cuts| == |calls| + 1 && cuts[0] == 0 && cuts[|calls|] == |results|
    && forall i :: 0 <= i < |calls| ==> AnswerAt(searcher(calls[i]), results, cuts, i)
  }

  ghost predicate AnswerAt(answer: seq<string>, results: seq<string>, cuts: seq<int>, i: int) {
    && 0 <= i < |cuts| - 1 && 0 <= cuts[i] <= cuts[i + 1] <= |results| && results[cuts[i]..cuts[i + 1]] == answer
  }

  lemma {:induction false} AnswersInOrder(searcher: string -> seq<string>, calls: seq<string>) returns (cuts: seq<int>)
    ensures AnswersAt(searcher, calls, Concatenated(searcher, calls), cuts)
  {
    if calls == [] {
      cuts := [0];
    } else {
      var n := |calls| - 1;
      var before, last := Concatenated(searcher, calls[..n]), searcher(calls[n]);
      var head := AnswersInOrder(searcher, calls[..n]);
      cuts := head + [|before| + |last|];
      forall i | 0 <= i < |calls| ensures AnswerAt(searcher(calls[i]), before + last, cuts, i) {
        if i < n {
          assert calls[..n][i] == calls[i];
          assert AnswerAt(searcher(calls[i]), before, head, i);
          assert (before + last)[head[i]..head[i + 1]] == before[head[i]..head[i + 1]];
        }
      }
    }
  }

  ghost function Concatenated(searcher: string -> seq<string>, calls: seq<string>): seq<string> {
    if calls == [] then [] else Concatenated(searcher, calls[..|calls| - 1]) + searcher(calls[|calls| - 1])
  }
}
