/** The linked list and the trie are two readings of one rule set: they own every name alike. */
module ContextLookup {
  import opened Wrappers
  import opened CStrings
  import R = PrefixRules
  import T = PropertyTrie
  import M = PropertyTrieMeaning

  /** The text a list rule matches by; the catch-all "*" matches by the empty prefix, as the trie's root does. */
  function Text(q: R.PrefixRule): string {
    if q.Star() then "" else q.prefix
  }

  /** Rule files without repeated prefixes, '*' only as the catch-all. */
  ghost predicate Distinct(history: seq<R.PrefixRule>) {
    && (forall q | q in history :: R.Ordinary(q))
    && forall q, s | q in history && s in history && Text(q) == Text(s) :: q == s
  }

  /** The files have the trie's rule, under the same context name. */
  ghost predicate InFiles(names: seq<string>, history: seq<R.PrefixRule>, r: M.Rule) {
    r.entry.contextIndex < |names|
    && exists q :: q in history && Text(q) == r.Text() && q.context == names[r.entry.contextIndex]
  }

  /** The trie has a rule with the file rule's text. */
  ghost predicate InTrie(rules: iset<M.Rule>, q: R.PrefixRule) {
    exists r :: r in rules && r.entry.contextIndex != T.NO_INDEX && r.Text() == Text(q)
  }

  /** The trie holds the rules of the files and no others, with contexts named through the context table. */
  ghost predicate SameRules(rules: iset<M.Rule>, names: seq<string>, history: seq<R.PrefixRule>) {
    && (forall r | r in rules :: r.kind != M.ExactRule)
    && (forall r {:trigger InFiles(names, history, r)} | r in rules && r.entry.contextIndex != T.NO_INDEX :: InFiles(names, history, r))
    && (forall q {:trigger InTrie(rules, q)} | q in history :: InTrie(rules, q))
  }

  lemma MatchesByText(q: R.PrefixRule, name: string)
    ensures q.Matches(name) <==> Text(q) <= name
  {
  }

  /** The context the trie names for a property, through the context table. */
  ghost function TrieContext(root: T.TrieNode, names: seq<string>, name: string): Option<string> {
    var index := T.Walk(root, name, T.NO_INDEX, T.Context);
    if index == T.NO_INDEX || index >= |names| then None else Some(names[index])
  }

  ghost function ListContext(history: seq<R.PrefixRule>, name: string): Option<string> {
    var found := R.FirstMatch(R.InsertAll(history), name);
    if found.None? then None else Some(found.value.context)
  }

  lemma ListMatch(rules: iset<M.Rule>, names: seq<string>, history: seq<R.PrefixRule>, name: string, r: M.Rule)
    requires SameRules(rules, names, history) && M.Matching(rules, name, T.Context, r)
    ensures exists q :: q in history && q.Matches(name)
  {
    assert InFiles(names, history, r);
    var q :| q in history && Text(q) == r.Text();
    MatchesByText(q, name);
  }

  lemma TrieMatch(rules: iset<M.Rule>, names: seq<string>, history: seq<R.PrefixRule>, name: string, i: nat)
    returns (r: M.Rule)
    requires SameRules(rules, names, history) && i < |history| && history[i].Matches(name)
    ensures M.Matching(rules, name, T.Context, r) && r.Text() == Text(history[i])
  {
    assert InTrie(rules, history[i]);
    r :| r in rules && r.entry.contextIndex != T.NO_INDEX && r.Text() == Text(history[i]);
    MatchesByText(history[i], name);
  }

  lemma SameLengthPrefix(a: string, b: string, s: string)
    requires a <= s && b <= s && |a| == |b|
    ensures a == b
  {
    assert a == s[..|a|] && b == s[..|b|];
  }

  lemma SameWinner(names: seq<string>, rules: iset<M.Rule>, history: seq<R.PrefixRule>, name: string, i: nat,
                   r: M.Rule, best: M.Rule)
    requires Distinct(history) && R.IsBest(history, name, i) && M.LongestMatch(rules, name, T.Context, best)
    requires InFiles(names, history, best)
    requires M.Matching(rules, name, T.Context, r) && r.Text() == Text(history[i])
    ensures history[i].context == names[best.entry.contextIndex]
  {
    var q :| q in history && Text(q) == best.Text() && q.context == names[best.entry.contextIndex];
    MatchesByText(q, name);
    MatchesByText(history[i], name);
    var j: nat :| j < |history| && history[j] == q;
    assert |r.Text()| <= |best.Text()|;
    SameLengthPrefix(Text(q), Text(history[i]), name);
    assert history[i] in history;
  }

  lemma RulesAgree(rules: iset<M.Rule>, names: seq<string>, history: seq<R.PrefixRule>, name: string, index: T.Index)
    requires Distinct(history) && SameRules(rules, names, history)
    requires M.PlainAnswers(rules, name, T.Context, T.NO_INDEX, index)
    ensures (if index == T.NO_INDEX || index >= |names| then None else Some(names[index])) == ListContext(history, name)
  {
    forall r | M.Matching(rules, name, T.Context, r) ensures exists q :: q in history && q.Matches(name) {
      ListMatch(rules, names, history, name, r);
    }
    R.LookupIsBest(history, name);
    var found := R.FirstMatch(R.InsertAll(history), name);
    if found.Some? {
      var i: nat :| R.IsBest(history, name, i) && history[i] == found.value;
      var r := TrieMatch(rules, names, history, name, i);
      var best :| M.LongestMatch(rules, name, T.Context, best) && index == best.entry.contextIndex;
      assert InFiles(names, history, best);
      SameWinner(names, rules, history, name, i, r, best);
    }
  }

  /** Every name belongs to the same context in both structures. */
  lemma ListAndTrieAgree(root: T.TrieNode, names: seq<string>, history: seq<R.PrefixRule>, name: string)
    requires T.WellFormed(root) && M.Unshadowed(M.Flatten(root, ""), T.Context)
    requires Distinct(history) && SameRules(M.Flatten(root, ""), names, history)
    ensures TrieContext(root, names, name) == ListContext(history, name)
  {
    M.LookupIsLongestRule(root, name, T.Context);
    RulesAgree(M.Flatten(root, ""), names, history, name, T.Walk(root, name, T.NO_INDEX, T.Context));
  }
}
