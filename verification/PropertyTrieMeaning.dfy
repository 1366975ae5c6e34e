/** The trie read as a flat list of rules, and the walk as "longest matching rule". */
module PropertyTrieMeaning {
  import opened Wrappers
  import opened CStrings
  import opened PropertyTrie

  datatype Kind = NodeRule | PrefixRule | ExactRule

  /** A rule spells `dir + piece`; dir is the dotted path of the trie node it hangs from. */
  datatype Rule = Rule(dir: string, piece: string, kind: Kind, entry: PropertyEntry) {
    function Text(): string {
      dir + piece
    }

    /** Prefix rules match every extension, exact rules only the name itself. */
    predicate Matches(name: string) {
      if kind == ExactRule then Text() == name else Text() <= name
    }
  }

  function ChildDir(dir: string, child: TrieNode): string {
    dir + child.entry.name + "."
  }

  /** r is one of the rules the trie below `dir` stands for. */
  ghost predicate HasRule(node: TrieNode, dir: string, r: Rule)
    decreases node
  {
    || r == Rule(dir, "", NodeRule, node.entry)
    || (r.entry in node.prefixes && r == Rule(dir, r.entry.name, PrefixRule, r.entry))
    || (r.entry in node.exacts && r == Rule(dir, r.entry.name, ExactRule, r.entry))
    || (exists i :: 0 <= i < |node.children| && HasRule(node.children[i], ChildDir(dir, node.children[i]), r))
  }

  ghost function Flatten(node: TrieNode, dir: string): iset<Rule> {
    iset r | HasRule(node, dir, r)
  }

  ghost predicate ExactHit(rules: iset<Rule>, name: string, f: Field, r: Rule) {
    r in rules && r.kind == ExactRule && r.Matches(name) && r.entry.Get(f) != NO_INDEX
  }

  /** A longer prefix entry of the same node matches as well, so r is never looked at. */
  ghost predicate Muted(rules: iset<Rule>, name: string, r: Rule) {
    r.kind == PrefixRule
    && exists s :: s in rules && s.kind == PrefixRule && s.dir == r.dir && |s.piece| > |r.piece| && s.Matches(name)
  }

  ghost predicate Matching(rules: iset<Rule>, name: string, f: Field, r: Rule) {
    r in rules && r.kind != ExactRule && r.Matches(name) && r.entry.Get(f) != NO_INDEX
  }

  ghost predicate Candidate(rules: iset<Rule>, name: string, f: Field, r: Rule) {
    Matching(rules, name, f, r) && !Muted(rules, name, r)
  }

  /** r is a longest candidate. */
  ghost predicate Winner(rules: iset<Rule>, name: string, f: Field, r: Rule) {
    Candidate(rules, name, f, r)
    && forall s | Candidate(rules, name, f, s) :: |s.Text()| <= |r.Text()|
  }

  /** The index of a matching exact rule, else that of the longest candidate, else `before`. */
  ghost predicate Answers(rules: iset<Rule>, name: string, f: Field, before: Index, index: Index) {
    if exists r :: ExactHit(rules, name, f, r) then
      exists r :: ExactHit(rules, name, f, r) && index == r.entry.Get(f)
    else if exists r :: Candidate(rules, name, f, r) then
      exists r :: Winner(rules, name, f, r) && index == r.entry.Get(f)
    else
      index == before
  }

  // ---------- Where rules live ----------

  lemma {:induction false} RulesExtendDir(node: TrieNode, dir: string, r: Rule)
    requires HasRule(node, dir, r)
    ensures dir <= r.dir
    decreases node
  {
    if i :| 0 <= i < |node.children| && HasRule(node.children[i], ChildDir(dir, node.children[i]), r) {
      RulesExtendDir(node.children[i], ChildDir(dir, node.children[i]), r);
    }
  }

  /** Two dot-free pieces, each followed by a dot at the front of one string, are the same piece. */
  lemma SameFirstPiece(a: string, b: string, s: string)
    requires '.' !in a && '.' !in b && a + "." <= s && b + "." <= s
    ensures a == b
  {
    assert s[|a|] == (a + ".")[|a|] == '.';
    assert s[|b|] == (b + ".")[|b|] == '.';
    assert forall i | 0 <= i < |b| :: (b + ".")[i] == s[i];
    assert forall i | 0 <= i < |a| :: (a + ".")[i] == s[i];
    assert a == s[..|a|] && b == s[..|b|];
  }

  lemma PrefixTail(a: string, b: string, n: nat)
    requires a <= b && n <= |a|
    ensures a[n..] <= b[n..]
  {
  }

  lemma DotFound(s: string, i: nat)
    requires i < |s| && s[i] == '.'
    ensures FirstDot(s) < |s| && s[..FirstDot(s)] + "." <= s
  {
    var d := FirstDot(s);
    assert forall j | 0 <= j < d :: s[j] in s[..d];
    assert d <= i;
    assert s[..d] + "." == s[..d + 1];
  }

  /** A rule below child i matches dir + rest only when that child is the next one on the walk. */
  lemma ChildRuleIsNext(node: TrieNode, dir: string, rest: string, i: nat, r: Rule)
    requires WellFormed(node) && i < |node.children|
    requires HasRule(node.children[i], ChildDir(dir, node.children[i]), r) && r.Matches(dir + rest)
    ensures Next(node, rest) == Some(node.children[i])
    ensures node.children[i].entry.name == rest[..FirstDot(rest)]
  {
    var child := node.children[i];
    var piece := child.entry.name;
    RulesExtendDir(child, ChildDir(dir, child), r);
    assert ChildDir(dir, child) <= dir + rest;
    assert piece + "." <= rest by {
      assert (dir + rest)[|dir|..] == rest;
      assert ChildDir(dir, child)[|dir|..] == piece + ".";
      PrefixTail(ChildDir(dir, child), dir + rest, |dir|);
    }
    var d := FirstDot(rest);
    DotFound(rest, |piece|);
    SameFirstPiece(piece, rest[..d], rest);
    OnlyChildNamed(node, piece, i);
  }

  /** A dot-free piece that starts a dotted rest stays within its first piece. */
  lemma PieceWithinFirst(piece: string, rest: string)
    requires '.' !in piece && piece <= rest
    ensures |piece| <= FirstDot(rest)
  {
    assert forall i | 0 <= i < |piece| :: piece[i] == rest[i];
  }

  // ---------- What one node contributes ----------

  /** With the longest prefixes first, the first match is the strictly longest one. */
  lemma {:induction false} FirstPrefixIsLongest(prefixes: seq<PropertyEntry>, rest: string)
    requires LongestFirst(prefixes)
    ensures var found := FirstPrefix(prefixes, rest);
            && (found.Some? ==> found.value in prefixes && found.value.name <= rest)
            && forall e | e in prefixes && e.name <= rest ::
                 found.Some? && (e == found.value || |e.name| < |found.value.name|)
  {
    if prefixes == [] {
    } else {
      var first, tail := prefixes[0], prefixes[1..];
      if first.name <= rest {
        forall e | e in tail && e.name <= rest ensures |e.name| < |first.name| {
          var i :| 0 <= i < |tail| && tail[i] == e;
          assert prefixes[i + 1] == e;
          assert e.name == rest[..|e.name|] && first.name == rest[..|first.name|];
        }
      } else {
        FirstPrefixIsLongest(tail, rest);
      }
    }
  }

  lemma {:induction false} FirstExactFound(exacts: seq<PropertyEntry>, rest: string)
    ensures var found := FirstExact(exacts, rest);
            match found
            case None => forall i | 0 <= i < |exacts| :: exacts[i].name != rest
            case Some(e) => e.name == rest && e in exacts
  {
    if exacts != [] && exacts[0].name != rest {
      FirstExactFound(exacts[1..], rest);
    }
  }

  /** The rule a node itself contributes for the rest of the name. */
  ghost function OwnBest(node: TrieNode, dir: string, rest: string, f: Field): Option<Rule> {
    var p := FirstPrefix(node.prefixes, rest);
    if p.Some? && p.value.Get(f) != NO_INDEX then Some(Rule(dir, p.value.name, PrefixRule, p.value))
    else if node.entry.Get(f) != NO_INDEX then Some(Rule(dir, "", NodeRule, node.entry))
    else None
  }

  lemma RuleCases(node: TrieNode, dir: string, rest: string, r: Rule)
    requires WellFormed(node) && HasRule(node, dir, r) && r.Matches(dir + rest)
    ensures r.dir == dir || (Next(node, rest).Some? && HasRule(Next(node, rest).value, ChildDir(dir, Next(node, rest).value), r))
    ensures r.dir == dir && r.kind == NodeRule ==> r == Rule(dir, "", NodeRule, node.entry)
    ensures r.dir == dir && r.kind != NodeRule ==>
              r.piece == r.entry.name && r.entry in (if r.kind == PrefixRule then node.prefixes else node.exacts)
    ensures r.dir == dir && r.kind == ExactRule ==> r.piece == rest
    ensures r.dir == dir && r.kind != ExactRule ==> r.piece <= rest
  {
    if i :| 0 <= i < |node.children| && HasRule(node.children[i], ChildDir(dir, node.children[i]), r) {
      ChildRuleIsNext(node, dir, rest, i, r);
      RulesExtendDir(node.children[i], ChildDir(dir, node.children[i]), r);
    } else {
      assert (dir + rest)[|dir|..] == rest && (dir + r.piece)[|dir|..] == r.piece;
    }
  }

  lemma ExtendBoth(dir: string, piece: string, rest: string)
    requires piece <= rest
    ensures dir + piece <= dir + rest
  {
    assert forall i | 0 <= i < |dir + piece| :: (dir + piece)[i] == (dir + rest)[i];
  }

  /** The node's own contribution is a candidate, and the longest among the node's own. */
  lemma OwnBestWins(node: TrieNode, dir: string, rest: string, before: Index, f: Field)
    requires WellFormed(node)
    ensures var own := OwnBest(node, dir, rest, f);
            var rules := Flatten(node, dir);
            && Here(node, rest, before, f) == (if own.Some? then own.value.entry.Get(f) else before)
            && (own.Some? ==> Candidate(rules, dir + rest, f, own.value) && own.value.dir == dir)
            && forall r | Candidate(rules, dir + rest, f, r) && r.dir == dir ::
                 own.Some? && |r.Text()| <= |own.value.Text()|
  {
    var own, rules, name := OwnBest(node, dir, rest, f), Flatten(node, dir), dir + rest;
    var p := FirstPrefix(node.prefixes, rest);
    FirstPrefixIsLongest(node.prefixes, rest);
    forall s | s in rules && s.kind == PrefixRule && s.dir == dir && s.Matches(name)
      ensures p.Some? && s.piece == s.entry.name && (s.entry == p.value || |s.piece| < |p.value.name|)
    {
      RuleCases(node, dir, rest, s);
    }
    if p.Some? {
      var r := Rule(dir, p.value.name, PrefixRule, p.value);
      assert r in rules && r.Matches(name) by {
        ExtendBoth(dir, p.value.name, rest);
      }
    }
    var n := Rule(dir, "", NodeRule, node.entry);
    assert n in rules && n.Matches(name);
    forall r | Candidate(rules, name, f, r) && r.dir == dir
      ensures own.Some? && |r.Text()| <= |own.value.Text()|
    {
      RuleCases(node, dir, rest, r);
      assert r.kind == PrefixRule && r.entry != p.value ==> Muted(rules, name, r);
    }
  }

  lemma SameExact(node: TrieNode, a: PropertyEntry, b: PropertyEntry)
    requires WellFormed(node) && a in node.exacts && b in node.exacts && a.name == b.name
    ensures a == b
  {
    var i :| 0 <= i < |node.exacts| && node.exacts[i] == a;
    var j :| 0 <= j < |node.exacts| && node.exacts[j] == b;
    assert i == j;
  }

  /** At the last node reached only its own rules match. */
  lemma LeafAnswers(node: TrieNode, dir: string, rest: string, before: Index, f: Field)
    requires WellFormed(node) && Next(node, rest).None?
    ensures Answers(Flatten(node, dir), dir + rest, f, before, Walk(node, rest, before, f))
  {
    var rules, name := Flatten(node, dir), dir + rest;
    OwnBestWins(node, dir, rest, before, f);
    FirstExactFound(node.exacts, rest);
    forall r | r in rules && r.Matches(name) ensures r.dir == dir {
      RuleCases(node, dir, rest, r);
    }
    var exact := FirstExact(node.exacts, rest);
    forall r | ExactHit(rules, name, f, r) ensures exact == Some(r.entry) {
      RuleCases(node, dir, rest, r);
      SameExact(node, exact.value, r.entry);
    }
    if exact.Some? && exact.value.Get(f) != NO_INDEX {
      assert ExactHit(rules, name, f, Rule(dir, rest, ExactRule, exact.value));
    } else {
      var own := OwnBest(node, dir, rest, f);
      if own.Some? {
        assert Winner(rules, name, f, own.value);
      }
    }
  }

  /** Below the next child nothing is gained or lost by looking at the whole node's rules. */
  lemma ChildRulesDecide(node: TrieNode, dir: string, rest: string, f: Field, r: Rule)
    requires WellFormed(node) && Next(node, rest).Some?
    ensures var child := Next(node, rest).value;
            var rules, below, name := Flatten(node, dir), Flatten(child, ChildDir(dir, child)), dir + rest;
            && (ExactHit(rules, name, f, r) <==> ExactHit(below, name, f, r))
            && (Candidate(below, name, f, r) <==> Candidate(rules, name, f, r) && r.dir != dir)
            && (Candidate(below, name, f, r) ==> |r.Text()| >= |ChildDir(dir, child)|)
            && (Candidate(rules, name, f, r) && r.dir == dir ==> |r.Text()| < |ChildDir(dir, child)|)
  {
    var child := Next(node, rest).value;
    var rules, below, name := Flatten(node, dir), Flatten(child, ChildDir(dir, child)), dir + rest;
    var k :| 0 <= k < |node.children| && node.children[k] == child;
    forall s ensures s in below ==> s in rules && ChildDir(dir, child) <= s.dir {
      if s in below {
        RulesExtendDir(child, ChildDir(dir, child), s);
      }
    }
    assert rest[FirstDot(rest)] == '.';
    forall s | s in rules && s.Matches(name)
      ensures s.dir == dir || s in below
      ensures s.dir == dir ==> s.kind != ExactRule && |s.piece| <= FirstDot(rest)
    {
      RuleCases(node, dir, rest, s);
      if s.dir == dir {
        if s.kind != ExactRule {
          PieceWithinFirst(s.piece, rest);
        }
      }
    }
    assert |ChildDir(dir, child)| == |dir| + FirstDot(rest) + 1;
    assert r.dir != dir ==> (Muted(rules, name, r) <==> Muted(below, name, r));
  }

  lemma AnswersLift(node: TrieNode, dir: string, rest: string, before: Index, f: Field, index: Index)
    requires WellFormed(node) && Next(node, rest).Some?
    requires Answers(Flatten(Next(node, rest).value, ChildDir(dir, Next(node, rest).value)), dir + rest, f,
                     Here(node, rest, before, f), index)
    ensures Answers(Flatten(node, dir), dir + rest, f, before, index)
  {
    var child := Next(node, rest).value;
    var rules, below, name := Flatten(node, dir), Flatten(child, ChildDir(dir, child)), dir + rest;
    OwnBestWins(node, dir, rest, before, f);
    forall r
      ensures ExactHit(rules, name, f, r) <==> ExactHit(below, name, f, r)
      ensures Candidate(below, name, f, r) <==> Candidate(rules, name, f, r) && r.dir != dir
      ensures Candidate(below, name, f, r) ==> |r.Text()| >= |ChildDir(dir, child)|
      ensures Candidate(rules, name, f, r) && r.dir == dir ==> |r.Text()| < |ChildDir(dir, child)|
    {
      ChildRulesDecide(node, dir, rest, f, r);
    }
    if r :| ExactHit(below, name, f, r) {
      assert ExactHit(rules, name, f, r);
    } else if r :| Candidate(below, name, f, r) {
      var best :| Winner(below, name, f, best) && index == best.entry.Get(f);
      assert Winner(rules, name, f, best);
    } else {
      var own := OwnBest(node, dir, rest, f);
      if own.Some? {
        assert Winner(rules, name, f, own.value);
      }
    }
  }

  /** The walk gives the matching exact rule's index, else the longest candidate's, for every well-formed trie and name. */
  lemma {:induction false} WalkAnswers(node: TrieNode, dir: string, rest: string, before: Index, f: Field)
    requires WellFormed(node)
    ensures Answers(Flatten(node, dir), dir + rest, f, before, Walk(node, rest, before, f))
    decreases node
  {
    var next := Next(node, rest);
    if next.None? {
      LeafAnswers(node, dir, rest, before, f);
    } else {
      var child, d := next.value, FirstDot(rest);
      var below, deeper := ChildDir(dir, child), rest[d + 1..];
      var here := Here(node, rest, before, f);
      assert dir + rest == below + deeper by {
        assert rest == rest[..d] + "." + rest[d + 1..];
      }
      WalkAnswers(child, below, deeper, here, f);
      AnswersLift(node, dir, rest, before, f, Walk(child, deeper, here, f));
    }
  }

  // ---------- A rule is its text ----------

  ghost predicate DottedDir(dir: string) {
    dir == "" || dir[|dir| - 1] == '.'
  }

  lemma {:induction false} RuleShape(node: TrieNode, dir: string, r: Rule)
    requires WellFormed(node) && DottedDir(dir) && HasRule(node, dir, r)
    ensures DottedDir(r.dir) && '.' !in r.piece
    ensures r.kind == NodeRule <==> r.kind != ExactRule && r.piece == ""
    decreases node
  {
    if i :| 0 <= i < |node.children| && HasRule(node.children[i], ChildDir(dir, node.children[i]), r) {
      RuleShape(node.children[i], ChildDir(dir, node.children[i]), r);
    }
  }

  lemma TextSplits(dir: string, piece: string, dir': string, piece': string)
    requires DottedDir(dir) && DottedDir(dir') && '.' !in piece && '.' !in piece'
    requires dir + piece <= dir' + piece' && |dir + piece| >= |dir'|
    ensures dir == dir' && piece <= piece'
  {
    var text, text' := dir + piece, dir' + piece';
    assert forall i | 0 <= i < |text| :: text[i] == text'[i];
    assert forall i | |dir| <= i < |text| :: text[i] == piece[i - |dir|];
    assert forall i | |dir'| <= i < |text'| :: text'[i] == piece'[i - |dir'|];
    assert dir != "" ==> text[|dir| - 1] == dir[|dir| - 1] == '.';
    assert dir' != "" ==> text'[|dir'| - 1] == dir'[|dir'| - 1] == '.';
    assert |dir| == |dir'|;
    assert dir == text[..|dir|] && dir' == text'[..|dir'|];
    PrefixTail(text, text', |dir|);
    assert text[|dir|..] == piece && text'[|dir|..] == piece';
  }

  lemma {:induction false} RuleUnique(node: TrieNode, dir: string, r: Rule, s: Rule)
    requires WellFormed(node) && HasRule(node, dir, r) && HasRule(node, dir, s)
    requires r.kind == s.kind && r.dir == s.dir && r.piece == s.piece
    ensures r == s
    decreases node
  {
    RulesExtendDir(node, dir, r);
    var rest := r.Text()[|dir|..];
    assert dir + rest == r.Text();
    RuleCases(node, dir, rest, r);
    RuleCases(node, dir, rest, s);
    if r.dir == dir {
      if r.kind == PrefixRule {
        var i :| 0 <= i < |node.prefixes| && node.prefixes[i] == r.entry;
        var j :| 0 <= j < |node.prefixes| && node.prefixes[j] == s.entry;
        assert i == j;
      } else if r.kind == ExactRule {
        SameExact(node, r.entry, s.entry);
      }
    } else {
      var child := Next(node, rest).value;
      RuleUnique(child, ChildDir(dir, child), r, s);
    }
  }

  /** Two rules of one trie with the same text, both exact or neither, are one rule. */
  lemma TextDeterminesRule(root: TrieNode, r: Rule, s: Rule)
    requires WellFormed(root) && HasRule(root, "", r) && HasRule(root, "", s)
    requires r.Text() == s.Text() && (r.kind == ExactRule <==> s.kind == ExactRule)
    ensures r == s
  {
    RuleShape(root, "", r);
    RuleShape(root, "", s);
    if |r.dir| <= |s.dir| {
      TextSplits(r.dir, r.piece, s.dir, s.piece);
    } else {
      TextSplits(s.dir, s.piece, r.dir, r.piece);
    }
    assert r.dir == s.dir && r.piece == s.piece by {
      assert r.Text()[|r.dir|..] == r.piece && s.Text()[|s.dir|..] == s.piece;
    }
    RuleUnique(root, "", r, s);
  }

  lemma OneExactHit(root: TrieNode, name: string, f: Field, r: Rule, s: Rule)
    requires WellFormed(root)
    requires ExactHit(Flatten(root, ""), name, f, r) && ExactHit(Flatten(root, ""), name, f, s)
    ensures r == s
  {
    TextDeterminesRule(root, r, s);
  }

  lemma OneWinner(root: TrieNode, name: string, f: Field, r: Rule, s: Rule)
    requires WellFormed(root)
    requires Winner(Flatten(root, ""), name, f, r) && Winner(Flatten(root, ""), name, f, s)
    ensures r == s
  {
    assert r.Text() == name[..|r.Text()|] && s.Text() == name[..|s.Text()|];
    TextDeterminesRule(root, r, s);
  }

  /** The flat reading leaves no choice: the walk's result is the one answer. */
  lemma AnswerUnique(root: TrieNode, name: string, f: Field, before: Index, i: Index, j: Index)
    requires WellFormed(root)
    requires Answers(Flatten(root, ""), name, f, before, i) && Answers(Flatten(root, ""), name, f, before, j)
    ensures i == j
  {
    var rules := Flatten(root, "");
    if exists r :: ExactHit(rules, name, f, r) {
      var r :| ExactHit(rules, name, f, r) && i == r.entry.Get(f);
      var s :| ExactHit(rules, name, f, s) && j == s.entry.Get(f);
      OneExactHit(root, name, f, r, s);
    } else if exists r :: Candidate(rules, name, f, r) {
      var r :| Winner(rules, name, f, r) && i == r.entry.Get(f);
      var s :| Winner(rules, name, f, s) && j == s.entry.Get(f);
      OneWinner(root, name, f, r, s);
    }
  }

  // ---------- The plain reading: longest matching rule ----------

  ghost predicate LongestMatch(rules: iset<Rule>, name: string, f: Field, r: Rule) {
    Matching(rules, name, f, r)
    && forall s | Matching(rules, name, f, s) :: |s.Text()| <= |r.Text()|
  }

  lemma {:induction false} LongestMatchExists(rules: iset<Rule>, name: string, f: Field, r: Rule) returns (best: Rule)
    requires Matching(rules, name, f, r)
    ensures LongestMatch(rules, name, f, best) && |best.Text()| >= |r.Text()|
    decreases |name| - |r.Text()|
  {
    if s :| Matching(rules, name, f, s) && |s.Text()| > |r.Text()| {
      best := LongestMatchExists(rules, name, f, s);
    } else {
      best := r;
    }
  }

  ghost predicate PlainAnswers(rules: iset<Rule>, name: string, f: Field, before: Index, index: Index) {
    if exists r :: ExactHit(rules, name, f, r) then
      exists r :: ExactHit(rules, name, f, r) && index == r.entry.Get(f)
    else if exists r :: Matching(rules, name, f, r) then
      exists r :: LongestMatch(rules, name, f, r) && index == r.entry.Get(f)
    else
      index == before
  }

  /** No prefix entry without an index stands before an indexed one it extends. */
  ghost predicate Unshadowed(rules: iset<Rule>, f: Field) {
    forall s, r ::
      s in rules && r in rules && s.kind == PrefixRule && r.kind == PrefixRule && s.dir == r.dir
      && r.piece <= s.piece && |r.piece| < |s.piece| && r.entry.Get(f) != NO_INDEX
      ==> s.entry.Get(f) != NO_INDEX
  }

  lemma UnshadowedHeard(root: TrieNode, name: string, f: Field, r: Rule)
    requires Unshadowed(Flatten(root, ""), f) && LongestMatch(Flatten(root, ""), name, f, r)
    ensures Winner(Flatten(root, ""), name, f, r)
  {
    var rules := Flatten(root, "");
    forall s | s in rules && s.kind == PrefixRule && s.dir == r.dir && s.Matches(name) && r.kind == PrefixRule
      ensures |s.piece| <= |r.piece|
    {
      assert s.Text() == name[..|s.Text()|] && r.Text() == name[..|r.Text()|];
      assert s.piece == name[|r.dir|..|s.Text()|] && r.piece == name[|r.dir|..|r.Text()|];
      assert |r.piece| <= |s.piece| ==> r.piece == s.piece[..|r.piece|];
      assert s.entry.Get(f) != NO_INDEX ==> Matching(rules, name, f, s);
    }
  }

  lemma ShadowedUnheard(root: TrieNode, f: Field, s: Rule, r: Rule) returns (best: Rule)
    requires WellFormed(root) && HasRule(root, "", s) && HasRule(root, "", r)
    requires s.kind == PrefixRule && r.kind == PrefixRule && s.dir == r.dir
    requires r.piece <= s.piece && |r.piece| < |s.piece| && r.entry.Get(f) != NO_INDEX && s.entry.Get(f) == NO_INDEX
    ensures LongestMatch(Flatten(root, ""), s.Text(), f, best) && Muted(Flatten(root, ""), s.Text(), best)
  {
    var rules, name := Flatten(root, ""), s.Text();
    ExtendBoth(s.dir, r.piece, s.piece);
    best := LongestMatchExists(rules, name, f, r);
    RuleShape(root, "", s);
    RuleShape(root, "", r);
    RuleShape(root, "", best);
    TextSplits(best.dir, best.piece, s.dir, s.piece);
    if |best.piece| == |s.piece| {
      assert best.piece == s.piece;
      TextDeterminesRule(root, best, s);
    }
  }

  /** The walk can pick the longest matching rule for every name exactly when no unindexed prefix shadows another. */
  lemma LongestAlwaysHeard(root: TrieNode, f: Field)
    requires WellFormed(root)
    ensures var rules := Flatten(root, "");
            Unshadowed(rules, f) <==>
            forall name, r :: LongestMatch(rules, name, f, r) ==> Winner(rules, name, f, r)
  {
    var rules := Flatten(root, "");
    if Unshadowed(rules, f) {
      forall name, r | LongestMatch(rules, name, f, r) ensures Winner(rules, name, f, r) {
        UnshadowedHeard(root, name, f, r);
      }
    } else {
      var s, r :| s in rules && r in rules && s.kind == PrefixRule && r.kind == PrefixRule && s.dir == r.dir
                  && r.piece <= s.piece && |r.piece| < |s.piece| && r.entry.Get(f) != NO_INDEX
                  && s.entry.Get(f) == NO_INDEX;
      var best := ShadowedUnheard(root, f, s, r);
      assert LongestMatch(rules, s.Text(), f, best) && !Winner(rules, s.Text(), f, best);
    }
  }

  /** When no prefix entry without an index shadows another, the walk is "exact rule, else longest matching rule, else none". */
  lemma LookupIsLongestRule(root: TrieNode, name: string, f: Field)
    requires WellFormed(root) && Unshadowed(Flatten(root, ""), f)
    ensures PlainAnswers(Flatten(root, ""), name, f, NO_INDEX, Walk(root, name, NO_INDEX, f))
  {
    var rules := Flatten(root, "");
    assert "" + name == name;
    WalkAnswers(root, "", name, NO_INDEX, f);
    if r :| Matching(rules, name, f, r) {
      var best := LongestMatchExists(rules, name, f, r);
      UnshadowedHeard(root, name, f, best);
      if !exists e :: ExactHit(rules, name, f, e) {
        var w :| Winner(rules, name, f, w) && Walk(root, name, NO_INDEX, f) == w.entry.Get(f);
        assert LongestMatch(rules, name, f, w);
      }
    }
  }

  lemma AllIndexedIsUnshadowed(root: TrieNode, f: Field)
    requires forall r | r in Flatten(root, "") && r.kind == PrefixRule :: r.entry.Get(f) != NO_INDEX
    ensures Unshadowed(Flatten(root, ""), f)
  {
  }

  const AB := PropertyEntry("ab", NO_INDEX, NO_INDEX)

  /** The root alone, with an unindexed "ab" in front of an indexed "a". */
  function HidingTrie(index: Index): TrieNode {
    TrieNode(PropertyEntry("", NO_INDEX, NO_INDEX), [], [AB, PropertyEntry("a", index, NO_INDEX)], [])
  }

  lemma HidingTrieWellFormed(index: Index)
    ensures WellFormed(HidingTrie(index))
  {
    assert LongestFirst(HidingTrie(index).prefixes);
  }

  lemma HidingWalk(index: Index)
    ensures Walk(HidingTrie(index), "ab", NO_INDEX, Context) == NO_INDEX
  {
    var root := HidingTrie(index);
    assert Next(root, "ab").None?;
    assert FirstPrefix(root.prefixes, "ab") == Some(AB);
    assert FirstExact([], "ab").None?;
    assert Here(root, "ab", NO_INDEX, Context) == NO_INDEX;
  }

  /** The walk for "ab" reports nothing on that trie, although "a" matches. */
  lemma UnindexedPrefixHides(index: Index)
    requires index != NO_INDEX
    ensures WellFormed(HidingTrie(index)) && Walk(HidingTrie(index), "ab", NO_INDEX, Context) == NO_INDEX
    ensures Matching(Flatten(HidingTrie(index), ""), "ab", Context,
                     Rule("", "a", PrefixRule, PropertyEntry("a", index, NO_INDEX)))
  {
    HidingTrieWellFormed(index);
    HidingWalk(index);
    assert "" + "a" == "a" <= "ab";
    assert HidingTrie(index).prefixes[1] == PropertyEntry("a", index, NO_INDEX);
  }
}
