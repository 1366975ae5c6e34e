/** The split property contexts: two linked lists spliced in place while the rule files are read. */
module ContextsSplit {
  import opened Wrappers
  import opened CStrings
  import opened PrefixRules

  class ContextListNode {
    const context: string
    const next: ContextListNode?

    constructor (next: ContextListNode?, context: string)
      ensures this.next == next && this.context == context
    {
      this.next := next;
      this.context := context;
    }
  }

  class PrefixNode {
    const prefix: string
    const context: ContextListNode
    var next: PrefixNode?

    constructor (next: PrefixNode?, prefix: string, context: ContextListNode)
      ensures this.next == next && this.prefix == prefix && this.context == context
    {
      this.next := next;
      this.prefix := prefix;
      this.context := context;
    }

    function Rule(): PrefixRule {
      PrefixRule(prefix, context.context)
    }
  }

  /** The node a link at position i leads to; null past the end. */
  function PrefixAt(nodes: seq<PrefixNode>, i: nat): PrefixNode? {
    if i < |nodes| then nodes[i] else null
  }

  function ContextAt(nodes: seq<ContextListNode>, i: nat): ContextListNode? {
    if i < |nodes| then nodes[i] else null
  }

  /** The two fields a rule line must have; a line of fewer fields is skipped, as comments and blanks are. */
  datatype Line = Line(fields: seq<string>) {
    predicate Skipped() {
      |fields| < 2 || "ctl." <= fields[0]
    }

    function Rule(): PrefixRule
      requires |fields| >= 2
    {
      PrefixRule(fields[0], fields[1])
    }

    predicate WellFormed() {
      forall f | f in fields :: IsCString(f)
    }
  }

  function RulesIn(lines: seq<Line>): (rules: seq<PrefixRule>)
  {
    if lines == [] then []
    else
      var earlier := RulesIn(lines[..|lines| - 1]);
      var line := lines[|lines| - 1];
      if line.Skipped() then earlier else earlier + [line.Rule()]
  }

  /** The rules are those of the lines of at least two fields that do not start with "ctl.", by their first two fields,
      in file order, and no others. `at` gives the line of each rule. */
  ghost predicate RulesAt(lines: seq<Line>, rules: seq<PrefixRule>, at: seq<nat>) {
    && |at| == |rules|
    && (forall k | 0 <= k < |at| ::
          && at[k] < |lines| && |lines[at[k]].fields| >= 2 && !("ctl." <= lines[at[k]].fields[0])
          && rules[k] == PrefixRule(lines[at[k]].fields[0], lines[at[k]].fields[1]))
    && (forall i, k | 0 <= i < k < |at| :: at[i] < at[k])
    && forall j: nat | j < |lines| && |lines[j].fields| >= 2 && !("ctl." <= lines[j].fields[0]) :: j in at
  }

  lemma LineTaken(lines: seq<Line>, rules: seq<PrefixRule>, at: seq<nat>, l: Line)
    requires RulesAt(lines, rules, at) && |l.fields| >= 2 && !("ctl." <= l.fields[0])
    ensures RulesAt(lines + [l], rules + [PrefixRule(l.fields[0], l.fields[1])], at + [|lines|])
  {
  }

  lemma LineSkipped(lines: seq<Line>, rules: seq<PrefixRule>, at: seq<nat>, l: Line)
    requires RulesAt(lines, rules, at) && (|l.fields| < 2 || "ctl." <= l.fields[0])
    ensures RulesAt(lines + [l], rules, at)
  {
  }

  /** Which lines become rules. */
  lemma {:induction false} RuleLines(lines: seq<Line>) returns (at: seq<nat>)
    ensures RulesAt(lines, RulesIn(lines), at)
  {
    if lines == [] {
      at := [];
    } else {
      var n := |lines| - 1;
      var l := lines[n];
      var earlier := RuleLines(lines[..n]);
      assert lines == lines[..n] + [l];
      if |l.fields| < 2 || "ctl." <= l.fields[0] {
        at := earlier;
        LineSkipped(lines[..n], RulesIn(lines[..n]), earlier, l);
      } else {
        at := earlier + [n];
        LineTaken(lines[..n], RulesIn(lines[..n]), earlier, l);
      }
    }
  }

  lemma RuleComesFromLine(lines: seq<Line>, q: PrefixRule)
    ensures q in RulesIn(lines) <==>
      exists l :: l in lines && |l.fields| >= 2 && !("ctl." <= l.fields[0]) && q == PrefixRule(l.fields[0], l.fields[1])
  {
    var at := RuleLines(lines);
    if q in RulesIn(lines) {
      var k :| 0 <= k < |at| && RulesIn(lines)[k] == q;
      assert lines[at[k]] in lines;
    }
    if l :| l in lines && |l.fields| >= 2 && !("ctl." <= l.fields[0]) && q == PrefixRule(l.fields[0], l.fields[1]) {
      var j :| 0 <= j < |lines| && lines[j] == l;
      assert j in at;
    }
  }

  function InsertMore(rules: seq<PrefixRule>, more: seq<PrefixRule>): seq<PrefixRule> {
    if more == [] then rules else Insert(InsertMore(rules, more[..|more| - 1]), more[|more| - 1])
  }

  /** New contexts go to the front, known ones are shared. */
  function Remember(contexts: seq<string>, context: string): seq<string> {
    if context in contexts then contexts else [context] + contexts
  }

  function RememberAll(contexts: seq<string>, rules: seq<PrefixRule>): seq<string> {
    if rules == [] then contexts
    else Remember(RememberAll(contexts, rules[..|rules| - 1]), rules[|rules| - 1].context)
  }

  lemma {:induction false} RememberedContexts(rules: seq<PrefixRule>, c: string)
    ensures c in RememberAll([], rules) <==> exists q :: q in rules && q.context == c
  {
    if rules == [] {
    } else {
      var n := |rules| - 1;
      RememberedContexts(rules[..n], c);
      assert rules == rules[..n] + [rules[n]];
      assert rules[n] in rules;
    }
  }

  /** The contexts listed are exactly the second fields of the rule lines. */
  lemma ContextsComeFromLines(lines: seq<Line>, c: string)
    ensures c in RememberAll([], RulesIn(lines)) <==>
      exists l :: l in lines && |l.fields| >= 2 && !("ctl." <= l.fields[0]) && l.fields[1] == c
  {
    RememberedContexts(RulesIn(lines), c);
    if q :| q in RulesIn(lines) && q.context == c {
      RuleComesFromLine(lines, q);
    }
    if l :| l in lines && |l.fields| >= 2 && !("ctl." <= l.fields[0]) && l.fields[1] == c {
      RuleComesFromLine(lines, PrefixRule(l.fields[0], l.fields[1]));
    }
  }

  lemma OneMoreLine(rules: seq<PrefixRule>, contexts: seq<string>, lines: seq<Line>, i: nat)
    requires i < |lines|
    ensures var before := InsertMore(rules, RulesIn(lines[..i]));
            InsertMore(rules, RulesIn(lines[..i + 1]))
            == if lines[i].Skipped() then before else Insert(before, lines[i].Rule())
    ensures var before := RememberAll(contexts, RulesIn(lines[..i]));
            RememberAll(contexts, RulesIn(lines[..i + 1]))
            == if lines[i].Skipped() then before else Remember(before, lines[i].Rule().context)
  {
    assert lines[..i + 1][..i] == lines[..i] && lines[..i + 1][i] == lines[i];
    var earlier := RulesIn(lines[..i]);
    if !lines[i].Skipped() {
      assert (earlier + [lines[i].Rule()])[..|earlier|] == earlier;
    }
  }

  // ---------- Which files are read ----------

  const COMBINED := "/property_contexts"
  const SYSTEM_PLATFORM := "/system/etc/selinux/plat_property_contexts"
  const SYSTEM_FILES := (SYSTEM_PLATFORM, "/vendor/etc/selinux/vendor_property_contexts",
                         "/vendor/etc/selinux/nonplat_property_contexts")
  const ROOT_FILES := ("/plat_property_contexts", "/vendor_property_contexts", "/nonplat_property_contexts")

  ghost predicate ProperFiles(files: map<string, seq<Line>>) {
    forall f, l | f in files && l in files[f] :: l.WellFormed()
  }

  /** A file that cannot be opened contributes nothing. */
  function LinesOf(files: map<string, seq<Line>>, filename: string): seq<Line> {
    if filename in files then files[filename] else []
  }

  /** All lines read, in order; None when neither the combined nor the platform's file can be opened. */
  function LinesRead(files: map<string, seq<Line>>, readable: set<string>): Option<seq<Line>> {
    if COMBINED in files then Some(files[COMBINED])
    else
      var (platform, vendor, nonplat) := if SYSTEM_PLATFORM in readable then SYSTEM_FILES else ROOT_FILES;
      if platform !in files then None
      else Some(files[platform] + LinesOf(files, if vendor in readable then vendor else nonplat))
  }

  /** The files that are read, by their paths: the combined file alone if it can be opened; else the platform's file,
      without which nothing is read, and the vendor's, or where access() does not find it the nonplat one. The system's
      pair is read if access() finds the system's platform file, the root's pair otherwise. */
  lemma FilesChosen(files: map<string, seq<Line>>, readable: set<string>)
    ensures "/property_contexts" in files ==> LinesRead(files, readable) == Some(files["/property_contexts"])
    ensures "/property_contexts" !in files && "/system/etc/selinux/plat_property_contexts" in readable ==>
      if "/system/etc/selinux/plat_property_contexts" !in files then LinesRead(files, readable) == None
      else
        var second := if "/vendor/etc/selinux/vendor_property_contexts" in readable
                      then "/vendor/etc/selinux/vendor_property_contexts"
                      else "/vendor/etc/selinux/nonplat_property_contexts";
        LinesRead(files, readable) == Some(files["/system/etc/selinux/plat_property_contexts"]
                                           + if second in files then files[second] else [])
    ensures "/property_contexts" !in files && "/system/etc/selinux/plat_property_contexts" !in readable ==>
      if "/plat_property_contexts" !in files then LinesRead(files, readable) == None
      else
        var second := if "/vendor_property_contexts" in readable then "/vendor_property_contexts"
                      else "/nonplat_property_contexts";
        LinesRead(files, readable) == Some(files["/plat_property_contexts"] + if second in files then files[second] else [])
  {
  }

  lemma {:induction false} RulesOfBoth(lines: seq<Line>, more: seq<Line>)
    ensures RulesIn(lines + more) == RulesIn(lines) + RulesIn(more)
  {
    if more == [] {
      assert lines + more == lines;
    } else {
      var n := |more| - 1;
      RulesOfBoth(lines, more[..n]);
      assert (lines + more)[..|lines| + n] == lines + more[..n];
    }
  }

  lemma InsertLast(rules: seq<PrefixRule>, more: seq<PrefixRule>, r: PrefixRule)
    ensures InsertMore(rules, more + [r]) == Insert(InsertMore(rules, more), r)
  {
    assert (more + [r])[..|more|] == more;
  }

  lemma {:induction false} InsertBoth(rules: seq<PrefixRule>, a: seq<PrefixRule>, b: seq<PrefixRule>)
    ensures InsertMore(InsertMore(rules, a), b) == InsertMore(rules, a + b)
  {
    if b == [] {
      assert a + b == a;
    } else {
      var n := |b| - 1;
      InsertBoth(rules, a, b[..n]);
      InsertLast(InsertMore(rules, a), b[..n], b[n]);
      InsertLast(rules, a + b[..n], b[n]);
      assert b == b[..n] + [b[n]] && a + b == a + b[..n] + [b[n]];
    }
  }

  lemma {:induction false} RememberBoth(contexts: seq<string>, a: seq<PrefixRule>, b: seq<PrefixRule>)
    ensures RememberAll(RememberAll(contexts, a), b) == RememberAll(contexts, a + b)
  {
    if b == [] {
      assert a + b == a;
    } else {
      var n := |b| - 1;
      RememberBoth(contexts, a, b[..n]);
      assert (a + b)[..|a| + n] == a + b[..n];
    }
  }

  /** Two files read one after the other are one file. */
  lemma TwoFiles(rules: seq<PrefixRule>, contexts: seq<string>, lines: seq<Line>, more: seq<Line>)
    ensures InsertMore(InsertMore(rules, RulesIn(lines)), RulesIn(more)) == InsertMore(rules, RulesIn(lines + more))
    ensures RememberAll(RememberAll(contexts, RulesIn(lines)), RulesIn(more)) == RememberAll(contexts, RulesIn(lines + more))
  {
    RulesOfBoth(lines, more);
    InsertBoth(rules, RulesIn(lines), RulesIn(more));
    RememberBoth(contexts, RulesIn(lines), RulesIn(more));
  }

  /** Inserting into the empty list is the insertion history that lookups are judged by. */
  lemma {:induction false} FromScratch(rules: seq<PrefixRule>)
    ensures InsertMore([], rules) == InsertAll(rules)
  {
    if rules == [] {
    } else {
      FromScratch(rules[..|rules| - 1]);
    }
  }

  /** From the lines read to the lookup: the earliest longest matching prefix of the files, else their latest "*". */
  lemma OwnerIsBest(lines: seq<Line>, name: string)
    requires forall q | q in RulesIn(lines) :: Ordinary(q)
    ensures match FirstMatch(InsertMore([], RulesIn(lines)), name)
            case None => forall q | q in RulesIn(lines) :: !q.Matches(name)
            case Some(r) => exists i: nat :: IsBest(RulesIn(lines), name, i) && RulesIn(lines)[i] == r
  {
    FromScratch(RulesIn(lines));
    LookupIsBest(RulesIn(lines), name);
  }

  ghost predicate Distinct(nodes: seq<PrefixNode>) {
    forall i, j | 0 <= i < j < |nodes| :: nodes[i] != nodes[j]
  }

  /** The nodes hang together in this order, starting at `head`. */
  ghost predicate Chained(head: PrefixNode?, nodes: seq<PrefixNode>, repr: set<PrefixNode>)
    reads repr
  {
    && head == PrefixAt(nodes, 0)
    && (forall i | 0 <= i < |nodes| :: nodes[i] in repr)
    && Distinct(nodes)
    && forall i {:trigger nodes[i].next} | 0 <= i < |nodes| :: nodes[i].next == PrefixAt(nodes, i + 1)
  }

  /** `rules` reads the prefix nodes off in order; every one points into the context list. */
  ghost predicate PrefixesKnown(nodes: seq<PrefixNode>, rules: seq<PrefixRule>, contexts: seq<ContextListNode>) {
    && |rules| == |nodes|
    && forall i | 0 <= i < |nodes| ::
         rules[i] == nodes[i].Rule() && nodes[i].context in contexts && IsCString(nodes[i].prefix)
  }

  /** `names` reads the context list off in order, without duplicates. */
  ghost predicate ContextsListed(head: ContextListNode?, nodes: seq<ContextListNode>, names: seq<string>) {
    && head == ContextAt(nodes, 0)
    && |names| == |nodes|
    && (forall i {:trigger nodes[i].next} | 0 <= i < |nodes| :: nodes[i].next == ContextAt(nodes, i + 1))
    && (forall i | 0 <= i < |nodes| :: names[i] == nodes[i].context && IsCString(names[i]))
    && forall i, j | 0 <= i < j < |names| :: names[i] != names[j]
  }

  ghost function Splice<T>(s: seq<T>, x: T, k: nat): (t: seq<T>)
    requires k <= |s|
    ensures |t| == |s| + 1
    ensures forall i | 0 <= i < |t| :: t[i] == if i < k then s[i] else if i == k then x else s[i - 1]
  {
    s[..k] + [x] + s[k..]
  }

  lemma SplicedDistinct(nodes: seq<PrefixNode>, repr: set<PrefixNode>, node: PrefixNode, k: nat)
    requires Distinct(nodes) && k <= |nodes| && node !in repr && forall i | 0 <= i < |nodes| :: nodes[i] in repr
    ensures Distinct(Splice(nodes, node, k))
    ensures forall i | 0 <= i < |nodes| + 1 :: Splice(nodes, node, k)[i] in repr + {node}
  {
    var after := Splice(nodes, node, k);
    forall i, j | 0 <= i < j < |after| ensures after[i] != after[j] {
      var p, q := if i < k then i else i - 1, if j < k then j else j - 1;
      assert i != k ==> after[i] == nodes[p];
      assert j != k ==> after[j] == nodes[q];
    }
  }

  lemma FrontChained(nodes: seq<PrefixNode>, repr: set<PrefixNode>, node: PrefixNode)
    requires Chained(PrefixAt(nodes, 0), nodes, repr) && node !in repr && node.next == PrefixAt(nodes, 0)
    ensures Chained(node, Splice(nodes, node, 0), repr + {node})
  {
    SplicedDistinct(nodes, repr, node, 0);
  }

  /** One link redirected to a node that already leads to the rest: every link of the new order is in place. */
  lemma Relinked(nodes: seq<PrefixNode>, node: PrefixNode, k: nat, i: nat)
    requires 0 < k <= |nodes| && i < |nodes| + 1 && node.next == PrefixAt(nodes, k) && nodes[k - 1].next == node
    requires forall j | 0 <= j < |nodes| && j != k - 1 :: nodes[j].next == PrefixAt(nodes, j + 1)
    ensures Splice(nodes, node, k)[i].next == PrefixAt(Splice(nodes, node, k), i + 1)
  {
    if i < k - 1 {
      assert nodes[i].next == nodes[i + 1];
    } else if i > k {
      assert nodes[i - 1].next == PrefixAt(nodes, i);
    }
  }

  /** Makes `previous` lead to the new node, which already leads to the rest. */
  method Link(previous: PrefixNode, node: PrefixNode, ghost nodes: seq<PrefixNode>, ghost repr: set<PrefixNode>, ghost k: nat)
    requires 0 < k <= |nodes| && previous == nodes[k - 1] && node !in repr
    requires Chained(nodes[0], nodes, repr) && node.next == PrefixAt(nodes, k)
    modifies previous
    ensures Chained(nodes[0], Splice(nodes, node, k), repr + {node})
  {
    previous.next := node;
    SplicedDistinct(nodes, repr, node, k);
    ghost var after := Splice(nodes, node, k);
    forall i | 0 <= i < |after| ensures after[i].next == PrefixAt(after, i + 1) {
      Relinked(nodes, node, k, i);
    }
  }

  lemma SplicedKnown(nodes: seq<PrefixNode>, rules: seq<PrefixRule>, contexts: seq<ContextListNode>, node: PrefixNode, k: nat)
    requires PrefixesKnown(nodes, rules, contexts) && k <= |nodes|
    requires node.context in contexts && IsCString(node.prefix)
    ensures PrefixesKnown(Splice(nodes, node, k), Splice(rules, node.Rule(), k), contexts)
  {
  }

  /** The insertion walk stops in front of this rule. */
  predicate StopsAt(q: PrefixRule, prefix: string) {
    |q.prefix| < |prefix| || q.Star()
  }

  lemma {:induction false} InsertsAt(rules: seq<PrefixRule>, r: PrefixRule, k: nat)
    requires k <= |rules| && forall i | 0 <= i < k :: !StopsAt(rules[i], r.prefix)
    requires k < |rules| ==> StopsAt(rules[k], r.prefix)
    ensures Splice(rules, r, k) == Insert(rules, r)
  {
    if k == 0 {
    } else {
      InsertsAt(rules[1..], r, k - 1);
      assert rules[..k] == [rules[0]] + rules[1..][..k - 1] && rules[k..] == rules[1..][k - 1..];
    }
  }

  /** `!strncmp(prefix, "ctl.", 4)`. */
  predicate IsControl(prefix: string): (control: bool)
    requires IsCString(prefix)
    ensures control <==> "ctl." <= prefix
  {
    var ctl := "ctl.";
    StrNCmpPrefix(ctl, prefix);
    StrNCmpFlips(prefix, ctl);
    StrNCmp(prefix, ctl, |ctl|) == 0
  }

  class ContextsSplit {
    var prefixes_: PrefixNode?
    var contexts_: ContextListNode?
    ghost var prefixNodes: seq<PrefixNode>
    ghost var contextNodes: seq<ContextListNode>
    ghost var rules: seq<PrefixRule>
    ghost var contexts: seq<string>
    ghost var Repr: set<PrefixNode>  // the prefix nodes

    ghost predicate Valid()
      reads this, Repr
    {
      && Chained(prefixes_, prefixNodes, Repr)
      && PrefixesKnown(prefixNodes, rules, contextNodes)
      && ContextsListed(contexts_, contextNodes, contexts)
    }

    constructor ()
      ensures Valid() && rules == [] && contexts == []
      ensures Repr == {}
    {
      prefixes_, contexts_ := null, null;
      prefixNodes, contextNodes, rules, contexts, Repr := [], [], [], [], {};
    }

    /** Walks to the first shorter or starred node, remembering the link that leads to it. */
    method FindSlot(prefix: string, ghost r: PrefixRule)
      returns (previous: PrefixNode?, current: PrefixNode?, ghost k: nat)
      requires Valid() && r.prefix == prefix
      ensures k <= |prefixNodes| && current == PrefixAt(prefixNodes, k)
      ensures if k == 0 then previous == null else previous == prefixNodes[k - 1]
      ensures Splice(rules, r, k) == Insert(rules, r)
    {
      previous, current, k := null, prefixes_, 0;
      while current != null
        invariant k <= |prefixNodes| && current == PrefixAt(prefixNodes, k)
        invariant if k == 0 then previous == null else previous == prefixNodes[k - 1]
        invariant forall i | 0 <= i < k :: !StopsAt(rules[i], prefix)
        decreases |prefixNodes| - k
      {
        if |current.prefix| < |prefix| || At(current.prefix, 0) == '*' {
          break;
        }
        previous, current := current, current.next;
        k := k + 1;
      }
      InsertsAt(rules, r, k);
    }

    method ListAddAfterLen(prefix: string, context: ContextListNode)
      requires Valid() && IsCString(prefix) && context in contextNodes
      modifies this, Repr
      ensures Valid() && contextNodes == old(contextNodes) && contexts == old(contexts)
      ensures rules == Insert(old(rules), PrefixRule(prefix, context.context))
      ensures fresh(Repr - old(Repr))
    {
      var previous, current, k := FindSlot(prefix, PrefixRule(prefix, context.context));
      var node := new PrefixNode(current, prefix, context);
      SplicedKnown(prefixNodes, rules, contextNodes, node, k);
      if previous == null {
        FrontChained(prefixNodes, Repr, node);
        prefixes_ := node;
      } else {
        Link(previous, node, prefixNodes, Repr, k);
      }
      prefixNodes, rules, Repr := Splice(prefixNodes, node, k), Splice(rules, node.Rule(), k), Repr + {node};
    }

    method FindContext(context: string) returns (found: ContextListNode?)
      requires Valid() && IsCString(context)
      ensures found == null <==> context !in contexts
      ensures found != null ==> found in contextNodes && found.context == context
    {
      found := contexts_;
      ghost var k := 0;
      while found != null
        invariant 0 <= k <= |contextNodes|
        invariant found == ContextAt(contextNodes, k)
        invariant forall i | 0 <= i < k :: contextNodes[i].context != context
        decreases |contextNodes| - k
      {
        StrCmpZero(found.context, context);
        if StrCmp(found.context, context) == 0 {
          assert contexts[k] == context;
          return;
        }
        found := found.next;
        k := k + 1;
      }
    }

    method AddContext(context: string) returns (node: ContextListNode)
      requires Valid() && IsCString(context) && context !in contexts
      modifies this
      ensures Valid() && Repr == old(Repr) && rules == old(rules)
      ensures node in contextNodes && node.context == context
      ensures contexts == [context] + old(contexts)
    {
      node := new ContextListNode(contexts_, context);
      assert forall i | 0 <= i < |contextNodes| :: contexts[i] in contexts;
      contexts_ := node;
      contextNodes, contexts := [node] + contextNodes, [context] + contexts;
    }

    method AddRule(prefix: string, context: string)
      requires Valid() && IsCString(prefix) && IsCString(context)
      modifies this, Repr
      ensures Valid()
      ensures rules == Insert(old(rules), PrefixRule(prefix, context))
      ensures contexts == Remember(old(contexts), context)
      ensures fresh(Repr - old(Repr))
    {
      var known := FindContext(context);
      if known == null {
        known := AddContext(context);
      }
      ListAddAfterLen(prefix, known);
    }

    /** The insertion loop over the lines of one rule file; control properties and short lines are skipped. */
    method AddLine(line: Line)
      requires Valid() && line.WellFormed()
      modifies this, Repr
      ensures Valid()
      ensures rules == (if line.Skipped() then old(rules) else Insert(old(rules), line.Rule()))
      ensures contexts == (if line.Skipped() then old(contexts) else Remember(old(contexts), line.Rule().context))
      ensures fresh(Repr - old(Repr))
    {
      if |line.fields| < 2 {
        return;
      }
      assert line.fields[0] in line.fields && line.fields[1] in line.fields;
      if !IsControl(line.fields[0]) {
        AddRule(line.fields[0], line.fields[1]);
      }
    }

    /** Fails, changing nothing, exactly when there is no such file. */
    method InitializePropertiesFromFile(files: map<string, seq<Line>>, filename: string) returns (ok: bool)
      requires Valid() && ProperFiles(files)
      modifies this, Repr
      ensures Valid()
      ensures ok <==> filename in files
      ensures rules == InsertMore(old(rules), RulesIn(LinesOf(files, filename)))
      ensures contexts == RememberAll(old(contexts), RulesIn(LinesOf(files, filename)))
      ensures fresh(Repr - old(Repr))
    {
      if filename !in files {
        return false;
      }
      var lines := files[filename];
      var i := 0;
      while i < |lines|
        invariant 0 <= i <= |lines|
        invariant Valid()
        invariant rules == InsertMore(old(rules), RulesIn(lines[..i]))
        invariant contexts == RememberAll(old(contexts), RulesIn(lines[..i]))
        invariant fresh(Repr - old(Repr))
      {
        AddLine(lines[i]);
        OneMoreLine(old(rules), old(contexts), lines, i);
        i := i + 1;
      }
      assert lines[..|lines|] == lines;
      return true;
    }

    /** Reads the one combined file, or the platform's file and then the vendor's. `readable` is what access() finds. */
    method InitializeProperties(files: map<string, seq<Line>>, readable: set<string>) returns (ok: bool)
      requires Valid() && ProperFiles(files)
      modifies this, Repr
      ensures Valid()
      ensures ok <==> LinesRead(files, readable).Some?
      ensures ok ==> rules == InsertMore(old(rules), RulesIn(LinesRead(files, readable).value))
      ensures ok ==> contexts == RememberAll(old(contexts), RulesIn(LinesRead(files, readable).value))
      ensures !ok ==> rules == old(rules) && contexts == old(contexts)
      ensures fresh(Repr - old(Repr))
    {
      ok := InitializePropertiesFromFile(files, COMBINED);
      if ok {
        return;
      }
      var (platform, vendor, nonplat) := if SYSTEM_PLATFORM in readable then SYSTEM_FILES else ROOT_FILES;
      ok := InitializePropertiesFromFile(files, platform);
      if !ok {
        return;
      }
      var second := if vendor in readable then vendor else nonplat;
      var _ := InitializePropertiesFromFile(files, second);
      TwoFiles(old(rules), old(contexts), files[platform], LinesOf(files, second));
    }

    /** First-match lookup; the context node stands for the area that is opened on demand. */
    method GetPropAreaForName(name: string) returns (area: ContextListNode?)
      requires Valid() && IsCString(name)
      ensures area == null <==> FirstMatch(rules, name).None?
      ensures area != null ==> area in contextNodes && area.context == FirstMatch(rules, name).value.context
    {
      var current := prefixes_;
      ghost var k := 0;
      while current != null
        invariant 0 <= k <= |prefixNodes|
        invariant current == PrefixAt(prefixNodes, k)
        invariant FirstMatch(rules, name) == FirstMatch(rules[k..], name)
        decreases |prefixNodes| - k
      {
        assert rules[k..][0] == current.Rule() && rules[k..][1..] == rules[k + 1..];
        StrNCmpPrefix(current.prefix, name);
        if At(current.prefix, 0) == '*' || StrNCmp(current.prefix, name, |current.prefix|) == 0 {
          return current.context;
        }
        current := current.next;
        k := k + 1;
      }
      return null;
    }
  }

  /** The line is a rule for the name: two fields, no control property, and its first field is starred or a prefix. */
  ghost predicate Claims(l: Line, name: string) {
    |l.fields| >= 2 && !("ctl." <= l.fields[0]) && (At(l.fields[0], 0) == '*' || l.fields[0] <= name)
  }

  /** Line j claims the name, and of the lines that do it is the first of the longest, or the last "*" if all are starred. */
  ghost predicate LineOwns(lines: seq<Line>, name: string, j: nat) {
    && j < |lines| && Claims(lines[j], name)
    && forall k: nat | k < |lines| && Claims(lines[k], name) ::
         var p, q := lines[j].fields[0], lines[k].fields[0];
         if At(p, 0) == '*' then At(q, 0) == '*' && k <= j
         else At(q, 0) == '*' || |q| < |p| || (|q| == |p| && j <= k)
  }

  /** The best rule of the lines is the rule of the line that owns the name. */
  lemma BestRuleOwns(lines: seq<Line>, name: string, i: nat) returns (j: nat)
    requires IsBest(RulesIn(lines), name, i)
    ensures LineOwns(lines, name, j) && lines[j].fields[1] == RulesIn(lines)[i].context
  {
    var at := RuleLines(lines);
    j := at[i];
    forall k: nat | k < |lines| && Claims(lines[k], name)
      ensures var p, q := lines[j].fields[0], lines[k].fields[0];
              if At(p, 0) == '*' then At(q, 0) == '*' && k <= j
              else At(q, 0) == '*' || |q| < |p| || (|q| == |p| && j <= k)
    {
      var m :| 0 <= m < |at| && at[m] == k;
      assert RulesIn(lines)[m].Matches(name);
      assert i < m ==> j < k;
      assert m < i ==> k < j;
    }
  }

  /** What rule files hold: no empty prefix, and '*' only as the whole catch-all. */
  ghost predicate OrdinaryFiles(files: map<string, seq<Line>>) {
    forall f, l | f in files && l in files[f] && |l.fields| >= 2 && !("ctl." <= l.fields[0]) ::
      l.fields[0] != "" && (At(l.fields[0], 0) == '*' ==> l.fields[0] == "*")
  }

  lemma AllOrdinary(files: map<string, seq<Line>>, readable: set<string>)
    requires OrdinaryFiles(files) && LinesRead(files, readable).Some?
    ensures forall q | q in RulesIn(LinesRead(files, readable).value) :: Ordinary(q)
  {
    var lines := LinesRead(files, readable).value;
    forall q | q in RulesIn(lines) ensures Ordinary(q) {
      RuleComesFromLine(lines, q);
      var l :| l in lines && |l.fields| >= 2 && !("ctl." <= l.fields[0]) && q == PrefixRule(l.fields[0], l.fields[1]);
      assert exists f :: f in files && l in files[f];
    }
  }

  /** Reading the files and looking a name up: none exactly when nothing can be read or no line claims the name, else
      the second field of the line that owns it. */
  method OwnerOf(files: map<string, seq<Line>>, readable: set<string>, name: string) returns (context: Option<string>)
    requires ProperFiles(files) && OrdinaryFiles(files) && IsCString(name)
    ensures context.None? <==>
      LinesRead(files, readable).None? || forall l | l in LinesRead(files, readable).value :: !Claims(l, name)
    ensures context.Some? ==> exists j: nat ::
      LineOwns(LinesRead(files, readable).value, name, j) && LinesRead(files, readable).value[j].fields[1] == context.value
  {
    var split := new ContextsSplit();
    var ok := split.InitializeProperties(files, readable);
    if !ok {
      return None;
    }
    ghost var lines := LinesRead(files, readable).value;
    AllOrdinary(files, readable);
    OwnerIsBest(lines, name);
    var area := split.GetPropAreaForName(name);
    if area == null {
      forall l | l in lines ensures !Claims(l, name) {
        if |l.fields| >= 2 && !("ctl." <= l.fields[0]) {
          RuleComesFromLine(lines, PrefixRule(l.fields[0], l.fields[1]));
        }
      }
      return None;
    }
    ghost var i: nat :| IsBest(RulesIn(lines), name, i)
                        && RulesIn(lines)[i] == FirstMatch(InsertMore([], RulesIn(lines)), name).value;
    ghost var j := BestRuleOwns(lines, name, i);
    assert lines[j] in lines;
    return Some(area.context);
  }
}
