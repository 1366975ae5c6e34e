/** The prefix list of the split contexts, read as a sequence: insertion, lookup, and what lookup means. */
module PrefixRules {
  import opened Wrappers
  import opened CStrings

  datatype PrefixRule = PrefixRule(prefix: string, context: string) {
    /** A prefix starting with '*' matches every name. */
    predicate Star() {
      At(prefix, 0) == '*'
    }

    predicate Matches(name: string) {
      Star() || prefix <= name
    }
  }

  /** New rules go in front of the first shorter or starred rule. */
  function Insert(rules: seq<PrefixRule>, r: PrefixRule): (inserted: seq<PrefixRule>)
    ensures |inserted| == |rules| + 1
    ensures forall q :: q in inserted <==> q == r || q in rules
  {
    if rules == [] || |rules[0].prefix| < |r.prefix| || rules[0].Star() then [r] + rules
    else [rules[0]] + Insert(rules[1..], r)
  }

  function FirstMatch(rules: seq<PrefixRule>, name: string): (found: Option<PrefixRule>)
    ensures found.Some? ==> found.value in rules && found.value.Matches(name)
    ensures found.None? ==> forall q | q in rules :: !q.Matches(name)
  {
    if rules == [] then None
    else if rules[0].Matches(name) then Some(rules[0])
    else FirstMatch(rules[1..], name)
  }

  /** Ordinary prefixes in non-increasing length, all starred rules behind them. */
  ghost predicate Arranged(rules: seq<PrefixRule>) {
    forall i, j | 0 <= i < j < |rules| ::
      (rules[i].Star() ==> rules[j].Star()) && (!rules[j].Star() ==> |rules[i].prefix| >= |rules[j].prefix|)
  }

  /** What the files hold: non-empty prefixes, and '*' only as the whole catch-all rule. */
  predicate Ordinary(r: PrefixRule) {
    r.prefix != "" && (r.Star() ==> r.prefix == "*")
  }

  lemma {:induction false} InsertKeepsArranged(rules: seq<PrefixRule>, r: PrefixRule)
    requires Arranged(rules) && Ordinary(r) && forall q | q in rules :: Ordinary(q)
    ensures Arranged(Insert(rules, r))
  {
    if rules == [] || |rules[0].prefix| < |r.prefix| || rules[0].Star() {
      forall j | 0 <= j < |rules|
        ensures (r.Star() ==> rules[j].Star()) && (!rules[j].Star() ==> |r.prefix| >= |rules[j].prefix|)
      {
        assert rules[0] in rules && rules[j] in rules;
        assert j == 0 || (rules[0].Star() ==> rules[j].Star());
      }
      assert forall i, j | 0 < i < j < |rules| + 1 :: ([r] + rules)[i] == rules[i - 1] && ([r] + rules)[j] == rules[j - 1];
    } else {
      InsertKeepsArranged(rules[1..], r);
      var tail := Insert(rules[1..], r);
      forall j | 0 <= j < |tail|
        ensures !tail[j].Star() ==> |rules[0].prefix| >= |tail[j].prefix|
      {
        assert tail[j] in tail;
        if tail[j] != r {
          var k :| 0 <= k < |rules| - 1 && rules[1..][k] == tail[j];
          assert rules[k + 1] == tail[j];
        }
      }
    }
  }

  lemma TailArranged(rules: seq<PrefixRule>)
    requires |rules| > 0
    ensures Arranged(rules) ==> Arranged(rules[1..])
  {
    forall i, j | 0 <= i < j < |rules| - 1 && Arranged(rules)
      ensures (rules[1..][i].Star() ==> rules[1..][j].Star())
      ensures (!rules[1..][j].Star() ==> |rules[1..][i].prefix| >= |rules[1..][j].prefix|)
    {
      assert rules[1..][i] == rules[i + 1] && rules[1..][j] == rules[j + 1];
    }
  }

  /** A starred rule of any length stays behind the ordinary ones exactly when none of them is shorter than it. */
  lemma {:induction false} StarStaysBehind(rules: seq<PrefixRule>, r: PrefixRule)
    requires Arranged(rules) && r.Star()
    ensures Arranged(Insert(rules, r)) <==> forall q | q in rules && !q.Star() :: |q.prefix| >= |r.prefix|
  {
    if rules == [] || |rules[0].prefix| < |r.prefix| || rules[0].Star() {
      var inserted := Insert(rules, r);
      assert inserted[0] == r && inserted[1..] == rules;
      if rules != [] && !rules[0].Star() {
        assert !inserted[1].Star();
        assert rules[0] in rules;
      } else {
        forall j | 0 <= j < |rules| ensures rules[j].Star() {
        }
      }
    } else {
      var tail := Insert(rules[1..], r);
      StarStaysBehind(rules[1..], r);
      forall j | 0 <= j < |tail| && !tail[j].Star() ensures |rules[0].prefix| >= |tail[j].prefix| {
        assert tail[j] in tail && tail[j] in rules[1..];
        var k :| 0 <= k < |rules| - 1 && rules[1..][k] == tail[j];
        assert rules[k + 1] == tail[j];
      }
      assert Insert(rules, r)[1..] == tail;
      TailArranged(Insert(rules, r));
      assert forall q :: q in rules <==> q == rules[0] || q in rules[1..];
    }
  }

  // ---------- Lookup after insertions ----------

  /** A later rule takes over from the best so far only if it beats it: longer, or starred against starred or nothing. */
  function Better(best: Option<PrefixRule>, r: PrefixRule, name: string): Option<PrefixRule> {
    if !r.Matches(name) then best
    else if best.Some? && !best.value.Star() && (r.Star() || |best.value.prefix| >= |r.prefix|) then best
    else Some(r)
  }

  lemma {:induction false} InsertedLookup(rules: seq<PrefixRule>, r: PrefixRule, name: string)
    requires Arranged(rules) && Ordinary(r) && forall q | q in rules :: Ordinary(q)
    ensures FirstMatch(Insert(rules, r), name) == Better(FirstMatch(rules, name), r, name)
  {
    if rules == [] || |rules[0].prefix| < |r.prefix| || rules[0].Star() {
      var found := FirstMatch(rules, name);
      if found.Some? {
        var k :| 0 <= k < |rules| && rules[k] == found.value;
        assert k == 0 || |rules[0].prefix| >= |rules[k].prefix| || rules[k].Star();
      }
      assert ([r] + rules)[1..] == rules;
    } else {
      InsertedLookup(rules[1..], r, name);
      assert Insert(rules, r)[1..] == Insert(rules[1..], r);
    }
  }

  function InsertAll(history: seq<PrefixRule>): (rules: seq<PrefixRule>)
    ensures forall q :: q in rules <==> q in history
  {
    if history == [] then [] else
      var rules := Insert(InsertAll(history[..|history| - 1]), history[|history| - 1]);
      assert history == history[..|history| - 1] + [history[|history| - 1]];
      rules
  }

  /** The earliest longest ordinary match of the history, else its latest starred rule. */
  ghost predicate IsBest(history: seq<PrefixRule>, name: string, i: nat) {
    && i < |history| && history[i].Matches(name)
    && forall j: nat | j < |history| && history[j].Matches(name) ::
         if history[i].Star() then history[j].Star() && j <= i
         else history[j].Star() || |history[j].prefix| < |history[i].prefix|
              || (|history[j].prefix| == |history[i].prefix| && i <= j)
  }

  /** After any sequence of insertions ordinary prefixes stand in non-increasing length, starred rules behind them. */
  lemma {:induction false} InsertionsArrange(history: seq<PrefixRule>)
    requires forall q | q in history :: Ordinary(q)
    ensures Arranged(InsertAll(history))
  {
    if history == [] {
    } else {
      var n := |history| - 1;
      InsertionsArrange(history[..n]);
      InsertKeepsArranged(InsertAll(history[..n]), history[n]);
    }
  }

  lemma FirstBest(earlier: seq<PrefixRule>, r: PrefixRule, name: string)
    requires r.Matches(name) && forall q | q in earlier :: !q.Matches(name)
    ensures IsBest(earlier + [r], name, |earlier|)
  {
    assert forall j: nat | j < |earlier| :: (earlier + [r])[j] == earlier[j];
  }

  lemma BestExtends(earlier: seq<PrefixRule>, r: PrefixRule, name: string, i: nat)
    requires IsBest(earlier, name, i)
    ensures exists k: nat :: IsBest(earlier + [r], name, k)
              && Better(Some(earlier[i]), r, name) == Some((earlier + [r])[k])
  {
    var history, best := earlier + [r], earlier[i];
    var kept := !r.Matches(name) || (!best.Star() && (r.Star() || |best.prefix| >= |r.prefix|));
    assert IsBest(history, name, if kept then i else |earlier|);
  }

  /** First-match lookup finds the best rule of the history. */
  lemma {:induction false} LookupIsBest(history: seq<PrefixRule>, name: string)
    requires forall q | q in history :: Ordinary(q)
    ensures match FirstMatch(InsertAll(history), name)
            case None => forall q | q in history :: !q.Matches(name)
            case Some(r) => exists i: nat :: IsBest(history, name, i) && history[i] == r
  {
    if history == [] {
    } else {
      var n := |history| - 1;
      var earlier, r := history[..n], history[n];
      assert history == earlier + [r];
      LookupIsBest(earlier, name);
      InsertionsArrange(earlier);
      InsertedLookup(InsertAll(earlier), r, name);
      var before := FirstMatch(InsertAll(earlier), name);
      if before.Some? {
        var i: nat :| IsBest(earlier, name, i) && earlier[i] == before.value;
        BestExtends(earlier, r, name, i);
      } else if r.Matches(name) {
        FirstBest(earlier, r, name);
      }
    }
  }
}
