/** Key/value audio parameters: the parser of utils.cc against the printer of the output stream. */
module AudioParams {

  type Params = map<string, string>

  /** Offset of the first delimiter, or the length of the string. */
  function FirstOf(s: string, delimiter: char): (i: nat)
    ensures i <= |s| && delimiter !in s[..i]
    ensures i < |s| ==> s[i] == delimiter
  {
    if s == "" || s[0] == delimiter then 0 else FirstOf(s[1..], delimiter) + 1
  }

  /** android::base::Split with a single delimiter. */
  function Split(s: string, delimiter: char): (pieces: seq<string>)
    ensures |pieces| > 0
    ensures forall p | p in pieces :: delimiter !in p
    ensures pieces[0] == s[..FirstOf(s, delimiter)]
  {
    var i := FirstOf(s, delimiter);
    if i == |s| then [s[..i]] else [s[..i]] + Split(s[i + 1..], delimiter)
  }

  function KeyOf(segment: string): string {
    Split(segment, '=')[0]
  }

  function ValueOf(segment: string): string {
    var kv := Split(segment, '=');
    if |kv| > 1 then kv[1] else ""
  }

  ghost predicate LastValue(segments: seq<string>, k: string, v: string) {
    exists i: nat :: i < |segments| && KeyOf(segments[i]) == k && ValueOf(segments[i]) == v
                     && forall j: nat | i < j < |segments| :: KeyOf(segments[j]) != k
  }

  /** m maps every non-empty key that occurs in a segment to the value of its last occurrence, and nothing else. */
  ghost predicate Means(segments: seq<string>, m: Params) {
    && (forall i: nat | i < |segments| && KeyOf(segments[i]) != "" :: KeyOf(segments[i]) in m)
    && forall k | k in m :: k != "" && LastValue(segments, k, m[k])
  }

  lemma LastValueKept(before: seq<string>, s: string, k: string, v: string)
    requires LastValue(before, k, v) && KeyOf(s) != k
    ensures LastValue(before + [s], k, v)
  {
    var i: nat :| i < |before| && KeyOf(before[i]) == k && ValueOf(before[i]) == v
                  && forall j: nat | i < j < |before| :: KeyOf(before[j]) != k;
    assert (before + [s])[i] == before[i];
    assert forall j: nat | i < j < |before| :: (before + [s])[j] == before[j];
  }

  lemma OneMoreSegment(segments: seq<string>, n: nat, m: Params)
    requires n < |segments| && Means(segments[..n], m)
    ensures var s := segments[n];
            Means(segments[..n + 1], if KeyOf(s) != "" then m[KeyOf(s) := ValueOf(s)] else m)
  {
    var s, before, more := segments[n], segments[..n], segments[..n + 1];
    var m' := if KeyOf(s) != "" then m[KeyOf(s) := ValueOf(s)] else m;
    assert more == before + [s];
    forall k | k in m' ensures k != "" && LastValue(more, k, m'[k]) {
      if k == KeyOf(s) {
        assert more[n] == s;
      } else {
        LastValueKept(before, s, k, m[k]);
      }
    }
    forall i: nat | i < |more| && KeyOf(more[i]) != "" ensures KeyOf(more[i]) in m' {
      assert i < n ==> more[i] == before[i];
    }
  }

  /** A segment's key is the text in front of its first '='; its value the text from there to the next '=' or the end, and
      empty without a '='. */
  lemma SegmentMeaning(segment: string)
    ensures '=' !in KeyOf(segment) && KeyOf(segment) <= segment && '=' !in ValueOf(segment)
    ensures '=' !in segment ==> KeyOf(segment) == segment && ValueOf(segment) == ""
    ensures '=' in segment ==>
              var rest := segment[|KeyOf(segment)|..];
              && "=" + ValueOf(segment) <= rest
              && (|rest| > 1 + |ValueOf(segment)| ==> rest[1 + |ValueOf(segment)|] == '=')
  {
    var d := FirstOf(segment, '=');
    var kv := Split(segment, '=');
    assert kv[0] in kv && kv[0] == segment[..d];
    if d < |segment| {
      var rest := segment[d + 1..];
      assert kv == [segment[..d]] + Split(rest, '=') && kv[1] == rest[..FirstOf(rest, '=')];
      assert kv[1] in kv;
      assert segment[d..] == ['='] + rest;
    }
  }

  method ParseAudioParams(params: string) returns (m: Params)
    ensures Means(Split(params, ';'), m)
  {
    var segments := Split(params, ';');
    m := map[];
    var n := 0;
    while n < |segments|
      invariant 0 <= n <= |segments|
      invariant Means(segments[..n], m)
    {
      var segment := segments[n];
      ghost var before := m;
      if |segment| != 0 {
        var kv := Split(segment, '=');
        if kv[0] != "" {
          m := m[kv[0] := if |kv| > 1 then kv[1] else ""];
        }
      }
      OneMoreSegment(segments, n, before);
      n := n + 1;
    }
    assert segments[..n] == segments;
  }

  lemma OccurringKeys(segments: seq<string>, m: Params, m': Params)
    requires Means(segments, m) && Means(segments, m')
    ensures forall k | k in m :: k in m' && m[k] == m'[k]
  {
    forall k | k in m ensures k in m' && m[k] == m'[k] {
      assert LastValue(segments, k, m[k]);
      assert LastValue(segments, k, m'[k]);
    }
  }

  /** The meaning leaves no choice. */
  lemma MeaningUnique(segments: seq<string>, m: Params, m': Params)
    requires Means(segments, m) && Means(segments, m')
    ensures m == m'
  {
    OccurringKeys(segments, m, m');
    OccurringKeys(segments, m', m);
  }

  // ---------- Printing ----------

  datatype Pair = Pair(key: string, value: string) {
    function Text(): string {
      key + "=" + value
    }

    /** Representable: the key is not empty and neither part holds a separator. */
    predicate Clean() {
      key != "" && ';' !in key && '=' !in key && ';' !in value && '=' !in value
    }
  }

  function Print(pairs: seq<Pair>): string {
    if pairs == [] then "" else pairs[0].Text() + ";" + Print(pairs[1..])
  }

  method PrintParams(pairs: seq<Pair>) returns (result: string)
    ensures result == Print(pairs)
  {
    result := "";
    for n := 0 to |pairs|
      invariant result + Print(pairs[n..]) == Print(pairs)
    {
      var printed := pairs[n].key + "=" + pairs[n].value + ";";
      assert Print(pairs[n..]) == printed + Print(pairs[n + 1..]) by {
        assert pairs[n..][1..] == pairs[n + 1..];
      }
      assert result + (printed + Print(pairs[n + 1..])) == result + printed + Print(pairs[n + 1..]);
      result := result + printed;
    }
  }

  lemma FirstOfUnique(s: string, delimiter: char, i: nat)
    requires i < |s| && delimiter !in s[..i] && s[i] == delimiter
    ensures FirstOf(s, delimiter) == i
  {
    var d := FirstOf(s, delimiter);
    assert forall j | 0 <= j < d :: s[j] in s[..d];
    assert forall j | 0 <= j < i :: s[j] in s[..i];
  }

  /** A piece without the delimiter, then the delimiter, then anything. */
  lemma SplitFirst(s: string, t: string, delimiter: char)
    requires delimiter !in s
    ensures Split(s + [delimiter] + t, delimiter) == [s] + Split(t, delimiter)
  {
    var all := s + [delimiter] + t;
    assert all[..|s|] == s && all[|s|] == delimiter && all[|s| + 1..] == t;
    FirstOfUnique(all, delimiter, |s|);
  }

  lemma SplitWhole(s: string, delimiter: char)
    requires delimiter !in s
    ensures Split(s, delimiter) == [s]
  {
    assert FirstOf(s, delimiter) == |s|;
    assert s[..|s|] == s;
  }

  function Texts(pairs: seq<Pair>): (texts: seq<string>)
    ensures |texts| == |pairs| && forall i | 0 <= i < |pairs| :: texts[i] == pairs[i].Text()
  {
    seq(|pairs|, i requires 0 <= i < |pairs| => pairs[i].Text())
  }

  lemma OneSegment(p: Pair, rest: string)
    requires p.Clean()
    ensures Split(p.Text() + ";" + rest, ';') == [p.Text()] + Split(rest, ';')
  {
    var text := p.Text();
    assert ';' !in text;
    SplitFirst(text, rest, ';');
  }

  lemma TextsSplit(pairs: seq<Pair>)
    requires pairs != []
    ensures Texts(pairs) == [pairs[0].Text()] + Texts(pairs[1..])
  {
  }

  lemma PrependedList(first: string, rest: seq<string>, last: string)
    ensures [first] + (rest + [last]) == ([first] + rest) + [last]
  {
  }

  lemma {:induction false} PrintedSegments(pairs: seq<Pair>)
    requires forall p | p in pairs :: p.Clean()
    ensures Split(Print(pairs), ';') == Texts(pairs) + [""]
  {
    if pairs == [] {
      SplitWhole("", ';');
    } else {
      PrintedSegments(pairs[1..]);
      OneSegment(pairs[0], Print(pairs[1..]));
      TextsSplit(pairs);
      PrependedList(pairs[0].Text(), Texts(pairs[1..]), "");
    }
  }

  lemma CleanText(p: Pair)
    requires p.Clean()
    ensures KeyOf(p.Text()) == p.key && ValueOf(p.Text()) == p.value
  {
    SplitFirst(p.key, p.value, '=');
    SplitWhole(p.value, '=');
  }

  ghost predicate DistinctKeys(pairs: seq<Pair>) {
    forall i, j | 0 <= i < j < |pairs| :: pairs[i].key != pairs[j].key
  }

  /** m holds exactly these pairs. */
  ghost predicate Holds(pairs: seq<Pair>, m: Params) {
    && (forall p | p in pairs :: p.key in m && m[p.key] == p.value)
    && forall k | k in m :: Pair(k, m[k]) in pairs
  }

  lemma {:induction false} PiecesWithin(s: string, delimiter: char, c: char)
    requires c !in s
    ensures forall p | p in Split(s, delimiter) :: c !in p
    decreases |s|
  {
    var i := FirstOf(s, delimiter);
    if i < |s| {
      PiecesWithin(s[i + 1..], delimiter, c);
    }
  }

  /** Parsed keys and values never hold a separator. */
  lemma ParsedIsClean(params: string, m: Params, k: string)
    requires Means(Split(params, ';'), m) && k in m
    ensures Pair(k, m[k]).Clean()
  {
    var segments := Split(params, ';');
    var i: nat :| i < |segments| && KeyOf(segments[i]) == k && ValueOf(segments[i]) == m[k];
    assert segments[i] in segments;
    PiecesWithin(segments[i], '=', ';');
    var kv := Split(segments[i], '=');
    assert kv[0] in kv;
    if |kv| > 1 {
      assert kv[1] in kv;
    }
  }

  lemma CleanRoundTrip(pairs: seq<Pair>, m: Params)
    requires DistinctKeys(pairs) && Means(Split(Print(pairs), ';'), m)
    requires forall p | p in pairs :: p.Clean()
    ensures Holds(pairs, m)
  {
    PrintedSegments(pairs);
    var segments := Split(Print(pairs), ';');
    forall i: nat | i < |segments|
      ensures i == |pairs| ==> KeyOf(segments[i]) == ""
      ensures i < |pairs| ==> KeyOf(segments[i]) == pairs[i].key && ValueOf(segments[i]) == pairs[i].value
    {
      if i < |pairs| {
        assert segments[i] == pairs[i].Text() && pairs[i] in pairs;
        CleanText(pairs[i]);
      }
    }
    forall k | k in m ensures Pair(k, m[k]) in pairs {
      var i: nat :| i < |segments| && KeyOf(segments[i]) == k && ValueOf(segments[i]) == m[k];
      assert pairs[i] == Pair(k, m[k]);
    }
    forall p | p in pairs ensures p.key in m && m[p.key] == p.value {
      var i :| 0 <= i < |pairs| && pairs[i] == p;
      assert KeyOf(segments[i]) == p.key;
      var j: nat :| j < |segments| && KeyOf(segments[j]) == p.key && ValueOf(segments[j]) == m[p.key];
    }
  }

  /** Printing and parsing gives the map back, in any order of its entries, exactly when every entry is representable. */
  lemma RoundTrip(pairs: seq<Pair>, m: Params)
    requires DistinctKeys(pairs) && Means(Split(Print(pairs), ';'), m)
    ensures Holds(pairs, m) <==> forall p | p in pairs :: p.Clean()
  {
    if forall p | p in pairs :: p.Clean() {
      CleanRoundTrip(pairs, m);
    }
    if Holds(pairs, m) {
      forall p | p in pairs ensures p.Clean() {
        ParsedIsClean(Print(pairs), m, p.key);
      }
    }
  }
}
