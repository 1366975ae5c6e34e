/** NUL-terminated strings and the comparisons of <string.h> on them. */
module CStrings {

  const NUL := '\0'

  predicate IsCString(s: string) {
    forall i | 0 <= i < |s| :: s[i] != NUL
  }

  /** The character at offset i, counting the terminator. */
  function At(s: string, i: nat): char {
    if i < |s| then s[i] else NUL
  }

  function StrCmp(a: string, b: string): int {
    if At(a, 0) != At(b, 0) then At(a, 0) as int - At(b, 0) as int
    else if |a| == 0 || |b| == 0 then 0
    else StrCmp(a[1..], b[1..])
  }

  function StrNCmp(a: string, b: string, n: nat): int
    decreases n
  {
    if n == 0 then 0
    else if At(a, 0) != At(b, 0) then At(a, 0) as int - At(b, 0) as int
    else if |a| == 0 || |b| == 0 then 0
    else StrNCmp(a[1..], b[1..], n - 1)
  }

  lemma {:induction false} StrCmpZero(a: string, b: string)
    requires IsCString(a) && IsCString(b)
    ensures StrCmp(a, b) == 0 <==> a == b
  {
    if |a| > 0 && |b| > 0 && a[0] == b[0] {
      StrCmpZero(a[1..], b[1..]);
      assert a == [a[0]] + a[1..] && b == [b[0]] + b[1..];
    }
  }

  lemma {:induction false} StrCmpFlips(a: string, b: string)
    requires IsCString(a) && IsCString(b)
    ensures StrCmp(a, b) > 0 <==> StrCmp(b, a) < 0
  {
    if |a| > 0 && |b| > 0 && a[0] == b[0] {
      StrCmpFlips(a[1..], b[1..]);
    }
  }

  lemma {:induction false} StrCmpTransitive(a: string, b: string, c: string)
    requires IsCString(a) && IsCString(b) && IsCString(c)
    requires StrCmp(a, b) < 0 && StrCmp(b, c) < 0
    ensures StrCmp(a, c) < 0
  {
    if |a| > 0 && |b| > 0 && |c| > 0 && a[0] == b[0] == c[0] {
      StrCmpTransitive(a[1..], b[1..], c[1..]);
    }
  }

  /** strncmp over the whole length of a prefix tests for that prefix. */
  lemma {:induction false} StrNCmpPrefix(a: string, b: string)
    requires IsCString(a) && IsCString(b)
    ensures StrNCmp(a, b, |a|) == 0 <==> a <= b
  {
    if |a| > 0 && |b| > 0 && a[0] == b[0] {
      StrNCmpPrefix(a[1..], b[1..]);
      assert a == [a[0]] + a[1..] && b == [b[0]] + b[1..];
    }
  }

  /** Equality under strncmp does not depend on the order of the operands. */
  lemma {:induction false} StrNCmpFlips(a: string, b: string)
    requires IsCString(a) && IsCString(b)
    ensures StrNCmp(a, b, |b|) == 0 <==> StrNCmp(b, a, |b|) == 0
    decreases |b|
  {
    if |a| > 0 && |b| > 0 && a[0] == b[0] {
      StrNCmpFlips(a[1..], b[1..]);
    }
  }
}
