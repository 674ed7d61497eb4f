/** Credential redaction of audit records: src/lib/audit/redact.ts. */
module Redaction {
  import opened JsonValues

  const REDACTED: string := "<redacted>"

  /** Empty secrets are filtered out before any replacement. */
  type Secret = t: string | t != "" witness "*"

  // ---------------------------------------------------------------- strings

  predicate OccursAt(s: string, t: string, i: int) {
    0 <= i <= |s| - |t| && s[i..i + |t|] == t
  }

  ghost predicate Contains(s: string, t: string) {
    exists i :: OccursAt(s, t, i)
  }

  /** `indexOf` from position `i`; -1 when there is no occurrence. */
  function IndexFrom(s: string, t: string, i: nat): (r: int)
    ensures r == -1 ==> forall j :: i <= j ==> !OccursAt(s, t, j)
    ensures r != -1 ==> i <= r && OccursAt(s, t, r) && forall j :: i <= j < r ==> !OccursAt(s, t, j)
    decreases |s| - i
  {
    if i + |t| > |s| then -1 else if OccursAt(s, t, i) then i else IndexFrom(s, t, i + 1)
  }

  function Index(s: string, t: string): int { IndexFrom(s, t, 0) }

  function Split(s: string, sep: Secret): seq<string>
    decreases |s|
  {
    var i := Index(s, sep);
    if i == -1 then [s] else [s[..i]] + Split(s[i + |sep|..], sep)
  }

  function Join(parts: seq<string>, glue: string): string
    requires parts != []
  {
    if |parts| == 1 then parts[0] else parts[0] + glue + Join(parts[1..], glue)
  }

  /** `out.split(secret).join('<redacted>')`. */
  function Replace(s: string, secret: Secret): string
  {
    Join(Split(s, secret), REDACTED)
  }

  /** The string case of `applyRedaction`, one secret after the other. */
  function RedactString(s: string, secrets: seq<Secret>): string
    decreases |secrets|
  {
    if secrets == [] then s else RedactString(Replace(s, secrets[0]), secrets[1..])
  }

  /** One is the beginning of the other. */
  predicate Meets(y: string, m: string) { y <= m || m <= y }

  /** The secret lies inside the marker. */
  ghost predicate ShownInside(t: string, m: string) { Contains(m, t) }

  /** The secret begins with an end of the marker. */
  ghost predicate ShownAfter(t: string, m: string) { exists k :: ShownAfterAt(t, m, k) }

  predicate ShownAfterAt(t: string, m: string, k: int) { 1 <= k <= |t| && k <= |m| && m[|m| - k..] == t[..k] }

  /** Some rest of the secret is the beginning of the marker, or goes on past it. */
  ghost predicate RunsInto(t: string, m: string) { exists i :: RunsIntoAt(t, m, i) }

  predicate RunsIntoAt(t: string, m: string, i: int) { 0 < i < |t| && Meets(t[i..], m) }

  /** The secrets for which the guarantee holds: the marker neither contains nor helps to form them. */
  ghost predicate Safe(secret: string) {
    secret != "" && !ShownInside(secret, REDACTED) && !ShownAfter(secret, REDACTED) && !RunsInto(secret, REDACTED)
  }

  lemma OccursInside(s: string, t: string, lo: int, hi: int, i: int)
    requires 0 <= lo <= hi <= |s| && OccursAt(s[lo..hi], t, i)
    ensures OccursAt(s, t, lo + i)
  {
    var u := s[lo..hi];
    forall k | 0 <= k < |t| ensures s[lo + i + k] == t[k] {
      assert u[i..i + |t|][k] == u[i + k];
    }
    assert s[lo + i..lo + i + |t|] == t;
  }

  lemma ContainsPart(s: string, t: string, lo: int, hi: int)
    requires 0 <= lo <= hi <= |s| && Contains(s[lo..hi], t)
    ensures Contains(s, t)
  {
    var i :| OccursAt(s[lo..hi], t, i);
    OccursInside(s, t, lo, hi, i);
  }

  /** Where an occurrence in a marked text begins in the marker. */
  lemma BeginsInMarker(a: string, m: string, b: string, t: string, j: int)
    requires OccursAt(a + m + b, t, j) && |a| <= j < |a| + |m|
    ensures ShownInside(t, m) || ShownAfter(t, m)
  {
    var s, d := a + m + b, j - |a|;
    if d + |t| <= |m| {
      assert m[d..d + |t|] == s[j..j + |t|];
      assert OccursAt(m, t, d);
    } else {
      var k := |m| - d;
      assert s[j..j + |t|][..k] == s[j..j + k] && s[j..j + k] == m[d..];
      assert ShownAfterAt(t, m, k);
    }
  }

  lemma RunsIntoMarker(a: string, m: string, b: string, t: string, j: int)
    requires OccursAt(a + m + b, t, j) && 0 <= j < |a| < j + |t|
    ensures RunsIntoAt(t, m, |a| - j) && RunsInto(t, m)
  {
    var s, y := a + m + b, t[|a| - j..];
    assert y == s[|a|..j + |t|];
    assert s[|a|..] == m + b;
    assert y == (m + b)[..|y|];
    PrefixMeets(y, m, b);
    assert RunsIntoAt(t, m, |a| - j);
  }

  lemma PrefixMeets(y: string, m: string, b: string)
    requires y <= m + b
    ensures Meets(y, m)
  {
    if |y| <= |m| { assert y == m[..|y|]; } else { assert m == y[..|m|]; }
  }

  lemma EndThenRest(t: string, m: string, k: int)
    requires ShownAfterAt(t, m, k)
    ensures OccursAt(m + t[k..], t, |m| - k)
  {
    var out := m + t[k..];
    assert out[|m| - k..|m| - k + |t|] == m[|m| - k..] + t[k..];
    assert t == t[..k] + t[k..];
  }

  lemma StartThenMarker(x: string, y: string, m: string, z: string)
    requires Meets(y, m) && z == if |y| > |m| then y[|m|..] else ""
    ensures OccursAt(x + m + z, x + y, 0)
  {
    var out := x + m + z;
    if |y| > |m| {
      assert y == m + z;
      assert out == x + y;
    } else {
      assert m == y + m[|y|..];
    }
    assert out[..|x + y|] == x + y;
  }

  lemma BeforeMarker(a: string, m: string, b: string, t: string, j: int)
    requires OccursAt(a + m + b, t, j) && j + |t| <= |a|
    ensures OccursAt(a, t, j)
  {
    assert a[j..j + |t|] == (a + m + b)[j..j + |t|];
  }

  lemma AfterMarker(a: string, m: string, b: string, t: string, j: int)
    requires OccursAt(a + m + b, t, j) && j >= |a| + |m|
    ensures OccursAt(b, t, j - |a| - |m|)
  {
    var d := j - |a| - |m|;
    assert b[d..d + |t|] == (a + m + b)[j..j + |t|];
  }

  /** An occurrence of a safe string cannot cross the marker. */
  lemma AcrossMarker(a: string, b: string, t: string, i: int)
    requires Safe(t) && OccursAt(a + REDACTED + b, t, i)
    ensures || (i + |t| <= |a| && OccursAt(a, t, i))
            || (i >= |a| + |REDACTED| && OccursAt(b, t, i - |a| - |REDACTED|))
  {
    if i + |t| <= |a| {
      BeforeMarker(a, REDACTED, b, t, i);
    } else if i >= |a| + |REDACTED| {
      AfterMarker(a, REDACTED, b, t, i);
    } else if i >= |a| {
      BeginsInMarker(a, REDACTED, b, t, i);
      assert false;
    } else {
      RunsIntoMarker(a, REDACTED, b, t, i);
      assert false;
    }
  }

  /** A secret without angle brackets is safe unless it is part of the word "redacted". */
  lemma PlainIsSafe(t: string)
    requires t != "" && '<' !in t && '>' !in t && !Contains("redacted", t)
    ensures Safe(t)
  {
    var m := REDACTED;
    assert m[0] == '<' && m[9] == '>' && |m| == 10 && m[1..9] == "redacted";
    forall i ensures !OccursAt(m, t, i) {
      if OccursAt(m, t, i) { InsideOfMarker(m, t, i); }
    }
    forall k ensures !ShownAfterAt(t, m, k) {
      if ShownAfterAt(t, m, k) { EndsInBracket(t, m, k); }
    }
    forall i ensures !RunsIntoAt(t, m, i) {
      if RunsIntoAt(t, m, i) { BeginsInBracket(t, m, i); }
    }
  }

  lemma SliceOfSlice(s: string, lo: int, hi: int, i: int, j: int)
    requires 0 <= lo <= hi <= |s| && 0 <= i <= j <= hi - lo
    ensures s[lo..hi][i..j] == s[lo + i..lo + j]
  {
    var u := s[lo..hi];
    forall k | 0 <= k < j - i ensures u[i..j][k] == s[lo + i..lo + j][k] { assert u[i + k] == s[lo + i + k]; }
  }

  lemma InsideOfMarker(m: string, t: string, i: int)
    requires |m| == 10 && OccursAt(m, t, i) && t != ""
    ensures m[0] in t || m[9] in t || Contains(m[1..9], t)
  {
    if i == 0 { CharIn(m, t, i, 0); }
    else if i + |t| == 10 { CharIn(m, t, i, 9); }
    else {
      var u, d := m[1..9], i - 1;
      SliceOfSlice(m, 1, 9, d, d + |t|);
      assert u[d..d + |t|] == t;
      assert OccursAt(u, t, d);
    }
  }

  lemma EndsInBracket(t: string, m: string, k: int)
    requires |m| == 10 && ShownAfterAt(t, m, k)
    ensures m[9] in t
  {
    assert m[10 - k..][k - 1] == t[..k][k - 1];
    assert t[k - 1] in t;
  }

  lemma BeginsInBracket(t: string, m: string, i: int)
    requires |m| == 10 && RunsIntoAt(t, m, i)
    ensures m[0] in t
  {
    assert t[i..][0] == m[0];
    assert t[i] in t;
  }

  lemma CharIn(s: string, t: string, i: int, k: int)
    requires OccursAt(s, t, i) && i <= k < i + |t|
    ensures s[k] in t
  {
    assert s[i..i + |t|][k - i] == s[k];
  }

  /** No piece of a split contains the separator, and every piece is cut from the string. */
  lemma {:induction false} SplitPieces(s: string, sep: Secret, t: string)
    ensures |Split(s, sep)| >= 1
    ensures forall p :: p in Split(s, sep) ==> !Contains(p, sep) && (Contains(p, t) ==> Contains(s, t))
    decreases |s|
  {
    var i := Index(s, sep);
    if i != -1 {
      var rest := s[i + |sep|..];
      SplitPieces(rest, sep, t);
      forall p | p in Split(s, sep)
        ensures !Contains(p, sep) && (Contains(p, t) ==> Contains(s, t))
      {
        if p == s[..i] {
          if j :| OccursAt(s[..i], sep, j) { OccursInside(s, sep, 0, i, j); }
          if Contains(s[..i], t) { ContainsPart(s, t, 0, i); }
        } else {
          assert p in Split(rest, sep);
          if Contains(p, t) {
            assert s[i + |sep|..|s|] == rest;
            ContainsPart(s, t, i + |sep|, |s|);
          }
        }
      }
    }
  }

  lemma {:induction false} JoinPieces(parts: seq<string>, t: string)
    requires Safe(t) && parts != [] && forall p :: p in parts ==> !Contains(p, t)
    ensures !Contains(Join(parts, REDACTED), t)
  {
    if |parts| > 1 {
      JoinPieces(parts[1..], t);
      var rest := Join(parts[1..], REDACTED);
      assert !Contains(parts[0], t) && !Contains(rest, t);
      if i :| OccursAt(Join(parts, REDACTED), t, i) {
        AcrossMarker(parts[0], rest, t, i);
      }
    }
  }

  /** Replacing one safe secret removes it, and replacing any secret brings back no safe one. */
  lemma ReplaceRemoves(s: string, secret: Secret, t: string)
    ensures Safe(secret) ==> !Contains(Replace(s, secret), secret)
    ensures Safe(t) && !Contains(s, t) ==> !Contains(Replace(s, secret), t)
  {
    SplitPieces(s, secret, t);
    if Safe(secret) { JoinPieces(Split(s, secret), secret); }
    if Safe(t) && !Contains(s, t) { JoinPieces(Split(s, secret), t); }
  }

  ghost predicate AllSafe(secrets: seq<Secret>) { forall i :: 0 <= i < |secrets| ==> Safe(secrets[i]) }

  lemma {:induction false} RedactStringKeepsOut(s: string, secrets: seq<Secret>, t: string)
    requires Safe(t) && !Contains(s, t)
    ensures !Contains(RedactString(s, secrets), t)
    decreases |secrets|
  {
    if secrets != [] {
      ReplaceRemoves(s, secrets[0], t);
      RedactStringKeepsOut(Replace(s, secrets[0]), secrets[1..], t);
    }
  }

  lemma {:induction false} RedactStringComplete(s: string, secrets: seq<Secret>, t: string)
    requires Safe(t) && t in secrets
    ensures !Contains(RedactString(s, secrets), t)
    decreases |secrets|
  {
    var next := Replace(s, secrets[0]);
    ReplaceRemoves(s, secrets[0], t);
    if t == secrets[0] {
      RedactStringKeepsOut(next, secrets[1..], t);
    } else {
      assert t in secrets[1..];
      RedactStringComplete(next, secrets[1..], t);
    }
  }

  lemma {:induction false} RedactStringUnchanged(s: string, secrets: seq<Secret>)
    requires forall t :: t in secrets ==> !Contains(s, t)
    ensures RedactString(s, secrets) == s
    decreases |secrets|
  {
    if secrets != [] {
      assert secrets[0] in secrets && Index(s, secrets[0]) == -1;
      RedactStringUnchanged(s, secrets[1..]);
    }
  }

  // ------------------------------------------- why the longest secret goes first

  lemma {:induction false} JoinSnoc(a: string, parts: seq<string>)
    requires parts != []
    ensures Join([a] + parts, REDACTED) == a + REDACTED + Join(parts, REDACTED)
  {
    assert ([a] + parts)[1..] == parts;
  }

  /** Occurrences in a marked text are those of the text before and those of the text after. */
  lemma OccursAcrossMarker(a: string, b: string, t: Secret, k: int)
    requires Safe(t)
    ensures var shift := |a| + |REDACTED|;
            OccursAt(a + REDACTED + b, t, k) <==> OccursAt(a, t, k) || OccursAt(b, t, k - shift)
  {
    var s, shift := a + REDACTED + b, |a| + |REDACTED|;
    if OccursAt(s, t, k) { AcrossMarker(a, b, t, k); }
    if OccursAt(a, t, k) { assert s[k..k + |t|] == a[k..k + |t|]; }
    if OccursAt(b, t, k - shift) { assert s[k..k + |t|] == b[k - shift..k - shift + |t|]; }
  }

  /** Where the first occurrence is when a marker separates two texts. */
  lemma IndexAcrossMarker(a: string, b: string, t: Secret)
    requires Safe(t)
    ensures Index(a + REDACTED + b, t)
            == if Index(a, t) != -1 then Index(a, t)
               else if Index(b, t) != -1 then |a| + |REDACTED| + Index(b, t)
               else -1
  {
    var s, shift := a + REDACTED + b, |a| + |REDACTED|;
    forall k ensures OccursAt(s, t, k) <==> OccursAt(a, t, k) || OccursAt(b, t, k - shift) {
      OccursAcrossMarker(a, b, t, k);
    }
    var i := Index(s, t);
    if Index(a, t) != -1 {
      assert OccursAt(s, t, Index(a, t));
      assert !OccursAt(b, t, i - shift);
    } else if Index(b, t) != -1 {
      assert OccursAt(s, t, shift + Index(b, t));
      assert OccursAt(b, t, i - shift);
    }
  }

  lemma SplitHead(s: string, t: Secret)
    requires Index(s, t) != -1
    ensures |Split(s[Index(s, t) + |t|..], t)| >= 1
    ensures Replace(s, t) == s[..Index(s, t)] + REDACTED + Replace(s[Index(s, t) + |t|..], t)
  {
    var i := Index(s, t);
    SplitPieces(s[i + |t|..], t, t);
    JoinSnoc(s[..i], Split(s[i + |t|..], t));
  }

  /** Replacing in a text given as what precedes its first occurrence and what follows it. */
  lemma ReplaceStep(s: string, t: Secret, head: string, tail: string)
    requires Index(s, t) == |head| && s[..|head|] == head && s[|head| + |t|..] == tail
    ensures Replace(s, t) == head + REDACTED + Replace(tail, t)
  {
    SplitHead(s, t);
  }

  lemma ReplaceNone(s: string, t: Secret)
    requires Index(s, t) == -1
    ensures Replace(s, t) == s
  {
  }

  lemma Cut(a: string, m: string, b: string, i: nat, j: nat)
    requires i <= j <= |a|
    ensures (a + m + b)[..i] == a[..i] && (a + m + b)[j..] == a[j..] + m + b
  {
  }

  lemma CutRight(a: string, m: string, b: string, i: nat, j: nat)
    requires i <= j <= |b|
    ensures (a + m + b)[..|a| + |m| + i] == a + m + b[..i] && (a + m + b)[|a| + |m| + j..] == b[j..]
  {
  }

  lemma Regroup(a: string, m: string, x: string, y: string)
    ensures a + m + (x + m + y) == (a + m + x) + m + y
  {
  }

  /** Text on either side of a marker is redacted independently. */
  lemma {:induction false} ReplaceAcrossMarker(a: string, b: string, t: Secret)
    requires Safe(t)
    ensures Replace(a + REDACTED + b, t) == Replace(a, t) + REDACTED + Replace(b, t)
    decreases |a|
  {
    IndexAcrossMarker(a, b, t);
    var i := Index(a, t);
    if i != -1 {
      ReplaceAcrossMarker(a[i + |t|..], b, t);
      CutFirst(a, REDACTED, b, t, i);
    } else if Index(b, t) != -1 {
      CutLast(a, REDACTED, b, t, Index(b, t));
    }
  }

  /** The step of ReplaceAcrossMarker when the first occurrence is left of the marker `m`. */
  lemma CutFirst(a: string, m: string, b: string, t: Secret, i: nat)
    requires m == REDACTED && Index(a, t) == i && Index(a + m + b, t) == i
    requires Replace(a[i + |t|..] + m + b, t) == Replace(a[i + |t|..], t) + m + Replace(b, t)
    ensures Replace(a + m + b, t) == Replace(a, t) + m + Replace(b, t)
  {
    SplitHead(a + m + b, t);
    SplitHead(a, t);
    Cut(a, m, b, i, i + |t|);
    Regroup(a[..i], m, Replace(a[i + |t|..], t), Replace(b, t));
  }

  /** The step of ReplaceAcrossMarker when it is right of the marker. */
  lemma CutLast(a: string, m: string, b: string, t: Secret, j: nat)
    requires m == REDACTED && Index(a, t) == -1 && Index(b, t) == j && Index(a + m + b, t) == |a| + |m| + j
    ensures Replace(a + m + b, t) == Replace(a, t) + m + Replace(b, t)
  {
    var tail := b[j + |t|..];
    ReplaceNone(a, t);
    CutRight(a, m, b, j, j + |t|);
    ReplaceStep(a + m + b, t, a + m + b[..j], tail);
    ReplaceStep(b, t, b[..j], tail);
    Regroup(a, m, b[..j], Replace(tail, t));
  }

  lemma {:induction false} RedactStringAcrossMarker(a: string, b: string, secrets: seq<Secret>)
    requires AllSafe(secrets)
    ensures RedactString(a + REDACTED + b, secrets)
            == RedactString(a, secrets) + REDACTED + RedactString(b, secrets)
    decreases |secrets|
  {
    if secrets != [] {
      var t := secrets[0];
      ReplaceAcrossMarker(a, b, t);
      RedactStringAcrossMarker(Replace(a, t), Replace(b, t), secrets[1..]);
    }
  }

  function RedactEach(parts: seq<string>, secrets: seq<Secret>): (r: seq<string>)
    ensures |r| == |parts| && forall i :: 0 <= i < |r| ==> r[i] == RedactString(parts[i], secrets)
  {
    if parts == [] then [] else [RedactString(parts[0], secrets)] + RedactEach(parts[1..], secrets)
  }

  lemma {:induction false} RedactStringOfJoin(parts: seq<string>, secrets: seq<Secret>)
    requires AllSafe(secrets) && parts != []
    ensures RedactString(Join(parts, REDACTED), secrets) == Join(RedactEach(parts, secrets), REDACTED)
  {
    if |parts| > 1 {
      RedactStringAcrossMarker(parts[0], Join(parts[1..], REDACTED), secrets);
      RedactStringOfJoin(parts[1..], secrets);
      assert RedactEach(parts, secrets)[1..] == RedactEach(parts[1..], secrets);
    }
  }

  /**
   * The first secret of the order is cut out whole: the output is the pieces between its
   * occurrences, each redacted on its own, so no shorter secret can leave part of it behind.
   */
  lemma FirstSecretLeavesNothing(s: string, secrets: seq<Secret>)
    requires secrets != [] && AllSafe(secrets)
    ensures Split(s, secrets[0]) != []
    ensures RedactString(s, secrets) == Join(RedactEach(Split(s, secrets[0]), secrets[1..]), REDACTED)
  {
    SplitPieces(s, secrets[0], secrets[0]);
    RedactStringOfJoin(Split(s, secrets[0]), secrets[1..]);
  }

  /** In the opposite order the rest of the longer secret leaks. */
  lemma ShortestFirstLeaks(t: Secret, tail: string)
    requires Safe(t) && Safe(t + tail) && tail != "" && !Contains(tail, t)
    ensures RedactString(t + tail, [t, t + tail]) == REDACTED + tail
    ensures RedactString(t + tail, [t + tail, t]) == REDACTED
  {
    var long: Secret := t + tail;
    HeadReplaced(t, tail);
    MarkerOnly(tail, long);
    TwoSecrets(long, t, long);
    RedactStringUnchanged(REDACTED + tail, [long]);
    HeadReplaced(long, "");
    assert long + "" == long && REDACTED + "" == REDACTED;
    MarkerOnly("", t);
    TwoSecrets(long, long, t);
    RedactStringUnchanged(REDACTED, [t]);
  }

  lemma TwoSecrets(s: string, t: Secret, u: Secret)
    ensures RedactString(s, [t, u]) == RedactString(Replace(s, t), [u])
  {
    assert [t, u][1..] == [u];
  }

  lemma HeadReplaced(t: Secret, tail: string)
    requires !Contains(tail, t)
    ensures Replace(t + tail, t) == REDACTED + tail
  {
    var s := t + tail;
    assert OccursAt(s, t, 0);
    assert s[|t|..] == tail && s[..0] == "";
    SplitHead(s, t);
    assert "" + REDACTED + tail == REDACTED + tail;
  }

  lemma MarkerOnly(b: string, t: Secret)
    requires Safe(t) && !Contains(b, t)
    ensures !Contains(REDACTED + b, t)
  {
    assert "" + REDACTED + b == REDACTED + b;
    if i :| OccursAt(REDACTED + b, t, i) { AcrossMarker("", b, t, i); }
  }

  // --------------------------------------------------------------- the order

  ghost predicate LongestFirst(ts: seq<Secret>) {
    forall i, j :: 0 <= i < j < |ts| ==> |ts[i]| >= |ts[j]|
  }

  ghost predicate Distinct(ts: seq<Secret>) {
    forall i, j :: 0 <= i < j < |ts| ==> ts[i] != ts[j]
  }

  /** Stable insertion into a longest-first list: after everything at least as long. */
  function Insert(t: Secret, sorted: seq<Secret>): (r: seq<Secret>)
    ensures forall x :: x in r <==> x == t || x in sorted
  {
    if sorted == [] then [t]
    else if |sorted[0]| >= |t| then [sorted[0]] + Insert(t, sorted[1..])
    else [t] + sorted
  }

  lemma {:induction false} InsertOrdered(t: Secret, sorted: seq<Secret>)
    requires LongestFirst(sorted) && Distinct(sorted) && t !in sorted
    ensures LongestFirst(Insert(t, sorted)) && Distinct(Insert(t, sorted))
  {
    if sorted != [] && |sorted[0]| >= |t| {
      InsertOrdered(t, sorted[1..]);
      var rest := Insert(t, sorted[1..]);
      forall i | 0 <= i < |rest| ensures |rest[i]| <= |sorted[0]| && rest[i] != sorted[0] {
        assert rest[i] in rest;
      }
    }
  }

  /** Empty secrets and later repetitions dropped, the rest stably sorted longest first. */
  function Order(secrets: seq<string>): (r: seq<Secret>)
    ensures forall t: Secret :: t in r <==> t in secrets
    ensures LongestFirst(r) && Distinct(r)
  {
    if secrets == [] then []
    else
      var last := |secrets| - 1;
      var t, rest := secrets[last], Order(secrets[..last]);
      assert secrets == secrets[..last] + [t];
      if t == "" || t in rest then rest
      else
        InsertOrdered(t, rest);
        Insert(t, rest)
  }

  /** Where a secret first stands in the list, counted from 1; 0 for one that does not. */
  function FirstAt(secrets: seq<string>, t: string): nat {
    if secrets == [] then 0
    else
      var earlier := FirstAt(secrets[..|secrets| - 1], t);
      if earlier > 0 then earlier else if secrets[|secrets| - 1] == t then |secrets| else 0
  }

  lemma {:induction false} FirstAtIs(secrets: seq<string>, t: string)
    ensures FirstAt(secrets, t) <= |secrets| && (FirstAt(secrets, t) > 0 <==> t in secrets)
  {
    if secrets != [] {
      FirstAtIs(secrets[..|secrets| - 1], t);
      assert secrets == secrets[..|secrets| - 1] + [secrets[|secrets| - 1]];
    }
  }

  /** Of two secrets of one length the one listed first comes first. */
  ghost predicate TiesAsListed(r: seq<Secret>, secrets: seq<string>) {
    forall i, j :: 0 <= i < j < |r| && |r[i]| == |r[j]| ==> FirstAt(secrets, r[i]) < FirstAt(secrets, r[j])
  }

  lemma {:induction false} InsertKeepsTies(t: Secret, sorted: seq<Secret>, secrets: seq<string>)
    requires LongestFirst(sorted) && TiesAsListed(sorted, secrets)
    requires forall x :: x in sorted ==> FirstAt(secrets, x) < FirstAt(secrets, t)
    ensures TiesAsListed(Insert(t, sorted), secrets)
  {
    if sorted != [] && |sorted[0]| >= |t| {
      InsertKeepsTies(t, sorted[1..], secrets);
      var rest := Insert(t, sorted[1..]);
      forall i | 0 <= i < |rest| && |rest[i]| == |sorted[0]|
        ensures FirstAt(secrets, sorted[0]) < FirstAt(secrets, rest[i])
      {
        assert rest[i] in rest;
        if rest[i] != t { var k :| 0 <= k < |sorted[1..]| && sorted[1..][k] == rest[i]; }
      }
    }
  }

  /** Secrets of one length are replaced in the order in which the caller listed them. */
  lemma {:induction false} OrderKeepsTies(secrets: seq<string>)
    ensures TiesAsListed(Order(secrets), secrets)
  {
    if secrets != [] {
      var prefix, t := secrets[..|secrets| - 1], secrets[|secrets| - 1];
      var rest := Order(prefix);
      OrderKeepsTies(prefix);
      forall x | x in rest ensures 0 < FirstAt(secrets, x) == FirstAt(prefix, x) <= |prefix| { FirstAtIs(prefix, x); }
      assert forall i :: 0 <= i < |rest| ==> rest[i] in rest;
      if t != "" && t !in rest {
        FirstAtIs(prefix, t);
        assert FirstAt(secrets, t) == |secrets|;
        InsertKeepsTies(t, rest, secrets);
      }
    }
  }

  // ---------------------------------------- when the marker itself can show a secret

  /**
   * The secret runs on into the marker from `i` on, and text that ends in its first `i`
   * characters, followed by the secret, holds no earlier occurrence that would be cut out instead.
   */
  ghost predicate ShownBefore(t: Secret, m: string) { exists i :: ShownBeforeAt(t, m, i) }

  predicate ShownBeforeAt(t: Secret, m: string, i: int) {
    0 < i < |t| && Meets(t[i..], m) && Index(t[..i] + t, t) == i
  }

  ghost predicate Exposed(t: Secret, m: string) { ShownInside(t, m) || ShownAfter(t, m) || ShownBefore(t, m) }

  lemma TooShort(x: string, t: Secret)
    requires |x| < |t|
    ensures Index(x, t) == -1 && Replace(x, t) == x
  {
    ReplaceNone(x, t);
  }

  /** Redacting a text given as what precedes the first occurrence and a tail too short for another. */
  lemma OneOccurrence(x: string, t: Secret, z: string)
    requires Index(x + t, t) == |x| && |z| < |t|
    ensures Replace(x + t + z, t) == x + REDACTED + z
  {
    var s := x + t + z;
    forall k | 0 <= k <= |x| ensures OccursAt(s, t, k) <==> OccursAt(x + t, t, k) {
      assert s[k..k + |t|] == (x + t)[k..k + |t|];
    }
    assert Index(s, t) == |x|;
    assert s[..|x|] == x && s[|x| + |t|..] == z;
    ReplaceStep(s, t, x, z);
    TooShort(z, t);
  }

  lemma FirstOfItself(t: Secret)
    ensures Index("" + t, t) == 0
  {
    assert "" + t == t && t[0..|t|] == t;
    assert OccursAt(t, t, 0);
  }

  lemma InsideExposes(t: Secret) returns (s: string)
    requires ShownInside(t, REDACTED)
    ensures Contains(Replace(s, t), t)
  {
    s := "" + t + "";
    FirstOfItself(t);
    OneOccurrence("", t, "");
    var out := "" + REDACTED + "";
    assert out == REDACTED;
  }

  lemma AfterExposes(t: Secret, m: string, k: int) returns (s: string)
    requires m == REDACTED && ShownAfterAt(t, m, k)
    ensures Contains(Replace(s, t), t)
  {
    var x := t[k..];
    s := "" + t + x;
    FirstOfItself(t);
    OneOccurrence("", t, x);
    EndThenRest(t, m, k);
    assert "" + m + x == m + x;
  }

  lemma BeforeExposes(t: Secret, m: string, i: int) returns (s: string)
    requires m == REDACTED && ShownBeforeAt(t, m, i)
    ensures Contains(Replace(s, t), t)
  {
    var x, y := t[..i], t[i..];
    var z := if |y| > |m| then y[|m|..] else "";
    s := x + t + z;
    OneOccurrence(x, t, z);
    StartThenMarker(x, y, m, z);
    assert t == x + y;
  }

  lemma HeadOfOccurrence(s: string, t: string, j: int, n: int)
    requires OccursAt(s, t, j) && 0 <= n <= |t|
    ensures t[..n] == s[j..j + n]
  {
    assert s[j..j + |t|][..n] == s[j..j + n];
  }

  /** Where it begins before the marker and runs into it. */
  lemma BeginsBeforeMarker(a: string, m: string, b: string, t: Secret, j: int)
    requires OccursAt(a + m + b, t, j) && 0 <= j < |a| < j + |t| && Index(a + t, t) == |a|
    ensures ShownBefore(t, m)
  {
    StartsLeft(a, m, b, t, j);
    RunsIntoMarker(a, m, b, t, j);
    LaterStartIsFirst(a, t, j);
    assert ShownBeforeAt(t, m, |a| - j);
  }

  lemma StartsLeft(a: string, m: string, b: string, t: string, j: int)
    requires OccursAt(a + m + b, t, j) && 0 <= j <= |a| <= j + |t|
    ensures t[..|a| - j] == a[j..]
  {
    HeadOfOccurrence(a + m + b, t, j, |a| - j);
    LeftOfMarker(a, m, b, j);
  }

  lemma LeftOfMarker(a: string, m: string, b: string, j: nat)
    requires j <= |a|
    ensures (a + m + b)[j..|a|] == a[j..]
  {
    assert (a + m + b)[..|a|] == a;
    SliceOfSlice(a + m + b, 0, |a|, j, |a|);
  }

  /** The first occurrence stays first when the text before it is shortened. */
  lemma LaterStartIsFirst(a: string, t: Secret, j: int)
    requires Index(a + t, t) == |a| && 0 <= j <= |a|
    ensures Index(a[j..] + t, t) == |a| - j
  {
    var x := a[j..];
    forall k | 0 <= k <= |x| ensures OccursAt(x + t, t, k) <==> OccursAt(a + t, t, j + k) {
      assert (x + t)[k..k + |t|] == (a + t)[j + k..j + k + |t|];
    }
    assert OccursAt(x + t, t, |x|);
  }

  lemma FirstOfPrefix(s: string, t: Secret)
    requires Index(s, t) != -1
    ensures Index(s[..Index(s, t)] + t, t) == Index(s, t)
  {
    var i := Index(s, t);
    var u := s[..i] + t;
    assert u == s[..i + |t|];
    forall k | 0 <= k <= i ensures OccursAt(u, t, k) <==> OccursAt(s, t, k) {
      assert u[k..k + |t|] == s[k..k + |t|];
    }
  }

  /** An occurrence after the marker is one in what follows it. */
  lemma BeginsAfterMarker(a: string, m: string, b: string, t: Secret, j: int)
    requires OccursAt(a + m + b, t, j) && j >= |a| + |m|
    ensures Contains(b, t)
  {
    var d := j - |a| - |m|;
    assert b[d..d + |t|] == (a + m + b)[j..j + |t|];
    assert OccursAt(b, t, d);
  }

  lemma BeginsAndEndsBefore(a: string, m: string, b: string, t: Secret, j: int)
    requires OccursAt(a + m + b, t, j) && j + |t| <= |a|
    ensures OccursAt(a, t, j) && OccursAt(a + t, t, j)
  {
    assert a[j..j + |t|] == (a + m + b)[j..j + |t|];
    assert (a + t)[j..j + |t|] == (a + m + b)[j..j + |t|];
  }

  /** If the secret is still there after it was replaced, the marker shows it. */
  lemma {:induction false} LeftoverIsExposed(s: string, t: Secret)
    requires Contains(Replace(s, t), t)
    ensures Exposed(t, REDACTED)
    decreases |s|
  {
    var i := Index(s, t);
    if i == -1 {
      ReplaceNone(s, t);
      assert false;
    } else {
      var a, rest := s[..i], s[i + |t|..];
      ReplaceStep(s, t, a, rest);
      FirstOfPrefix(s, t);
      var j :| OccursAt(a + REDACTED + Replace(rest, t), t, j);
      LeftoverAt(a, REDACTED, Replace(rest, t), t, j);
      if Contains(Replace(rest, t), t) { LeftoverIsExposed(rest, t); }
    }
  }

  lemma LeftoverAt(a: string, m: string, b: string, t: Secret, j: int)
    requires OccursAt(a + m + b, t, j) && Index(a + t, t) == |a|
    ensures Exposed(t, m) || Contains(b, t)
  {
    if j >= |a| + |m| {
      BeginsAfterMarker(a, m, b, t, j);
    } else if j >= |a| {
      BeginsInMarker(a, m, b, t, j);
    } else if j + |t| > |a| {
      BeginsBeforeMarker(a, m, b, t, j);
    } else {
      BeginsAndEndsBefore(a, m, b, t, j);
      assert false;
    }
  }

  /** The secret can still be read in what redaction makes of the string. */
  ghost predicate Survives(s: string, t: Secret) { Contains(RedactString(s, [t]), t) }

  /**
   * Exactly when one secret can be seen after its replacement: it lies inside the marker, or begins
   * with an end of it, or runs into it from text in which nothing is cut out earlier.
   */
  lemma ExposedIff(t: Secret)
    ensures (exists s :: Survives(s, t)) <==> Exposed(t, REDACTED)
  {
    if Exposed(t, REDACTED) {
      var s: string;
      if ShownInside(t, REDACTED) {
        s := InsideExposes(t);
      } else if ShownAfter(t, REDACTED) {
        var k :| ShownAfterAt(t, REDACTED, k);
        s := AfterExposes(t, REDACTED, k);
      } else {
        var i :| ShownBeforeAt(t, REDACTED, i);
        s := BeforeExposes(t, REDACTED, i);
      }
      RedactOne(s, t);
      assert Survives(s, t);
    }
    forall s | Survives(s, t) ensures Exposed(t, REDACTED) {
      RedactOne(s, t);
      LeftoverIsExposed(s, t);
    }
  }

  lemma RedactOne(s: string, t: Secret)
    ensures RedactString(s, [t]) == Replace(s, t)
  {
    assert [t][1..] == [];
  }

  /** The condition of the completeness theorem is on the safe side of the exact one. */
  lemma SafeIsNotExposed(t: Secret)
    requires Safe(t)
    ensures !Exposed(t, REDACTED)
  {
    forall i ensures !ShownBeforeAt(t, REDACTED, i) {
      assert ShownBeforeAt(t, REDACTED, i) ==> RunsIntoAt(t, REDACTED, i);
    }
  }

  // --------------------------------------------------- a secret in company

  lemma CompanionReplaced(x: string, c: char, z: string)
    requires c !in x && c !in z
    ensures Replace(x + [c] + z, [c]) == x + REDACTED + z
  {
    var s := x + [c] + z;
    forall k | 0 <= k < |x| ensures !OccursAt(s, [c], k) {
      assert s[k..k + 1] == [x[k]] && x[k] in x;
    }
    assert s[|x|..|x| + 1] == [c];
    assert OccursAt(s, [c], |x|);
    assert s[..|x|] == x && s[|x| + 1..] == z;
    ReplaceStep(s, [c], x, z);
    forall k | 0 <= k < |z| ensures !OccursAt(z, [c], k) {
      assert z[k..k + 1] == [z[k]] && z[k] in z;
    }
    ReplaceNone(z, [c]);
  }

  /** Text with a character that the secret lacks holds the secret on one side of it or not at all. */
  lemma NotAcross(x: string, c: char, z: string, t: Secret)
    requires c !in t && |x| < |t| && |z| < |t|
    ensures Replace(x + [c] + z, t) == x + [c] + z
  {
    var s := x + [c] + z;
    forall k ensures !OccursAt(s, t, k) {
      if OccursAt(s, t, k) {
        assert k <= |x| < k + |t|;
        CharIn(s, t, k, |x|);
        assert false;
      }
    }
    ReplaceNone(s, t);
  }

  lemma InCompany(x: string, c: char, z: string, t: Secret)
    requires c !in t && c !in x && c !in z && |x| < |t| && |z| < |t|
    ensures RedactString(x + [c] + z, [t, [c]]) == x + REDACTED + z
  {
    NotAcross(x, c, z, t);
    CompanionReplaced(x, c, z);
    TwoSecrets(x + [c] + z, t, [c]);
    RedactOne(x + [c] + z, [c]);
  }

  /** The secret can still be read after it and a one-character companion were replaced. */
  ghost predicate SurvivesCompany(s: string, t: Secret, c: char) { Contains(RedactString(s, [t, [c]]), t) }

  lemma UnsafeSurvives(t: Secret, c: char) returns (s: string)
    requires c !in t && !Safe(t)
    ensures SurvivesCompany(s, t, c)
  {
    if ShownInside(t, REDACTED) {
      s := "" + [c] + "";
      InCompany("", c, "", t);
      assert "" + REDACTED + "" == REDACTED;
    } else if ShownAfter(t, REDACTED) {
      var k :| ShownAfterAt(t, REDACTED, k);
      s := "" + [c] + t[k..];
      InCompany("", c, t[k..], t);
      EndThenRest(t, REDACTED, k);
      assert "" + REDACTED + t[k..] == REDACTED + t[k..];
    } else {
      var i :| RunsIntoAt(t, REDACTED, i);
      s := RunInSurvives(t, c, i);
    }
  }

  lemma RunInSurvives(t: Secret, c: char, i: nat) returns (s: string)
    requires c !in t && RunsIntoAt(t, REDACTED, i)
    ensures SurvivesCompany(s, t, c)
  {
    var x, y := t[..i], t[i..];
    var z := if |y| > |REDACTED| then y[|REDACTED|..] else "";
    s := x + [c] + z;
    InCompany(x, c, z, t);
    StartThenMarker(x, y, REDACTED, z);
    assert t == x + y;
  }

  /** Safe is exact for a secret that is not alone: it stays out of every text, or a companion's marker can show it. */
  lemma SafeIff(t: Secret, c: char)
    requires c !in t
    ensures Safe(t) <==> forall s :: !SurvivesCompany(s, t, c)
  {
    if Safe(t) {
      forall s ensures !SurvivesCompany(s, t, c) { RedactStringComplete(s, [t, [c]], t); }
    } else {
      var s := UnsafeSurvives(t, c);
    }
  }

  // ------------------------------------------------------------------ values

  function RedactItems(items: seq<Value>, secrets: seq<Secret>): (r: seq<Value>)
    ensures |r| == |items| && forall i :: 0 <= i < |r| ==> r[i] == RedactValue(items[i], secrets)
    decreases items, 0
  {
    if items == [] then []
    else
      var last := |items| - 1;
      assert items[..last] + [items[last]] == items;
      RedactItems(items[..last], secrets) + [RedactValue(items[last], secrets)]
  }

  function RedactFields(fields: seq<Field>, secrets: seq<Secret>): seq<Field>
    decreases fields, 0
  {
    if fields == [] then []
    else
      var last := |fields| - 1;
      Put(RedactFields(fields[..last], secrets), fields[last].key, RedactValue(fields[last].value, secrets))
  }

  /** What `applyRedaction` computes. */
  function RedactValue(value: Value, secrets: seq<Secret>): Value
    decreases value, 1
  {
    match value
    case Str(s) => Str(RedactString(s, secrets))
    case Arr(items) => Arr(RedactItems(items, secrets))
    case Obj(fields) => Obj(RedactFields(fields, secrets))
    case Other(_) => value
  }

  /** `applyRedaction`: the string case skips a secret that does not occur, the object case fills a fresh record. */
  method ApplyRedaction(value: Value, secrets: seq<Secret>) returns (r: Value)
    ensures r == RedactValue(value, secrets)
    decreases value
  {
    match value
    case Str(s) =>
      var out := s;
      var i := 0;
      while i < |secrets|
        invariant 0 <= i <= |secrets|
        invariant RedactString(out, secrets[i..]) == RedactString(s, secrets)
      {
        assert secrets[i..][0] == secrets[i] && secrets[i..][1..] == secrets[i + 1..];
        if Index(out, secrets[i]) != -1 {
          out := Replace(out, secrets[i]);
        } else {
          assert Split(out, secrets[i]) == [out];
        }
        i := i + 1;
      }
      r := Str(out);
    case Arr(items) =>
      var out: seq<Value> := [];
      var i := 0;
      while i < |items|
        invariant 0 <= i <= |items|
        invariant out == RedactItems(items[..i], secrets)
      {
        var item := ApplyRedaction(items[i], secrets);
        assert items[..i + 1][..i] == items[..i];
        out := out + [item];
        i := i + 1;
      }
      assert items[..i] == items;
      r := Arr(out);
    case Obj(fields) =>
      var out: seq<Field> := [];
      var i := 0;
      while i < |fields|
        invariant 0 <= i <= |fields|
        invariant out == RedactFields(fields[..i], secrets)
      {
        var v := ApplyRedaction(fields[i].value, secrets);
        assert fields[..i + 1][..i] == fields[..i];
        out := Put(out, fields[i].key, v);
        i := i + 1;
      }
      assert fields[..i] == fields;
      r := Obj(out);
    case Other(_) =>
      r := value;
  }

  /** `redactCredentials`. */
  method RedactCredentials(input: Value, secrets: seq<string>) returns (r: Value)
    ensures r == Redacted(input, secrets)
  {
    if |secrets| == 0 { return input; }
    var ordered := Order(secrets);
    if |ordered| == 0 { return input; }
    r := ApplyRedaction(input, ordered);
  }

  function Redacted(input: Value, secrets: seq<string>): Value {
    if Order(secrets) == [] then input else RedactValue(input, Order(secrets))
  }

  /** No string leaf, at any depth, contains any of the secrets. Object keys are not leaves. */
  ghost predicate Clean(v: Value, secrets: seq<string>)
    decreases v
  {
    match v
    case Str(s) => forall t: Secret :: t in secrets ==> !Contains(s, t)
    case Arr(items) => forall i :: 0 <= i < |items| ==> Clean(items[i], secrets)
    case Obj(fields) => forall i :: 0 <= i < |fields| ==> Clean(fields[i].value, secrets)
    case Other(_) => true
  }

  /** Same tree, same keys in the same order; only the text of string leaves may differ. */
  ghost predicate SameShape(v: Value, w: Value)
    decreases v
  {
    match v
    case Str(_) => w.Str?
    case Arr(items) =>
      w.Arr? && |w.items| == |items| && forall i :: 0 <= i < |items| ==> SameShape(items[i], w.items[i])
    case Obj(fields) =>
      && w.Obj? && |w.fields| == |fields|
      && forall i :: 0 <= i < |fields| ==>
           w.fields[i].key == fields[i].key && SameShape(fields[i].value, w.fields[i].value)
    case Other(_) => w == v
  }

  /** Every output field is the redaction of an input field; without `__proto__` they match one to one. */
  lemma {:induction false} FieldsOf(fields: seq<Field>, secrets: seq<Secret>)
    ensures var r := RedactFields(fields, secrets);
      && |r| <= |fields|
      && (forall f :: f in r ==>
            exists i :: 0 <= i < |fields| && f == Field(fields[i].key, RedactValue(fields[i].value, secrets)))
      && (|r| == |fields| <==> forall i :: 0 <= i < |fields| ==> fields[i].key != PROTO)
      && (|r| == |fields| ==>
            forall i :: 0 <= i < |fields| ==> r[i] == Field(fields[i].key, RedactValue(fields[i].value, secrets)))
  {
    if fields != [] {
      var last := |fields| - 1;
      FieldsOf(fields[..last], secrets);
      assert forall i :: 0 <= i < last ==> fields[..last][i] == fields[i];
    }
  }

  /** No leaf keeps any of the safe ones among the secrets, whatever the others are. */
  lemma {:induction false} RedactValueComplete(v: Value, secrets: seq<Secret>, safe: seq<string>)
    requires forall t :: t in safe && t != "" ==> t in secrets && Safe(t)
    ensures Clean(RedactValue(v, secrets), safe)
    decreases v
  {
    match v
    case Str(s) =>
      forall t: Secret | t in safe ensures !Contains(RedactString(s, secrets), t) {
        RedactStringComplete(s, secrets, t);
      }
    case Arr(items) =>
      forall i | 0 <= i < |items| ensures Clean(RedactValue(items[i], secrets), safe) {
        RedactValueComplete(items[i], secrets, safe);
      }
    case Obj(fields) =>
      FieldsOf(fields, secrets);
      forall i | 0 <= i < |fields| ensures Clean(RedactValue(fields[i].value, secrets), safe) {
        RedactValueComplete(fields[i].value, secrets, safe);
      }
      var r := RedactFields(fields, secrets);
      forall i | 0 <= i < |r| ensures Clean(r[i].value, safe) {
        assert r[i] in r;
      }
    case Other(_) =>
  }

  lemma {:induction false} RedactValueShape(v: Value, secrets: seq<Secret>)
    ensures SameShape(v, RedactValue(v, secrets)) <==> NoProto(v)
    decreases v
  {
    match v
    case Str(_) =>
    case Arr(items) =>
      forall i | 0 <= i < |items| ensures SameShape(items[i], RedactValue(items[i], secrets)) <==> NoProto(items[i]) {
        RedactValueShape(items[i], secrets);
      }
    case Obj(fields) =>
      FieldsOf(fields, secrets);
      forall i | 0 <= i < |fields|
        ensures SameShape(fields[i].value, RedactValue(fields[i].value, secrets)) <==> NoProto(fields[i].value)
      {
        RedactValueShape(fields[i].value, secrets);
      }
    case Other(_) =>
  }

  lemma {:induction false} RedactValueUnchanged(v: Value, secrets: seq<Secret>)
    requires Clean(v, secrets) && NoProto(v)
    ensures RedactValue(v, secrets) == v
    decreases v
  {
    match v
    case Str(s) =>
      RedactStringUnchanged(s, secrets);
    case Arr(items) =>
      forall i | 0 <= i < |items| ensures RedactValue(items[i], secrets) == items[i] {
        RedactValueUnchanged(items[i], secrets);
      }
      assert RedactItems(items, secrets) == items;
    case Obj(fields) =>
      FieldsOf(fields, secrets);
      forall i | 0 <= i < |fields| ensures RedactValue(fields[i].value, secrets) == fields[i].value {
        RedactValueUnchanged(fields[i].value, secrets);
      }
      assert RedactFields(fields, secrets) == fields;
    case Other(_) =>
  }

  lemma {:induction false} CleanForOrder(v: Value, secrets: seq<string>)
    ensures Clean(v, Order(secrets)) <==> Clean(v, secrets)
    decreases v
  {
    match v
    case Str(_) =>
    case Arr(items) =>
      forall i | 0 <= i < |items| ensures Clean(items[i], Order(secrets)) <==> Clean(items[i], secrets) {
        CleanForOrder(items[i], secrets);
      }
    case Obj(fields) =>
      forall i | 0 <= i < |fields| ensures Clean(fields[i].value, Order(secrets)) <==> Clean(fields[i].value, secrets) {
        CleanForOrder(fields[i].value, secrets);
      }
    case Other(_) =>
  }

  lemma {:induction false} SameShapeReflexive(v: Value)
    ensures SameShape(v, v)
    decreases v
  {
    match v
    case Str(_) =>
    case Arr(items) =>
      forall i | 0 <= i < |items| ensures SameShape(items[i], items[i]) { SameShapeReflexive(items[i]); }
    case Obj(fields) =>
      forall i | 0 <= i < |fields| ensures SameShape(fields[i].value, fields[i].value) {
        SameShapeReflexive(fields[i].value);
      }
    case Other(_) =>
  }

  /** With nothing but empty secrets every value is clean. */
  lemma {:induction false} NothingToHide(v: Value, secrets: seq<string>)
    requires Order(secrets) == []
    ensures Clean(v, secrets)
    decreases v
  {
    CleanForOrder(v, secrets);
    match v
    case Str(_) =>
    case Arr(items) =>
      forall i | 0 <= i < |items| ensures Clean(items[i], secrets) { NothingToHide(items[i], secrets); }
    case Obj(fields) =>
      forall i | 0 <= i < |fields| ensures Clean(fields[i].value, secrets) { NothingToHide(fields[i].value, secrets); }
    case Other(_) =>
  }

  /** Same tree and keys; a text leaf that contains none of the secrets, and any other leaf, is as it was. */
  ghost predicate LeavesKept(v: Value, w: Value, secrets: seq<string>)
    decreases v
  {
    match v
    case Str(_) => w.Str? && (Clean(v, secrets) ==> w == v)
    case Arr(items) =>
      w.Arr? && |w.items| == |items| && forall i :: 0 <= i < |items| ==> LeavesKept(items[i], w.items[i], secrets)
    case Obj(fields) =>
      && w.Obj? && |w.fields| == |fields|
      && forall i :: 0 <= i < |fields| ==>
           w.fields[i].key == fields[i].key && LeavesKept(fields[i].value, w.fields[i].value, secrets)
    case Other(_) => w == v
  }

  function KeptFields(fields: seq<Field>): seq<Field>
    decreases fields, 0
  {
    if fields == [] then []
    else
      var last := |fields| - 1;
      Put(KeptFields(fields[..last]), fields[last].key, WithoutProto(fields[last].value))
  }

  /** The tree without its `__proto__` entries. */
  function WithoutProto(v: Value): Value
    decreases v, 1
  {
    match v
    case Arr(items) => Arr(seq(|items|, i requires 0 <= i < |items| => WithoutProto(items[i])))
    case Obj(fields) => Obj(KeptFields(fields))
    case _ => v
  }

  ghost predicate FieldsKept(fields: seq<Field>, r: seq<Field>, secrets: seq<string>) {
    |r| == |fields| && forall i :: 0 <= i < |r| ==>
      r[i].key == fields[i].key && LeavesKept(fields[i].value, r[i].value, secrets)
  }

  /** Field by field; what `__proto__` names is lost on both sides. */
  lemma {:induction false} FieldsAreKept(fields: seq<Field>, ordered: seq<Secret>, secrets: seq<string>)
    requires forall i :: 0 <= i < |fields| ==>
               LeavesKept(WithoutProto(fields[i].value), RedactValue(fields[i].value, ordered), secrets)
    ensures FieldsKept(KeptFields(fields), RedactFields(fields, ordered), secrets)
  {
    if fields != [] { FieldsAreKept(fields[..|fields| - 1], ordered, secrets); }
  }

  lemma {:induction false} RedactValueKeeps(v: Value, ordered: seq<Secret>, secrets: seq<string>)
    requires forall t :: t in ordered ==> t in secrets
    ensures LeavesKept(WithoutProto(v), RedactValue(v, ordered), secrets)
    decreases v
  {
    match v
    case Str(s) =>
      if Clean(v, secrets) { RedactStringUnchanged(s, ordered); }
    case Arr(items) =>
      forall i | 0 <= i < |items| ensures LeavesKept(WithoutProto(items[i]), RedactValue(items[i], ordered), secrets) {
        RedactValueKeeps(items[i], ordered, secrets);
      }
    case Obj(fields) =>
      forall i | 0 <= i < |fields|
        ensures LeavesKept(WithoutProto(fields[i].value), RedactValue(fields[i].value, ordered), secrets)
      {
        RedactValueKeeps(fields[i].value, ordered, secrets);
      }
      FieldsAreKept(fields, ordered, secrets);
    case Other(_) =>
  }

  lemma {:induction false} FieldsWithoutProto(fields: seq<Field>)
    requires forall i :: 0 <= i < |fields| ==>
             fields[i].key != PROTO && WithoutProto(fields[i].value) == fields[i].value
    ensures KeptFields(fields) == fields
  {
    if fields != [] {
      var last := |fields| - 1;
      FieldsWithoutProto(fields[..last]);
      assert fields == fields[..last] + [fields[last]];
    }
  }

  lemma {:induction false} NothingToDrop(v: Value)
    requires NoProto(v)
    ensures WithoutProto(v) == v
    decreases v
  {
    match v
    case Arr(items) =>
      forall i | 0 <= i < |items| ensures WithoutProto(items[i]) == items[i] { NothingToDrop(items[i]); }
    case Obj(fields) =>
      forall i | 0 <= i < |fields| ensures WithoutProto(fields[i].value) == fields[i].value {
        NothingToDrop(fields[i].value);
      }
      FieldsWithoutProto(fields);
    case _ =>
  }

  /**
   * The promise of `redactCredentials`, for every value and every list of secrets: no leaf keeps
   * a safe one, whatever the others are; a leaf that contains no secret is unchanged, whatever
   * the other leaves hold; and the tree and its keys survive exactly when no object has an own
   * `__proto__` entry, which alone is lost.
   */
  lemma RedactionComplete(v: Value, secrets: seq<string>)
    ensures forall t :: t in secrets && Safe(t) ==> Clean(Redacted(v, secrets), [t])
    ensures if Order(secrets) == [] then Redacted(v, secrets) == v
            else LeavesKept(WithoutProto(v), Redacted(v, secrets), secrets)
    ensures NoProto(v) ==> LeavesKept(v, Redacted(v, secrets), secrets)
    ensures Order(secrets) != [] ==> (SameShape(v, Redacted(v, secrets)) <==> NoProto(v))
  {
    var ordered := Order(secrets);
    forall t | t in secrets && Safe(t) ensures Clean(Redacted(v, secrets), [t]) {
      var secret: Secret := t;
      assert secret in ordered;
      RedactValueComplete(v, ordered, [t]);
    }
    RedactValueShape(v, ordered);
    RedactValueKeeps(v, ordered, secrets);
    if NoProto(v) { NothingToDrop(v); }
    if ordered == [] { NoSecretsRedactNothing(v); }
    SameShapeReflexive(v);
  }

  lemma NoSecretsRedactNothing(v: Value)
    ensures NoProto(v) ==> RedactValue(v, []) == v
  {
    if NoProto(v) {
      AnyIsClean(v);
      RedactValueUnchanged(v, []);
    }
  }

  lemma {:induction false} AnyIsClean(v: Value)
    ensures Clean(v, [])
    decreases v
  {
    match v
    case Arr(items) => forall i | 0 <= i < |items| ensures Clean(items[i], []) { AnyIsClean(items[i]); }
    case Obj(fields) => forall i | 0 <= i < |fields| ensures Clean(fields[i].value, []) { AnyIsClean(fields[i].value); }
    case _ =>
  }

  /** With safe secrets only, nothing at all changes exactly when there was nothing to redact. */
  lemma RedactionUnchangedIff(v: Value, secrets: seq<string>)
    requires forall t :: t in secrets && t != "" ==> Safe(t)
    ensures Clean(Redacted(v, secrets), secrets)
    ensures Order(secrets) != [] ==> (Redacted(v, secrets) == v <==> Clean(v, secrets) && NoProto(v))
  {
    var ordered := Order(secrets);
    if ordered == [] {
      NothingToHide(v, secrets);
    } else {
      CleanForOrder(v, secrets);
      CleanForOrder(Redacted(v, secrets), secrets);
      RedactValueComplete(v, ordered, ordered);
      RedactValueShape(v, ordered);
      SameShapeReflexive(v);
      if Clean(v, secrets) && NoProto(v) { RedactValueUnchanged(v, ordered); }
    }
  }
}
