/** `redact_array`: the array is JSON-encoded, three case-insensitive
    `preg_replace` passes mask secret-shaped runs, and the text is decoded.

    None of the three patterns can match a quote or a backslash, and the
    escapes `json_encode` writes (`\uXXXX`, `\n`, `\/`, ...) consist of a
    backslash and characters that cannot begin a prefix, so every match lies
    inside one string token and is the match the same pass finds in that
    string. The passes are therefore modelled on each string key and string
    value; the decoder then rebuilds every array, and keys that have become
    equal collapse into one entry. */
module Redact {
  import opened Php

  /** One pass: a literal prefix, matched case-insensitively, followed by a
      non-empty greedy run of ASCII letters and digits (and `_` if allowed). */
  datatype Pattern = Pattern(prefix: string, underscoreInRun: bool)

  /** `/sk_[A-Za-z0-9_]+/i` */
  const SecretKey := Pattern("sk_", true)
  /** `/pk_[A-Za-z0-9_]+/i` */
  const PublishableKey := Pattern("pk_", true)
  /** `/whsec_[A-Za-z0-9]+/i` */
  const WebhookSecret := Pattern("whsec_", false)

  /** `json_encode`'s default nesting limit, which `json_decode` shares. */
  const MaxNesting: nat := 512

  predicate IsAlnum(c: char) {
    'a' <= c <= 'z' || 'A' <= c <= 'Z' || '0' <= c <= '9'
  }

  predicate InRun(p: Pattern, c: char) {
    IsAlnum(c) || (p.underscoreInRun && c == '_')
  }

  function Lower(c: char): char {
    if 'A' <= c <= 'Z' then (c as int + 32) as char else c
  }

  /** The prefix is spelt in lower-case letters and `_`: it is its own
      replacement text, and contains no `*`. */
  predicate ValidPattern(p: Pattern) {
    |p.prefix| > 0 && forall j :: 0 <= j < |p.prefix| ==> 'a' <= p.prefix[j] <= 'z' || p.prefix[j] == '_'
  }

  /** `s` holds `prefix` at `i`, ignoring ASCII case. */
  predicate PrefixAt(s: string, i: int, prefix: string) {
    0 <= i && i + |prefix| <= |s| && forall j :: 0 <= j < |prefix| ==> Lower(s[i + j]) == prefix[j]
  }

  /** A match of `p` starts at `i`. */
  predicate MatchAt(s: string, i: int, p: Pattern) {
    PrefixAt(s, i, p.prefix) && i + |p.prefix| < |s| && InRun(p, s[i + |p.prefix|])
  }

  predicate NoMatch(s: string, p: Pattern) {
    forall i :: 0 <= i < |s| ==> !MatchAt(s, i, p)
  }

  /** No secret-shaped run is left in `s`. */
  predicate Secretless(s: string) {
    NoMatch(s, SecretKey) && NoMatch(s, PublishableKey) && NoMatch(s, WebhookSecret)
  }

  /** Length of the longest leading run of `p`'s run characters. */
  function RunLength(s: string, p: Pattern): (n: nat)
    ensures n <= |s|
    ensures forall j :: 0 <= j < n ==> InRun(p, s[j])
    ensures n < |s| ==> !InRun(p, s[n])
  {
    if s != [] && InRun(p, s[0]) then 1 + RunLength(s[1..], p) else 0
  }

  /** One `preg_replace` pass: scanning left to right, each match (the prefix
      and its whole run) becomes the lower-case prefix followed by `***`, and
      the scan resumes after it. */
  function Replace(s: string, p: Pattern): string
    decreases |s|
  {
    if s == [] then []
    else if MatchAt(s, 0, p) then
      var m := |p.prefix| + RunLength(s[|p.prefix|..], p);
      p.prefix + "***" + Replace(s[m..], p)
    else [s[0]] + Replace(s[1..], p)
  }

  /** The three passes of `redact_array`, in their order: no secret-shaped run
      survives them. */
  function Mask(s: string): (r: string)
    ensures Secretless(r)
  {
    PassesLeaveNoSecret(s);
    Replace(Replace(Replace(s, SecretKey), PublishableKey), WebhookSecret)
  }

  // ---------------------------------------------------------------------
  // Properties of one pass

  lemma MatchInSuffix(s: string, k: nat, i: int, p: Pattern)
    requires k <= |s| && 0 <= i
    ensures MatchAt(s[k..], i, p) <==> MatchAt(s, k + i, p)
  {
    if MatchAt(s, k + i, p) {
      forall j | 0 <= j < |p.prefix| ensures Lower(s[k..][i + j]) == p.prefix[j] {
        assert s[k..][i + j] == s[k + i + j];
      }
    }
  }

  lemma NoMatchSuffix(s: string, k: nat, p: Pattern)
    requires k <= |s| && NoMatch(s, p)
    ensures NoMatch(s[k..], p)
  {
    forall i | MatchAt(s[k..], i, p) ensures false {
      MatchInSuffix(s, k, i, p);
    }
  }

  /** A pass leaves the first `|q.prefix|` characters of a string where they
      were, up to case. */
  lemma {:induction false} ReplaceKeepsHead(s: string, q: Pattern, k: nat)
    requires ValidPattern(q) && k < |q.prefix|
    ensures k < |s| <==> k < |Replace(s, q)|
    ensures k < |s| ==> Lower(Replace(s, q)[k]) == Lower(s[k])
    decreases |s|
  {
    if s == [] {
    } else if MatchAt(s, 0, q) {
      var m := |q.prefix| + RunLength(s[|q.prefix|..], q);
      assert Replace(s, q) == q.prefix + "***" + Replace(s[m..], q);
      assert Replace(s, q)[k] == q.prefix[k];
    } else {
      assert Replace(s, q) == [s[0]] + Replace(s[1..], q);
      if k > 0 {
        ReplaceKeepsHead(s[1..], q, k - 1);
      }
    }
  }

  /** No match of `p` starts inside `q`'s prefix except at its very end. */
  predicate NoInnerPrefix(p: Pattern, q: Pattern) {
    forall i :: 0 <= i && i + |p.prefix| < |q.prefix| ==> !PrefixAt(q.prefix, i, p.prefix)
  }

  lemma NotPrefixAt(s: string, i: int, prefix: string, j: int)
    requires 0 <= j < |prefix| && 0 <= i + j < |s| && Lower(s[i + j]) != prefix[j]
    ensures !PrefixAt(s, i, prefix)
  {
  }

  /** No match of `p` starts inside the replacement text `q.prefix + "***"`. */
  lemma NoMatchInReplacement(r: string, tail: string, p: Pattern, q: Pattern, i: int)
    requires ValidPattern(p) && ValidPattern(q) && |p.prefix| <= |q.prefix|
    requires NoInnerPrefix(p, q)
    requires r == q.prefix + "***" + tail
    requires 0 <= i < |q.prefix| + 3
    ensures !MatchAt(r, i, p)
  {
    var n := |p.prefix|;
    if i + n < |q.prefix| {
      assert !PrefixAt(q.prefix, i, p.prefix);
      var j :| 0 <= j < n && Lower(q.prefix[i + j]) != p.prefix[j];
      assert r[i + j] == q.prefix[i + j];
      NotPrefixAt(r, i, p.prefix, j);
    } else if i + n == |q.prefix| {
      assert r[i + n] == '*';
    } else {
      var j := if i >= |q.prefix| then 0 else |q.prefix| - i;
      assert r[i + j] == '*';
      if i + j < |r| {
        NotPrefixAt(r, i, p.prefix, j);
      }
    }
  }

  /** A match of `p` at the front of `[s[0]] + Replace(s[1..], q)` was
      already a match at the front of `s`. */
  lemma MatchAtFrontKept(s: string, p: Pattern, q: Pattern)
    requires ValidPattern(p) && ValidPattern(q) && |p.prefix| <= |q.prefix|
    requires s != []
    requires MatchAt([s[0]] + Replace(s[1..], q), 0, p)
    ensures MatchAt(s, 0, p)
  {
    var tail := Replace(s[1..], q);
    var r := [s[0]] + tail;
    var n := |p.prefix|;
    ReplaceKeepsHead(s[1..], q, n - 1);
    forall j | 1 <= j < n ensures Lower(s[j]) == p.prefix[j] {
      ReplaceKeepsHead(s[1..], q, j - 1);
      assert r[j] == tail[j - 1];
    }
    assert r[n] == tail[n - 1];
    assert Lower(s[n]) == Lower(r[n]);
  }

  /** Putting the replacement text in front of a string without matches of
      `p` creates none. */
  lemma NoMatchAfterReplacement(tail: string, p: Pattern, q: Pattern)
    requires ValidPattern(p) && ValidPattern(q) && |p.prefix| <= |q.prefix|
    requires NoInnerPrefix(p, q)
    requires NoMatch(tail, p)
    ensures NoMatch(q.prefix + "***" + tail, p)
  {
    var r := q.prefix + "***" + tail;
    var k := |q.prefix| + 3;
    forall i | 0 <= i < |r| ensures !MatchAt(r, i, p) {
      if i >= k {
        assert r[k..] == tail;
        MatchInSuffix(r, k, i - k, p);
      } else {
        NoMatchInReplacement(r, tail, p, q, i);
      }
    }
  }

  /** Putting back the first character of `s` creates no match of `p` unless
      `s` itself had one at its front. */
  lemma NoMatchAfterFirst(s: string, p: Pattern, q: Pattern)
    requires ValidPattern(p) && ValidPattern(q) && |p.prefix| <= |q.prefix|
    requires s != [] && !MatchAt(s, 0, p)
    requires NoMatch(Replace(s[1..], q), p)
    ensures NoMatch([s[0]] + Replace(s[1..], q), p)
  {
    var tail := Replace(s[1..], q);
    var r := [s[0]] + tail;
    forall i | 0 <= i < |r| ensures !MatchAt(r, i, p) {
      if i >= 1 {
        assert r[1..] == tail;
        MatchInSuffix(r, 1, i - 1, p);
      } else if MatchAt(r, 0, p) {
        MatchAtFrontKept(s, p, q);
      }
    }
  }

  /** A pass of `q` leaves no match of `q` behind, and creates no match of an
      earlier pattern `p` that was already gone. */
  lemma {:induction false} ReplaceLeavesNoMatch(s: string, p: Pattern, q: Pattern)
    requires ValidPattern(p) && ValidPattern(q) && |p.prefix| <= |q.prefix|
    requires NoInnerPrefix(p, q)
    requires p == q || NoMatch(s, p)
    ensures NoMatch(Replace(s, q), p)
    decreases |s|
  {
    if s == [] {
    } else if MatchAt(s, 0, q) {
      var m := |q.prefix| + RunLength(s[|q.prefix|..], q);
      var rest := Replace(s[m..], q);
      assert NoMatch(rest, p) by {
        if p != q {
          NoMatchSuffix(s, m, p);
        }
        ReplaceLeavesNoMatch(s[m..], p, q);
      }
      assert Replace(s, q) == q.prefix + "***" + rest;
      NoMatchAfterReplacement(rest, p, q);
    } else {
      assert NoMatch(Replace(s[1..], q), p) by {
        if p != q {
          NoMatchSuffix(s, 1, p);
        }
        ReplaceLeavesNoMatch(s[1..], p, q);
      }
      assert Replace(s, q) == [s[0]] + Replace(s[1..], q);
      NoMatchAfterFirst(s, p, q);
    }
  }

  /** A pass changes nothing in a string that holds no match. */
  lemma {:induction false} ReplaceFixes(s: string, p: Pattern)
    requires NoMatch(s, p)
    ensures Replace(s, p) == s
    decreases |s|
  {
    if s != [] {
      assert !MatchAt(s, 0, p);
      NoMatchSuffix(s, 1, p);
      ReplaceFixes(s[1..], p);
    }
  }

  /** No match of `p` starts inside the front `a` of `a + b`. */
  predicate ClearFront(a: string, b: string, p: Pattern) {
    forall i :: 0 <= i < |a| ==> !MatchAt(a + b, i, p)
  }

  /** Text before the first match is copied as it is: when no match of `p`
      starts inside `a`, the pass over `a + b` is `a` followed by the pass
      over `b`. */
  lemma {:induction false} ReplaceKeepsClearFront(a: string, b: string, p: Pattern)
    requires ClearFront(a, b, p)
    ensures Replace(a + b, p) == a + Replace(b, p)
    decreases |a|
  {
    if a == [] {
      assert a + b == b;
    } else {
      ClearShift(a, b, p);
      ReplaceKeepsClearFront(a[1..], b, p);
      ClearStep(a, b, p);
    }
  }

  /** No match starts in the rest of a clear front either. */
  lemma ClearShift(a: string, b: string, p: Pattern)
    requires a != [] && ClearFront(a, b, p)
    ensures ClearFront(a[1..], b, p)
  {
    var s := a + b;
    assert s[1..] == a[1..] + b;
    forall i | 0 <= i < |a| - 1 ensures !MatchAt(a[1..] + b, i, p) {
      MatchInSuffix(s, 1, i, p);
    }
  }

  /** One step of `ReplaceKeepsClearFront`: the first character of a clear
      front is copied. */
  lemma ClearStep(a: string, b: string, p: Pattern)
    requires a != [] && ClearFront(a, b, p)
    requires Replace(a[1..] + b, p) == a[1..] + Replace(b, p)
    ensures Replace(a + b, p) == a + Replace(b, p)
  {
    var s := a + b;
    assert !MatchAt(s, 0, p);
    CopyStep(s, p);
    assert s[1..] == a[1..] + b;
    Regroup(a, Replace(b, p));
  }

  /** Where no match starts, the pass copies the first character. */
  lemma CopyStep(s: string, p: Pattern)
    requires s != [] && !MatchAt(s, 0, p)
    ensures Replace(s, p) == [s[0]] + Replace(s[1..], p)
  {
  }

  /** Putting the first character back in front of the rest. */
  lemma Regroup(a: string, t: string)
    requires a != []
    ensures [a[0]] + (a[1..] + t) == a + t
  {
    assert a == [a[0]] + a[1..];
  }

  /** A match is the prefix and the longest run after it: the pass writes the
      lower-case prefix and `***` in its place and carries on right after
      the run. */
  lemma ReplaceAtMatch(s: string, p: Pattern)
    requires MatchAt(s, 0, p)
    ensures var m := |p.prefix| + RunLength(s[|p.prefix|..], p);
      && |p.prefix| < m <= |s|
      && (forall j :: |p.prefix| <= j < m ==> InRun(p, s[j]))
      && (m < |s| ==> !InRun(p, s[m]))
      && Replace(s, p) == p.prefix + "***" + Replace(s[m..], p)
  {
    RunAfter(s, |p.prefix|, p);
    assert s[|p.prefix|..][0] == s[|p.prefix|];
    ReplaceMatchStep(s, p);
  }

  lemma ReplaceMatchStep(s: string, p: Pattern)
    requires MatchAt(s, 0, p)
    ensures Replace(s, p) == p.prefix + "***" + Replace(s[|p.prefix| + RunLength(s[|p.prefix|..], p)..], p)
  {
  }

  /** The run after position `k` is maximal, read in place. */
  lemma RunAfter(s: string, k: nat, p: Pattern)
    requires k <= |s|
    ensures var m := k + RunLength(s[k..], p);
      && m <= |s|
      && (forall j :: k <= j < m ==> InRun(p, s[j]))
      && (m < |s| ==> !InRun(p, s[m]))
  {
    var t := s[k..];
    var n := RunLength(t, p);
    forall j | k <= j < k + n ensures InRun(p, s[j]) {
      assert s[j] == t[j - k];
    }
    if k + n < |s| {
      assert s[k + n] == t[n];
    }
  }

  lemma PatternsValid()
    ensures ValidPattern(SecretKey) && ValidPattern(PublishableKey) && ValidPattern(WebhookSecret)
    ensures NoInnerPrefix(SecretKey, SecretKey) && NoInnerPrefix(PublishableKey, PublishableKey)
    ensures NoInnerPrefix(WebhookSecret, WebhookSecret)
    ensures NoInnerPrefix(SecretKey, PublishableKey)
    ensures NoInnerPrefix(SecretKey, WebhookSecret) && NoInnerPrefix(PublishableKey, WebhookSecret)
  {
    var w := WebhookSecret.prefix;
    forall i | 0 <= i && i + 3 < |w| ensures !PrefixAt(w, i, "sk_") && !PrefixAt(w, i, "pk_") {
      if i < 2 {
        NotPrefixAt(w, i, "sk_", 0);
        NotPrefixAt(w, i, "pk_", 0);
      } else {
        NotPrefixAt(w, i, "sk_", 1);
        NotPrefixAt(w, i, "pk_", 0);
      }
    }
  }

  // ---------------------------------------------------------------------
  // Properties of the three passes

  /** After redaction no `sk_`/`pk_` followed by a letter, digit or `_`, and no
      `whsec_` followed by a letter or digit, is left, in any case. */
  lemma PassesLeaveNoSecret(s: string)
    ensures Secretless(Replace(Replace(Replace(s, SecretKey), PublishableKey), WebhookSecret))
  {
    PatternsValid();
    var t1 := Replace(s, SecretKey);
    var t2 := Replace(t1, PublishableKey);
    ReplaceLeavesNoMatch(s, SecretKey, SecretKey);
    ReplaceLeavesNoMatch(t1, PublishableKey, PublishableKey);
    ReplaceLeavesNoMatch(t1, SecretKey, PublishableKey);
    ReplaceLeavesNoMatch(t2, WebhookSecret, WebhookSecret);
    ReplaceLeavesNoMatch(t2, SecretKey, WebhookSecret);
    ReplaceLeavesNoMatch(t2, PublishableKey, WebhookSecret);
  }

  /** A string with no secret-shaped run comes through unchanged, and only such a string. */
  lemma MaskFixesExactlySecretless(s: string)
    ensures Mask(s) == s <==> Secretless(s)
  {
    if Secretless(s) {
      ReplaceFixes(s, SecretKey);
      ReplaceFixes(s, PublishableKey);
      ReplaceFixes(s, WebhookSecret);
    }
  }

  /** Masking twice is masking once. */
  lemma MaskIdempotent(s: string)
    ensures Mask(Mask(s)) == Mask(s)
  {
    MaskFixesExactlySecretless(Mask(s));
  }

  // ---------------------------------------------------------------------
  // Redacting a decoded array

  function MaskKey(k: Key): Key {
    match k
    case StrKey(s) => StrKey(Mask(s))
    case IntKey(_) => k
  }

  /** The array `json_decode` builds from an object's members in order: a
      member whose key is already present overwrites that entry's value in
      place. */
  function Rebuild(es: seq<Entry>): (r: seq<Entry>)
    ensures DistinctKeys(r)
    ensures forall x :: x in r ==> x in es
  {
    if es == [] then []
    else
      var front := Rebuild(es[..|es| - 1]);
      PutDistinct(front, es[|es| - 1]);
      assert forall x :: x in Put(front, es[|es| - 1]) ==> x in es by {
        forall x | x in Put(front, es[|es| - 1]) ensures x in es {
          PutMembers(front, es[|es| - 1], x);
        }
      }
      Put(front, es[|es| - 1])
  }

  /** The value of the last member with key `k`, scanning from the end. */
  function LastVal(es: seq<Entry>, k: Key): Option<Value>
    decreases |es|
  {
    if es == [] then None
    else if es[|es| - 1].key == k then Some(es[|es| - 1].val)
    else LastVal(es[..|es| - 1], k)
  }

  /** A key has a last value exactly when it occurs at all. */
  lemma {:induction false} LastValPresent(es: seq<Entry>, k: Key)
    ensures LastVal(es, k).Some? <==> Find(es, k).Some?
    decreases |es|
  {
    if es != [] {
      var n := |es| - 1;
      LastValPresent(es[..n], k);
      FindAppend(es[..n], [es[n]], k);
      assert es[..n] + [es[n]] == es;
    }
  }

  /** After decoding, each key looks up the value of its last occurrence;
      with `LastValPresent`, the decoded keys are exactly the members' keys. */
  lemma {:induction false} RebuildLookup(es: seq<Entry>, k: Key)
    ensures Find(Rebuild(es), k) == LastVal(es, k)
    decreases |es|
  {
    if es != [] {
      var n := |es| - 1;
      RebuildLookup(es[..n], k);
      if es[n].key != k {
        PutKeepsOthers(Rebuild(es[..n]), es[n], k);
      }
    }
  }

  /** Every string key and string value masked, every array rebuilt. */
  function MaskValue(v: Value): Value
    decreases v
  {
    match v
    case Str(s) => Str(Mask(s))
    case Arr(es) =>
      Arr(Rebuild(seq(|es|, i requires 0 <= i < |es| => Entry(MaskKey(es[i].key), MaskValue(es[i].val)))))
    case _ => v
  }

  /** `redact_array($data)`: `[]` when `json_encode` fails (arrays nested
      deeper than its limit) or when the decoded text is not an array. */
  function RedactArray(data: seq<Entry>): (r: seq<Entry>)
    ensures !Nested(Arr(data), MaxNesting) ==> r == []
  {
    if !Nested(Arr(data), MaxNesting) then []
    else match MaskValue(Arr(data))
      case Arr(es) => es
      case _ => []
  }

  predicate CleanKey(k: Key) {
    k.StrKey? ==> Secretless(k.s)
  }

  /** No string key or string value anywhere in `v` holds a secret-shaped run. */
  predicate Clean(v: Value)
    decreases v
  {
    match v
    case Str(s) => Secretless(s)
    case Arr(es) => forall i :: 0 <= i < |es| ==> CleanKey(es[i].key) && Clean(es[i].val)
    case _ => true
  }

  /** Rebuilding an array whose keys are already distinct changes nothing. */
  lemma {:induction false} RebuildDistinct(es: seq<Entry>)
    requires DistinctKeys(es)
    ensures Rebuild(es) == es
  {
    if es != [] {
      var n := |es| - 1;
      assert DistinctKeys(es[..n]) && Find(es[..n], es[n].key).None?;
      RebuildDistinct(es[..n]);
      assert es[..n] + [es[n]] == es;
    }
  }

  /** Masking yields a well-formed value with no secret left, nested no deeper. */
  lemma {:induction false} MaskValueClean(v: Value, depth: nat)
    ensures Clean(MaskValue(v)) && WellFormed(MaskValue(v))
    ensures Nested(v, depth) ==> Nested(MaskValue(v), depth)
    decreases v
  {
    match v
    case Str(s) =>
    case Arr(es) =>
      var masked := seq(|es|, i requires 0 <= i < |es| => Entry(MaskKey(es[i].key), MaskValue(es[i].val)));
      var r := Rebuild(masked);
      assert MaskValue(v) == Arr(r);
      forall i | 0 <= i < |r|
        ensures CleanKey(r[i].key) && Clean(r[i].val) && WellFormed(r[i].val)
        ensures Nested(v, depth) ==> Nested(r[i].val, depth - 1)
      {
        assert r[i] in masked;
        var j :| 0 <= j < |masked| && masked[j] == r[i];
        MaskValueClean(es[j].val, if depth == 0 then 0 else depth - 1);
      }
    case _ =>
  }

  /** A well-formed value with no secret comes through masking unchanged. */
  lemma {:induction false} MaskValueFixes(v: Value)
    requires Clean(v) && WellFormed(v)
    ensures MaskValue(v) == v
    decreases v
  {
    match v
    case Str(s) => MaskFixesExactlySecretless(s);
    case Arr(es) =>
      var masked := seq(|es|, i requires 0 <= i < |es| => Entry(MaskKey(es[i].key), MaskValue(es[i].val)));
      forall i | 0 <= i < |es| ensures masked[i] == es[i] {
        MaskValueFixes(es[i].val);
        if es[i].key.StrKey? {
          MaskFixesExactlySecretless(es[i].key.s);
        }
      }
      assert masked == es;
      RebuildDistinct(es);
    case _ =>
  }

  // ---------------------------------------------------------------------
  // Properties of redact_array

  /** After redaction no secret-shaped run is left, in keys as in values. */
  lemma RedactLeavesNoSecret(data: seq<Entry>)
    ensures Clean(Arr(RedactArray(data))) && WellFormed(Arr(RedactArray(data)))
  {
    MaskValueClean(Arr(data), MaxNesting);
  }

  /** Redacting twice is redacting once. */
  lemma RedactIdempotent(data: seq<Entry>)
    ensures RedactArray(RedactArray(data)) == RedactArray(data)
  {
    var r := RedactArray(data);
    if Nested(Arr(data), MaxNesting) {
      MaskValueClean(Arr(data), MaxNesting);
      assert Nested(Arr(r), MaxNesting);
      MaskValueFixes(Arr(r));
    }
  }

  /** An array within the nesting limit, with no secret in any key or value,
      comes through unchanged; any other array is changed. */
  lemma RedactFixesExactlyClean(data: seq<Entry>)
    requires WellFormed(Arr(data)) && Nested(Arr(data), MaxNesting)
    ensures RedactArray(data) == data <==> Clean(Arr(data))
  {
    RedactLeavesNoSecret(data);
    if Clean(Arr(data)) {
      MaskValueFixes(Arr(data));
    }
  }

  /** When masking makes no two keys of the top level equal, redaction keeps
      every entry, in order, with its key and value masked. */
  lemma RedactKeepsEntries(data: seq<Entry>)
    requires Nested(Arr(data), MaxNesting)
    requires forall i, j :: 0 <= i < j < |data| ==> MaskKey(data[i].key) != MaskKey(data[j].key)
    ensures |RedactArray(data)| == |data|
    ensures forall i :: 0 <= i < |data| ==>
      RedactArray(data)[i] == Entry(MaskKey(data[i].key), MaskValue(data[i].val))
  {
    var masked := seq(|data|, i requires 0 <= i < |data| => Entry(MaskKey(data[i].key), MaskValue(data[i].val)));
    RebuildDistinct(masked);
  }
}
