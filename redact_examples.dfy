/** Worked cases of `redact_array`, each proved from the definitions. */
module RedactExamples {
  import opened Php
  import opened Redact

  /** A string none of whose characters starts the prefix holds no match. */
  lemma LeadAbsent(s: string, p: Pattern)
    requires |p.prefix| > 0
    requires forall c :: c in s ==> Lower(c) != p.prefix[0]
    ensures NoMatch(s, p)
  {
    forall i | 0 <= i < |s| ensures !MatchAt(s, i, p) {
      assert s[i] in s;
      NotPrefixAt(s, i, p.prefix, 0);
    }
  }

  /** A string without `p` or `w`, in either case, goes through the last
      two passes unchanged. */
  lemma LaterPassesKeep(t: string)
    requires forall c :: c in t ==> Lower(c) != 'p' && Lower(c) != 'w'
    ensures Replace(Replace(t, PublishableKey), WebhookSecret) == t
  {
    LeadAbsent(t, PublishableKey);
    ReplaceFixes(t, PublishableKey);
    LeadAbsent(t, WebhookSecret);
    ReplaceFixes(t, WebhookSecret);
  }

  lemma SkIdPass()
    ensures Replace("sk_id", SecretKey) == "sk_***"
  {
    var u := "sk_id";
    assert MatchAt(u, 0, SecretKey);
    assert RunLength(u[3..], SecretKey) == 2 by {
      assert u[3..][1..] == "d" && "d"[1..] == [];
    }
    assert u[5..] == [];
  }

  /** A first character that cannot start the prefix is copied as it is. */
  lemma KeepFirst(c: char, rest: string, p: Pattern)
    requires |p.prefix| > 0 && Lower(c) != p.prefix[0]
    ensures Replace([c] + rest, p) == [c] + Replace(rest, p)
  {
    NotPrefixAt([c] + rest, 0, p.prefix, 0);
    assert ([c] + rest)[1..] == rest;
  }

  lemma TaskIdSplit()
    ensures "task_id" == ['t'] + (['a'] + "sk_id")
    ensures "task_***" == ['t'] + (['a'] + "sk_***")
  {
  }

  /** There is no word boundary: the `sk_` inside `task_id` is masked. */
  lemma TaskIdMasked()
    ensures Mask("task_id") == "task_***"
  {
    var u := "sk_id";
    SkIdPass();
    KeepFirst('a', u, SecretKey);
    KeepFirst('t', ['a'] + u, SecretKey);
    TaskIdSplit();
    LaterPassesKeep("task_***");
  }

  /** `sk_` followed by one letter or digit of either case becomes `sk_***`. */
  lemma MaskSkA(tail: char)
    requires IsAlnum(tail)
    ensures Mask(['s', 'k', '_', tail]) == "sk_***"
  {
    var s := ['s', 'k', '_', tail];
    assert MatchAt(s, 0, SecretKey);
    assert RunLength(s[3..], SecretKey) == 1;
    assert Replace(s, SecretKey) == "sk_***";
    LeadAbsent("sk_***", PublishableKey);
    ReplaceFixes("sk_***", PublishableKey);
    LeadAbsent("sk_***", WebhookSecret);
    ReplaceFixes("sk_***", WebhookSecret);
  }

  /** Two keys that mask to the same text collapse into one entry: the first
      key's position, the last key's value. */
  lemma KeysCollapse()
    ensures RedactArray([E("sk_a", Int(1)), E("sk_b", Int(2))]) == [E("sk_***", Int(2))]
  {
    var data := [E("sk_a", Int(1)), E("sk_b", Int(2))];
    MaskSkA('a');
    MaskSkA('b');
    assert Nested(Arr(data), MaxNesting) by {
      assert Nested(data[0].val, MaxNesting - 1) && Nested(data[1].val, MaxNesting - 1);
    }
    var masked := seq(|data|, i requires 0 <= i < |data| => Entry(MaskKey(data[i].key), MaskValue(data[i].val)));
    assert masked == [E("sk_***", Int(1)), E("sk_***", Int(2))];
    assert Rebuild(masked[..1]) == [E("sk_***", Int(1))];
  }

  /** `whsec_ab_c` holds no `sk_` and no `pk_` run. */
  lemma WhsecNoKeys()
    ensures NoMatch("whsec_ab_c", SecretKey) && NoMatch("whsec_ab_c", PublishableKey)
  {
    var s := "whsec_ab_c";
    forall i | 0 <= i < |s| ensures !MatchAt(s, i, SecretKey) && !MatchAt(s, i, PublishableKey) {
      if i == 2 {
        NotPrefixAt(s, i, "sk_", 1);
        NotPrefixAt(s, i, "pk_", 0);
      } else {
        assert s[i] in s[..2] || s[i] in s[3..];
        NotPrefixAt(s, i, "sk_", 0);
        NotPrefixAt(s, i, "pk_", 0);
      }
    }
  }

  /** The `whsec_` pass masks `ab` and keeps `_c`. */
  lemma WhsecPass()
    ensures Replace("whsec_ab_c", WebhookSecret) == "whsec_***_c"
  {
    var s := "whsec_ab_c";
    assert MatchAt(s, 0, WebhookSecret);
    assert s[6..] == "ab_c";
    assert !InRun(WebhookSecret, '_');
    assert RunLength("_c", WebhookSecret) == 0;
    assert RunLength("b_c", WebhookSecret) == 1 + RunLength("_c", WebhookSecret);
    assert RunLength("ab_c", WebhookSecret) == 1 + RunLength("b_c", WebhookSecret);
    LeadAbsent("_c", WebhookSecret);
    ReplaceFixes("_c", WebhookSecret);
    assert s[8..] == "_c";
  }

  /** The `whsec_` run stops at `_`, which stays with what follows it. */
  lemma WhsecRunStopsAtUnderscore()
    ensures Mask("whsec_ab_c") == "whsec_***_c"
  {
    var s := "whsec_ab_c";
    WhsecNoKeys();
    ReplaceFixes(s, SecretKey);
    ReplaceFixes(s, PublishableKey);
    WhsecPass();
  }
}
