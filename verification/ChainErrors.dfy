/**
 * The error of a failed chain, on its way back to the router: wrapped behind a text that
 * names the chain. The retry policy treats it exactly as it would treat the last error.
 */
module ChainErrors {
  import opened Wrappers
  import opened Strings
  import opened Errors
  import opened Fallback

  predicate Rare(c: char) {
    c == '_' || c == 'm' || c == 'q' || c == 'u' || c == 'x' || c == 'y'
  }

  predicate HarmlessAt(s: string, k: nat)
    requires k < |s|
  {
    && !Rare(s[k]) && LowerChar(s[k]) == s[k]
    && (s[k] == 'b' || s[k] == 'f' ==> k + 1 < |s| && s[k + 1] == 'a')
  }

  /** Lower-case text without a rare letter, and with an `a` after each `b` and each `f`. */
  predicate Harmless(s: string) {
    forall k: nat :: k < |s| ==> HarmlessAt(s, k)
  }

  /** What harmless text cannot hold: a rare letter, a leading `bl` or `fo`. Every pattern of the classification has one. */
  predicate Harmful(p: string) {
    || (exists i :: 0 <= i < |p| && Rare(p[i]))
    || (|p| > 1 && p[0] == 'b' && p[1] == 'l')
    || (|p| > 1 && p[0] == 'f' && p[1] == 'o')
  }

  predicate AreHarmful(patterns: seq<string>) {
    forall k :: 0 <= k < |patterns| ==> Harmful(patterns[k])
  }

  lemma HarmlessText(s: string, p: string)
    requires Harmless(s) && Harmful(p)
    ensures !Contains(s, p)
  {
    forall k ensures !OccursAt(s, p, k) {
      if 0 <= k && k + |p| <= |s| {
        var m := s[k..k + |p|];
        if i :| 0 <= i < |p| && Rare(p[i]) {
          assert HarmlessAt(s, k + i) && m[i] == s[k + i];
        } else {
          assert HarmlessAt(s, k) && m[0] == s[k] && m[1] == s[k + 1];
        }
      }
    }
  }

  lemma HarmlessConcat(s: string, t: string)
    requires Harmless(s) && Harmless(t)
    ensures Harmless(s + t)
  {
    forall k: nat | k < |s + t| ensures HarmlessAt(s + t, k) {
      if k < |s| {
        assert HarmlessAt(s, k);
      } else {
        assert HarmlessAt(t, k - |s|);
      }
    }
  }

  lemma TextBeforeName()
    ensures Harmless("all providers in fallback chain \"")
  {
    var a, b, c := "all providers ", "in fallback ", "chain \"";
    assert Harmless(a) && Harmless(b) && Harmless(c);
    HarmlessConcat(a, b);
    HarmlessConcat(a + b, c);
    assert "all providers in fallback chain \"" == a + b + c;
  }

  lemma TextAfterName()
    ensures Harmless("\" failed, last error: ") && IsLabel("\" failed, last error: ")
  {
    var a, b := "\" failed, ", "last error: ";
    assert Harmless(a) && Harmless(b);
    HarmlessConcat(a, b);
    assert "\" failed, last error: " == a + b;
  }

  lemma PrefixIsHarmless(name: string)
    requires Harmless(name)
    ensures Harmless(ChainPrefix(name)) && IsLabel(ChainPrefix(name))
  {
    var before, after := "all providers in fallback chain \"", "\" failed, last error: ";
    TextBeforeName();
    TextAfterName();
    HarmlessConcat(before, name);
    HarmlessConcat(before + name, after);
    assert ChainPrefix(name) == before + name + after;
    assert (before + name + after)[|before + name + after| - 2..] == after[|after| - 2..];
  }

  lemma TokenLimitIsHarmful()
    ensures AreHarmful(TOKEN_LIMIT)
  {
    assert Rare(TOKEN_LIMIT[0][5]) && Rare(TOKEN_LIMIT[1][0]) && Rare(TOKEN_LIMIT[2][0]) && Rare(TOKEN_LIMIT[3][8]);
    assert Rare(TOKEN_LIMIT[4][5]) && Rare(TOKEN_LIMIT[5][4]) && Rare(TOKEN_LIMIT[6][0]);
  }

  lemma ContentPolicyIsHarmful()
    ensures AreHarmful(CONTENT_POLICY)
  {
    assert Rare(CONTENT_POLICY[0][7]) && Rare(CONTENT_POLICY[1][7]) && Rare(CONTENT_POLICY[2][5]) && Rare(CONTENT_POLICY[4][3]);
    assert Rare(CONTENT_POLICY[5][0]) && Rare(CONTENT_POLICY[6][11]);
  }

  lemma RateLimitIsHarmful()
    ensures AreHarmful(RATE_LIMIT)
  {
    assert Rare(RATE_LIMIT[0][4]) && Rare(RATE_LIMIT[1][7]) && Rare(RATE_LIMIT[2][4]) && Rare(RATE_LIMIT[3][0]);
    assert Rare(RATE_LIMIT[4][4]);
  }

  lemma AuthIsHarmful()
    ensures AreHarmful(AUTH)
  {
    assert Rare(AUTH[0][7]) && Rare(AUTH[1][14]) && Rare(AUTH[2][1]) && Rare(AUTH[3][0]);
    assert Rare(AUTH[5][3]);
  }

  lemma HarmlessSaysNone(s: string, patterns: seq<string>)
    requires Harmless(s) && AreHarmful(patterns)
    ensures SaysNone(s, patterns) && !ContainsAny(s, patterns)
  {
    forall k | 0 <= k < |patterns| ensures !Contains(s, patterns[k]) {
      HarmlessText(s, patterns[k]);
    }
  }

  lemma LowerHarmless(s: string)
    requires Harmless(s)
    ensures Lower(s) == s
  {
    forall k: nat | k < |s| ensures Lower(s)[k] == s[k] {
      assert HarmlessAt(s, k);
    }
  }

  lemma SingleWordsAreHarmful()
    ensures Harmful(STATUS) && Harmful(DEADLINE)
  {
    assert Rare(STATUS[4]) && Rare(DEADLINE[10]);
  }

  lemma HarmlessIsSilent(s: string)
    requires Harmless(s)
    ensures !Contains(s, STATUS) && !Contains(s, DEADLINE)
    ensures SaysNone(Lower(s), TOKEN_LIMIT) && SaysNone(Lower(s), CONTENT_POLICY)
    ensures SaysNone(Lower(s), RATE_LIMIT) && SaysNone(Lower(s), AUTH)
  {
    LowerHarmless(s);
    SingleWordsAreHarmful();
    HarmlessText(s, STATUS);
    HarmlessText(s, DEADLINE);
    TokenLimitIsHarmful();
    ContentPolicyIsHarmful();
    RateLimitIsHarmful();
    AuthIsHarmful();
    HarmlessSaysNone(s, TOKEN_LIMIT);
    HarmlessSaysNone(s, CONTENT_POLICY);
    HarmlessSaysNone(s, RATE_LIMIT);
    HarmlessSaysNone(s, AUTH);
  }

  /** A failed chain is classified, and hence retried, exactly as its last error would be. */
  lemma ChainErrorKeepsKind(name: string, err: GoError)
    requires Harmless(name)
    ensures KindOf(ChainError(name, Some(err))) == KindOf(err)
  {
    if err.Plain? {
      PrefixIsHarmless(name);
      HarmlessIsSilent(ChainPrefix(name));
      WrappingKeepsKind(ChainPrefix(name), err.cause);
    }
  }

  /** The name the gateway gives its chains is such a name. */
  lemma GatewayName()
    ensures Harmless("fallback")
  {
  }

  lemma SilentIsUnknown(s: string)
    requires Harmless(s)
    ensures Classify(Cause(s, false), 0, s) == ErrUnknown
  {
    HarmlessIsSilent(s);
  }

  lemma HarmlessIsUnparsed(s: string)
    requires Harmless(s)
    ensures Parse(s) == (0, s)
  {
    HarmlessIsSilent(s);
    IndexSpec(s, STATUS);
  }

  lemma NilText()
    ensures Harmless("%!w(<nil>)")
  {
  }

  /** A chain that was cooling throughout has no last error; the error it returns is of no known kind. */
  lemma EmptyChainIsUnknown(name: string)
    requires Harmless(name)
    ensures KindOf(ChainError(name, None)) == ErrUnknown
  {
    PrefixIsHarmless(name);
    NilText();
    HarmlessConcat(ChainPrefix(name), "%!w(<nil>)");
    var text := ChainPrefix(name) + "%!w(<nil>)";
    HarmlessIsUnparsed(text);
    SilentIsUnknown(text);
  }
}
