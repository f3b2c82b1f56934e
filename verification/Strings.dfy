/** The string operations of Go's standard library that the scanners rely on. */
module Strings {

  predicate OccursAt(s: string, p: string, k: int) {
    0 <= k && k + |p| <= |s| && s[k..k + |p|] == p
  }

  /** No occurrence of `p` starts before position `n`. */
  predicate NoneBefore(s: string, p: string, n: int) {
    forall k :: 0 <= k < n ==> !OccursAt(s, p, k)
  }

  ghost predicate Contains(s: string, p: string) {
    exists k :: OccursAt(s, p, k)
  }

  predicate IsFirst(s: string, p: string, r: int) {
    OccursAt(s, p, r) && NoneBefore(s, p, r)
  }

  /** Position of the first occurrence, or -1 (`IndexSpec`). */
  ghost function Index(s: string, p: string): (r: int)
    ensures -1 <= r && (r >= 0 ==> r + |p| <= |s|)
  {
    if k :| IsFirst(s, p, k) then k else -1
  }

  lemma IndexSpec(s: string, p: string)
    ensures var r := Index(s, p);
      && (r >= 0 ==> OccursAt(s, p, r) && NoneBefore(s, p, r))
      && (r < 0 <==> !Contains(s, p))
  {
    if Contains(s, p) {
      var k :| OccursAt(s, p, k);
      FirstExists(s, p, k);
    }
  }

  lemma {:induction false} FirstExists(s: string, p: string, k: int)
    requires OccursAt(s, p, k)
    ensures exists r :: IsFirst(s, p, r)
    decreases k
  {
    if j :| 0 <= j < k && OccursAt(s, p, j) {
      FirstExists(s, p, j);
    } else {
      assert IsFirst(s, p, k);
    }
  }

  /** The first occurrence is unique: to know the index it is enough to point at it. */
  lemma IndexIs(s: string, p: string, r: nat)
    requires OccursAt(s, p, r) && NoneBefore(s, p, r)
    ensures Index(s, p) == r
  {
    IndexSpec(s, p);
    assert Contains(s, p);
    assert !(Index(s, p) < r);
  }

  lemma DropFront(front: string, rest: string, k: nat)
    requires k <= |front|
    ensures (front + rest)[k..] == front[k..] + rest
  {
  }

  lemma DropMore(front: string, rest: string, k: nat)
    requires k <= |rest|
    ensures (front + rest)[|front| + k..] == rest[k..]
  {
  }

  /** What occurs in the front part of a text is found there. */
  lemma FirstInPrefix(prefix: string, rest: string, p: string)
    requires Contains(prefix, p)
    ensures 0 <= Index(prefix + rest, p) <= |prefix| - |p|
  {
    var k :| OccursAt(prefix, p, k);
    assert (prefix + rest)[k..k + |p|] == prefix[k..k + |p|];
    assert OccursAt(prefix + rest, p, k);
    IndexSpec(prefix + rest, p);
  }

  /** The search loop. */
  method FindIndex(s: string, p: string) returns (r: int)
    ensures r == Index(s, p)
    ensures if r < 0 then !Contains(s, p) else IsFirst(s, p, r)
  {
    IndexSpec(s, p);
    r := 0;
    while r + |p| <= |s|
      invariant 0 <= r && NoneBefore(s, p, r)
      decreases |s| - r
    {
      if s[r..r + |p|] == p {
        IndexIs(s, p, r);
        return;
      }
      r := r + 1;
    }
    r := -1;
  }

  /** No proper suffix of `p` is a prefix of it, so two occurrences never overlap. */
  predicate Unbordered(p: string) {
    forall d :: 0 < d < |p| ==> p[d..] != p[..|p| - d]
  }

  /** An unbordered marker that follows text free of it is found exactly there. */
  lemma MarkerAfterFiller(filler: string, p: string, rest: string)
    requires p != "" && Unbordered(p) && !Contains(filler, p)
    ensures Index(filler + p + rest, p) == |filler|
  {
    var s := filler + p + rest;
    assert s[|filler|..|filler| + |p|] == p;
    forall k | 0 <= k < |filler| ensures !OccursAt(s, p, k) {
      if k + |p| <= |filler| {
        assert s[k..k + |p|] == filler[k..k + |p|];
        assert !OccursAt(filler, p, k);
      } else if k + |p| <= |s| {
        var d := |filler| - k;
        assert s[k..k + |p|][d..] == s[|filler|..k + |p|] == p[..|p| - d];
      }
    }
    IndexIs(s, p, |filler|);
  }

  /** A one-character marker is found at its first occurrence. */
  lemma CharAfterFiller(filler: string, c: char, rest: string)
    requires c !in filler
    ensures Index(filler + [c] + rest, [c]) == |filler|
  {
    var s := filler + [c] + rest;
    assert s[|filler|..|filler| + 1] == [c];
    forall k | 0 <= k < |filler| ensures !OccursAt(s, [c], k) {
      assert s[k..k + 1][0] == filler[k];
      assert filler[k] in filler;
    }
    IndexIs(s, [c], |filler|);
  }

  /** White space as Go's unicode.IsSpace has it. */
  predicate IsSpace(c: char) {
    var n := c as int;
    || 0x09 <= n <= 0x0D || n == 0x20 || n == 0x85 || n == 0xA0
    || n == 0x1680 || 0x2000 <= n <= 0x200A || n == 0x2028 || n == 0x2029 || n == 0x202F || n == 0x205F || n == 0x3000
  }

  function TrimLeft(s: string): string {
    if s != "" && IsSpace(s[0]) then TrimLeft(s[1..]) else s
  }

  function TrimRight(s: string): string {
    if s != "" && IsSpace(s[|s| - 1]) then TrimRight(s[..|s| - 1]) else s
  }

  function TrimSpace(s: string): string {
    TrimRight(TrimLeft(s))
  }

  lemma {:induction false} TrimLeftAppend(s: string, c: char)
    requires IsSpace(c)
    ensures TrimRight(TrimLeft(s + [c])) == TrimRight(TrimLeft(s))
  {
    if s == "" {
      assert (s + [c])[1..] == "";
    } else if IsSpace(s[0]) {
      assert (s + [c])[1..] == s[1..] + [c];
      TrimLeftAppend(s[1..], c);
    } else {
      assert (s + [c])[..|s|] == s;
    }
  }

  /** Surrounding white space does not matter. */
  lemma TrimAround(s: string, c: char)
    requires IsSpace(c)
    ensures TrimSpace(s + [c]) == TrimSpace(s)
    ensures TrimSpace([c] + s) == TrimSpace(s)
  {
    TrimLeftAppend(s, c);
    assert ([c] + s)[1..] == s;
  }

  lemma TrimNothing(s: string)
    requires s != "" && !IsSpace(s[0]) && !IsSpace(s[|s| - 1])
    ensures TrimSpace(s) == s
  {
  }

  lemma {:induction false} TrimLeftStops(s: string, c: char, rest: string)
    requires !IsSpace(c)
    ensures exists front :: TrimLeft(s + [c] + rest) == front + [c] + rest
  {
    if s == "" {
      assert s + [c] + rest == "" + [c] + rest;
    } else if IsSpace(s[0]) {
      assert (s + [c] + rest)[1..] == s[1..] + [c] + rest;
      TrimLeftStops(s[1..], c, rest);
    } else {
      assert TrimLeft(s + [c] + rest) == s + [c] + rest;
    }
  }

  lemma {:induction false} TrimRightStops(front: string, c: char, rest: string)
    requires !IsSpace(c)
    ensures TrimRight(front + [c] + rest) == front + [c] + TrimRight(rest)
    decreases |rest|
  {
    var s := front + [c] + rest;
    if rest == "" {
      assert s == front + [c] && s[|s| - 1] == c;
    } else {
      assert s[|s| - 1] == rest[|rest| - 1];
      if IsSpace(rest[|rest| - 1]) {
        assert s[..|s| - 1] == front + [c] + rest[..|rest| - 1];
        TrimRightStops(front, c, rest[..|rest| - 1]);
      }
    }
  }

  lemma {:induction false} TrimLeftOfMore(c: char, s: string)
    ensures |TrimRight(s)| <= |TrimRight([c] + s)|
    decreases |s|
  {
    if s != "" && IsSpace(s[|s| - 1]) {
      assert ([c] + s)[..|s|] == [c] + s[..|s| - 1];
      TrimLeftOfMore(c, s[..|s| - 1]);
    }
  }

  lemma {:induction false} TrimIsShort(s: string)
    ensures |TrimSpace(s)| <= |TrimRight(s)| <= |s|
  {
    TrimRightIsShort(s);
    if s != "" && IsSpace(s[0]) {
      TrimIsShort(s[1..]);
      TrimLeftOfMore(s[0], s[1..]);
      assert [s[0]] + s[1..] == s;
    }
  }

  lemma {:induction false} TrimRightIsShort(s: string)
    ensures |TrimRight(s)| <= |s|
  {
    if s != "" && IsSpace(s[|s| - 1]) { TrimRightIsShort(s[..|s| - 1]); }
  }

  /** A visible character survives the trimming, and so does everything it separates from the ends. */
  lemma TrimKeepsVisible(front: string, c: char, rest: string)
    requires !IsSpace(c)
    ensures c in TrimSpace(front + [c] + rest)
    ensures |TrimSpace(front + [c] + rest)| > |TrimSpace(rest)|
  {
    TrimLeftStops(front, c, rest);
    var kept :| TrimLeft(front + [c] + rest) == kept + [c] + rest;
    TrimRightStops(kept, c, rest);
    TrimIsShort(rest);
    assert (kept + [c] + TrimRight(rest))[|kept|] == c;
  }

  lemma {:induction false} SuffixTrimsShorter(front: string, s: string)
    ensures |TrimSpace(s)| <= |TrimSpace(front + s)|
  {
    if front == "" {
      assert front + s == s;
    } else {
      SuffixTrimsShorter(front[1..], s);
      assert front + s == [front[0]] + (front[1..] + s);
      if !IsSpace(front[0]) {
        TrimKeepsVisible("", front[0], front[1..] + s);
        assert "" + [front[0]] + (front[1..] + s) == front + s;
      } else {
        TrimAround(front[1..] + s, front[0]);
      }
    }
  }

  /** A text without one of the letters of `p` does not contain it. */
  lemma AbsentLetter(s: string, p: string, c: char)
    requires c in p && c !in s
    ensures !Contains(s, p)
  {
    var i :| 0 <= i < |p| && p[i] == c;
    forall k ensures !OccursAt(s, p, k) {
      if 0 <= k && k + |p| <= |s| {
        assert s[k..k + |p|][i] == s[k + i];
      }
    }
  }

  /** What contains `p + more` contains `p`. */
  lemma ContainsFront(s: string, p: string, more: string)
    requires Contains(s, p + more)
    ensures Contains(s, p)
  {
    var k :| OccursAt(s, p + more, k);
    assert s[k..k + |p|] == s[k..k + |p + more|][..|p|] == p;
    assert OccursAt(s, p, k);
  }

  /** Text that labels what follows it: it ends in a colon and a space. */
  predicate IsLabel(s: string) {
    |s| >= 2 && s[|s| - 2..] == [':', ' ']
  }

  /** A word that no match can start at the end of a label. */
  predicate IsWord(p: string) {
    p != "" && p[0] != ' ' && ':' !in p
  }

  lemma NothingStraddles(lead: string, s: string, p: string, k: int)
    requires IsLabel(lead) && IsWord(p)
    requires 0 <= k < |lead| < k + |p| <= |lead + s|
    ensures (lead + s)[k..k + |p|] != p
  {
    var n, m := |lead|, (lead + s)[k..k + |p|];
    assert lead[n - 2..][0] == ':' && lead[n - 2..][1] == ' ';
    if k == n - 1 {
      assert m[0] == ' ';
    } else {
      assert m[n - 2 - k] == ':';
    }
  }

  /** No occurrence of a word straddles the end of a label. */
  lemma OccursBehindLabel(lead: string, s: string, p: string, k: int)
    requires IsLabel(lead) && IsWord(p) && !Contains(lead, p)
    ensures OccursAt(lead + s, p, k) <==> OccursAt(s, p, k - |lead|)
  {
    var n, all := |lead|, lead + s;
    if k >= n {
      assert k + |p| <= |all| ==> all[k..k + |p|] == s[k - n..k - n + |p|];
    } else if 0 <= k && k + |p| <= n {
      assert all[k..k + |p|] == lead[k..k + |p|];
      assert !OccursAt(lead, p, k);
    } else if 0 <= k && k + |p| <= |all| {
      NothingStraddles(lead, s, p, k);
    }
  }

  lemma ContainsBehindLabel(lead: string, s: string, p: string)
    requires IsLabel(lead) && IsWord(p) && !Contains(lead, p)
    ensures Contains(lead + s, p) <==> Contains(s, p)
  {
    if Contains(s, p) {
      var k :| OccursAt(s, p, k);
      OccursBehindLabel(lead, s, p, k + |lead|);
    }
    if Contains(lead + s, p) {
      var k :| OccursAt(lead + s, p, k);
      OccursBehindLabel(lead, s, p, k);
    }
  }

  lemma IndexBehindLabel(lead: string, s: string, p: string)
    requires IsLabel(lead) && IsWord(p) && !Contains(lead, p)
    ensures Index(lead + s, p) == if Contains(s, p) then |lead| + Index(s, p) else -1
  {
    ContainsBehindLabel(lead, s, p);
    IndexSpec(s, p);
    IndexSpec(lead + s, p);
    if Contains(s, p) {
      var r := |lead| + Index(s, p);
      OccursBehindLabel(lead, s, p, r);
      forall k | 0 <= k < r ensures !OccursAt(lead + s, p, k) {
        OccursBehindLabel(lead, s, p, k);
      }
      IndexIs(lead + s, p, r);
    }
  }
}
