/** The n-gram drafter of src/cli/k3_run.c (`spec_draft`): what it proposes, and how that compares
    with the rule stated above it. */
module NgramDraft {
  const SPEC_MAX := 8

  /** The n ids before position j + n repeat the last n ids of s. */
  predicate Repeats(s: seq<int>, n: nat, j: int) {
    0 <= j && j + n < |s| && s[j..j + n] == s[|s| - n..]
  }

  /** m1 and m2 are the two most recent earlier places where the last n ids occur, -1 if none. */
  ghost predicate RecentMatches(s: seq<int>, n: nat, m1: int, m2: int) {
    && (forall j :: m1 < j < |s| - n ==> !Repeats(s, n, j))
    && (m1 >= 0 ==> Repeats(s, n, m1))
    && m2 < |s| && (m1 < 0 ==> m2 < 0)
    && (m2 >= 0 ==> m2 < m1 && Repeats(s, n, m2))
    && (forall j :: 0 <= j && m2 < j < m1 ==> !Repeats(s, n, j))
  }

  /** Both histories go on with the same id i steps after the match. */
  predicate Agree(s: seq<int>, n: nat, m1: int, m2: int, i: nat)
    requires 0 <= m1 && m1 + n + i < |s|
  {
    m2 >= 0 ==> m2 + n + i < m1 && s[m2 + n + i] == s[m1 + n + i]
  }

  /** The draft copies history from the match on, as far as the cap, the sequence and the
      agreement of the two most recent histories allow. */
  ghost predicate DraftsFrom(s: seq<int>, n: nat, cap: nat, m1: int, m2: int, d: seq<int>) {
    && 0 <= m1 && |d| <= cap && m1 + n + |d| <= |s|
    && d == s[m1 + n..m1 + n + |d|]
    && (forall i :: 0 <= i < |d| ==> Agree(s, n, m1, m2, i))
    && (|d| == cap || m1 + n + |d| == |s| || !Agree(s, n, m1, m2, |d|))
  }

  ghost function Cap(want: nat): (c: nat)
    ensures c <= want && c <= SPEC_MAX && (c == want || c == SPEC_MAX)
  {
    if want > SPEC_MAX then SPEC_MAX else want
  }

  /** What matches of length n yield: nothing without an earlier occurrence. */
  ghost predicate DraftOf(s: seq<int>, n: nat, cap: nat, d: seq<int>) {
    if |s| <= n then d == []
    else exists m1, m2 :: RecentMatches(s, n, m1, m2) && if m1 < 0 then d == [] else DraftsFrom(s, n, cap, m1, m2, d)
  }

  /** Length 4 comes first, length 3 only when it yields nothing. */
  ghost predicate SpecDrafts(s: seq<int>, want: nat, d: seq<int>) {
    (DraftOf(s, 4, Cap(want), d) && d != []) || (DraftOf(s, 4, Cap(want), []) && DraftOf(s, 3, Cap(want), d))
  }

  method FindMatches(s: seq<int>, n: nat) returns (m1: int, m2: int)
    requires n < |s|
    ensures RecentMatches(s, n, m1, m2)
  {
    m1, m2 := -1, -1;
    var j := |s| - n - 1;
    while j >= 0
      invariant -1 <= j < |s| - n && m2 == -1 && -1 <= m1
      invariant forall k :: j < k && m1 < k < |s| - n ==> !Repeats(s, n, k)
      invariant m1 >= 0 ==> j < m1 && Repeats(s, n, m1) && forall k :: j < k < m1 ==> !Repeats(s, n, k)
    {
      if s[j..j + n] == s[|s| - n..] {
        if m1 < 0 { m1 := j; } else { m2 := j; return; }
      }
      j := j - 1;
    }
  }

  /** The inner loop of `spec_draft`: copy on from the match. */
  method CopyOn(s: seq<int>, n: nat, cap: nat, m1: int, m2: int) returns (d: seq<int>)
    requires 0 <= m1 && m1 + n < |s|
    ensures DraftsFrom(s, n, cap, m1, m2, d)
  {
    d := [];
    while |d| < cap && m1 + n + |d| < |s| && Agree(s, n, m1, m2, |d|)
      invariant |d| <= cap && m1 + n + |d| <= |s| && d == s[m1 + n..m1 + n + |d|]
      invariant forall i :: 0 <= i < |d| ==> Agree(s, n, m1, m2, i)
      decreases cap - |d|
    {
      d := d + [s[m1 + n + |d|]];
    }
  }

  /** `spec_draft`.  It consults the two most recent occurrences only. */
  method SpecDraft(s: seq<int>, want: nat) returns (d: seq<int>)
    ensures SpecDrafts(s, want, d) && |d| <= Cap(want)
  {
    hide RecentMatches, DraftsFrom;
    d := [];
    var cap := want;
    if cap > SPEC_MAX { cap := SPEC_MAX; }
    assert cap == Cap(want);
    var n := 4;
    while n >= 3
      invariant 2 <= n <= 4 && d == []
      invariant n < 4 ==> DraftOf(s, 4, Cap(want), [])
      invariant n < 3 ==> DraftOf(s, 3, Cap(want), [])
    {
      if |s| >= n + 1 {
        var m1, m2 := FindMatches(s, n);
        if m1 >= 0 {
          MatchInside(s, n, m1, m2);
          d := CopyOn(s, n, cap, m1, m2);
          WithinCap(s, n, Cap(want), m1, m2, d);
        }
        assert DraftOf(s, n, Cap(want), d);
        if d != [] { return; }
      }
      n := n - 1;
    }
  }

  lemma MatchInside(s: seq<int>, n: nat, m1: int, m2: int)
    requires RecentMatches(s, n, m1, m2) && m1 >= 0
    ensures m1 + n < |s|
  {
  }

  lemma WithinCap(s: seq<int>, n: nat, cap: nat, m1: int, m2: int, d: seq<int>)
    requires DraftsFrom(s, n, cap, m1, m2, d)
    ensures |d| <= cap
  {
  }

  lemma RecentMatchesUnique(s: seq<int>, n: nat, m1: int, m2: int, k1: int, k2: int)
    requires n < |s| && RecentMatches(s, n, m1, m2) && RecentMatches(s, n, k1, k2)
    ensures if m1 < 0 then k1 < 0 else m1 == k1 && (if m2 < 0 then k2 < 0 else m2 == k2)
  {
  }

  lemma GoesOn(s: seq<int>, n: nat, cap: nat, m1: int, m2: int, d: seq<int>, shorter: seq<int>)
    requires DraftsFrom(s, n, cap, m1, m2, d) && |shorter| < |d|
    ensures |shorter| < cap && m1 + n + |shorter| < |s| && Agree(s, n, m1, m2, |shorter|)
  {
  }

  lemma DraftsFromUnique(s: seq<int>, n: nat, cap: nat, m1: int, m2: int, k2: int, d: seq<int>, e: seq<int>)
    requires DraftsFrom(s, n, cap, m1, m2, d) && DraftsFrom(s, n, cap, m1, k2, e)
    requires if m2 < 0 then k2 < 0 else m2 == k2
    ensures d == e
  {
    if |d| < |e| { GoesOn(s, n, cap, m1, k2, e, d); }
    if |e| < |d| { GoesOn(s, n, cap, m1, m2, d, e); }
  }

  lemma DraftOfUnique(s: seq<int>, n: nat, cap: nat, d: seq<int>, e: seq<int>)
    requires DraftOf(s, n, cap, d) && DraftOf(s, n, cap, e)
    ensures d == e
  {
    hide RecentMatches, DraftsFrom;
    if |s| > n {
      var m1, m2 :| RecentMatches(s, n, m1, m2) && if m1 < 0 then d == [] else DraftsFrom(s, n, cap, m1, m2, d);
      var k1, k2 :| RecentMatches(s, n, k1, k2) && if k1 < 0 then e == [] else DraftsFrom(s, n, cap, k1, k2, e);
      RecentMatchesUnique(s, n, m1, m2, k1, k2);
      if m1 >= 0 { DraftsFromUnique(s, n, cap, m1, m2, k2, d, e); }
    }
  }

  /** `spec_draft` is a function of the sequence and the number asked for. */
  lemma SpecDraftsUnique(s: seq<int>, want: nat, d: seq<int>, e: seq<int>)
    requires SpecDrafts(s, want, d) && SpecDrafts(s, want, e)
    ensures d == e
  {
    hide DraftOf;
    var cap := Cap(want);
    if DraftOf(s, 4, cap, d) && DraftOf(s, 4, cap, e) { DraftOfUnique(s, 4, cap, d, e); }
    if DraftOf(s, 4, cap, d) && DraftOf(s, 4, cap, []) { DraftOfUnique(s, 4, cap, d, []); }
    if DraftOf(s, 4, cap, e) && DraftOf(s, 4, cap, []) { DraftOfUnique(s, 4, cap, e, []); }
    if DraftOf(s, 3, cap, d) && DraftOf(s, 3, cap, e) { DraftOfUnique(s, 3, cap, d, e); }
  }

  /** The n most recent ids have occurred before, and the two most recent occurrences go on
      with the same id. */
  ghost predicate FirstAgrees(s: seq<int>, n: nat) {
    |s| > n && exists m1, m2 :: 0 <= m1 && RecentMatches(s, n, m1, m2) && Agree(s, n, m1, m2, 0)
  }

  lemma DraftOfWhen(s: seq<int>, n: nat, cap: nat, d: seq<int>)
    requires DraftOf(s, n, cap, d)
    ensures d != [] <==> cap > 0 && FirstAgrees(s, n)
  {
    if FirstAgrees(s, n) {
      var k1, k2 :| 0 <= k1 && RecentMatches(s, n, k1, k2) && Agree(s, n, k1, k2, 0);
      var m1, m2 :| RecentMatches(s, n, m1, m2) && if m1 < 0 then d == [] else DraftsFrom(s, n, cap, m1, m2, d);
      RecentMatchesUnique(s, n, m1, m2, k1, k2);
      assert Agree(s, n, m1, m2, 0);
    }
  }

  /** When a draft comes out. */
  lemma DraftedWhen(s: seq<int>, want: nat, d: seq<int>)
    requires SpecDrafts(s, want, d)
    ensures d != [] <==> want > 0 && (FirstAgrees(s, 4) || FirstAgrees(s, 3))
    ensures d != [] ==> DraftOf(s, if FirstAgrees(s, 4) then 4 else 3, Cap(want), d)
  {
    hide DraftOf, FirstAgrees;
    var cap := Cap(want);
    if DraftOf(s, 4, cap, d) && d != [] {
      DraftOfWhen(s, 4, cap, d);
    } else {
      DraftOfWhen(s, 4, cap, []);
      DraftOfWhen(s, 3, cap, d);
    }
  }

  /* --------------------------------------------------------- as the comment has it */

  /** Every earlier occurrence goes on like the most recent one i steps after the match. */
  ghost predicate AllAgree(s: seq<int>, n: nat, m1: int, i: nat)
    requires 0 <= m1 && m1 + n + i < |s|
  {
    forall k :: Repeats(s, n, k) && k < m1 ==> Agree(s, n, m1, k, i)
  }

  /** What the rule in the comment above `spec_draft` drafts: every occurrence has a say. */
  ghost predicate StrictDraftsFrom(s: seq<int>, n: nat, cap: nat, m1: int, d: seq<int>) {
    && 0 <= m1 && |d| <= cap && m1 + n + |d| <= |s|
    && d == s[m1 + n..m1 + n + |d|]
    && (forall i :: 0 <= i < |d| ==> AllAgree(s, n, m1, i))
    && (|d| == cap || m1 + n + |d| == |s| || !AllAgree(s, n, m1, |d|))
  }

  ghost predicate StrictDraftOf(s: seq<int>, n: nat, cap: nat, d: seq<int>) {
    if |s| <= n then d == []
    else exists m1, m2 :: RecentMatches(s, n, m1, m2) && if m1 < 0 then d == [] else StrictDraftsFrom(s, n, cap, m1, d)
  }

  ghost predicate StrictSpecDrafts(s: seq<int>, want: nat, d: seq<int>) {
    || (StrictDraftOf(s, 4, Cap(want), d) && d != [])
    || (StrictDraftOf(s, 4, Cap(want), []) && StrictDraftOf(s, 3, Cap(want), d))
  }

  /** As far as the two most recent occurrences agree, below the cap, the older ones agree too. */
  ghost predicate OlderAgreeAt(s: seq<int>, n: nat, cap: nat, m1: int, m2: int)
    requires 0 <= m1
  {
    forall k, i: nat :: Repeats(s, n, k) && k < m2 && i < cap && AgreeUpTo(s, n, m1, m2, i) ==> Agree(s, n, m1, k, i)
  }

  ghost predicate AgreeUpTo(s: seq<int>, n: nat, m1: int, m2: int, i: nat)
    requires 0 <= m1
  {
    m1 + n + i < |s| && forall j: nat :: j <= i ==> Agree(s, n, m1, m2, j)
  }

  ghost predicate OlderAgree(s: seq<int>, n: nat, cap: nat) {
    |s| > n ==> forall m1, m2 :: 0 <= m1 && RecentMatches(s, n, m1, m2) ==> OlderAgreeAt(s, n, cap, m1, m2)
  }

  lemma StrictGoesOn(s: seq<int>, n: nat, cap: nat, m1: int, e: seq<int>, shorter: seq<int>)
    requires StrictDraftsFrom(s, n, cap, m1, e) && |shorter| < |e|
    ensures |shorter| < cap && m1 + n + |shorter| < |s| && AllAgree(s, n, m1, |shorter|)
  {
  }

  /** The draft covers what the two most recent occurrences agree on, below the cap. */
  lemma DraftIsAgreement(s: seq<int>, n: nat, cap: nat, m1: int, m2: int, d: seq<int>, i: nat)
    requires DraftsFrom(s, n, cap, m1, m2, d)
    ensures i < |d| <==> i < cap && AgreeUpTo(s, n, m1, m2, i)
  {
    if i < cap && |d| <= i { DraftStops(s, n, cap, m1, m2, d, i); }
  }

  lemma DraftStops(s: seq<int>, n: nat, cap: nat, m1: int, m2: int, d: seq<int>, i: nat)
    requires DraftsFrom(s, n, cap, m1, m2, d) && |d| <= i < cap
    ensures !AgreeUpTo(s, n, m1, m2, i)
  {
    hide Agree;
  }

  /** At one length: the code drafts at least what the comment would, and exactly that when the
      older occurrences agree. */
  lemma AsCommentedAt(s: seq<int>, n: nat, cap: nat, m1: int, m2: int, d: seq<int>, e: seq<int>)
    requires n < |s| && RecentMatches(s, n, m1, m2)
    requires DraftsFrom(s, n, cap, m1, m2, d) && StrictDraftsFrom(s, n, cap, m1, e)
    ensures e <= d && (e == d <==> OlderAgreeAt(s, n, cap, m1, m2))
  {
    hide AgreeUpTo;
    forall i: nat ensures i < |d| <==> i < cap && AgreeUpTo(s, n, m1, m2,
        i) { DraftIsAgreement(s, n, cap, m1, m2, d, i); }
    forall i | 0 <= i && m1 + n + i < |s| && AllAgree(s, n, m1, i) ensures Agree(s, n, m1, m2, i) {
      if m2 >= 0 { assert Repeats(s, n, m2); }
    }
    if |d| < |e| { StrictGoesOn(s, n, cap, m1, e, d); }
    assert e == d[..|e|];
    if e == d {
      forall k, i: nat | Repeats(s, n, k) && k < m2 && i < |d|
        ensures Agree(s, n, m1, k, i) { assert AllAgree(s, n, m1, i); }
    }
    if OlderAgreeAt(s, n, cap, m1, m2) {
      forall i | 0 <= i < |d| ensures AllAgree(s, n, m1, i) {
        forall k | Repeats(s, n, k) && k < m1 ensures Agree(s, n, m1, k, i) {
          assert Agree(s, n, m1, m2, i);
        }
      }
    }
  }

  lemma AsCommentedOf(s: seq<int>, n: nat, cap: nat, d: seq<int>, e: seq<int>)
    requires DraftOf(s, n, cap, d) && StrictDraftOf(s, n, cap, e)
    ensures e <= d && (e == d <==> OlderAgree(s, n, cap))
  {
    hide RecentMatches, DraftsFrom, StrictDraftsFrom, OlderAgreeAt;
    if |s| > n {
      var m1, m2 :| RecentMatches(s, n, m1, m2) && if m1 < 0 then d == [] else DraftsFrom(s, n, cap, m1, m2, d);
      var k1, k2 :| RecentMatches(s, n, k1, k2) && if k1 < 0 then e == [] else StrictDraftsFrom(s, n, cap, k1, e);
      RecentMatchesUnique(s, n, m1, m2, k1, k2);
      if m1 >= 0 { AsCommentedAt(s, n, cap, m1, m2, d, e); }
      OlderAgreeIs(s, n, cap, m1, m2);
    }
  }

  lemma OlderAgreeIs(s: seq<int>, n: nat, cap: nat, m1: int, m2: int)
    requires |s| > n && RecentMatches(s, n, m1, m2)
    ensures OlderAgree(s, n, cap) <==> m1 < 0 || OlderAgreeAt(s, n, cap, m1, m2)
  {
    forall k1, k2 | 0 <= k1 && RecentMatches(s, n, k1, k2)
      ensures m1 == k1 && (OlderAgreeAt(s, n, cap, k1, k2) <==> OlderAgreeAt(s, n, cap, m1, m2))
    {
      RecentMatchesUnique(s, n, m1, m2, k1, k2);
      if m2 < 0 { NoOlder(s, n, cap, m1, m2); NoOlder(s, n, cap, k1, k2); }
    }
  }

  lemma NoOlder(s: seq<int>, n: nat, cap: nat, m1: int, m2: int)
    requires 0 <= m1 && m2 < 0
    ensures OlderAgreeAt(s, n, cap, m1, m2)
  {
  }

  /** If an older occurrence keeps the comment's rule from drafting after four ids where the code
      does draft, it also keeps it from drafting after three: its tail occurs there too. */
  lemma StrictFallsSilent(s: seq<int>, cap: nat, d: seq<int>, e: seq<int>)
    requires DraftOf(s, 4, cap, d) && d != [] && StrictDraftOf(s, 4, cap, []) && StrictDraftOf(s, 3, cap, e)
    ensures e == []
  {
    hide Repeats;
    var m1, m2 :| RecentMatches(s, 4, m1, m2) && if m1 < 0 then d == [] else DraftsFrom(s, 4, cap, m1, m2, d);
    var k1, k2 :| RecentMatches(s, 4, k1, k2) && if k1 < 0 then true else StrictDraftsFrom(s, 4, cap, k1, []);
    RecentMatchesUnique(s, 4, m1, m2, k1, k2);
    assert Agree(s, 4, m1, m2, 0) && !AllAgree(s, 4, m1, 0);
    var k :| Repeats(s, 4, k) && k < m1 && !Agree(s, 4, m1, k, 0);
    assert k < m2;
    var l1, l2 :| RecentMatches(s, 3, l1, l2) && if l1 < 0 then e == [] else StrictDraftsFrom(s, 3, cap, l1, e);
    TailRepeats(s, k);
    TailRepeats(s, m1);
    if l1 >= 0 { StrictAtThree(s, cap, m1, k, l1, e); }
  }

  lemma TailRepeats(s: seq<int>, k: int)
    requires Repeats(s, 4, k)
    ensures Repeats(s, 3, k + 1) && k >= 0 && k + 4 < |s|
  {
    assert s[k + 1..k + 4] == s[k..k + 4][1..] && s[|s| - 3..] == s[|s| - 4..][1..];
  }

  lemma StrictAtThree(s: seq<int>, cap: nat, m1: int, k: int, l1: int, e: seq<int>)
    requires 0 <= k < m1 && m1 + 4 < |s| && s[k + 4] != s[m1 + 4]
    requires Repeats(s, 3, k + 1) && Repeats(s, 3, m1 + 1) && l1 >= m1 + 1 && StrictDraftsFrom(s, 3, cap, l1, e)
    ensures e == []
  {
    hide Repeats;
    assert l1 + 3 < |s| ==> !AllAgree(s, 3, l1, 0) by {
      if l1 + 3 < |s| && Agree(s, 3, l1, k + 1, 0) {
        assert s[k + 4] == s[l1 + 3];
        assert l1 > m1 + 1 && !Agree(s, 3, l1, m1 + 1, 0);
      }
    }
  }

  /** `spec_draft` drafts at least what its comment would, and the two are the same exactly when,
      at the length it drafts at, the occurrences older than the two it consults agree as far as
      those two do. */
  lemma DraftsAsCommented(s: seq<int>, want: nat, d: seq<int>, e: seq<int>)
    requires SpecDrafts(s, want, d) && StrictSpecDrafts(s, want, e)
    ensures e <= d && (e == d <==> OlderAgree(s, if FirstAgrees(s, 4) then 4 else 3, Cap(want)))
  {
    hide DraftOf, StrictDraftOf, FirstAgrees, OlderAgree;
    var cap := Cap(want);
    if cap == 0 {
      NothingWanted(s, want, d, e);
    } else if DraftOf(s, 4, cap, d) && d != [] {
      DraftOfWhen(s, 4, cap, d);
      if StrictDraftOf(s, 4, cap, e) && e != [] {
        AsCommentedOf(s, 4, cap, d, e);
      } else {
        AsCommentedOf(s, 4, cap, d, []);
        StrictFallsSilent(s, cap, d, e);
      }
    } else {
      DraftOfWhen(s, 4, cap, []);
      if StrictDraftOf(s, 4, cap, e) { AsCommentedOf(s, 4, cap, [], e); }
      if StrictDraftOf(s, 3, cap, e) { AsCommentedOf(s, 3, cap, d, e); }
    }
  }

  lemma NothingWanted(s: seq<int>, want: nat, d: seq<int>, e: seq<int>)
    requires SpecDrafts(s, want, d) && StrictSpecDrafts(s, want, e) && Cap(want) == 0
    ensures d == e == [] && OlderAgree(s, 4, 0) && OlderAgree(s, 3, 0)
  {
    hide RecentMatches;
  }

  /** The last place up to j where the last n ids occur, or -1. */
  ghost function LastRepeat(s: seq<int>, n: nat, j: int): (k: int)
    ensures -1 <= k && (k >= 0 ==> k <= j && Repeats(s, n, k)) && forall i :: k < i <= j ==> !Repeats(s, n, i)
    decreases j + 1
  {
    if j < 0 then -1 else if Repeats(s, n, j) then j else LastRepeat(s, n, j - 1)
  }

  lemma RecentMatchesExist(s: seq<int>, n: nat) returns (m1: int, m2: int)
    requires |s| > n
    ensures RecentMatches(s, n, m1, m2) && m1 + n < |s|
  {
    m1 := LastRepeat(s, n, |s| - n - 1);
    m2 := LastRepeat(s, n, m1 - 1);
  }

  lemma StrictDraftFromExists(s: seq<int>, n: nat, cap: nat, m1: int) returns (e: seq<int>)
    requires 0 <= m1 && m1 + n < |s|
    ensures StrictDraftsFrom(s, n, cap, m1, e)
  {
    hide AllAgree;
    e := [];
    while |e| < cap && m1 + n + |e| < |s| && AllAgree(s, n, m1, |e|)
      invariant |e| <= cap && m1 + n + |e| <= |s| && e == s[m1 + n..m1 + n + |e|]
      invariant forall i :: 0 <= i < |e| ==> AllAgree(s, n, m1, i)
      decreases cap - |e|
    {
      e := e + [s[m1 + n + |e|]];
    }
  }

  /** The comment's rule, too, always says what to draft. */
  lemma StrictDraftExists(s: seq<int>, n: nat, cap: nat) returns (e: seq<int>)
    ensures StrictDraftOf(s, n, cap, e)
  {
    hide RecentMatches, StrictDraftsFrom;
    e := [];
    if |s| > n {
      var m1, m2 := RecentMatchesExist(s, n);
      if m1 >= 0 { e := StrictDraftFromExists(s, n, cap, m1); }
    }
  }

  lemma StrictSpecDraftExists(s: seq<int>, want: nat) returns (e: seq<int>)
    ensures StrictSpecDrafts(s, want, e)
  {
    hide StrictDraftOf;
    e := StrictDraftExists(s, 4, Cap(want));
    if e == [] { e := StrictDraftExists(s, 3, Cap(want)); }
  }

  /** Here the last four ids occur three times before and the oldest goes on differently: the
      code drafts [9], the commented rule nothing. */
  lemma OldestOccurrenceIsNotConsulted(d: seq<int>)
    ensures var s := [1, 2, 3, 4, 8, 1, 2, 3, 4, 9, 1, 2, 3, 4, 9, 1, 2, 3, 4];
            (SpecDrafts(s, 1, d) <==> d == [9]) && (StrictSpecDrafts(s, 1, d) <==> d == [])
  {
    hide SpecDrafts, StrictSpecDrafts, OlderAgree, RecentMatches;
    var s := [1, 2, 3, 4, 8, 1, 2, 3, 4, 9, 1, 2, 3, 4, 9, 1, 2, 3, 4];
    ThreeOccurrences(s);
    SpecDraftsNine(s);
    if SpecDrafts(s, 1, d) { SpecDraftsUnique(s, 1, d, [9]); }
    OldestDisagrees(s);
    var e := StrictSpecDraftExists(s, 1);
    DraftsAsCommented(s, 1, [9], e);
    if StrictSpecDrafts(s, 1, d) { DraftsAsCommented(s, 1, [9], d); }
  }

  lemma OldestDisagrees(s: seq<int>)
    requires |s| == 19 && s[4] != s[14] && Repeats(s, 4, 0)
    requires RecentMatches(s, 4, 10, 5) && DraftsFrom(s, 4, 1, 10, 5, [9])
    ensures FirstAgrees(s, 4) && !OlderAgree(s, 4, 1)
  {
    hide RecentMatches;
    assert Agree(s, 4, 10, 5, 0) && !Agree(s, 4, 10, 0, 0);
    assert AgreeUpTo(s, 4, 10, 5, 0);
  }

  lemma ThreeOccurrences(s: seq<int>)
    requires s == [1, 2, 3, 4, 8, 1, 2, 3, 4, 9, 1, 2, 3, 4, 9, 1, 2, 3, 4]
    ensures Repeats(s, 4, 0) && RecentMatches(s, 4, 10, 5) && DraftsFrom(s, 4, 1, 10, 5, [9])
  {
    assert s[15..] == [1, 2, 3, 4] && s[0..4] == [1, 2, 3, 4] && s[5..9] == [1, 2, 3, 4] && s[10..14] == [1, 2, 3, 4];
    forall j | 10 < j < 15 ensures !Repeats(s, 4, j) { assert s[j..j + 4][0] == s[j]; }
    forall j | 5 < j < 10 ensures !Repeats(s, 4, j) { assert s[j..j + 4][0] == s[j]; }
    assert s[14..15] == [9];
    assert Agree(s, 4, 10, 5, 0);
  }

  lemma SpecDraftsNine(s: seq<int>)
    requires |s| > 4 && RecentMatches(s, 4, 10, 5) && DraftsFrom(s, 4, 1, 10, 5, [9])
    ensures SpecDrafts(s, 1, [9])
  {
    hide RecentMatches, DraftsFrom;
    assert DraftOf(s, 4, 1, [9]);
  }
}
