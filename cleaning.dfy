/**
 * `remove_unstable_values`: deletes from a serialized configuration every substring
 * matched by the pattern `<[\w\s_\. ]+ at 0x[a-z0-9]+>` (an in-memory object address
 * such as `<function f at 0x7fb9f37a8900>`), scanning left to right as `re.sub` does.
 * Characters are classified over ASCII.
 */
module ConfigCleaning {
  import opened Wrappers

  /** `\w` restricted to ASCII. */
  predicate IsWordChar(c: char)
  {
    'a' <= c <= 'z' || 'A' <= c <= 'Z' || '0' <= c <= '9' || c == '_'
  }

  /** `\s` restricted to ASCII: tab, line feed, vertical tab, form feed, carriage return,
      the four separators 0x1c-0x1f, and space. */
  predicate IsSpaceChar(c: char)
  {
    '\t' <= c <= '\r' || '\U{1c}' <= c <= '\U{1f}' || c == ' '
  }

  /** The first character class of the pattern, `[\w\s_\. ]`. */
  predicate IsInnerChar(c: char)
  {
    IsWordChar(c) || IsSpaceChar(c) || c == '_' || c == '.' || c == ' '
  }

  /** The second character class of the pattern, `[a-z0-9]`. */
  predicate IsAddressChar(c: char)
  {
    'a' <= c <= 'z' || '0' <= c <= '9'
  }

  predicate AllInnerChars(s: string)
  {
    forall k :: 0 <= k < |s| ==> IsInnerChar(s[k])
  }

  predicate AllAddressChars(s: string)
  {
    forall k :: 0 <= k < |s| ==> IsAddressChar(s[k])
  }

  /** Every character of s[from..to] is in `[\w\s_\. ]`. */
  predicate InnerCharsIn(s: string, from: int, to: int)
  {
    forall k :: from <= k < to && 0 <= k < |s| ==> IsInnerChar(s[k])
  }

  /** Every character of s[from..to] is in `[a-z0-9]`. */
  predicate AddressCharsIn(s: string, from: int, to: int)
  {
    forall k :: from <= k < to && 0 <= k < |s| ==> IsAddressChar(s[k])
  }

  /** The literal ` at 0x` between the two classes occupies s[p..p+6]. */
  predicate MarkerAt(s: string, p: int)
  {
    && 0 <= p && p + 6 <= |s|
    && s[p] == ' ' && s[p + 1] == 'a' && s[p + 2] == 't'
    && s[p + 3] == ' ' && s[p + 4] == '0' && s[p + 5] == 'x'
  }

  // ---------------------------------------------------------------------------
  // The language of the pattern (reference definition)
  // ---------------------------------------------------------------------------

  /** `w` reads as `<` x ` at 0x` y `>` with the literal starting at index `p`:
      x = w[1..p] is a non-empty run of `[\w\s_\. ]`, y = w[p+6..|w|-1] a non-empty
      run of `[a-z0-9]`. */
  predicate TokenShape(w: string, p: int)
  {
    && 2 <= p && p + 7 < |w|
    && w[0] == '<' && w[|w| - 1] == '>'
    && InnerCharsIn(w, 1, p)
    && MarkerAt(w, p)
    && AddressCharsIn(w, p + 6, |w| - 1)
  }

  /** `w` is a whole match of the pattern. Such a word is at least ten characters long,
      and its only `>` is its last character. */
  ghost predicate IsAddressToken(w: string)
    ensures IsAddressToken(w) ==> 10 <= |w| && w[0] == '<' && w[|w| - 1] == '>'
    ensures IsAddressToken(w) ==> forall k :: 0 <= k < |w| - 1 ==> w[k] != '>'
  {
    exists p :: TokenShape(w, p)
  }

  /** Any `<` x ` at 0x` y `>` built from the two classes is a match. */
  lemma {:induction false} TokenOf(x: string, y: string)
    requires |x| > 0 && AllInnerChars(x)
    requires |y| > 0 && AllAddressChars(y)
    ensures IsAddressToken("<" + x + " at 0x" + y + ">")
  {
    var w := "<" + x + " at 0x" + y + ">";
    var p := 1 + |x|;
    forall k | 1 <= k < p ensures IsInnerChar(w[k]) {
      assert w[k] == x[k - 1];
    }
    forall k | p + 6 <= k < |w| - 1 ensures IsAddressChar(w[k]) {
      assert w[k] == y[k - p - 6];
    }
    assert TokenShape(w, p);
  }

  // ---------------------------------------------------------------------------
  // The matcher
  // ---------------------------------------------------------------------------

  /** The length of the longest prefix of `s` made of `[\w\s_\. ]` characters. */
  function InnerRun(s: string): (n: nat)
    ensures n <= |s|
  {
    if s == [] || !IsInnerChar(s[0]) then 0 else 1 + InnerRun(s[1..])
  }

  /** `InnerRun` stops at the first character outside `[\w\s_\. ]`. */
  lemma {:induction false} InnerRunIsLongest(s: string)
    ensures InnerCharsIn(s, 0, InnerRun(s))
    ensures InnerRun(s) < |s| ==> !IsInnerChar(s[InnerRun(s)])
  {
    if s != [] && IsInnerChar(s[0]) {
      InnerRunIsLongest(s[1..]);
      forall k | 0 <= k < InnerRun(s) ensures IsInnerChar(s[k]) {
        if k > 0 {
          assert s[k] == s[1..][k - 1];
        }
      }
    }
  }

  /** s[1..j] reads as x ` at 0x` y with x and y non-empty and y made of `[a-z0-9]`;
      `p` ranges over the places the backtracking engine tries for the literal. */
  predicate HasAddressSplit(s: string, j: int)
  {
    exists p | 2 <= p < j - 6 :: MarkerAt(s, p) && AddressCharsIn(s, p + 6, j)
  }

  /**
   * The length of the match of the pattern at the start of `s`, if there is one.
   * `[a-z0-9]` and the characters of ` at 0x` all lie inside `[\w\s_\. ]`, and
   * neither class holds `>`, so a match that starts at `<` can only end at the first
   * character after it that is outside `[\w\s_\. ]`; backtracking decides only where
   * ` at 0x` falls, which does not move the end of the match.
   */
  function MatchAt(s: string): (r: Option<nat>)
    ensures r.Some? ==> 0 < r.value <= |s|
  {
    if |s| == 0 || s[0] != '<' then None
    else
      var j := 1 + InnerRun(s[1..]);
      if j < |s| && s[j] == '>' && HasAddressSplit(s, j) then Some(j + 1) else None
  }

  /** Whatever the matcher reports is a whole match. */
  lemma {:induction false} MatchAtSound(s: string, n: nat)
    requires 0 < n <= |s| && MatchAt(s) == Some(n)
    ensures IsAddressToken(s[..n])
  {
    var w := s[..n];
    var j := n - 1;
    InnerRunIsLongest(s[1..]);
    var p :| 2 <= p < j - 6 && MarkerAt(s, p) && AddressCharsIn(s, p + 6, j);
    forall k | 1 <= k < p ensures IsInnerChar(w[k]) {
      assert w[k] == s[1..][k - 1];
    }
    forall k | p + 6 <= k < |w| - 1 ensures IsAddressChar(w[k]) {
      assert w[k] == s[k];
    }
    assert TokenShape(w, p);
  }

  /** Every whole match at the front of `s` is the one the matcher reports. */
  lemma {:induction false} MatchAtComplete(s: string, n: nat)
    requires 0 < n <= |s| && IsAddressToken(s[..n])
    ensures MatchAt(s) == Some(n)
  {
    var w := s[..n];
    var p :| TokenShape(w, p);
    forall k | 0 <= k < n - 2 ensures IsInnerChar(s[1..][k]) {
      assert s[1..][k] == w[k + 1];
      if k + 1 < p {
        assert InnerCharsIn(w, 1, p);
      } else if k + 1 < p + 6 {
        assert MarkerAt(w, p);
      } else {
        assert IsAddressChar(w[k + 1]);
      }
    }
    assert s[1..][n - 2] == w[n - 1];
    InnerRunExact(s[1..], n - 2);
    assert MarkerAt(s, p) && AddressCharsIn(s, p + 6, n - 1);
    assert HasAddressSplit(s, n - 1);
  }

  /** The matcher reports exactly the prefixes of `s` that are whole matches (so there
      is at most one). */
  lemma {:induction false} MatchAtIff(s: string, n: nat)
    requires 0 < n <= |s|
    ensures MatchAt(s) == Some(n) <==> IsAddressToken(s[..n])
  {
    if MatchAt(s) == Some(n) {
      MatchAtSound(s, n);
    }
    if IsAddressToken(s[..n]) {
      MatchAtComplete(s, n);
    }
  }

  // ---------------------------------------------------------------------------
  // Substitution
  // ---------------------------------------------------------------------------

  /**
   * `re.sub(pattern, "", s)`: at each position, a match starting there is removed and
   * the scan resumes after it; otherwise the character is kept and the scan moves on
   * one character. The pattern never matches the empty string.
   */
  function RemoveUnstableValues(s: string): (r: string)
    ensures |r| <= |s|
    decreases |s|
  {
    if s == [] then []
    else
      match MatchAt(s)
      case Some(n) => RemoveUnstableValues(s[n..])
      case None => [s[0]] + RemoveUnstableValues(s[1..])
  }

  /** A string without `<` has nothing to remove. */
  lemma {:induction false} NoAngleUnchanged(s: string)
    requires '<' !in s
    ensures RemoveUnstableValues(s) == s
  {
    if s != [] {
      assert '<' !in s[1..] by {
        forall c | c in s[1..] ensures c in s { }
      }
      NoAngleUnchanged(s[1..]);
    }
  }

  /** A run of `[\w\s_\. ]` ending at a character outside the class is the whole run. */
  lemma {:induction false} InnerRunExact(t: string, m: nat)
    requires m < |t| && !IsInnerChar(t[m])
    requires forall k :: 0 <= k < m ==> IsInnerChar(t[k])
    ensures InnerRun(t) == m
  {
    if m > 0 {
      InnerRunExact(t[1..], m - 1);
    }
  }

  lemma {:induction false} InnerRunAppend(a: string, b: string)
    requires b == [] || !IsInnerChar(b[0])
    ensures InnerRun(a + b) == InnerRun(a)
  {
    if a == [] {
      assert a + b == b;
    } else {
      assert (a + b)[1..] == a[1..] + b;
      InnerRunAppend(a[1..], b);
    }
  }

  /** Whether s[1..j] splits around ` at 0x` depends only on the first j characters. */
  lemma {:induction false} SplitDependsOnPrefix(s: string, p: string, j: int)
    requires j <= |p| <= |s| && p == s[..|p|]
    ensures HasAddressSplit(s, j) == HasAddressSplit(p, j)
  {
    forall q | 2 <= q < j - 6
      ensures MarkerAt(s, q) == MarkerAt(p, q)
      ensures AddressCharsIn(s, q + 6, j) == AddressCharsIn(p, q + 6, j)
    {
      assert forall k :: 0 <= k < |p| ==> s[k] == p[k];
    }
  }

  /** A match that starts inside `p` cannot run on into a following `<`. */
  lemma {:induction false} MatchAtBeforeAngle(p: string, r: string)
    requires |p| > 0
    requires r == [] || r[0] == '<'
    ensures MatchAt(p + r) == MatchAt(p)
    ensures MatchAt(p).Some? ==> MatchAt(p).value <= |p|
  {
    var s := p + r;
    assert s[0] == p[0];
    if p[0] == '<' {
      assert s[1..] == p[1..] + r;
      InnerRunAppend(p[1..], r);
      var j := 1 + InnerRun(p[1..]);
      assert j == 1 + InnerRun(s[1..]);
      if j < |p| {
        assert s[j] == p[j];
        assert p == s[..|p|];
        SplitDependsOnPrefix(s, p, j);
        assert MatchAt(s) == MatchAt(p);
      } else {
        assert MatchAt(p) == None;
        assert j < |s| ==> s[j] == r[0];
        assert MatchAt(s) == None;
      }
    }
  }

  /** One step of the scan when a match starts at the front. */
  lemma {:induction false} RemoveSkips(s: string, n: nat)
    requires s != [] && MatchAt(s) == Some(n)
    ensures RemoveUnstableValues(s) == RemoveUnstableValues(s[n..])
  {
  }

  /** One step of the scan when no match starts at the front. */
  lemma {:induction false} RemoveKeeps(s: string)
    requires s != [] && MatchAt(s) == None
    ensures RemoveUnstableValues(s) == [s[0]] + RemoveUnstableValues(s[1..])
  {
  }

  /** The step where the scan keeps a character, stated with the language alone: when
      no prefix of `s` is a whole match, its first character is kept. */
  lemma {:induction false} KeepsWhenNoToken(s: string)
    requires s != []
    requires forall n :: 0 < n <= |s| ==> !IsAddressToken(s[..n])
    ensures RemoveUnstableValues(s) == [s[0]] + RemoveUnstableValues(s[1..])
  {
    if MatchAt(s).Some? {
      MatchAtSound(s, MatchAt(s).value);
      assert false;
    }
    RemoveKeeps(s);
  }

  lemma DropOfConcat(p: string, r: string, n: nat)
    requires n <= |p|
    ensures (p + r)[n..] == p[n..] + r
  {
  }

  lemma ConsAssociative(c: char, a: string, b: string)
    ensures [c] + (a + b) == ([c] + a) + b
  {
  }

  /** The text before a `<` is cleaned independently of what follows it. */
  lemma {:induction false} CleanBeforeAngle(p: string, r: string)
    requires r == [] || r[0] == '<'
    ensures RemoveUnstableValues(p + r) == RemoveUnstableValues(p) + RemoveUnstableValues(r)
    decreases |p|
  {
    if p == [] {
      assert p + r == r;
    } else {
      MatchAtBeforeAngle(p, r);
      if MatchAt(p).Some? {
        var n := MatchAt(p).value;
        RemoveSkips(p, n);
        RemoveSkips(p + r, n);
        DropOfConcat(p, r, n);
        CleanBeforeAngle(p[n..], r);
      } else {
        RemoveKeeps(p);
        RemoveKeeps(p + r);
        DropOfConcat(p, r, 1);
        assert (p + r)[0] == p[0];
        CleanBeforeAngle(p[1..], r);
        ConsAssociative(p[0], RemoveUnstableValues(p[1..]), RemoveUnstableValues(r));
      }
    }
  }

  /** A whole match at the front is removed, and the rest is cleaned on its own. */
  lemma {:induction false} DropsToken(t: string, q: string)
    requires IsAddressToken(t)
    ensures RemoveUnstableValues(t + q) == RemoveUnstableValues(q)
  {
    var p :| TokenShape(t, p);
    assert (t + q)[..|t|] == t;
    MatchAtIff(t + q, |t|);
    assert (t + q)[|t|..] == q;
  }

  /** Two configurations that differ only in one address token are cleaned to the same
      string: the token is gone and the text around it is kept. */
  lemma {:induction false} TokensAreInterchangeable(p: string, t1: string, t2: string, q: string)
    requires IsAddressToken(t1) && IsAddressToken(t2)
    ensures RemoveUnstableValues(p + t1 + q) == RemoveUnstableValues(p) + RemoveUnstableValues(q)
    ensures RemoveUnstableValues(p + t1 + q) == RemoveUnstableValues(p + t2 + q)
  {
    var p1 :| TokenShape(t1, p1);
    var p2 :| TokenShape(t2, p2);
    assert p + t1 + q == p + (t1 + q);
    assert p + t2 + q == p + (t2 + q);
    CleanBeforeAngle(p, t1 + q);
    CleanBeforeAngle(p, t2 + q);
    DropsToken(t1, q);
    DropsToken(t2, q);
  }

  /** The two examples of the source's doc comment. */
  const ObjectExample: string := "<__main__.Test object at 0x7fb9f3793f50>"
  const FunctionExample: string := "<function test_fn at 0x7fb9f37a8900>"

  /** `<a<b at 0x1> at 0x2>`, an address token nested inside the text of another. */
  const NestedHead: string := "<a"
  const NestedToken: string := "<b at 0x1>"
  const NestedTail: string := " at 0x2>"

  lemma {:induction false} ObjectExampleInner()
    ensures InnerCharsIn(ObjectExample, 1, 21)
  {
  }

  lemma {:induction false} ObjectExampleIsToken()
    ensures IsAddressToken(ObjectExample)
  {
    var t := ObjectExample;
    ObjectExampleInner();
    assert MarkerAt(t, 21);
    assert AddressCharsIn(t, 27, |t| - 1);
    assert TokenShape(t, 21);
  }

  lemma {:induction false} FunctionExampleIsToken()
    ensures IsAddressToken(FunctionExample)
  {
    var t := FunctionExample;
    assert InnerCharsIn(t, 1, 17);
    assert MarkerAt(t, 17);
    assert AddressCharsIn(t, 23, |t| - 1);
    assert TokenShape(t, 17);
  }

  /** The first example of the source's doc comment is removed entirely. */
  lemma {:induction false} DocExampleObject()
    ensures RemoveUnstableValues(ObjectExample) == ""
  {
    ObjectExampleIsToken();
    DropsToken(ObjectExample, "");
    assert ObjectExample + "" == ObjectExample;
  }

  /** The second example of the source's doc comment is removed entirely. */
  lemma {:induction false} DocExampleFunction()
    ensures RemoveUnstableValues(FunctionExample) == ""
  {
    FunctionExampleIsToken();
    DropsToken(FunctionExample, "");
    assert FunctionExample + "" == FunctionExample;
  }

  /** `<a` has nothing to remove: the attempt at its `<` finds no `>`. */
  lemma {:induction false} NestedHeadKept()
    ensures RemoveUnstableValues(NestedHead) == NestedHead
  {
    var h := NestedHead;
    assert h[1..] == "a";
    assert InnerRun(h[1..]) == 1 by {
      assert InnerRun(h[1..][1..]) == 0;
    }
    assert MatchAt(h) == None;
    RemoveKeeps(h);
    NoAngleUnchanged(h[1..]);
    assert [h[0]] + h[1..] == h;
  }

  /** ` at 0x2>` has no `<`, so nothing to remove. */
  lemma {:induction false} NestedTailKept()
    ensures RemoveUnstableValues(NestedTail) == NestedTail
  {
    assert '<' !in NestedTail;
    NoAngleUnchanged(NestedTail);
  }

  /** `<b at 0x1>` is an address token. */
  lemma {:induction false} NestedTokenIsToken()
    ensures IsAddressToken(NestedToken)
  {
    assert TokenShape(NestedToken, 2);
  }

  /** One pass over `<a<b at 0x1> at 0x2>` removes only the inner token. */
  lemma {:induction false} NestedTokenFirstPass()
    ensures RemoveUnstableValues(NestedHead + NestedToken + NestedTail) == NestedHead + NestedTail
  {
    NestedHeadKept();
    NestedTailKept();
    NestedTokenIsToken();
    TokensAreInterchangeable(NestedHead, NestedToken, NestedToken, NestedTail);
  }

  /** Removing one token can bring the text around it together into a new token, so
      cleaning is not idempotent: `<a<b at 0x1> at 0x2>` is cleaned to `<a at 0x2>`,
      which a second pass removes. */
  lemma {:induction false} CleaningIsNotIdempotent()
    ensures RemoveUnstableValues(NestedHead + NestedToken + NestedTail) == NestedHead + NestedTail
    ensures RemoveUnstableValues(RemoveUnstableValues(NestedHead + NestedToken + NestedTail)) == ""
  {
    NestedTokenFirstPass();
    var once := NestedHead + NestedTail;
    assert TokenShape(once, 2);
    DropsToken(once, "");
    assert once + "" == once;
  }
}
