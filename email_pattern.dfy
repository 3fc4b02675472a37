/** The address pattern of the User schema's `email` field
    (lib/models/User.ts), `^\w+([.-]?\w+)*@\w+([.-]?\w+)*(\.\w{2,3})+$`,
    written as predicates over strings. */
module EmailPattern {
  import opened Common

  predicate IsSeparator(c: char) { c == '.' || c == '-' }

  /** `\w+([.-]?\w+)*`: word characters with single '.' or '-' separators,
      starting and ending with a word character. */
  predicate SepWord(s: string) {
    && |s| > 0
    && IsWordChar(s[0])
    && IsWordChar(s[|s| - 1])
    && (forall i :: 0 <= i < |s| ==> IsWordChar(s[i]) || IsSeparator(s[i]))
    && (forall i :: 0 <= i < |s| - 1 ==> !(IsSeparator(s[i]) && IsSeparator(s[i + 1])))
  }

  predicate AllWord(s: string) { forall i :: 0 <= i < |s| ==> IsWordChar(s[i]) }

  /** `(\.\w{2,3})+`: one or more labels of two or three word characters, each after a dot. */
  predicate TldChain(s: string)
    decreases |s|
  {
    && |s| >= 3
    && s[0] == '.'
    && ( (AllWord(s[1..3]) && (|s| == 3 || TldChain(s[3..])))
      || (|s| >= 4 && AllWord(s[1..4]) && (|s| == 4 || TldChain(s[4..]))))
  }

  /** The domain: `\w+([.-]?\w+)*` followed by the label chain. */
  predicate DomainMatches(d: string) {
    exists k :: 0 < k < |d| && SepWord(d[..k]) && TldChain(d[k..])
  }

  /** The whole pattern, anchored at both ends. */
  predicate Matches(email: string) {
    exists i :: 0 <= i < |email| && email[i] == '@' && SepWord(email[..i]) && DomainMatches(email[i + 1..])
  }

  function Count(s: string, c: char): nat {
    if s == [] then 0 else (if s[0] == c then 1 else 0) + Count(s[1..], c)
  }

  lemma {:induction false} CountAppend(a: string, b: string, c: char)
    ensures Count(a + b, c) == Count(a, c) + Count(b, c)
  {
    if a == [] {
      assert a + b == b;
    } else {
      assert (a + b)[0] == a[0];
      assert (a + b)[1..] == a[1..] + b;
      CountAppend(a[1..], b, c);
    }
  }

  lemma {:induction false} CountAbsent(s: string, c: char)
    requires forall i :: 0 <= i < |s| ==> s[i] != c
    ensures Count(s, c) == 0
  {
    if s != [] {
      CountAbsent(s[1..], c);
    }
  }

  lemma {:induction false} TldChainAlphabet(s: string)
    requires TldChain(s)
    ensures forall i :: 0 <= i < |s| ==> s[i] == '.' || IsWordChar(s[i])
    decreases |s|
  {
    var n := if AllWord(s[1..3]) && (|s| == 3 || TldChain(s[3..])) then 3 else 4;
    assert forall i :: 1 <= i < n ==> IsWordChar(s[i]) by {
      forall i | 1 <= i < n ensures IsWordChar(s[i]) {
        assert s[1..n][i - 1] == s[i];
      }
    }
    if |s| > n {
      TldChainAlphabet(s[n..]);
      forall i | n <= i < |s| ensures s[i] == '.' || IsWordChar(s[i]) {
        assert s[n..][i - n] == s[i];
      }
    }
  }

  /** Every character of a matching domain is a word character, '.' or '-'. */
  lemma DomainAlphabet(domain: string)
    requires DomainMatches(domain)
    ensures |domain| > 0
    ensures forall j :: 0 <= j < |domain| ==> IsSeparator(domain[j]) || IsWordChar(domain[j])
  {
    var k :| 0 < k < |domain| && SepWord(domain[..k]) && TldChain(domain[k..]);
    TldChainAlphabet(domain[k..]);
    forall j | 0 <= j < |domain| ensures IsSeparator(domain[j]) || IsWordChar(domain[j]) {
      if j < k { assert domain[..k][j] == domain[j]; } else { assert domain[k..][j - k] == domain[j]; }
    }
  }

  /** A string over the address alphabet holds no '@' and no whitespace. */
  lemma {:induction false} AlphabetExcludes(s: string)
    requires forall j :: 0 <= j < |s| ==> IsSeparator(s[j]) || IsWordChar(s[j])
    ensures Count(s, '@') == 0
    ensures forall j :: 0 <= j < |s| ==> !IsSpace(s[j])
  {
    CountAbsent(s, '@');
  }

  /** A matching address splits at its '@' into a local part and a domain over the address alphabet. */
  lemma MatchSplit(email: string) returns (i: nat)
    requires Matches(email)
    ensures i < |email| && email == email[..i] + "@" + email[i + 1..]
    ensures i > 0 && i + 1 < |email|
    ensures forall j :: 0 <= j < i ==> IsSeparator(email[j]) || IsWordChar(email[j])
    ensures forall j :: i < j < |email| ==> IsSeparator(email[j]) || IsWordChar(email[j])
  {
    i :| 0 <= i < |email| && email[i] == '@' && SepWord(email[..i]) && DomainMatches(email[i + 1..]);
    var local, domain := email[..i], email[i + 1..];
    DomainAlphabet(domain);
    forall j | 0 <= j < i ensures IsSeparator(email[j]) || IsWordChar(email[j]) {
      assert email[j] == local[j];
    }
    forall j | i < j < |email| ensures IsSeparator(email[j]) || IsWordChar(email[j]) {
      assert email[j] == domain[j - i - 1];
    }
  }

  /** An address the pattern accepts has exactly one '@'. */
  lemma MatchHasSingleAt(email: string)
    requires Matches(email)
    ensures Count(email, '@') == 1
  {
    var i := MatchSplit(email);
    var local, domain := email[..i], email[i + 1..];
    AlphabetExcludes(local);
    AlphabetExcludes(domain);
    CountAppend(local + "@", domain, '@');
    CountAppend(local, "@", '@');
  }

  /** An address the pattern accepts holds no whitespace, so trimming never changes it. */
  lemma MatchHasNoWhitespace(email: string)
    requires Matches(email)
    ensures forall j :: 0 <= j < |email| ==> !IsSpace(email[j])
    ensures Trim(email) == email
  {
    var i := MatchSplit(email);
  }

  lemma AcceptsTypicalAddress()
    ensures Matches("a@x.com")
  {
    var e := "a@x.com";
    var d := e[2..];
    assert d == "x.com";
    assert d[..1] == "x" && SepWord(d[..1]);
    assert d[1..] == ".com";
    assert ".com"[1..4] == "com" && AllWord(".com"[1..4]);
    assert TldChain(d[1..]);
    assert DomainMatches(d);
    assert e[..1] == "a" && SepWord(e[..1]);
  }

  lemma RejectsMissingTopLevelLabel()
    ensures !Matches("a@x")
  {
    var e := "a@x";
    forall i | 0 <= i < |e| && e[i] == '@' ensures !DomainMatches(e[i + 1..]) {
      assert i == 1;
      assert |e[i + 1..]| == 1;
    }
  }
}
