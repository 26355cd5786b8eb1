/** The email check of the contact form: `validateEmail` and its regular expression
    `^[^\s@]+@[^\s@]+\.[^\s@]+$`, a minimal `local@domain.tld` shape. */
module Email {
  import opened Text
  import opened Wrappers

  /** A character of the class `[^\s@]`. */
  predicate IsAtomChar(c: char) {
    c != '@' && !IsWhitespace(c)
  }

  /** Every character of `s` is in `[^\s@]`. */
  predicate AllAtom(s: string) {
    forall i :: 0 <= i < |s| ==> IsAtomChar(s[i])
  }

  /** What the anchored regular expression accepts: `s` splits as `local@domain.tld`
      with three non-empty runs of `[^\s@]`. The domain may itself contain dots. */
  ghost predicate MatchesEmailPattern(s: string) {
    exists local, domain, tld ::
      && local != [] && domain != [] && tld != []
      && AllAtom(local) && AllAtom(domain) && AllAtom(tld)
      && s == local + "@" + domain + "." + tld
  }

  /** Position of the first `c` in `s`, if any. */
  function IndexOf(s: string, c: char): (r: Option<nat>)
    ensures r.None? <==> c !in s
    ensures r.Some? ==> r.value < |s| && s[r.value] == c && c !in s[..r.value]
  {
    if s == [] then None
    else if s[0] == c then Some(0)
    else
      match IndexOf(s[1..], c)
      case None => None
      case Some(k) =>
        assert s[1..][..k] == s[1..k + 1];
        Some(k + 1)
  }

  /** `validateEmail`: a decision procedure for the pattern. The only `@` must
      have a non-empty local part before it; after it, at least three characters
      with a dot that is neither the first nor the last of them. */
  function ValidateEmail(email: string): bool {
    match IndexOf(email, '@')
    case None => false
    case Some(at) =>
      var rest := email[at + 1..];
      && 0 < at && AllAtom(email[..at]) && AllAtom(rest)
      && |rest| >= 3 && '.' in rest[1..|rest| - 1]
  }

  /** `validateEmail` accepts exactly the strings the regular expression matches. */
  lemma ValidateEmailMatchesPattern(email: string)
    ensures ValidateEmail(email) <==> MatchesEmailPattern(email)
  {
    if ValidateEmail(email) {
      ValidateEmailSound(email);
    }
    if MatchesEmailPattern(email) {
      var local, domain, tld :|
        && local != [] && domain != [] && tld != []
        && AllAtom(local) && AllAtom(domain) && AllAtom(tld)
        && email == local + "@" + domain + "." + tld;
      ValidateEmailComplete(local, domain, tld);
    }
  }

  /** Every accepted string has the `local@domain.tld` shape. */
  lemma ValidateEmailSound(email: string)
    requires ValidateEmail(email)
    ensures MatchesEmailPattern(email)
  {
    var at := IndexOf(email, '@').value;
    var rest := email[at + 1..];
    assert 0 < at && AllAtom(email[..at]) && AllAtom(rest) && |rest| >= 3;
    assert '.' in rest[1..|rest| - 1];
    var k :| 0 <= k < |rest| - 2 && rest[1..|rest| - 1][k] == '.';
    PatternFromSeparators(email[..at], rest, k + 1);
    SplitAround(email, at);
  }

  /** An atom run, `@`, and a run with an inner dot form the pattern. */
  lemma PatternFromSeparators(local: string, rest: string, dot: int)
    requires local != [] && AllAtom(local) && AllAtom(rest)
    requires 1 <= dot < |rest| - 1 && rest[dot] == '.'
    ensures MatchesEmailPattern(local + "@" + rest)
  {
    var domain, tld := rest[..dot], rest[dot + 1..];
    SplitAround(rest, dot);
    AtomSlice(rest, 0, dot);
    AtomSlice(rest, dot + 1, |rest|);
    assert local + "@" + rest == local + "@" + domain + "." + tld;
    PatternIntro(local, domain, tld);
  }

  lemma PatternIntro(local: string, domain: string, tld: string)
    requires local != [] && domain != [] && tld != []
    requires AllAtom(local) && AllAtom(domain) && AllAtom(tld)
    ensures MatchesEmailPattern(local + "@" + domain + "." + tld)
  {
  }

  /** Every string of the `local@domain.tld` shape is accepted. */
  lemma ValidateEmailComplete(local: string, domain: string, tld: string)
    requires local != [] && domain != [] && tld != []
    requires AllAtom(local) && AllAtom(domain) && AllAtom(tld)
    ensures ValidateEmail(local + "@" + domain + "." + tld)
  {
    var rest := domain + "." + tld;
    DomainAndTldAreAtoms(domain, tld);
    assert rest[|domain|] == '.';
    AcceptsSeparated(local, rest, |domain|);
    assert local + "@" + rest == local + "@" + domain + "." + tld;
  }

  /** The validator accepts an atom run, `@`, and a run with an inner dot. */
  lemma AcceptsSeparated(local: string, rest: string, dot: int)
    requires local != [] && AllAtom(local) && AllAtom(rest)
    requires 1 <= dot < |rest| - 1 && rest[dot] == '.'
    ensures ValidateEmail(local + "@" + rest)
  {
    var email := local + "@" + rest;
    FirstAtIsAfterLocal(local, rest);
    SlicesAroundSeparator(local, '@', rest);
    assert rest[1..|rest| - 1][dot - 1] == '.';
  }

  lemma SplitAround(s: string, k: int)
    requires 0 <= k < |s|
    ensures s == s[..k] + [s[k]] + s[k + 1..]
  {
  }

  lemma SlicesAroundSeparator(x: string, c: char, y: string)
    ensures (x + [c] + y)[..|x|] == x && (x + [c] + y)[|x| + 1..] == y
  {
  }

  lemma AtomSlice(s: string, i: int, j: int)
    requires AllAtom(s) && 0 <= i <= j <= |s|
    ensures AllAtom(s[i..j])
  {
  }

  /** In `local + "@" + rest` with no `@` in `local`, the first `@` ends `local`. */
  lemma FirstAtIsAfterLocal(local: string, rest: string)
    requires AllAtom(local)
    ensures IndexOf(local + "@" + rest, '@') == Some(|local|)
  {
    var email := local + "@" + rest;
    var at := |local|;
    assert email[at] == '@';
  }

  /** In a matching string, the `@` between local part and domain is the only
      `@`, and no character is whitespace. */
  lemma PatternCharacters(email: string, k: int)
    requires MatchesEmailPattern(email) && 0 <= k < |email|
    ensures !IsWhitespace(email[k])
    ensures email[k] == '@' ==> IndexOf(email, '@') == Some(k)
  {
    var local, domain, tld :|
      && local != [] && domain != [] && tld != []
      && AllAtom(local) && AllAtom(domain) && AllAtom(tld)
      && email == local + "@" + domain + "." + tld;
    SplitCharacters(local, domain, tld, k);
  }

  lemma SplitCharacters(local: string, domain: string, tld: string, k: int)
    requires AllAtom(local) && AllAtom(domain) && AllAtom(tld)
    requires 0 <= k < |local + "@" + domain + "." + tld|
    ensures var email := local + "@" + domain + "." + tld;
      && !IsWhitespace(email[k])
      && (email[k] == '@' ==> IndexOf(email, '@') == Some(k))
  {
    var rest := domain + "." + tld;
    DomainAndTldAreAtoms(domain, tld);
    var email := local + "@" + rest;
    assert email == local + "@" + domain + "." + tld;
    FirstAtIsAfterLocal(local, rest);
    if k < |local| {
      assert email[k] == local[k];
    } else if k > |local| {
      assert email[k] == rest[k - |local| - 1];
    }
  }

  lemma DomainAndTldAreAtoms(domain: string, tld: string)
    requires AllAtom(domain) && AllAtom(tld)
    ensures AllAtom(domain + "." + tld)
  {
    var rest := domain + "." + tld;
    forall k | 0 <= k < |rest| ensures IsAtomChar(rest[k]) {
      if k < |domain| {
        assert rest[k] == domain[k];
      } else if k > |domain| {
        assert rest[k] == tld[k - |domain| - 1];
      }
    }
  }

  /** A string without `@` is rejected. */
  lemma RejectsMissingAt(email: string)
    requires '@' !in email
    ensures !MatchesEmailPattern(email)
  {
    ValidateEmailMatchesPattern(email);
  }

  /** A string with two or more `@` is rejected. */
  lemma RejectsSecondAt(email: string, i: int, j: int)
    requires 0 <= i < j < |email| && email[i] == '@' && email[j] == '@'
    ensures !MatchesEmailPattern(email)
  {
    if MatchesEmailPattern(email) {
      PatternCharacters(email, i);
      PatternCharacters(email, j);
    }
  }

  /** A string with whitespace anywhere in it is rejected. */
  lemma RejectsWhitespace(email: string, k: int)
    requires 0 <= k < |email| && IsWhitespace(email[k])
    ensures !MatchesEmailPattern(email)
  {
    if MatchesEmailPattern(email) {
      PatternCharacters(email, k);
    }
  }

  /** A string with no `.` after its `@` is rejected. */
  lemma RejectsNoDotAfterAt(email: string, at: int)
    requires 0 <= at < |email| && email[at] == '@' && '.' !in email[at + 1..]
    ensures !MatchesEmailPattern(email)
  {
    if MatchesEmailPattern(email) {
      PatternCharacters(email, at);
      ValidateEmailMatchesPattern(email);
    }
  }

  /** The shortest everyday address is accepted. */
  lemma AcceptsShortAddress()
    ensures ValidateEmail("a@b.co") && MatchesEmailPattern("a@b.co")
  {
    assert "a@b.co" == "a" + "@" + "b" + "." + "co";
    ValidateEmailComplete("a", "b", "co");
    ValidateEmailMatchesPattern("a@b.co");
  }

  /** A matching string contains no whitespace at all. */
  lemma PatternHasNoWhitespace(email: string)
    requires MatchesEmailPattern(email)
    ensures NoWhitespace(email)
  {
    forall k | 0 <= k < |email| ensures !IsWhitespace(email[k]) {
      PatternCharacters(email, k);
    }
  }
}
