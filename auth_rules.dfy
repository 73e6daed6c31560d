/**
 * The pure rules of the sign-in page `src/pages/Auth.tsx`: the username
 * proposed from an e-mail address, the guard that decides when that proposal
 * may replace the username field, the phone-number pattern and the three
 * validators with the messages they put in the error map.
 */
module AuthRules {
  import opened Text

  datatype AuthView = Login | Signup | ForgotPassword | ResetPassword

  // ---------------------------------------------------------------------
  // Username proposal (`generateUsernameFromEmail`)
  // ---------------------------------------------------------------------

  /** `email.split('@')[0]`: the text before the first `@`, or all of it. */
  function LocalPart(email: string): (r: string)
    ensures '@' !in r
    ensures |r| <= |email| && r == email[..|r|]
    ensures |r| < |email| ==> email[|r|] == '@'
  {
    if email == [] || email[0] == '@' then [] else [email[0]] + LocalPart(email[1..])
  }

  /** `replace(/[^a-zA-Z0-9]/g, '_')`. */
  function Sanitize(s: string): (r: string)
    ensures |r| == |s| && AllWordChars(r)
    ensures forall i :: 0 <= i < |s| ==> (IsAlnum(s[i]) ==> r[i] == s[i]) && (!IsAlnum(s[i]) ==> r[i] == '_')
  {
    seq(|s|, i requires 0 <= i < |s| => if IsAlnum(s[i]) then s[i] else '_')
  }

  /** No two `_` stand side by side. */
  predicate NoDoubleUnderscore(s: string)
  {
    forall i :: 0 <= i < |s| - 1 ==> s[i] != '_' || s[i + 1] != '_'
  }

  /** `replace(/_+/g, '_')`: every run of `_` becomes one `_`. */
  function Collapse(s: string): (r: string)
    ensures |r| <= |s|
    ensures s != [] ==> r != [] && r[0] == s[0]
    ensures NoDoubleUnderscore(r)
  {
    if |s| <= 1 then s
    else if s[0] == '_' && s[1] == '_' then Collapse(s[1..])
    else [s[0]] + Collapse(s[1..])
  }

  /**
   * `replace(/^_|_$/g, '')`: a leading `_` is dropped, then a trailing `_`
   * of what remains; nothing else changes.
   */
  function TrimUnderscore(s: string): (r: string)
    ensures var i := if s != [] && s[0] == '_' then 1 else 0;
            && i + |r| <= |s| <= i + |r| + 1
            && r == s[i..i + |r|]
            && (|s| == i + |r| + 1 <==> i < |s| && s[|s| - 1] == '_')
  {
    var a := if s != [] && s[0] == '_' then s[1..] else s;
    if a != [] && a[|a| - 1] == '_' then a[..|a| - 1] else a
  }

  /** The three replacements in order. */
  function Slug(local: string): string
  {
    TrimUnderscore(Collapse(Sanitize(local)))
  }

  /**
   * `${baseUsername}${randomSuffix}`, or `''` for an empty address or one
   * without `@`; the random suffix `Math.floor(Math.random() * 1000)` is the
   * parameter `suffix`.
   */
  function GenerateUsername(email: string, suffix: nat): (r: string)
    requires suffix < 1000
    ensures r == "" <==> '@' !in email
  {
    if email == "" || '@' !in email then "" else Slug(LocalPart(email)) + Decimal(suffix)
  }

  /** The characters of `s` other than `_`, in order. */
  function Strip(s: string): (r: string)
    ensures '_' !in r
  {
    if s == [] then [] else (if s[0] == '_' then [] else [s[0]]) + Strip(s[1..])
  }

  /** The letters and digits of `s`, in order. */
  function Alnums(s: string): (r: string)
  {
    if s == [] then [] else (if IsAlnum(s[0]) then [s[0]] else []) + Alnums(s[1..])
  }

  lemma {:induction false} StripAppend(a: string, b: string)
    ensures Strip(a + b) == Strip(a) + Strip(b)
    decreases |a|
  {
    if a != [] {
      var x := if a[0] == '_' then [] else [a[0]];
      assert (a + b)[0] == a[0];
      assert (a + b)[1..] == a[1..] + b;
      StripAppend(a[1..], b);
      calc {
        Strip(a + b);
        x + Strip(a[1..] + b);
        x + (Strip(a[1..]) + Strip(b));
        (x + Strip(a[1..])) + Strip(b);
      }
    } else {
      assert a + b == b;
    }
  }

  lemma {:induction false} SanitizeKeepsAlnums(s: string)
    ensures Strip(Sanitize(s)) == Alnums(s)
    decreases |s|
  {
    if s != [] {
      assert Sanitize(s) == [Sanitize(s)[0]] + Sanitize(s[1..]);
      SanitizeKeepsAlnums(s[1..]);
    }
  }

  lemma {:induction false} CollapseKeepsOthers(s: string)
    ensures Strip(Collapse(s)) == Strip(s)
    decreases |s|
  {
    if |s| > 1 {
      CollapseKeepsOthers(s[1..]);
      if !(s[0] == '_' && s[1] == '_') {
        StripAppend([s[0]], Collapse(s[1..]));
      }
    }
  }

  /** Dropping an `_` at either end leaves the other characters as they were. */
  lemma StripUnderscoreEnds(a: string)
    ensures Strip(['_'] + a) == Strip(a)
    ensures Strip(a + ['_']) == Strip(a)
  {
    StripAppend(['_'], a);
    StripAppend(a, ['_']);
    assert Strip(['_']) == [] + Strip([]);
  }

  lemma TrimKeepsOthers(s: string)
    ensures Strip(TrimUnderscore(s)) == Strip(s)
  {
    var a := if s != [] && s[0] == '_' then s[1..] else s;
    if s != [] && s[0] == '_' {
      assert s == ['_'] + a;
      StripUnderscoreEnds(a);
    }
    if a != [] && a[|a| - 1] == '_' {
      assert a == a[..|a| - 1] + ['_'];
      StripUnderscoreEnds(a[..|a| - 1]);
    }
  }

  /** The slug keeps exactly the letters and digits of the local part, in order; all else is `_`. */
  lemma SlugKeepsAlnums(local: string)
    ensures Strip(Slug(local)) == Alnums(local)
  {
    SanitizeKeepsAlnums(local);
    CollapseKeepsOthers(Sanitize(local));
    TrimKeepsOthers(Collapse(Sanitize(local)));
  }

  lemma {:induction false} CollapseWordChars(s: string)
    requires AllWordChars(s)
    ensures AllWordChars(Collapse(s))
    decreases |s|
  {
    if |s| > 1 {
      CollapseWordChars(s[1..]);
    }
  }

  /**
   * The slug holds only `[A-Za-z0-9_]`, never two `_` in a row, and neither
   * starts nor ends with `_`.
   */
  lemma SlugShape(local: string)
    ensures AllWordChars(Slug(local)) && NoDoubleUnderscore(Slug(local))
    ensures Slug(local) != [] ==> Slug(local)[0] != '_' && Slug(local)[|Slug(local)| - 1] != '_'
  {
    var c := Collapse(Sanitize(local));
    CollapseWordChars(Sanitize(local));
    var a := if c != [] && c[0] == '_' then c[1..] else c;
    assert AllWordChars(a) && NoDoubleUnderscore(a);
    assert a != [] ==> a[0] != '_' by {
      if c != [] && c[0] == '_' && a != [] {
        assert a[0] == c[1];
      }
    }
    var r := if a != [] && a[|a| - 1] == '_' then a[..|a| - 1] else a;
    assert r == Slug(local);
    if r != [] && a[|a| - 1] == '_' {
      assert r[|r| - 1] == a[|a| - 2];
    }
  }

  /** The slug is empty exactly when the local part has no letter or digit. */
  lemma SlugEmptyIff(local: string)
    ensures Slug(local) == [] <==> Alnums(local) == []
  {
    SlugKeepsAlnums(local);
    SlugShape(local);
  }

  lemma WordCharsAppend(a: string, b: string)
    requires AllWordChars(a) && AllWordChars(b)
    ensures AllWordChars(a + b)
  {
    forall i | 0 <= i < |a + b|
      ensures IsWordChar((a + b)[i])
    {
      if i < |a| { assert (a + b)[i] == a[i]; } else { assert (a + b)[i] == b[i - |a|]; }
    }
  }

  /**
   * A proposal is the slug of the local part followed by one to three
   * digits that read back to the suffix.
   */
  lemma GeneratedParts(email: string, suffix: nat)
    requires suffix < 1000 && '@' in email
    ensures var r := GenerateUsername(email, suffix);
            var d := |Decimal(suffix)|;
            && 1 <= d <= 3 && d <= |r|
            && r[..|r| - d] == Slug(LocalPart(email))
            && AllDigits(r[|r| - d..]) && DigitsValue(r[|r| - d..]) == suffix
            && AllWordChars(r)
  {
    var s := Slug(LocalPart(email));
    var t := Decimal(suffix);
    var r := s + t;
    assert GenerateUsername(email, suffix) == r;
    DecimalBelowThousand(suffix);
    DecimalRoundTrip(suffix);
    SlugShape(LocalPart(email));
    assert r[..|s|] == s && r[|s|..] == t;
    assert AllWordChars(t) by {
      forall i | 0 <= i < |t| ensures IsWordChar(t[i]) { assert IsDigit(t[i]); }
    }
    WordCharsAppend(s, t);
  }

  /** A name of letters and digits is its own slug. */
  lemma AlnumSlug(s: string)
    requires forall i :: 0 <= i < |s| ==> IsAlnum(s[i])
    ensures Sanitize(s) == s && Collapse(s) == s && Slug(s) == s
  {
    SanitizeIdentity(s);
    assert NoDoubleUnderscore(s) by {
      forall i | 0 <= i < |s| - 1 ensures s[i] != '_' { assert IsAlnum(s[i]); }
    }
    CollapseIdentity(s);
    if s != [] {
      assert IsAlnum(s[0]) && IsAlnum(s[|s| - 1]);
    }
  }

  lemma SanitizeIdentity(s: string)
    requires forall i :: 0 <= i < |s| ==> IsAlnum(s[i])
    ensures Sanitize(s) == s
  {
  }

  /**
   * Dropping one `_` of a pair does not change the result: with
   * `CollapseIdentity` this pins `Collapse` down, as every run of `_`
   * ends as exactly one `_`.
   */
  lemma {:induction false} CollapseDrop(s: string, i: int)
    requires 0 <= i < |s| - 1 && s[i] == '_' && s[i + 1] == '_'
    ensures Collapse(s) == Collapse(s[..i] + s[i + 1..])
    decreases |s|
  {
    var t := s[..i] + s[i + 1..];
    if i == 0 {
      assert t == s[1..];
    } else {
      assert t[0] == s[0] && t[1..] == s[1..][..i - 1] + s[1..][i..];
      CollapseDrop(s[1..], i - 1);
      if |t| > 1 {
        assert t[1] == s[1] || i == 1;
        if i == 1 {
          assert t[1] == '_' && s[1] == '_';
        }
      }
    }
  }

  /** A run of `_` between two other characters becomes exactly one `_`. */
  lemma RunExample()
    ensures Collapse("a__b") == "a_b"
  {
    CollapseDrop("a__b", 1);
    assert "a__b"[..1] + "a__b"[2..] == "a_b";
    CollapseIdentity("a_b");
  }

  /** Collapsing changes nothing where no two `_` stand side by side. */
  lemma {:induction false} CollapseIdentity(s: string)
    requires NoDoubleUnderscore(s)
    ensures Collapse(s) == s
    decreases |s|
  {
    if |s| > 1 {
      assert NoDoubleUnderscore(s[1..]) by {
        forall i | 0 <= i < |s| - 2 ensures s[1..][i] != '_' || s[1..][i + 1] != '_' {
          assert s[1..][i] == s[i + 1] && s[1..][i + 1] == s[i + 2];
        }
      }
      CollapseIdentity(s[1..]);
    }
  }

  /** A literal fact, kept apart so that `AliceExample` need not unfold `Decimal`. */
  lemma FortyTwo()
    ensures Decimal(42) == "42"
  {
    assert Decimal(4) == "4";
  }

  /** A literal fact, kept apart so that `AliceExample` need not unfold `Slug`. */
  lemma AliceSlug()
    ensures Slug("alice") == "alice"
  {
    AlnumSlug("alice");
  }

  /** `alice@example.com` with suffix 42 gives `alice42`. */
  lemma AliceExample(email: string)
    requires email == "alice" + "@" + "example.com"
    ensures GenerateUsername(email, 42) == "alice42"
  {
    LocalPartBefore("alice", "example.com");
    assert email[5] == '@';
    AliceSlug();
    FortyTwo();
    assert "alice" + "42" == "alice42";
  }

  /** The local part is whatever comes before the first `@`. */
  lemma {:induction false} LocalPartBefore(a: string, b: string)
    requires '@' !in a
    ensures LocalPart(a + "@" + b) == a
    decreases |a|
  {
    if a != [] {
      assert (a + "@" + b)[1..] == a[1..] + "@" + b;
      LocalPartBefore(a[1..], b);
    }
  }

  /** `john.doe` becomes `john_doe`: the dot turns into `_`. */
  lemma DotExample()
    ensures Slug("john.doe") == "john_doe"
  {
    assert Sanitize("john.doe") == "john_doe";
    CollapseIdentity("john_doe");
  }

  // ---------------------------------------------------------------------
  // When the proposal may replace the username
  // ---------------------------------------------------------------------

  /**
   * `^[a-zA-Z0-9_]+\d{1,3}$`, as the pattern is written: a non-empty run
   * of word characters followed by one to three digits.
   */
  predicate MatchesAutoPattern(u: string)
  {
    exists k :: 1 <= k < |u| && |u| - k <= 3 && AllWordChars(u[..k]) && AllDigits(u[k..])
  }

  /** The pattern holds exactly for word-character names of two or more characters ending in a digit. */
  lemma AutoPatternIff(u: string)
    ensures MatchesAutoPattern(u) <==> 2 <= |u| && AllWordChars(u) && IsDigit(u[|u| - 1])
  {
    if MatchesAutoPattern(u) {
      var k :| 1 <= k < |u| && |u| - k <= 3 && AllWordChars(u[..k]) && AllDigits(u[k..]);
      forall i | 0 <= i < |u|
        ensures IsWordChar(u[i])
      {
        if i < k { assert u[i] == u[..k][i]; } else { assert u[i] == u[k..][i - k]; }
      }
      assert u[|u| - 1] == u[k..][|u| - 1 - k];
    }
    if 2 <= |u| && AllWordChars(u) && IsDigit(u[|u| - 1]) {
      var k := |u| - 1;
      assert AllWordChars(u[..k]) && AllDigits(u[k..]);
    }
  }

  /**
   * The username an edit of the e-mail field leaves: the proposal replaces
   * it only on the sign-up view, when it is empty or matches the pattern,
   * and when the proposal is not empty.
   */
  function AutoFilledUsername(view: AuthView, username: string, newEmail: string, suffix: nat): (r: string)
    requires suffix < 1000
    ensures r != username ==> view == Signup && r == GenerateUsername(newEmail, suffix)
    ensures r != username ==> username == "" || MatchesAutoPattern(username)
    ensures r != username ==> r != "" && '@' in newEmail
    ensures view == Signup && (username == "" || MatchesAutoPattern(username)) && GenerateUsername(newEmail, suffix) != ""
            ==> r == GenerateUsername(newEmail, suffix)
  {
    if view == Signup && (username == "" || MatchesAutoPattern(username)) && GenerateUsername(newEmail, suffix) != ""
    then GenerateUsername(newEmail, suffix)
    else username
  }

  /** A typed name that does not end in a digit, such as `alice`, is never replaced. */
  lemma HandTypedKept(view: AuthView, username: string, newEmail: string, suffix: nat)
    requires suffix < 1000
    requires username != "" && !IsDigit(username[|username| - 1])
    ensures AutoFilledUsername(view, username, newEmail, suffix) == username
  {
    AutoPatternIff(username);
  }

  lemma AliceKept(view: AuthView, newEmail: string, suffix: nat)
    requires suffix < 1000
    ensures AutoFilledUsername(view, "alice", newEmail, suffix) == "alice"
  {
    HandTypedKept(view, "alice", newEmail, suffix);
  }

  /**
   * A proposal with a non-empty slug matches the pattern itself, so later
   * edits of the address keep replacing it.
   */
  lemma ProposalStaysReplaceable(email: string, suffix: nat)
    requires suffix < 1000 && '@' in email && Slug(LocalPart(email)) != []
    ensures MatchesAutoPattern(GenerateUsername(email, suffix))
  {
    var r := GenerateUsername(email, suffix);
    GeneratedParts(email, suffix);
    var d := |Decimal(suffix)|;
    assert r[|r| - 1] == r[|r| - d..][d - 1];
    AutoPatternIff(r);
  }

  /**
   * With no letter or digit before the `@` the proposal is the suffix alone;
   * a one-digit proposal such as `5` does not match the pattern, so the
   * following edits of the address leave it in place.
   */
  lemma BareSuffixExample()
    ensures GenerateUsername("@x", 5) == "5"
    ensures !MatchesAutoPattern("5")
    ensures AutoFilledUsername(Signup, "5", "bob@x", 7) == "5"
  {
    assert "@x" == [] + "@" + "x";
    LocalPartBefore([], "x");
    assert Sanitize([]) == [] && Collapse([]) == [];
    assert Decimal(5) == "5";
    AutoPatternIff("5");
  }

  // ---------------------------------------------------------------------
  // Phone number pattern and the validators
  // ---------------------------------------------------------------------

  /** `[1-9]\d{1,14}`: a digit other than `0`, then one to fourteen digits. */
  predicate PhoneDigits(b: string)
  {
    2 <= |b| <= 15 && '1' <= b[0] <= '9' && AllDigits(b[1..])
  }

  /** `^\+?[1-9]\d{1,14}$`, the optional `+` tried first. */
  predicate PhonePattern(p: string)
  {
    (p != [] && p[0] == '+' && PhoneDigits(p[1..])) || PhoneDigits(p)
  }

  /** The same language said directly: after an optional `+`, 2 to 15 digits not starting with `0`. */
  predicate PhoneValid(p: string)
  {
    var d := if p != [] && p[0] == '+' then p[1..] else p;
    2 <= |d| <= 15 && AllDigits(d) && d[0] != '0'
  }

  lemma PhonePatternIff(p: string)
    ensures PhonePattern(p) <==> PhoneValid(p)
  {
    var d := if p != [] && p[0] == '+' then p[1..] else p;
    if PhoneDigits(d) {
      forall i | 0 <= i < |d|
        ensures IsDigit(d[i])
      {
        if i > 0 { assert d[i] == d[1..][i - 1]; }
      }
    }
    if 2 <= |d| && AllDigits(d) {
      assert AllDigits(d[1..]);
    }
  }

  lemma PhoneExamples()
    ensures PhonePattern("+1234567890") && PhonePattern("12")
    ensures !PhonePattern("+0123") && !PhonePattern("1") && !PhonePattern("")
  {
    assert PhoneDigits("1234567890") by {
      assert "+1234567890"[1..] == "1234567890";
      assert AllDigits("234567890");
    }
    assert "+1234567890"[1..] == "1234567890";
    assert PhoneDigits("12") by { assert "12"[1..] == "2"; }
    assert !PhoneDigits("0123") && !PhoneDigits("+0123");
    assert "+0123"[1..] == "0123";
  }

  const InvalidEmail := "Invalid email address"
  const PasswordTooShort := "Password must be at least 6 characters"
  const InvalidPhone := "Invalid phone number (use international format: +1234567890)"
  const PasswordsDiffer := "Passwords do not match"

  /**
   * The error map `validateEmail` builds; `emailOk` is the verdict of the
   * schema library's address check, which this model does not describe.
   * The password rule is skipped on the forgot-password view.
   */
  function EmailErrors(view: AuthView, emailOk: bool, password: string): (r: map<string, string>)
    ensures "email" in r <==> !emailOk
    ensures "password" in r <==> view != ForgotPassword && |password| < 6
    ensures r.Keys <= {"email", "password"}
    ensures "email" in r ==> r["email"] == InvalidEmail
    ensures "password" in r ==> r["password"] == PasswordTooShort
  {
    var m := if emailOk then map[] else map["email" := InvalidEmail];
    if view != ForgotPassword && |password| < 6 then m["password" := PasswordTooShort] else m
  }

  /** `validatePhone`'s error map. */
  function PhoneErrors(phone: string): (r: map<string, string>)
    ensures "phone" in r <==> !PhoneValid(phone)
    ensures r.Keys <= {"phone"}
    ensures "phone" in r ==> r["phone"] == InvalidPhone
  {
    PhonePatternIff(phone);
    if PhonePattern(phone) then map[] else map["phone" := InvalidPhone]
  }

  /** `validateResetPassword`'s error map: both rules are checked, each with its own key. */
  function ResetErrors(password: string, confirmPassword: string): (r: map<string, string>)
    ensures "password" in r <==> |password| < 6
    ensures "confirmPassword" in r <==> password != confirmPassword
    ensures r.Keys <= {"password", "confirmPassword"}
    ensures "password" in r ==> r["password"] == PasswordTooShort
    ensures "confirmPassword" in r ==> r["confirmPassword"] == PasswordsDiffer
  {
    var m := if |password| < 6 then map["password" := PasswordTooShort] else map[];
    if password != confirmPassword then m["confirmPassword" := PasswordsDiffer] else m
  }

  /** A validator passes when its map has no key. */
  predicate Passes(errors: map<string, string>)
  {
    |errors.Keys| == 0
  }

  /** The e-mail form passes exactly when the address is accepted and, off the forgot-password view, the password has six characters. */
  lemma EmailPassesIff(view: AuthView, emailOk: bool, password: string)
    ensures Passes(EmailErrors(view, emailOk, password))
            <==> emailOk && (view == ForgotPassword || |password| >= 6)
  {
    var r := EmailErrors(view, emailOk, password);
    if !emailOk { assert "email" in r.Keys; }
    if view != ForgotPassword && |password| < 6 { assert "password" in r.Keys; }
    if emailOk && (view == ForgotPassword || |password| >= 6) { assert r.Keys == {}; }
  }

  /** The reset form passes exactly when the password has six characters and both fields agree. */
  lemma ResetPassesIff(password: string, confirmPassword: string)
    ensures Passes(ResetErrors(password, confirmPassword))
            <==> |password| >= 6 && password == confirmPassword
  {
    var r := ResetErrors(password, confirmPassword);
    if |password| < 6 { assert "password" in r.Keys; }
    if password != confirmPassword { assert "confirmPassword" in r.Keys; }
    if |password| >= 6 && password == confirmPassword { assert r.Keys == {}; }
  }
}
