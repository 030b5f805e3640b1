/**
  `InputValidator`: the e-mail pattern, password strength and username rules,
  and the escape-then-strip input sanitiser. Character classes are ASCII.
 */
module Validators {
  import opened Wrappers
  import opened Text

  // ---------------------------------------------------------------- e-mail

  predicate IsLocalChar(c: char) { IsAsciiAlnum(c) || c in "._%+-" }
  predicate IsDomainChar(c: char) { IsAsciiAlnum(c) || c == '.' || c == '-' }

  /** The pattern `[a-zA-Z0-9._%+-]+@[a-zA-Z0-9.-]+\.[a-zA-Z]{2,}` matches all of
      `s` with the `@` at `at` and the final `\.` at `dot`. */
  predicate ShapeAt(s: string, at: int, dot: int) {
    && 0 < at && at + 1 < dot && dot + 2 < |s|
    && (forall i :: 0 <= i < at ==> IsLocalChar(s[i]))
    && s[at] == '@'
    && (forall i :: at < i < dot ==> IsDomainChar(s[i]))
    && s[dot] == '.'
    && (forall i :: dot < i < |s| ==> IsAsciiLetter(s[i]))
  }

  /** The pattern matches the whole string under some split. */
  ghost predicate EmailShape(s: string) {
    exists at, dot :: ShapeAt(s, at, dot)
  }

  /** The first position of `c` in `s`. */
  function FirstIndex(s: string, c: char): (r: Option<nat>)
    ensures r.None? ==> c !in s
    ensures r.Some? ==> r.value < |s| && s[r.value] == c && forall i :: 0 <= i < r.value ==> s[i] != c
    decreases |s|
  {
    if |s| == 0 then None
    else if s[0] == c then Some(0)
    else match FirstIndex(s[1..], c)
      case None => None
      case Some(i) => Some(i + 1)
  }

  /** The last position of `c` in `s`. */
  function LastIndex(s: string, c: char): (r: Option<nat>)
    ensures r.None? ==> c !in s
    ensures r.Some? ==> r.value < |s| && s[r.value] == c && forall i :: r.value < i < |s| ==> s[i] != c
    decreases |s|
  {
    if |s| == 0 then None
    else if s[|s| - 1] == c then Some(|s| - 1)
    else
      match LastIndex(s[..|s| - 1], c)
      case None => assert s == s[..|s| - 1] + [s[|s| - 1]]; None
      case Some(i) => Some(i)
  }

  /** Decides the pattern by character classes: the `@` is the first one and the
      separating dot is the last one. */
  predicate MatchesEmailShape(s: string) {
    match FirstIndex(s, '@')
    case None => false
    case Some(at) =>
      match LastIndex(s, '.')
      case None => false
      case Some(dot) => ShapeAt(s, at, dot)
  }

  /** The character-class decision agrees with the regular expression. */
  lemma MatchesEmailShapeIsRegex(s: string)
    ensures MatchesEmailShape(s) <==> EmailShape(s)
  {
    if EmailShape(s) {
      var at, dot :| ShapeAt(s, at, dot);
      assert forall i :: 0 <= i < at ==> s[i] != '@' by {
        forall i | 0 <= i < at ensures s[i] != '@' { assert IsLocalChar(s[i]); }
      }
      assert forall i :: at < i < |s| ==> s[i] != '@' by {
        forall i | at < i < |s| ensures s[i] != '@' {
          if i < dot { assert IsDomainChar(s[i]); }
          else if i > dot { assert IsAsciiLetter(s[i]); }
        }
      }
      assert forall i :: dot < i < |s| ==> s[i] != '.' by {
        forall i | dot < i < |s| ensures s[i] != '.' { assert IsAsciiLetter(s[i]); }
      }
      assert FirstIndex(s, '@') == Some(at);
      assert LastIndex(s, '.') == Some(dot);
    }
  }

  /** `validate_email`: `re.match` with a trailing `$`, which also matches just
      before a final newline. */
  function ValidateEmail(s: string): (b: bool)
    ensures b <==> EmailShape(s) || (|s| > 0 && s[|s| - 1] == '\n' && EmailShape(s[..|s| - 1]))
  {
    MatchesEmailShapeIsRegex(s);
    MatchesEmailShapeIsRegex(if |s| > 0 then s[..|s| - 1] else s);
    MatchesEmailShape(s) || (|s| > 0 && s[|s| - 1] == '\n' && MatchesEmailShape(s[..|s| - 1]))
  }

  // -------------------------------------------------------------- password

  datatype PasswordError = TooShort | NoUppercase | NoLowercase | NoDigit | NoSpecial
  datatype Strength = Weak | Medium | Strong
  datatype PasswordCheck = PasswordCheck(isValid: bool, errors: seq<PasswordError>, strength: Strength)

  const SpecialChars: string := "!@#$%^&*()_+-=[]{}|;:,.<>?"

  predicate HasUpper(p: string) { exists i :: 0 <= i < |p| && IsAsciiUpper(p[i]) }
  predicate HasLower(p: string) { exists i :: 0 <= i < |p| && IsAsciiLower(p[i]) }
  predicate HasDigit(p: string) { exists i :: 0 <= i < |p| && IsAsciiDigit(p[i]) }
  predicate HasSpecial(p: string) { exists i :: 0 <= i < |p| && p[i] in SpecialChars }

  /** The strength label for a number of failed rules. */
  function StrengthOf(errorCount: nat): (s: Strength)
    ensures s == Strong <==> errorCount == 0
    ensures s == Medium <==> 1 <= errorCount <= 2
    ensures s == Weak <==> errorCount >= 3
  {
    if errorCount == 0 then Strong else if errorCount <= 2 then Medium else Weak
  }

  /** `validate_password`: one error per failed rule, in the source's order. */
  function ValidatePassword(p: string): (r: PasswordCheck)
    ensures r.isValid <==> |r.errors| == 0
    ensures r.strength == StrengthOf(|r.errors|)
    ensures |r.errors| <= 5
    ensures TooShort in r.errors <==> |p| < 8
    ensures NoUppercase in r.errors <==> !HasUpper(p)
    ensures NoLowercase in r.errors <==> !HasLower(p)
    ensures NoDigit in r.errors <==> !HasDigit(p)
    ensures NoSpecial in r.errors <==> !HasSpecial(p)
  {
    var errors :=
      (if |p| < 8 then [TooShort] else [])
      + (if !HasUpper(p) then [NoUppercase] else [])
      + (if !HasLower(p) then [NoLowercase] else [])
      + (if !HasDigit(p) then [NoDigit] else [])
      + (if !HasSpecial(p) then [NoSpecial] else []);
    PasswordCheck(|errors| == 0, errors, StrengthOf(|errors|))
  }

  /** The number of rules a password fails, counted independently of the error list. */
  function FailedRules(p: string): nat {
    (if |p| < 8 then 1 else 0) + (if !HasUpper(p) then 1 else 0) + (if !HasLower(p) then 1 else 0)
    + (if !HasDigit(p) then 1 else 0) + (if !HasSpecial(p) then 1 else 0)
  }

  /** A password is accepted exactly when it meets all five rules, and its
      strength is decided by how many rules it fails. */
  lemma PasswordVerdict(p: string)
    ensures ValidatePassword(p).isValid <==> |p| >= 8 && HasUpper(p) && HasLower(p) && HasDigit(p) && HasSpecial(p)
    ensures |ValidatePassword(p).errors| == FailedRules(p)
    ensures ValidatePassword(p).strength == StrengthOf(FailedRules(p))
  {
  }

  // -------------------------------------------------------------- username

  datatype UsernameError = NameTooShort | NameTooLong | BadCharacters
  datatype UsernameCheck = UsernameCheck(isValid: bool, errors: seq<UsernameError>)

  /** `str.isalnum()`: non-empty and every character a letter or digit. */
  predicate IsAlnumString(s: string) {
    |s| > 0 && forall i :: 0 <= i < |s| ==> IsAsciiAlnum(s[i])
  }

  /** `validate_username`. */
  function ValidateUsername(u: string): (r: UsernameCheck)
    ensures r.isValid <==> |r.errors| == 0
    ensures NameTooShort in r.errors <==> |u| < 3
    ensures NameTooLong in r.errors <==> |u| > 20
    ensures BadCharacters in r.errors <==> !IsAlnumString(WithoutSeparators(u))
  {
    var errors :=
      (if |u| < 3 then [NameTooShort] else [])
      + (if |u| > 20 then [NameTooLong] else [])
      + (if !IsAlnumString(WithoutSeparators(u)) then [BadCharacters] else []);
    UsernameCheck(|errors| == 0, errors)
  }

  predicate IsUsernameChar(c: char) { IsAsciiAlnum(c) || c == '_' || c == '-' }

  /** `u.replace('_', '').replace('-', '')`. */
  function WithoutSeparators(u: string): string {
    RemoveChar(RemoveChar(u, '_'), '-')
  }

  /** Removing the separators works character by character from the front. */
  lemma WithoutSeparatorsStep(u: string)
    requires |u| > 0
    ensures WithoutSeparators(u) == (if u[0] == '_' || u[0] == '-' then [] else [u[0]]) + WithoutSeparators(u[1..])
  {
    var r1 := RemoveChar(u[1..], '_');
    if u[0] != '_' {
      assert ([u[0]] + r1)[0] == u[0];
      assert ([u[0]] + r1)[1..] == r1;
    }
  }

  /** Every character left is alphanumeric exactly when every character of `u` is a username character. */
  lemma {:induction false} WithoutSeparatorsAllAlnum(u: string)
    ensures var t := WithoutSeparators(u);
      (forall j :: 0 <= j < |t| ==> IsAsciiAlnum(t[j])) <==> (forall i :: 0 <= i < |u| ==> IsUsernameChar(u[i]))
    decreases |u|
  {
    if |u| > 0 {
      WithoutSeparatorsStep(u);
      WithoutSeparatorsAllAlnum(u[1..]);
      var rest := WithoutSeparators(u[1..]);
      var t := WithoutSeparators(u);
      assert forall i :: 1 <= i < |u| ==> u[i] == u[1..][i - 1];
      if u[0] == '_' || u[0] == '-' {
        assert t == rest;
      } else {
        assert t == [u[0]] + rest;
        assert forall j :: 0 <= j < |rest| ==> t[j + 1] == rest[j];
        if forall j :: 0 <= j < |t| ==> IsAsciiAlnum(t[j]) {
          assert IsAsciiAlnum(t[0]);
          assert forall j :: 0 <= j < |rest| ==> IsAsciiAlnum(rest[j]);
        }
        if forall i :: 0 <= i < |u| ==> IsUsernameChar(u[i]) {
          assert forall j :: 0 <= j < |rest| ==> IsAsciiAlnum(rest[j]);
          forall j | 0 <= j < |t| ensures IsAsciiAlnum(t[j]) {
            if j > 0 { assert t[j] == rest[j - 1]; }
          }
        }
      }
    }
  }

  /** Something is left exactly when `u` has a character other than a separator. */
  lemma {:induction false} WithoutSeparatorsNonEmpty(u: string)
    ensures |WithoutSeparators(u)| > 0 <==> exists i :: 0 <= i < |u| && u[i] != '_' && u[i] != '-'
    decreases |u|
  {
    if |u| > 0 {
      WithoutSeparatorsStep(u);
      WithoutSeparatorsNonEmpty(u[1..]);
      assert forall i :: 1 <= i < |u| ==> u[i] == u[1..][i - 1];
      if exists i :: 0 <= i < |u| && u[i] != '_' && u[i] != '-' {
        var i :| 0 <= i < |u| && u[i] != '_' && u[i] != '-';
        if i > 0 {
          assert u[1..][i - 1] != '_' && u[1..][i - 1] != '-';
        }
      }
    }
  }

  lemma RemoveSeparatorsKeepsAlnum(u: string)
    ensures IsAlnumString(WithoutSeparators(u)) <==>
      (forall i :: 0 <= i < |u| ==> IsUsernameChar(u[i])) && (exists i :: 0 <= i < |u| && IsAsciiAlnum(u[i]))
  {
    WithoutSeparatorsAllAlnum(u);
    WithoutSeparatorsNonEmpty(u);
    if (forall i :: 0 <= i < |u| ==> IsUsernameChar(u[i])) && (exists i :: 0 <= i < |u| && u[i] != '_' && u[i] != '-') {
      var i :| 0 <= i < |u| && u[i] != '_' && u[i] != '-';
      assert IsAsciiAlnum(u[i]);
    }
  }

  /** A username is valid exactly when it has 3 to 20 characters, all of them
      letters, digits, `_` or `-`, and at least one letter or digit. */
  lemma UsernameVerdict(u: string)
    ensures ValidateUsername(u).isValid
      <==> 3 <= |u| <= 20
           && (forall i :: 0 <= i < |u| ==> IsUsernameChar(u[i]))
           && (exists i :: 0 <= i < |u| && IsAsciiAlnum(u[i]))
  {
    RemoveSeparatorsKeepsAlnum(u);
  }

  // -------------------------------------------------------------- sanitiser

  /** `html.escape(c, quote=True)` for one character. */
  function EscapeChar(c: char): string {
    if c == '&' then "&amp;"
    else if c == '<' then "&lt;"
    else if c == '>' then "&gt;"
    else if c == '"' then "&quot;"
    else if c == '\'' then "&#x27;"
    else [c]
  }

  /** `html.escape(s)`. */
  function HtmlEscape(s: string): (r: string)
    ensures forall c :: c in r ==> !IsMarkup(c)
    decreases |s|
  {
    if |s| == 0 then "" else EscapeChar(s[0]) + HtmlEscape(s[1..])
  }

  predicate IsMarkup(c: char) { c == '<' || c == '>' || c == '"' || c == '\'' }

  /** `s.replace("'", "''")`. */
  function DoubleQuotes(s: string): (r: string)
    ensures '\'' !in s ==> r == s
    decreases |s|
  {
    if |s| == 0 then ""
    else (if s[0] == '\'' then "''" else [s[0]]) + DoubleQuotes(s[1..])
  }

  predicate IsUnsafe(c: char) { c == ';' || IsMarkup(c) }

  /** `sanitize_input`: escape, double single quotes, drop semicolons, strip. */
  function SanitizeInput(s: string): (r: string)
    ensures forall c :: c in r ==> !IsUnsafe(c)
    ensures |r| > 0 ==> !IsSpace(r[0]) && !IsSpace(r[|r| - 1])
  {
    var escaped := HtmlEscape(s);
    var dropped := RemoveChar(DoubleQuotes(escaped), ';');
    Strip(dropped)
  }

  lemma {:induction false} HtmlEscapeKeepsSafe(s: string)
    requires forall c :: c in s ==> c != '&' && !IsMarkup(c)
    ensures HtmlEscape(s) == s
    decreases |s|
  {
    if |s| > 0 {
      assert s == [s[0]] + s[1..];
      assert forall c :: c in s[1..] ==> c in s;
      HtmlEscapeKeepsSafe(s[1..]);
      assert s[0] in s;
      assert EscapeChar(s[0]) == [s[0]];
    }
  }

  lemma {:induction false} RemoveAbsentChar(s: string, c: char)
    requires c !in s
    ensures RemoveChar(s, c) == s
    decreases |s|
  {
    if |s| > 0 {
      RemoveAbsentChar(s[1..], c);
      assert s == [s[0]] + s[1..];
    }
  }

  /** Text with nothing to escape or drop and no surrounding whitespace passes unchanged. */
  lemma SanitizeKeepsCleanText(s: string)
    requires forall c :: c in s ==> c != '&' && !IsUnsafe(c)
    requires |s| > 0 ==> !IsSpace(s[0]) && !IsSpace(s[|s| - 1])
    ensures SanitizeInput(s) == s
  {
    HtmlEscapeKeepsSafe(s);
    assert '\'' !in s && ';' !in s;
    RemoveAbsentChar(s, ';');
    StripKeepsTrimmed(s);
  }

  /** What sanitising leaves of one character before the final strip: its
      escape with the closing `;` dropped, and nothing at all for a `;`. */
  function SanitizedChar(c: char): string {
    if c == '&' then "&amp"
    else if c == '<' then "&lt"
    else if c == '>' then "&gt"
    else if c == '"' then "&quot"
    else if c == '\'' then "&#x27"
    else if c == ';' then ""
    else [c]
  }

  function SanitizedChars(s: string): string
    decreases |s|
  {
    if |s| == 0 then "" else SanitizedChar(s[0]) + SanitizedChars(s[1..])
  }

  lemma {:induction false} DoubleQuotesAppend(a: string, b: string)
    ensures DoubleQuotes(a + b) == DoubleQuotes(a) + DoubleQuotes(b)
    decreases |a|
  {
    if |a| > 0 {
      assert (a + b)[0] == a[0] && (a + b)[1..] == a[1..] + b;
      DoubleQuotesAppend(a[1..], b);
    } else {
      assert a + b == b;
    }
  }

  lemma {:induction false} RemoveCharAppend(a: string, b: string, c: char)
    ensures RemoveChar(a + b, c) == RemoveChar(a, c) + RemoveChar(b, c)
    decreases |a|
  {
    if |a| > 0 {
      assert (a + b)[0] == a[0] && (a + b)[1..] == a[1..] + b;
      RemoveCharAppend(a[1..], b, c);
    } else {
      assert a + b == b;
    }
  }

  /** One character through escaping, quote doubling and `;` removal. */
  lemma EscapeCharThenDrop(c: char)
    ensures RemoveChar(DoubleQuotes(EscapeChar(c)), ';') == SanitizedChar(c)
  {
    var e := EscapeChar(c);
    assert '\'' !in e;
    if e == [c] {
      assert RemoveChar(e[1..], ';') == "";
    } else {
      var body := e[..|e| - 1];
      assert e == body + [';'] && ';' !in body && body == SanitizedChar(c);
      RemoveCharAppend(body, [';'], ';');
      RemoveAbsentChar(body, ';');
      assert RemoveChar([';'], ';') == RemoveChar([], ';');
    }
  }

  /** Escaping, doubling quotes and dropping `;` act character by character. */
  lemma {:induction false} EscapeThenDropIsPerChar(s: string)
    ensures RemoveChar(DoubleQuotes(HtmlEscape(s)), ';') == SanitizedChars(s)
    decreases |s|
  {
    if |s| > 0 {
      var e := EscapeChar(s[0]);
      var rest := HtmlEscape(s[1..]);
      DoubleQuotesAppend(e, rest);
      RemoveCharAppend(DoubleQuotes(e), DoubleQuotes(rest), ';');
      EscapeCharThenDrop(s[0]);
      EscapeThenDropIsPerChar(s[1..]);
    }
  }

  /** Sanitising works character by character and then strips the ends: each
      markup character and `&` becomes its entity without the `;` (a `<`
      comes out as `&lt`), each `;` disappears, and the rest is kept. */
  lemma SanitizeTruncatesEntities(s: string)
    ensures SanitizeInput(s) == Strip(SanitizedChars(s))
  {
    EscapeThenDropIsPerChar(s);
  }
}
