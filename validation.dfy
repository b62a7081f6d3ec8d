/** The backend's input validators: password strength, e-mail shape and
    input sanitising (lol-coach-backend/app.py, lines 63-92). */
module Validation {
  import opened Common
  import opened Text

  // ---------------------------------------------------------------------
  // Password strength

  /** The outcome of the password check; every refusal carries its message. */
  datatype PasswordVerdict = Strong | TooShort | MissingUpper | MissingLower | MissingDigit | MissingSpecial
  {
    function Message(): string
    {
      match this
      case Strong => "Senha válida"
      case TooShort => "A senha deve ter pelo menos 8 caracteres"
      case MissingUpper => "A senha deve conter pelo menos uma letra maiúscula"
      case MissingLower => "A senha deve conter pelo menos uma letra minúscula"
      case MissingDigit => "A senha deve conter pelo menos um número"
      case MissingSpecial => "A senha deve conter pelo menos um caractere especial"
    }
  }

  const MIN_PASSWORD_LENGTH := 8

  /** The class `[!@#$%^&*(),.?":{}|<>]`; the backslash before the quote is an escape. */
  predicate IsSpecial(c: char) { c in "!@#$%^&*(),.?\":{}|<>" }

  /** The checks run in a fixed order and the first one that fails decides. */
  function CheckPasswordStrength(password: string): (v: PasswordVerdict)
    ensures v == Strong <==>
      && |password| >= MIN_PASSWORD_LENGTH
      && (exists i :: 0 <= i < |password| && IsUpper(password[i]))
      && (exists i :: 0 <= i < |password| && IsLower(password[i]))
      && (exists i :: 0 <= i < |password| && IsDigit(password[i]))
      && (exists i :: 0 <= i < |password| && IsSpecial(password[i]))
    ensures v == TooShort <==> |password| < MIN_PASSWORD_LENGTH
    ensures v == MissingUpper <==>
      |password| >= MIN_PASSWORD_LENGTH && forall i :: 0 <= i < |password| ==> !IsUpper(password[i])
    ensures v == MissingLower <==>
      && |password| >= MIN_PASSWORD_LENGTH
      && (exists i :: 0 <= i < |password| && IsUpper(password[i]))
      && forall i :: 0 <= i < |password| ==> !IsLower(password[i])
    ensures v == MissingDigit <==>
      && |password| >= MIN_PASSWORD_LENGTH
      && (exists i :: 0 <= i < |password| && IsUpper(password[i]))
      && (exists i :: 0 <= i < |password| && IsLower(password[i]))
      && forall i :: 0 <= i < |password| ==> !IsDigit(password[i])
    ensures v == MissingSpecial <==>
      && |password| >= MIN_PASSWORD_LENGTH
      && (exists i :: 0 <= i < |password| && IsUpper(password[i]))
      && (exists i :: 0 <= i < |password| && IsLower(password[i]))
      && (exists i :: 0 <= i < |password| && IsDigit(password[i]))
      && forall i :: 0 <= i < |password| ==> !IsSpecial(password[i])
  {
    if |password| < MIN_PASSWORD_LENGTH then TooShort
    else if !Any(password, IsUpper) then MissingUpper
    else if !Any(password, IsLower) then MissingLower
    else if !Any(password, IsDigit) then MissingDigit
    else if !Any(password, IsSpecial) then MissingSpecial
    else Strong
  }

  // ---------------------------------------------------------------------
  // E-mail shape: ^[a-zA-Z0-9._%+-]+@[a-zA-Z0-9.-]+\.[a-zA-Z]{2,}$ under re.match

  predicate IsLocalChar(c: char) { IsAsciiLetter(c) || IsDigit(c) || c in "._%+-" }
  predicate IsDomainChar(c: char) { IsAsciiLetter(c) || IsDigit(c) || c == '.' || c == '-' }

  /** `t` is local part, '@' at `a`, domain, '.' at `b`, and a top-level
      label of at least two letters: one way the pattern can match all of `t`. */
  ghost predicate EmailSplit(t: string, a: int, b: int)
  {
    && 0 < a && a + 1 < b && b + 3 <= |t|
    && t[a] == '@' && t[b] == '.'
    && (forall i :: 0 <= i < a ==> IsLocalChar(t[i]))
    && (forall i :: a < i < b ==> IsDomainChar(t[i]))
    && (forall i :: b < i < |t| ==> IsAsciiLetter(t[i]))
  }

  /** The language of the pattern, read as a regular expression. */
  ghost predicate MatchesEmailPattern(t: string)
  {
    exists a, b :: EmailSplit(t, a, b)
  }

  /** A deterministic matcher: split at the first '@' and at the last '.' after it. */
  predicate EmailBody(t: string)
  {
    match FirstIndexOf(t, '@')
    case None => false
    case Some(a) =>
      var domain := t[a + 1..];
      match LastIndexOf(domain, '.')
      case None => false
      case Some(k) =>
        && a > 0 && All(t[..a], IsLocalChar)
        && k > 0 && All(domain[..k], IsDomainChar)
        && |domain| - k - 1 >= 2 && All(domain[k + 1..], IsAsciiLetter)
  }

  /** `validate_email`: `$` also matches just before one trailing newline. */
  predicate ValidEmail(email: string)
  {
    || EmailBody(email)
    || (|email| > 0 && email[|email| - 1] == '\n' && EmailBody(email[..|email| - 1]))
  }

  /** The matcher accepts exactly the strings the pattern matches in full. */
  lemma {:induction false} EmailBodyIsPattern(t: string)
    ensures EmailBody(t) <==> MatchesEmailPattern(t)
  {
    if EmailBody(t) {
      EmailBodyGivesSplit(t);
    }
    if MatchesEmailPattern(t) {
      var a, b :| EmailSplit(t, a, b);
      SplitGivesEmailBody(t, a, b);
    }
  }

  lemma {:induction false} EmailBodyGivesSplit(t: string)
    requires EmailBody(t)
    ensures MatchesEmailPattern(t)
  {
    var a, k := EmailBodyPieces(t);
    PiecesGiveSplit(t, a, k);
  }

  /** Where the matcher finds the '@' and the last '.', and what it checks
      about the slices between them. */
  lemma {:induction false} EmailBodyPieces(t: string) returns (a: nat, k: nat)
    requires EmailBody(t)
    ensures a < |t| && t[a] == '@' && k < |t[a + 1..]| && t[a + 1..][k] == '.'
    ensures a > 0 && All(t[..a], IsLocalChar)
    ensures k > 0 && All(t[a + 1..][..k], IsDomainChar)
    ensures |t[a + 1..]| - k - 1 >= 2 && All(t[a + 1..][k + 1..], IsAsciiLetter)
  {
    a := FirstIndexOf(t, '@').value;
    k := LastIndexOf(t[a + 1..], '.').value;
  }

  /** Slices that pass the matcher's checks form a split of the pattern. */
  lemma {:induction false} PiecesGiveSplit(t: string, a: nat, k: nat)
    requires a < |t| && t[a] == '@' && k < |t[a + 1..]| && t[a + 1..][k] == '.'
    requires a > 0 && All(t[..a], IsLocalChar)
    requires k > 0 && All(t[a + 1..][..k], IsDomainChar)
    requires |t[a + 1..]| - k - 1 >= 2 && All(t[a + 1..][k + 1..], IsAsciiLetter)
    ensures EmailSplit(t, a, a + 1 + k)
  {
    var b := a + 1 + k;
    var domain := t[a + 1..];
    assert t[b] == domain[k];
    forall i | 0 <= i < a ensures IsLocalChar(t[i]) {
      assert t[i] == t[..a][i];
    }
    forall i | a < i < b ensures IsDomainChar(t[i]) {
      assert t[i] == domain[..k][i - a - 1];
    }
    forall i | b < i < |t| ensures IsAsciiLetter(t[i]) {
      assert t[i] == domain[k + 1..][i - b - 1];
    }
  }

  lemma {:induction false} SplitGivesEmailBody(t: string, a: int, b: int)
    requires EmailSplit(t, a, b)
    ensures EmailBody(t)
  {
    var domain := t[a + 1..];
    var k := b - a - 1;
    SplitParts(t, a, b);
    FirstIndexOfAt(t, '@', a);
    LastIndexOfAt(domain, '.', k);
  }

  /** The pieces of a split, stated on the slices the matcher looks at. */
  lemma {:induction false} SplitParts(t: string, a: int, b: int)
    requires EmailSplit(t, a, b)
    ensures '@' !in t[..a] && All(t[..a], IsLocalChar)
    ensures t[a + 1..][b - a - 1] == '.'
    ensures All(t[a + 1..][..b - a - 1], IsDomainChar)
    ensures '.' !in t[a + 1..][b - a..] && All(t[a + 1..][b - a..], IsAsciiLetter)
    ensures |t[a + 1..][b - a..]| >= 2
  {
    var local, domain := t[..a], t[a + 1..];
    var k := b - a - 1;
    var dom, tld := domain[..k], domain[k + 1..];
    forall i | 0 <= i < |local| ensures IsLocalChar(local[i]) && local[i] != '@' {
      assert local[i] == t[i];
    }
    forall i | 0 <= i < |dom| ensures IsDomainChar(dom[i]) {
      assert dom[i] == t[a + 1 + i];
    }
    forall i | 0 <= i < |tld| ensures IsAsciiLetter(tld[i]) && tld[i] != '.' {
      assert tld[i] == t[b + 1 + i];
    }
  }

  /** `validate_email` accepts `email` iff the pattern matches all of it, or
      all of it but one final newline. */
  lemma {:induction false} ValidEmailIsPattern(email: string)
    ensures ValidEmail(email) <==>
      || MatchesEmailPattern(email)
      || (|email| > 0 && email[|email| - 1] == '\n' && MatchesEmailPattern(email[..|email| - 1]))
  {
    EmailBodyIsPattern(email);
    if |email| > 0 {
      EmailBodyIsPattern(email[..|email| - 1]);
    }
  }

  /** A valid address has exactly one '@'. */
  lemma {:induction false} ValidEmailHasOneAt(t: string)
    requires MatchesEmailPattern(t)
    ensures exists a :: 0 < a < |t| && t[a] == '@' && '@' !in t[..a] && '@' !in t[a + 1..]
  {
    var a, b :| EmailSplit(t, a, b);
    assert !IsLocalChar('@') && !IsDomainChar('@') && !IsAsciiLetter('@');
    assert '@' !in t[..a];
    assert '@' !in t[a + 1..];
  }

  // ---------------------------------------------------------------------
  // Sanitising

  predicate IsDangerous(c: char) { c in ";&|`$" }

  /** No '<' is followed, anywhere later, by a '>': nothing `<[^>]*>` can match. */
  ghost predicate NoTag(s: string)
  {
    forall i, j :: 0 <= i < j < |s| && s[i] == '<' ==> s[j] != '>'
  }

  /** `re.sub(r'<[^>]*>', '', s)`: scanning left to right, a '<' with a later
      '>' is removed together with everything up to the first such '>'. */
  function StripTags(s: string): (r: string)
    ensures forall c :: c in r ==> c in s
    ensures NoTag(r)
    decreases |s|
  {
    if s == [] then []
    else if s[0] == '<' then
      match FirstIndexOf(s[1..], '>')
      case Some(k) => StripTags(s[k + 2..])
      case None => [s[0]] + StripTags(s[1..])
    else [s[0]] + StripTags(s[1..])
  }

  /** `re.sub(r'[;&|`$]', '', s)`. */
  function DropDangerous(s: string): (r: string)
    ensures forall c :: c in r ==> c in s && !IsDangerous(c)
    ensures NoTag(s) ==> NoTag(r)
    decreases |s|
  {
    if s == [] then []
    else if IsDangerous(s[0]) then DropDangerous(s[1..])
    else
      var rest := DropDangerous(s[1..]);
      assert NoTag(s) ==> NoTag(s[1..]);
      assert NoTag(s) && s[0] == '<' ==> '>' !in s[1..];
      [s[0]] + rest
  }

  /** `sanitize_input`: empty input comes back as it is; otherwise tags, then
      the characters ; & | ` $ are removed, then surrounding whitespace. */
  function Sanitize(text: string): (r: string)
    ensures text == [] ==> r == []
    ensures forall i :: 0 <= i < |r| ==> !IsDangerous(r[i])
    ensures NoTag(r)
    ensures r != [] ==> !IsSpace(r[0]) && !IsSpace(r[|r| - 1])
    ensures forall c :: c in r ==> c in text
  {
    if text == [] then text
    else
      var d := DropDangerous(StripTags(text));
      var r := Strip(d);
      InfixKeeps(r, d);
      r
  }

  /** An infix keeps the characters, the absence of dangerous ones and NoTag. */
  lemma {:induction false} InfixKeeps(r: string, s: string)
    requires exists i :: InfixAt(r, s, i)
    ensures forall c :: c in r ==> c in s
    ensures (forall c :: c in s ==> !IsDangerous(c)) ==> forall i :: 0 <= i < |r| ==> !IsDangerous(r[i])
    ensures NoTag(s) ==> NoTag(r)
  {
    var i :| InfixAt(r, s, i);
    forall c | c in r ensures c in s {
      var p :| 0 <= p < |r| && r[p] == c;
      assert s[i + p] == c;
    }
    if NoTag(s) {
      forall p, q | 0 <= p < q < |r| && r[p] == '<' ensures r[q] != '>' {
        assert s[i + p] == '<' && s[i + q] == r[q];
      }
    }
  }

  /** Text without a tag is left alone by the tag pass. */
  lemma {:induction false} StripTagsUnchanged(s: string)
    requires NoTag(s)
    ensures StripTags(s) == s
    decreases |s|
  {
    if s != [] {
      assert NoTag(s[1..]);
      if s[0] == '<' {
        assert '>' !in s[1..];
      }
      StripTagsUnchanged(s[1..]);
    }
  }

  /** Text without dangerous characters is left alone by the character pass. */
  lemma {:induction false} DropDangerousUnchanged(s: string)
    requires forall i :: 0 <= i < |s| ==> !IsDangerous(s[i])
    ensures DropDangerous(s) == s
    decreases |s|
  {
    if s != [] {
      DropDangerousUnchanged(s[1..]);
    }
  }

  /** Text that is already clean is a fixed point of sanitising. */
  lemma {:induction false} SanitizeUnchanged(text: string)
    requires forall i :: 0 <= i < |text| ==> !IsDangerous(text[i])
    requires NoTag(text)
    requires text != [] ==> !IsSpace(text[0]) && !IsSpace(text[|text| - 1])
    ensures Sanitize(text) == text
  {
    if text != [] {
      StripTagsUnchanged(text);
      DropDangerousUnchanged(text);
      StripUnchanged(text);
    }
  }

  /** Sanitising twice gives the same text as sanitising once. */
  lemma {:induction false} SanitizeIdempotent(text: string)
    ensures Sanitize(Sanitize(text)) == Sanitize(text)
  {
    SanitizeUnchanged(Sanitize(text));
  }
}
