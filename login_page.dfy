/**
 * The sign-in form: two fields, a validator per field, errors updated as the
 * user types, and a submit that sends the form only when every field
 * validates. The email rule is the pattern
 *   ^[A-Z0-9._%+-]+@[A-Z0-9.-]+\.[A-Z]{2,}$   (case-insensitive)
 * written out below both as a declarative shape and as a scanner, with a
 * proof that the two agree.
 */
module Login {
  import opened Api

  datatype Field = NameField | EmailField

  /** The fields in the order the form object lists them, which is the order submit visits them. */
  const FormFields: seq<Field> := [NameField, EmailField]

  datatype FormData = FormData(name: string, email: string)
  {
    function Get(f: Field): string
    {
      match f
      case NameField => name
      case EmailField => email
    }

    /** The form with one field replaced. */
    function With(f: Field, value: string): (r: FormData)
      ensures r.Get(f) == value
      ensures forall g :: g != f ==> r.Get(g) == Get(g)
    {
      match f
      case NameField => FormData(value, email)
      case EmailField => FormData(name, value)
    }
  }

  const NameRequired: string := "Name is required"
  const NameTooShort: string := "Name must be at least 2 characters"
  const EmailRequired: string := "Email is required"
  const InvalidEmail: string := "Invalid email address"

  // ---------------------------------------------------------------------------
  // String.prototype.trim and .length

  /** The code points trim strips: ECMAScript WhiteSpace and LineTerminator. */
  predicate IsTrimmable(c: char)
  {
    c == '\t' || c == '\n' || c == '\U{000B}' || c == '\U{000C}' || c == '\r' || c == ' '
    || c == '\U{00A0}' || c == '\U{1680}' || ('\U{2000}' <= c <= '\U{200A}')
    || c == '\U{2028}' || c == '\U{2029}' || c == '\U{202F}' || c == '\U{205F}'
    || c == '\U{3000}' || c == '\U{FEFF}'
  }

  /** Every character is one that trim strips. */
  predicate AllWhitespace(s: string)
  {
    forall k :: 0 <= k < |s| ==> IsTrimmable(s[k])
  }

  /** Strip leading whitespace: the result is a suffix, all that was cut is whitespace, and it does not start with any. */
  function TrimStart(s: string): (r: string)
    ensures |r| <= |s| && r == s[|s| - |r|..]
    ensures AllWhitespace(s[..|s| - |r|])
    ensures r != [] ==> !IsTrimmable(r[0])
  {
    if s != [] && IsTrimmable(s[0]) then
      var r := TrimStart(s[1..]);
      assert s[..|s| - |r|] == [s[0]] + s[1..][..|s| - 1 - |r|];
      r
    else s
  }

  /** Strip trailing whitespace: the result is a prefix, all that was cut is whitespace, and it does not end with any. */
  function TrimEnd(s: string): (r: string)
    ensures |r| <= |s| && r == s[..|r|]
    ensures AllWhitespace(s[|r|..])
    ensures r != [] ==> !IsTrimmable(r[|r| - 1])
  {
    if s != [] && IsTrimmable(s[|s| - 1]) then TrimEnd(s[..|s| - 1]) else s
  }

  /**
   * String.prototype.trim: a contiguous piece of the input with only whitespace
   * cut before and after it, and neither starting nor ending with whitespace.
   */
  function Trim(s: string): (r: string)
    ensures exists i :: PaddedAt(s, r, i)
    ensures r != [] ==> !IsTrimmable(r[0]) && !IsTrimmable(r[|r| - 1])
  {
    TrimPiece(s);
    TrimEnd(TrimStart(s))
  }

  /** `r` sits at position `i` of `s` with only whitespace before and after it. */
  predicate PaddedAt(s: string, r: string, i: int)
  {
    0 <= i <= |s| - |r| && r == s[i..i + |r|] && AllWhitespace(s[..i]) && AllWhitespace(s[i + |r|..])
  }

  lemma TrimPiece(s: string)
    ensures var r := TrimEnd(TrimStart(s));
            PaddedAt(s, r, |s| - |TrimStart(s)|) && (r != [] ==> !IsTrimmable(r[0]) && !IsTrimmable(r[|r| - 1]))
  {
    var t := TrimStart(s);
    var r := TrimEnd(t);
    PaddingComposes(s, t, r);
    assert r != [] ==> r[0] == t[0];
  }

  /** Cutting whitespace off the front and then off the back leaves a piece padded by whitespace only. */
  lemma PaddingComposes(s: string, t: string, r: string)
    requires |t| <= |s| && t == s[|s| - |t|..] && AllWhitespace(s[..|s| - |t|])
    requires |r| <= |t| && r == t[..|r|] && AllWhitespace(t[|r|..])
    ensures PaddedAt(s, r, |s| - |t|)
  {
    var i := |s| - |t|;
    assert r == s[i..i + |r|];
    assert s[i + |r|..] == t[|r|..];
  }

  /** A string trims to nothing exactly when every character in it is whitespace. */
  lemma TrimEmptyIffAllWhitespace(s: string)
    ensures Trim(s) == [] <==> AllWhitespace(s)
  {
  }

  /** The number of UTF-16 code units, which is what .length counts: two for a code point above U+FFFF. */
  function Utf16Length(s: string): (n: nat)
    ensures |s| <= n <= 2 * |s|
  {
    if s == [] then 0 else (if s[0] as int >= 0x1_0000 then 2 else 1) + Utf16Length(s[1..])
  }

  /** A non-empty string is shorter than two code units exactly when it is one character of the basic plane. */
  lemma Utf16LengthBelowTwo(s: string)
    requires s != []
    ensures Utf16Length(s) < 2 <==> |s| == 1 && (s[0] as int) < 0x1_0000
  {
  }

  // ---------------------------------------------------------------------------
  // The email pattern

  predicate IsAsciiLetter(c: char)
  {
    'A' <= c <= 'Z' || 'a' <= c <= 'z'
  }

  predicate IsAsciiDigit(c: char)
  {
    '0' <= c <= '9'
  }

  /** [A-Z0-9._%+-] under the case-insensitive flag. */
  predicate IsLocalChar(c: char)
  {
    IsAsciiLetter(c) || IsAsciiDigit(c) || c == '.' || c == '_' || c == '%' || c == '+' || c == '-'
  }

  /** [A-Z0-9.-] under the case-insensitive flag. */
  predicate IsDomainChar(c: char)
  {
    IsAsciiLetter(c) || IsAsciiDigit(c) || c == '.' || c == '-'
  }

  /**
   * The string splits at `at` and `dot` into: a non-empty run of local
   * characters, '@', a non-empty run of domain characters, '.', and two or
   * more letters to the end.
   */
  ghost predicate EmailShape(s: string, at: int, dot: int)
  {
    0 < at && at + 1 < dot && dot + 2 < |s| && s[at] == '@' && s[dot] == '.'
    && (forall k :: 0 <= k < at ==> IsLocalChar(s[k]))
    && (forall k :: at < k < dot ==> IsDomainChar(s[k]))
    && (forall k :: dot < k < |s| ==> IsAsciiLetter(s[k]))
  }

  /** What the regular expression accepts: some split of the string has the shape above. */
  ghost predicate MatchesEmailPattern(s: string)
  {
    exists at, dot :: EmailShape(s, at, dot)
  }

  /** Length of the longest prefix made of local characters. */
  function LocalRun(s: string): (n: nat)
    ensures n <= |s|
    ensures forall k :: 0 <= k < n ==> IsLocalChar(s[k])
    ensures n < |s| ==> !IsLocalChar(s[n])
  {
    if s == [] || !IsLocalChar(s[0]) then 0 else 1 + LocalRun(s[1..])
  }

  /** Index of the last '.', if any. */
  function LastDot(s: string): (r: Option<nat>)
    ensures r.Some? ==> r.value < |s| && s[r.value] == '.' && forall k :: r.value < k < |s| ==> s[k] != '.'
    ensures r.None? ==> forall k :: 0 <= k < |s| ==> s[k] != '.'
  {
    if s == [] then None
    else if s[|s| - 1] == '.' then Some(|s| - 1)
    else LastDot(s[..|s| - 1])
  }

  /** The part after '@': domain characters throughout, a non-empty label before the last '.', and two or more letters after it. */
  predicate IsValidDomain(d: string)
  {
    && (forall k :: 0 <= k < |d| ==> IsDomainChar(d[k]))
    && match LastDot(d)
       case None => false
       case Some(p) => 1 <= p && p + 2 < |d| && forall k :: p < k < |d| ==> IsAsciiLetter(d[k])
  }

  /** The scanner that stands for the regular expression test. */
  predicate IsValidEmail(s: string)
  {
    var n := LocalRun(s);
    0 < n < |s| && s[n] == '@' && IsValidDomain(s[n + 1..])
  }

  /** The scanner accepts exactly the strings of the pattern's shape. */
  lemma EmailScannerMatchesPattern(s: string)
    ensures IsValidEmail(s) <==> MatchesEmailPattern(s)
  {
    if IsValidEmail(s) {
      ScannerFindsShape(s);
    }
    if MatchesEmailPattern(s) {
      var at, dot :| EmailShape(s, at, dot);
      ShapeIsScanned(s, at, dot);
    }
  }

  /** When the scanner accepts, the local run and the last dot of the domain give a split of the right shape. */
  lemma ScannerFindsShape(s: string)
    requires IsValidEmail(s)
    ensures MatchesEmailPattern(s)
  {
    var n := LocalRun(s);
    var d := s[n + 1..];
    var p := LastDot(d).value;
    var dot := n + 1 + p;
    forall k | n < k < dot ensures IsDomainChar(s[k]) {
      assert s[k] == d[k - n - 1];
    }
    forall k | dot < k < |s| ensures IsAsciiLetter(s[k]) {
      assert s[k] == d[k - n - 1];
    }
    assert EmailShape(s, n, dot);
  }

  /** Any split of the right shape is the one the scanner finds: '@' ends the local run, and the dot is the last one. */
  lemma ShapeIsScanned(s: string, at: int, dot: int)
    requires EmailShape(s, at, dot)
    ensures IsValidEmail(s)
  {
    var n := LocalRun(s);
    assert n == at by {
      assert !IsLocalChar(s[at]);
    }
    var d := s[n + 1..];
    var p := dot - n - 1;
    assert d[p] == '.';
    forall k | 0 <= k < |d| ensures IsDomainChar(d[k]) {
      assert d[k] == s[k + n + 1];
    }
    forall k | p < k < |d| ensures IsAsciiLetter(d[k]) {
      assert d[k] == s[k + n + 1];
    }
    assert LastDot(d) == Some(p);
  }

  /** The characters the pattern allows at its ends are never stripped by trim. */
  lemma PatternEndsAreKept(first: char, last: char)
    requires IsLocalChar(first) && IsAsciiLetter(last)
    ensures !IsTrimmable(first) && !IsTrimmable(last)
  {
  }

  /** A string of the pattern's shape starts and ends with a character trim keeps, so it is never blank. */
  lemma PatternIsNotBlank(s: string)
    ensures MatchesEmailPattern(s) ==> !IsTrimmable(s[0]) && !IsTrimmable(s[|s| - 1]) && Trim(s) != []
  {
    if MatchesEmailPattern(s) {
      var at, dot :| EmailShape(s, at, dot);
      assert IsLocalChar(s[0]);
      assert IsAsciiLetter(s[|s| - 1]);
      PatternEndsAreKept(s[0], s[|s| - 1]);
      assert !AllWhitespace(s);
      TrimEmptyIffAllWhitespace(s);
    }
  }

  /** The email is matched untrimmed: a space before or after an otherwise valid address makes it invalid. */
  lemma SurroundingSpaceIsInvalid(s: string)
    ensures !MatchesEmailPattern([' '] + s)
    ensures !MatchesEmailPattern(s + [' '])
  {
    PatternIsNotBlank([' '] + s);
    PatternIsNotBlank(s + [' ']);
  }

  // ---------------------------------------------------------------------------
  // validateField

  /** The name rule: required after trimming, then at least two code units after trimming. */
  function ValidateName(value: string): (r: string)
    ensures r == NameRequired <==> AllWhitespace(value)
    ensures r == NameTooShort <==> Trim(value) != [] && Utf16Length(Trim(value)) < 2
    ensures r == "" <==> Utf16Length(Trim(value)) >= 2
  {
    TrimEmptyIffAllWhitespace(value);
    var t := Trim(value);
    if t == [] then NameRequired
    else if Utf16Length(t) < 2 then NameTooShort
    else ""
  }

  /** The email rule: required after trimming (checked first), then the pattern on the untrimmed value. */
  function ValidateEmail(value: string): (r: string)
    ensures r == EmailRequired <==> AllWhitespace(value)
    ensures r == InvalidEmail <==> Trim(value) != [] && !MatchesEmailPattern(value)
    ensures r == "" <==> MatchesEmailPattern(value)
  {
    TrimEmptyIffAllWhitespace(value);
    EmailScannerMatchesPattern(value);
    PatternIsNotBlank(value);
    if Trim(value) == [] then EmailRequired
    else if !IsValidEmail(value) then InvalidEmail
    else ""
  }

  /** validateField: a field is accepted (no message) exactly when its own rule accepts the value. */
  function ValidateField(f: Field, value: string): (r: string)
    ensures f == NameField ==> (r == "" <==> Utf16Length(Trim(value)) >= 2)
    ensures f == EmailField ==> (r == "" <==> MatchesEmailPattern(value))
  {
    match f
    case NameField => ValidateName(value)
    case EmailField => ValidateEmail(value)
  }

  /** Leading whitespace does not change what TrimStart keeps. */
  lemma {:induction false} TrimStartSkipsBlank(pre: string, rest: string)
    requires AllWhitespace(pre)
    ensures TrimStart(pre + rest) == TrimStart(rest)
  {
    if pre != [] {
      var s := pre + rest;
      assert s[0] == pre[0];
      assert IsTrimmable(pre[0]);
      assert s[1..] == pre[1..] + rest;
      assert AllWhitespace(pre[1..]) by {
        forall k | 0 <= k < |pre[1..]| ensures IsTrimmable(pre[1..][k]) {
          assert pre[1..][k] == pre[k + 1];
        }
      }
      TrimStartSkipsBlank(pre[1..], rest);
    } else {
      assert pre + rest == rest;
    }
  }

  /** Trailing whitespace does not change what TrimEnd keeps. */
  lemma {:induction false} TrimEndSkipsBlank(rest: string, post: string)
    requires AllWhitespace(post)
    ensures TrimEnd(rest + post) == TrimEnd(rest)
  {
    if post != [] {
      var s := rest + post;
      var last := |s| - 1;
      assert s[last] == post[|post| - 1] && IsTrimmable(s[last]);
      assert TrimEnd(s) == TrimEnd(s[..last]);
      assert s[..last] == rest + post[..|post| - 1];
      TrimEndSkipsBlank(rest, post[..|post| - 1]);
    } else {
      assert rest + post == rest;
    }
  }

  /** Whitespace padding around one kept character trims away. */
  lemma PaddedCharacterTrims(pre: string, c: char, post: string)
    requires AllWhitespace(pre)
    requires AllWhitespace(post)
    requires !IsTrimmable(c)
    ensures Trim(pre + [c] + post) == [c]
  {
    assert pre + [c] + post == pre + ([c] + post);
    TrimStartSkipsBlank(pre, [c] + post);
    assert TrimStart([c] + post) == [c] + post;
    TrimEndSkipsBlank([c], post);
    assert TrimEnd([c]) == [c];
  }

  /** A single character of the basic plane that trim keeps, with any padding, is a name that is too short. */
  lemma OneCharacterNameIsTooShort(pre: string, c: char, post: string)
    requires AllWhitespace(pre)
    requires AllWhitespace(post)
    requires !IsTrimmable(c) && (c as int) < 0x1_0000
    ensures ValidateName(pre + [c] + post) == NameTooShort
  {
    PaddedCharacterTrims(pre, c, post);
    assert Utf16Length([c]) == 1;
  }

  // ---------------------------------------------------------------------------
  // The form component

  /** The form is sent exactly when every field validates to the empty string. */
  predicate FormIsValid(data: FormData)
  {
    forall f :: ValidateField(f, data.Get(f)) == ""
  }

  /** The error collection of submit: each field visited in turn, only failing fields recorded. */
  method CollectErrors(data: FormData) returns (newErrors: map<Field, string>)
    ensures forall f :: f in newErrors <==> ValidateField(f, data.Get(f)) != ""
    ensures forall f :: f in newErrors ==> newErrors[f] == ValidateField(f, data.Get(f))
    ensures newErrors == map[] <==> FormIsValid(data)
  {
    newErrors := map[];
    var i := 0;
    while i < |FormFields|
      invariant 0 <= i <= |FormFields|
      invariant forall f :: f in newErrors <==> f in FormFields[..i] && ValidateField(f, data.Get(f)) != ""
      invariant forall f :: f in newErrors ==> newErrors[f] == ValidateField(f, data.Get(f))
    {
      var key := FormFields[i];
      var error := ValidateField(key, data.Get(key));
      if error != "" {
        newErrors := newErrors[key := error];
      }
      assert FormFields[..i + 1] == FormFields[..i] + [key];
      i := i + 1;
    }
    assert FormFields[..i] == FormFields;
    forall f: Field ensures f in FormFields {
      match f
      case NameField => assert FormFields[0] == f;
      case EmailField => assert FormFields[1] == f;
    }
    if newErrors != map[] {
      var f :| f in newErrors;
    }
  }

  class LoginPage {
    var formData: FormData
    var errors: map<Field, string>

    constructor ()
      ensures formData == FormData("", "") && errors == map[]
    {
      formData := FormData("", "");
      errors := map[];
    }

    /** handleChange: set the typed field and its error; the other field and its error are left as they were. */
    method HandleChange(field: Field, value: string)
      modifies this
      ensures formData == old(formData).With(field, value)
      ensures errors == old(errors)[field := ValidateField(field, value)]
    {
      formData := formData.With(field, value);
      var error := ValidateField(field, value);
      errors := errors[field := error];
    }

    /**
     * handleSubmit: when some field fails, the errors become exactly the failing
     * fields and nothing is sent; otherwise the form data goes to the login call.
     */
    method HandleSubmit() returns (sent: Option<LoginCredentials>)
      modifies this
      ensures formData == old(formData)
      ensures sent.Some? <==> FormIsValid(formData)
      ensures sent.Some? ==> sent.value == LoginCredentials(formData.name, formData.email) && errors == old(errors)
      ensures sent.None? ==> forall f :: (f in errors <==> ValidateField(f, formData.Get(f)) != "")
                                        && (f in errors ==> errors[f] == ValidateField(f, formData.Get(f)))
    {
      var newErrors := CollectErrors(formData);
      if newErrors != map[] {
        errors := newErrors;
        return None;
      }
      sent := Some(LoginCredentials(formData.name, formData.email));
    }
  }
}
