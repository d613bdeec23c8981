/** The checks and clean-ups on the registration and login forms. Whether a
    text is an e-mail address, and its normalised form, are decided by the
    validation library and enter as parameters. A field missing from the
    form is read as the empty text by the checks. */
module AuthValidators {
  import opened Wrappers
  import opened Validation

  datatype Form = Form(email: Option<string>, password: Option<string>, name: Option<string>)

  /** The text a check sees: a missing field reads as "". */
  function Text(field: Option<string>): string
  {
    if field.Some? then field.value else ""
  }

  const EmailMessage := "Please provide a valid email"
  const PasswordLengthMessage := "Password must be at least 6 characters long"
  const NameLengthMessage := "Name must be less than 255 characters"
  const PasswordRequiredMessage := "Password is required"

  /** The characters `trim` strips: JavaScript's white space and line terminators. */
  predicate IsWhitespace(c: char)
  {
    || c == ' ' || c == '\t' || c == '\n' || c == '\r' || c == '\U{000B}' || c == '\U{000C}'
    || c == '\U{00A0}' || c == '\U{1680}' || ('\U{2000}' <= c <= '\U{200A}')
    || c == '\U{2028}' || c == '\U{2029}' || c == '\U{202F}' || c == '\U{205F}'
    || c == '\U{3000}' || c == '\U{FEFF}'
  }

  /** `s` with its leading white space removed. */
  function TrimStart(s: string): (r: string)
    ensures |r| <= |s| && r == s[|s| - |r|..]
    ensures r == [] || !IsWhitespace(r[0])
    ensures forall i :: 0 <= i < |s| - |r| ==> IsWhitespace(s[i])
  {
    if s != [] && IsWhitespace(s[0]) then TrimStart(s[1..]) else s
  }

  /** `s` with its trailing white space removed. */
  function TrimEnd(s: string): (r: string)
    ensures |r| <= |s| && r == s[..|r|]
    ensures r == [] || !IsWhitespace(r[|r| - 1])
    ensures forall i :: |r| <= i < |s| ==> IsWhitespace(s[i])
  {
    if s != [] && IsWhitespace(s[|s| - 1]) then TrimEnd(s[..|s| - 1]) else s
  }

  /** How much white space `trim` strips from the start of `s`. */
  function LeadingWhitespace(s: string): (k: nat)
    ensures k <= |s|
  {
    |s| - |TrimStart(s)|
  }

  /** `trim`: `s` without white space at either end; what it removes is only white space. */
  function Trim(s: string): (r: string)
    ensures r == [] || (!IsWhitespace(r[0]) && !IsWhitespace(r[|r| - 1]))
    ensures var k := LeadingWhitespace(s);
            && k + |r| <= |s| && r == s[k..k + |r|]
            && (forall i :: 0 <= i < k ==> IsWhitespace(s[i]))
            && (forall i :: k + |r| <= i < |s| ==> IsWhitespace(s[i]))
  {
    var t := TrimStart(s);
    var r := TrimEnd(t);
    var k := |s| - |t|;
    assert r == s[k..k + |r|];
    assert forall i :: k + |r| <= i < |s| ==> s[i] == t[i - k];
    r
  }

  lemma {:induction false} TrimStartOfPadded(pad: string, t: string)
    requires forall i :: 0 <= i < |pad| ==> IsWhitespace(pad[i])
    requires t == [] || !IsWhitespace(t[0])
    ensures TrimStart(pad + t) == t
  {
    if pad == [] {
      assert pad + t == t;
    } else {
      assert (pad + t)[1..] == pad[1..] + t;
      TrimStartOfPadded(pad[1..], t);
    }
  }

  lemma {:induction false} TrimEndOfPadded(t: string, pad: string)
    requires forall i :: 0 <= i < |pad| ==> IsWhitespace(pad[i])
    requires t == [] || !IsWhitespace(t[|t| - 1])
    ensures TrimEnd(t + pad) == t
  {
    if pad == [] {
      assert t + pad == t;
    } else {
      var s := t + pad;
      assert s[..|s| - 1] == t + pad[..|pad| - 1];
      TrimEndOfPadded(t, pad[..|pad| - 1]);
    }
  }

  /** `trim` strips exactly the white space around a text that does not itself
      start or end with white space. */
  lemma TrimPadded(lead: string, core: string, trail: string)
    requires forall i :: 0 <= i < |lead| ==> IsWhitespace(lead[i])
    requires forall i :: 0 <= i < |trail| ==> IsWhitespace(trail[i])
    requires core != [] && !IsWhitespace(core[0]) && !IsWhitespace(core[|core| - 1])
    ensures Trim(lead + core + trail) == core
  {
    assert lead + core + trail == lead + (core + trail);
    TrimStartOfPadded(lead, core + trail);
    TrimEndOfPadded(core, trail);
  }

  /** A text of white space only trims to the empty text. */
  lemma {:induction false} TrimBlank(s: string)
    requires forall i :: 0 <= i < |s| ==> IsWhitespace(s[i])
    ensures Trim(s) == ""
  {
    TrimStartOfPadded(s, "");
    assert s + "" == s;
  }

  /** Trimming twice is trimming once. */
  lemma TrimIdempotent(s: string)
    ensures Trim(Trim(s)) == Trim(s)
  {
    var r := Trim(s);
    TrimUnchanged(r);
  }

  /** A text without white space at its ends is left as it is. */
  lemma TrimUnchanged(s: string)
    requires s == [] || (!IsWhitespace(s[0]) && !IsWhitespace(s[|s| - 1]))
    ensures Trim(s) == s
  {
  }

  /** The registration checks, in form order: a valid e-mail, a password of at
      least six characters, and a name of at most 255 characters once trimmed,
      checked only when a name is given. */
  function RegisterErrors(form: Form, isEmail: string -> bool): (errs: seq<ValidationError>)
    ensures ValidationError("email", EmailMessage) in errs <==> !isEmail(Text(form.email))
    ensures ValidationError("password", PasswordLengthMessage) in errs <==> |Text(form.password)| < 6
    ensures ValidationError("name", NameLengthMessage) in errs <==> form.name.Some? && |Trim(form.name.value)| > 255
    ensures errs == [] <==> isEmail(Text(form.email)) && |Text(form.password)| >= 6
                            && (form.name.Some? ==> |Trim(form.name.value)| <= 255)
    // Only these three reports, each at most once.
    ensures forall e :: e in errs ==> e in [ValidationError("email", EmailMessage),
                                            ValidationError("password", PasswordLengthMessage),
                                            ValidationError("name", NameLengthMessage)]
    ensures forall i, j :: 0 <= i < j < |errs| ==> errs[i] != errs[j]
  {
    Check(isEmail(Text(form.email)), "email", EmailMessage)
    + Check(|Text(form.password)| >= 6, "password", PasswordLengthMessage)
    + (if form.name.None? then [] else Check(|Trim(form.name.value)| <= 255, "name", NameLengthMessage))
  }

  /** The login checks: a valid e-mail and a password that is not empty. */
  function LoginErrors(form: Form, isEmail: string -> bool): (errs: seq<ValidationError>)
    ensures ValidationError("email", EmailMessage) in errs <==> !isEmail(Text(form.email))
    ensures ValidationError("password", PasswordRequiredMessage) in errs <==> Text(form.password) == ""
    ensures errs == [] <==> isEmail(Text(form.email)) && Text(form.password) != ""
    // Only these two reports, each at most once.
    ensures forall e :: e in errs ==> e in [ValidationError("email", EmailMessage),
                                            ValidationError("password", PasswordRequiredMessage)]
    ensures forall i, j :: 0 <= i < j < |errs| ==> errs[i] != errs[j]
  {
    Check(isEmail(Text(form.email)), "email", EmailMessage)
    + Check(Text(form.password) != "", "password", PasswordRequiredMessage)
  }

  /** The form as the handler sees it after the checks: the e-mail replaced by
      its normalised form and the name trimmed. */
  function Sanitized(form: Form, normalizeEmail: string -> string): (r: Form)
    ensures r.password == form.password
    ensures r.email.Some? <==> form.email.Some?
    ensures r.name.Some? <==> form.name.Some?
    ensures form.email.Some? ==> r.email == Some(normalizeEmail(form.email.value))
    ensures form.name.Some? ==> r.name == Some(Trim(form.name.value))
  {
    Form(
      if form.email.Some? then Some(normalizeEmail(form.email.value)) else None,
      form.password,
      if form.name.Some? then Some(Trim(form.name.value)) else None)
  }

  /** Any form that registers can log in with the same e-mail and password. */
  lemma RegisteredCanLogIn(form: Form, isEmail: string -> bool)
    requires RegisterErrors(form, isEmail) == []
    ensures LoginErrors(form, isEmail) == []
  {
  }

  /** The name the handler stores has passed its own length check: it is
      trimmed already, and at most 255 characters long. */
  lemma StoredNameIsChecked(form: Form, isEmail: string -> bool, normalizeEmail: string -> string)
    requires RegisterErrors(form, isEmail) == [] && form.name.Some?
    ensures var n := Sanitized(form, normalizeEmail).name.value;
            |n| <= 255 && Trim(n) == n
  {
    TrimIdempotent(form.name.value);
  }

  /** Surrounding white space does not count towards a name's length. */
  lemma PaddedNameAccepted(form: Form, isEmail: string -> bool, lead: string, core: string, trail: string)
    requires isEmail(Text(form.email)) && |Text(form.password)| >= 6
    requires forall i :: 0 <= i < |lead| ==> IsWhitespace(lead[i])
    requires forall i :: 0 <= i < |trail| ==> IsWhitespace(trail[i])
    requires core != [] && !IsWhitespace(core[0]) && !IsWhitespace(core[|core| - 1]) && |core| <= 255
    requires form.name == Some(lead + core + trail)
    ensures RegisterErrors(form, isEmail) == []
  {
    TrimPadded(lead, core, trail);
  }
}
