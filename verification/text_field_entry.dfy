/** The interactive form on the TextField example page: a name and an email
    field, both controlled TextFields, their validators and the submit gate. */
module TextFieldEntry {
  import opened Common
  import opened TextFieldComponent

  /** `s.length`: JavaScript counts UTF-16 code units, so a character outside the
      Basic Multilingual Plane counts twice. */
  function Utf16Length(s: string): nat {
    if s == [] then 0 else (if s[0] as int >= 0x10000 then 2 else 1) + Utf16Length(s[1..])
  }

  /** Every character is one or two code units. */
  lemma {:induction false} Utf16LengthBounds(s: string)
    ensures |s| <= Utf16Length(s) <= 2 * |s|
  {
    if s != [] {
      Utf16LengthBounds(s[1..]);
    }
  }

  /** `validateName`'s verdict, `value.length < 2`: an error exactly for the empty
      name and for a single character of the Basic Multilingual Plane. */
  function NameHasError(value: string): (r: bool)
    ensures r <==> value == "" || (|value| == 1 && value[0] as int < 0x10000)
  {
    SingleCharacterLength(value);
    Utf16Length(value) < 2
  }

  /** A string of one character is one or two code units, as that character is. */
  lemma SingleCharacterLength(s: string)
    ensures |s| == 1 ==> Utf16Length(s) == if s[0] as int >= 0x10000 then 2 else 1
    ensures |s| >= 2 ==> Utf16Length(s) >= 2
  {
    Utf16LengthBounds(s);
    if |s| == 1 {
      assert s[1..] == [];
    }
  }

  /** `\s` of JavaScript regular expressions: its white space and line terminators. */
  predicate IsRegexSpace(c: char) {
    var n := c as int;
    || n == 0x09 || n == 0x0A || n == 0x0B || n == 0x0C || n == 0x0D || n == 0x20
    || n == 0xA0 || n == 0x1680 || (0x2000 <= n <= 0x200A) || n == 0x2028 || n == 0x2029
    || n == 0x202F || n == 0x205F || n == 0x3000 || n == 0xFEFF
  }

  /** `s` holds no `\s` character. */
  predicate NoRegexSpace(s: string) {
    forall i :: 0 <= i < |s| ==> !IsRegexSpace(s[i])
  }

  /** `[^\s@]` */
  predicate IsAtomChar(c: char) {
    !IsRegexSpace(c) && c != '@'
  }

  /** `[^\s@]+` matches the whole of `s`. */
  predicate IsAtom(s: string) {
    |s| > 0 && forall i :: 0 <= i < |s| ==> IsAtomChar(s[i])
  }

  /** What `/^[^\s@]+@[^\s@]+\.[^\s@]+$/.test(s)` means: `s` is three runs of
      `[^\s@]+` joined by "@" and ".". */
  ghost predicate MatchesRegex(s: string) {
    exists i, j :: 0 < i && i + 1 < j && j + 1 < |s| && s[i] == '@' && s[j] == '.'
                   && IsAtom(s[..i]) && IsAtom(s[i + 1..j]) && IsAtom(s[j + 1..])
  }

  /** The index of the first "@", or `|s|` when there is none. */
  function FirstAt(s: string): (k: nat)
    ensures k <= |s|
    ensures k < |s| ==> s[k] == '@'
    ensures forall i :: 0 <= i < k ==> s[i] != '@'
  {
    if s == [] || s[0] == '@' then 0 else 1 + FirstAt(s[1..])
  }

  /** A "." that is neither the first nor the last character. */
  predicate HasInnerDot(d: string) {
    exists j :: 0 < j < |d| - 1 && d[j] == '.'
  }

  /** The hand-coded email test: a non-empty local part up to the first "@", then a
      domain of `[^\s@]` characters with a "." strictly inside it. */
  predicate MatchesEmailPattern(s: string) {
    var k := FirstAt(s);
    0 < k < |s| && IsAtom(s[..k]) && IsAtom(s[k + 1..]) && HasInnerDot(s[k + 1..])
  }

  /** What the hand-coded test accepts, the regular expression matches. */
  lemma PatternMatchesRegex(s: string)
    requires MatchesEmailPattern(s)
    ensures MatchesRegex(s)
  {
    var k := FirstAt(s);
    var d := s[k + 1..];
    var jj :| 0 < jj < |d| - 1 && d[jj] == '.';
    var j := k + 1 + jj;
    assert s[k + 1..j] == d[..jj];
    assert s[j + 1..] == d[jj + 1..];
    assert IsAtom(s[k + 1..j]);
    assert IsAtom(s[j + 1..]);
    assert s[k] == '@' && s[j] == '.';
  }

  /** What the regular expression matches, the hand-coded test accepts. */
  lemma RegexMatchesPattern(s: string)
    requires MatchesRegex(s)
    ensures MatchesEmailPattern(s)
  {
    var i, j :| 0 < i && i + 1 < j && j + 1 < |s| && s[i] == '@' && s[j] == '.'
                && IsAtom(s[..i]) && IsAtom(s[i + 1..j]) && IsAtom(s[j + 1..]);
    SplitMatchesPattern(s, i, j);
  }

  /** A string split at an "@" and a later "." into three runs of `[^\s@]` passes
      the hand-coded test. */
  lemma SplitMatchesPattern(s: string, i: nat, j: nat)
    requires 0 < i && i + 1 < j && j + 1 < |s| && s[i] == '@' && s[j] == '.'
    requires IsAtom(s[..i]) && IsAtom(s[i + 1..j]) && IsAtom(s[j + 1..])
    ensures MatchesEmailPattern(s)
  {
    forall t | 0 <= t < i
      ensures s[t] != '@'
    {
      assert s[t] == s[..i][t];
    }
    FirstAtIs(s, i);
    assert s[i + 1..] == s[i + 1..j] + (['.'] + s[j + 1..]);
    DottedAtom(s[i + 1..j], s[j + 1..]);
  }

  /** Two runs of `[^\s@]` joined by "." form one run of `[^\s@]` with an inner dot. */
  lemma DottedAtom(a: string, b: string)
    requires IsAtom(a) && IsAtom(b)
    ensures IsAtom(a + (['.'] + b)) && HasInnerDot(a + (['.'] + b))
  {
    var d := a + (['.'] + b);
    forall t | 0 <= t < |d|
      ensures IsAtomChar(d[t])
    {
      if t < |a| {
        assert d[t] == a[t];
      } else if t > |a| {
        assert d[t] == b[t - |a| - 1];
      }
    }
    assert d[|a|] == '.';
  }

  /** The first "@" is the one no earlier "@" precedes. */
  lemma FirstAtIs(s: string, i: nat)
    requires i < |s| && s[i] == '@'
    requires forall t :: 0 <= t < i ==> s[t] != '@'
    ensures FirstAt(s) == i
  {
  }

  /** The hand-coded test accepts exactly the strings the regular expression matches. */
  lemma EmailPatternIsRegex(s: string)
    ensures MatchesEmailPattern(s) <==> MatchesRegex(s)
  {
    if MatchesEmailPattern(s) {
      PatternMatchesRegex(s);
    }
    if MatchesRegex(s) {
      RegexMatchesPattern(s);
    }
  }

  /** How many times `c` occurs in `s`. */
  function Count(s: string, c: char): nat {
    if s == [] then 0 else (if s[0] == c then 1 else 0) + Count(s[1..], c)
  }

  /** Counting over a concatenation. */
  lemma {:induction false} CountAppend(a: string, b: string, c: char)
    ensures Count(a + b, c) == Count(a, c) + Count(b, c)
  {
    if a == [] {
      assert a + b == b;
    } else {
      assert (a + b)[0] == a[0];
      assert (a + b)[1..] == a[1..] + b;
      CountAppend(a[1..], b, c);
    }
  }

  /** A string without `c` counts none. */
  lemma {:induction false} CountAbsent(s: string, c: char)
    requires forall i :: 0 <= i < |s| ==> s[i] != c
    ensures Count(s, c) == 0
  {
    if s != [] {
      CountAbsent(s[1..], c);
    }
  }

  /** A string with an occurrence of `c` counts it at least once. */
  lemma {:induction false} CountPresent(s: string, c: char, t: nat)
    requires t < |s| && s[t] == c
    ensures Count(s, c) > 0
  {
    if t > 0 {
      CountPresent(s[1..], c, t - 1);
    }
  }

  /** The shape of an email address: no white space, exactly one "@", a non-empty
      local part before it, and a domain after it whose "." is neither first nor last. */
  predicate EmailShape(s: string) {
    var k := FirstAt(s);
    NoRegexSpace(s) && Count(s, '@') == 1 && 0 < k < |s| && HasInnerDot(s[k + 1..])
  }

  /** A matching email has the shape. */
  lemma MatchHasShape(s: string)
    requires MatchesEmailPattern(s)
    ensures EmailShape(s)
  {
    var k := FirstAt(s);
    var local, domain := s[..k], s[k + 1..];
    assert s == local + ([s[k]] + domain);
    AroundAt(local, s[k], domain);
    CountAbsent(local, '@');
    CountAbsent(domain, '@');
    CountAppend(local, [s[k]] + domain, '@');
    CountAppend([s[k]], domain, '@');
  }

  /** A string of that shape matches. */
  lemma ShapeMatches(s: string)
    requires EmailShape(s)
    ensures MatchesEmailPattern(s)
  {
    var k := FirstAt(s);
    var local, domain := s[..k], s[k + 1..];
    assert s == local + ([s[k]] + domain);
    CountAbsent(local, '@');
    CountAppend(local, [s[k]] + domain, '@');
    CountAppend([s[k]], domain, '@');
    assert Count(domain, '@') == 0;
    forall t | 0 <= t < |domain|
      ensures IsAtomChar(domain[t])
    {
      assert domain[t] == s[k + 1 + t];
      if domain[t] == '@' {
        CountPresent(domain, '@', t);
      }
    }
    forall t | 0 <= t < |local|
      ensures IsAtomChar(local[t])
    {
      assert local[t] == s[t];
    }
  }

  /** An email matches exactly when it has the shape. */
  lemma EmailPatternShape(s: string)
    ensures MatchesEmailPattern(s) <==> EmailShape(s)
  {
    if MatchesEmailPattern(s) {
      MatchHasShape(s);
    }
    if EmailShape(s) {
      ShapeMatches(s);
    }
  }

  /** Two runs of `[^\s@]` around one more character hold no white space but,
      perhaps, that character. */
  lemma AroundAt(local: string, c: char, domain: string)
    requires IsAtom(local) && IsAtom(domain) && !IsRegexSpace(c)
    ensures NoRegexSpace(local + ([c] + domain))
  {
    var s := local + ([c] + domain);
    forall i | 0 <= i < |s|
      ensures !IsRegexSpace(s[i])
    {
      if i < |local| {
        assert s[i] == local[i];
      } else if i > |local| {
        assert s[i] == domain[i - |local| - 1];
      }
    }
  }

  /** `validateEmail`'s verdict, `!emailRegex.test(value) && value.length > 0`:
      an error exactly for a non-empty value the pattern rejects. */
  function EmailHasError(value: string): (r: bool)
    ensures r <==> value != "" && !MatchesRegex(value)
  {
    EmailPatternIsRegex(value);
    Utf16LengthBounds(value);
    !MatchesEmailPattern(value) && Utf16Length(value) > 0
  }

  /** The submit gate of `handleSubmit`: a name of at least two code units and an
      email that is empty or matches the pattern. An empty name always blocks;
      an empty email never does. */
  function CanSubmit(name: string, email: string): (r: bool)
    ensures r <==> Utf16Length(name) >= 2 && (email == "" || MatchesRegex(email))
    ensures name == "" ==> !r
    ensures email == "" ==> (r <==> !NameHasError(name))
  {
    !NameHasError(name) && !EmailHasError(email)
  }

  /** The names the page's end-to-end test types: "A" is rejected, "John Doe"
      accepted. */
  lemma NameExamples()
    ensures NameHasError("A") && !NameHasError("John Doe")
  {
  }

  /** "invalid-email" has no "@", so the pattern rejects it. */
  lemma InvalidEmailRejected()
    ensures EmailHasError("invalid-email")
  {
    var bad := "invalid-email";
    assert forall i :: 0 <= i < |bad| ==> bad[i] != '@';
  }

  /** "john@example.com" splits as "john", "@", "example", ".", "com". */
  lemma GoodEmailAccepted()
    ensures !EmailHasError("john@example.com")
  {
    var good := "john@example.com";
    assert good[4] == '@' && good[12] == '.';
    assert good[..4] == "john" && good[5..12] == "example" && good[13..] == "com";
    assert MatchesRegex(good);
  }

  /** With the name and email the end-to-end test ends with, the form submits. */
  lemma ExampleFormSubmits()
    ensures CanSubmit("John Doe", "john@example.com")
  {
    NameExamples();
    GoodEmailAccepted();
  }

  const NameHelp := "Enter your full name"
  const NameErrorHelp := "Name must be at least 2 characters"
  const EmailHelp := "We'll never share your email"
  const EmailErrorHelp := "Please enter a valid email address"

  /** The props the form passes to its name field. */
  function NameFieldProps(name: string, nameError: bool, onChange: Handler): TextFieldProps {
    NoProps.(testId := Some("interactive-name"), labelText := Some("Full Name"),
             value := Some(name), onChange := Some(onChange), error := Some(nameError),
             required := Some(true), placeholder := Some("John Doe"),
             helperText := Some(if nameError then NameErrorHelp else NameHelp))
  }

  /** The props the form passes to its email field. */
  function EmailFieldProps(email: string, emailError: bool, onChange: Handler): TextFieldProps {
    NoProps.(testId := Some("interactive-email"), labelText := Some("Email Address"),
             inputType := Some(Email), value := Some(email), onChange := Some(onChange),
             error := Some(emailError), required := Some(true),
             placeholder := Some("john@example.com"),
             helperText := Some(if emailError then EmailErrorHelp else EmailHelp))
  }

  /** The name field is controlled by the form: it shows the stored name whatever
      its own internal value, is marked invalid exactly when the name's error flag
      is set, is required, and always shows a helper text that the flag selects. */
  lemma NameFieldShowsFormState(name: string, nameError: bool, h: Handler, styles: Styles,
                                internalValue: string, inputId: ElementId, helperTextId: ElementId)
    ensures var v := Render(NameFieldProps(name, nameError, h), styles, internalValue, inputId, helperTextId);
      && v.input.value == name && v.input.ariaInvalid == nameError && v.input.required
      && v.helper.Some? && v.input.ariaDescribedBy == Some(v.helper.value.id)
      && v.helper.value.text == (if nameError then NameErrorHelp else NameHelp)
      && v.helper.value.testId == "interactive-name-helper" && v.input.testId == "interactive-name-input"
  {
    var p := NameFieldProps(name, nameError, h);
    assert ShowsHelper(p);
    assert Resolve(p).error == nameError && Resolve(p).required;
    FormTestIds();
  }

  /** The email field is controlled by the form in the same way, with the email
      input type. */
  lemma EmailFieldShowsFormState(email: string, emailError: bool, h: Handler, styles: Styles,
                                 internalValue: string, inputId: ElementId, helperTextId: ElementId)
    ensures var v := Render(EmailFieldProps(email, emailError, h), styles, internalValue, inputId, helperTextId);
      && v.input.value == email && v.input.ariaInvalid == emailError && v.input.required
      && v.input.inputType == Email
      && v.helper.Some? && v.input.ariaDescribedBy == Some(v.helper.value.id)
      && v.helper.value.text == (if emailError then EmailErrorHelp else EmailHelp)
      && v.helper.value.testId == "interactive-email-helper" && v.input.testId == "interactive-email-input"
  {
    var p := EmailFieldProps(email, emailError, h);
    assert ShowsHelper(p);
    assert Resolve(p).error == emailError && Resolve(p).required && Resolve(p).inputType == Email;
    FormTestIds();
  }

  /** The test ids the page's end-to-end test looks up. */
  lemma FormTestIds()
    ensures InputTestId(Some("interactive-name")) == "interactive-name-input"
    ensures HelperTestId(Some("interactive-name")) == "interactive-name-helper"
    ensures InputTestId(Some("interactive-email")) == "interactive-email-input"
    ensures HelperTestId(Some("interactive-email")) == "interactive-email-helper"
  {
  }

  /** `InteractiveExample`'s four state cells. `submissions` records the name and
      email of every submit that got past the gate (the page then shows an alert). */
  class InteractiveExample {
    var name: string
    var email: string
    var nameError: bool
    var emailError: bool
    ghost var submissions: seq<(string, string)>

    constructor ()
      ensures name == "" && email == "" && !nameError && !emailError && submissions == []
    {
      name, email := "", "";
      nameError, emailError := false, false;
      submissions := [];
    }

    /** `validateName`: stores and returns the verdict. */
    method ValidateName(value: string) returns (hasError: bool)
      modifies this`nameError
      ensures hasError == NameHasError(value) && nameError == hasError
    {
      hasError := Utf16Length(value) < 2;
      nameError := hasError;
    }

    /** `validateEmail`: stores and returns the verdict. */
    method ValidateEmail(value: string) returns (hasError: bool)
      modifies this`emailError
      ensures hasError == EmailHasError(value) && emailError == hasError
    {
      hasError := !MatchesEmailPattern(value) && Utf16Length(value) > 0;
      emailError := hasError;
    }

    /** `handleNameChange`: the stored name and its error flag follow the new value. */
    method HandleNameChange(value: string)
      modifies this`name, this`nameError
      ensures name == value && nameError == NameHasError(value)
    {
      name := value;
      var _ := ValidateName(value);
    }

    /** `handleEmailChange`: the stored email and its error flag follow the new value. */
    method HandleEmailChange(value: string)
      modifies this`email, this`emailError
      ensures email == value && emailError == EmailHasError(value)
    {
      email := value;
      var _ := ValidateEmail(value);
    }

    /** `handleSubmit`: re-validates both stored values and submits only when
      neither validator reports an error. */
    method HandleSubmit() returns (submitted: bool)
      modifies this`nameError, this`emailError, this`submissions
      ensures nameError == NameHasError(name) && emailError == EmailHasError(email)
      ensures submitted == CanSubmit(name, email)
      ensures submissions == old(submissions) + (if submitted then [(name, email)] else [])
    {
      var nameHasError := ValidateName(name);
      var emailHasError := ValidateEmail(email);
      submitted := !nameHasError && !emailHasError;
      if submitted {
        submissions := submissions + [(name, email)];
      }
    }
  }

  /** The page's end-to-end scenario, replayed on the model as verified methods:
      a short name and then a good one, a bad email and then a good one, and a
      submit of the good pair. */
  method NameValidationScenario() {
    var form := new InteractiveExample();
    form.HandleNameChange("A");
    assert form.nameError by { NameExamples(); }
    form.HandleNameChange("John Doe");
    assert !form.nameError by { NameExamples(); }
  }

  method EmailValidationScenario() {
    var form := new InteractiveExample();
    form.HandleEmailChange("invalid-email");
    assert form.emailError by { InvalidEmailRejected(); }
    form.HandleEmailChange("john@example.com");
    assert !form.emailError by { GoodEmailAccepted(); }
  }

  method SubmitScenario() {
    var form := new InteractiveExample();
    form.HandleNameChange("John Doe");
    form.HandleEmailChange("john@example.com");
    ExampleFormSubmits();
    assert CanSubmit(form.name, form.email);
    var submitted := form.HandleSubmit();
    assert submitted;
  }
}
