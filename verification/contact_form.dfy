/** The contact-form validators: Front-end/scripts/validation.js (name restricted to
    letters and spaces) and scripts/validation.js (name only required). Inputs are the raw
    field values; each validator trims as the scripts do. */
module ContactForm {
  import opened Wrappers

  /** The characters JavaScript's `String.prototype.trim` removes and regex `\s` matches:
      WhiteSpace and LineTerminator of the ECMAScript grammar. */
  predicate IsJsSpace(c: char) {
    || c == '\t' || c == '\n' || c == '\U{000B}' || c == '\U{000C}' || c == '\r' || c == ' '
    || c == '\U{00A0}' || c == '\U{1680}' || ('\U{2000}' <= c <= '\U{200A}')
    || c == '\U{2028}' || c == '\U{2029}' || c == '\U{202F}' || c == '\U{205F}'
    || c == '\U{3000}' || c == '\U{FEFF}'
  }

  predicate AllSpace(s: string) {
    forall k :: 0 <= k < |s| ==> IsJsSpace(s[k])
  }

  /** The index of the first non-whitespace character at or after `from`, or `|s|`. */
  function FirstNonSpace(s: string, from: nat): (i: nat)
    requires from <= |s|
    ensures from <= i <= |s|
    ensures forall k :: from <= k < i ==> IsJsSpace(s[k])
    ensures i < |s| ==> !IsJsSpace(s[i])
    decreases |s| - from
  {
    if from < |s| && IsJsSpace(s[from]) then FirstNonSpace(s, from + 1) else from
  }

  /** The end of `s[lo..hi]` once its trailing whitespace is dropped. */
  function EndOfContent(s: string, lo: nat, hi: nat): (e: nat)
    requires lo <= hi <= |s|
    ensures lo <= e <= hi
    ensures forall k :: e <= k < hi ==> IsJsSpace(s[k])
    ensures e > lo ==> !IsJsSpace(s[e - 1])
    decreases hi
  {
    if hi > lo && IsJsSpace(s[hi - 1]) then EndOfContent(s, lo, hi - 1) else hi
  }

  /** `value.trim()`: the middle part of `s` left after dropping whitespace on both ends. */
  function Trim(s: string): (r: string)
    ensures var i := FirstNonSpace(s, 0);
            i + |r| <= |s| && r == s[i..i + |r|] && AllSpace(s[..i]) && AllSpace(s[i + |r|..])
    ensures |r| > 0 ==> !IsJsSpace(r[0]) && !IsJsSpace(r[|r| - 1])
    ensures r == "" <==> AllSpace(s)
  {
    var i := FirstNonSpace(s, 0);
    var e := EndOfContent(s, i, |s|);
    assert AllSpace(s[..i]) by {
      forall k | 0 <= k < i ensures IsJsSpace(s[..i][k]) { assert s[..i][k] == s[k]; }
    }
    assert AllSpace(s[e..]) by {
      forall k | 0 <= k < |s| - e ensures IsJsSpace(s[e..][k]) { assert s[e..][k] == s[e + k]; }
    }
    assert i < |s| ==> !AllSpace(s) by {
      if i < |s| { assert !IsJsSpace(s[i]); }
    }
    s[i..e]
  }

  lemma TrimIdempotent(s: string)
    ensures Trim(Trim(s)) == Trim(s)
  {
    var t := Trim(s);
    if |t| > 0 {
      assert FirstNonSpace(t, 0) == 0;
      assert EndOfContent(t, 0, |t|) == |t|;
      assert t[0..|t|] == t;
    }
  }

  /** A field's state after validation: `is-valid`, or `is-invalid` with the feedback text
      written (`None` when the script leaves the feedback element as it was). */
  datatype Mark = Valid | Invalid(feedback: Option<string>)

  /** The raw values of the four fields. */
  datatype ContactFields = ContactFields(name: string, email: string, subject: string, message: string)

  /** The two copies of the script. */
  datatype Variant = FrontEnd | Site

  datatype FormResult = FormResult(name: Mark, email: Mark, subject: Mark, message: Mark) {
    predicate Ok() {
      name.Valid? && email.Valid? && subject.Valid? && message.Valid?
    }
  }

  const NameFeedback := "El nombre completo solo puede contener letras y espacios."
  const EmailRequired := "El correo electrónico es obligatorio."
  const EmailMalformed := "Introduce un formato de correo electrónico válido (ej: usuario@dominio.com)."
  const MessageRequired := "El mensaje es obligatorio."
  const MessageTooShort := "El mensaje debe tener al menos 10 caracteres."
  const MinMessageLength := 10

  /** A character of the Front-end name pattern `[A-Za-zÑñáéíóúÁÉÍÓÚ\s]`. */
  predicate IsNameChar(c: char) {
    || ('A' <= c <= 'Z') || ('a' <= c <= 'z')
    || c in {'Ñ', 'ñ', 'á', 'é', 'í', 'ó', 'ú', 'Á', 'É', 'Í', 'Ó', 'Ú'}
    || IsJsSpace(c)
  }

  predicate AllNameChars(s: string) {
    forall k :: 0 <= k < |s| ==> IsNameChar(s[k])
  }

  /** The name rule of each variant: both require a non-blank value; the Front-end one also
      rejects any character outside letters, the Spanish accented vowels, Ñ/ñ and spaces. */
  function CheckName(v: Variant, raw: string): (m: Mark)
    ensures m.Valid? <==> !AllSpace(raw) && (v == FrontEnd ==> AllNameChars(Trim(raw)))
    ensures AllSpace(raw) ==> m == Invalid(None)
    ensures m.Invalid? && !AllSpace(raw) ==> v == FrontEnd && m == Invalid(Some(NameFeedback))
  {
    var t := Trim(raw);
    if t == "" then Invalid(None)
    else if v == FrontEnd && !AllNameChars(t) then Invalid(Some(NameFeedback))
    else Valid
  }

  /** Neither whitespace nor '@': a character of `[^\s@]`. */
  predicate Plain(c: char) {
    !IsJsSpace(c) && c != '@'
  }

  predicate AllPlain(s: string) {
    forall k :: 0 <= k < |s| ==> Plain(s[k])
  }

  /** The language of `/^[^\s@]+@[^\s@]+\.[^\s@]+$/`. */
  ghost predicate MatchesEmailPattern(s: string) {
    exists i, j :: && 0 < i && i + 1 < j && j + 1 < |s|
                   && s[i] == '@' && s[j] == '.'
                   && AllPlain(s[..i]) && AllPlain(s[i + 1..j]) && AllPlain(s[j + 1..])
  }

  /** The position of the first `c` in `s`, or `|s|` when there is none. */
  function IndexOf(s: string, c: char): (i: nat)
    ensures i <= |s|
    ensures i < |s| ==> s[i] == c
    ensures forall k :: 0 <= k < i ==> s[k] != c
    decreases |s|
  {
    if |s| == 0 then 0
    else if s[0] == c then 0
    else 1 + IndexOf(s[1..], c)
  }

  /** The email shape, stated directly: exactly one '@', not first, no whitespace anywhere,
      and a '.' after the '@' that is neither the first nor the last character of the
      domain part. */
  predicate EmailShape(s: string) {
    var at := IndexOf(s, '@');
    && 0 < at < |s|
    && (forall k :: 0 <= k < |s| ==> !IsJsSpace(s[k]))
    && (forall k :: at < k < |s| ==> s[k] != '@')
    && (exists j :: at + 1 < j < |s| - 1 && s[j] == '.')
  }

  /** The direct statement and the regular expression accept the same strings. */
  lemma EmailShapeIsPattern(s: string)
    ensures EmailShape(s) <==> MatchesEmailPattern(s)
  {
    if EmailShape(s) {
      ShapeMatches(s);
    }
    if MatchesEmailPattern(s) {
      var i, j :| && 0 < i && i + 1 < j && j + 1 < |s|
                  && s[i] == '@' && s[j] == '.'
                  && AllPlain(s[..i]) && AllPlain(s[i + 1..j]) && AllPlain(s[j + 1..]);
      MatchHasShape(s, i, j);
    }
  }

  lemma ShapeMatches(s: string)
    requires EmailShape(s)
    ensures MatchesEmailPattern(s)
  {
    var at := IndexOf(s, '@');
    var j :| at + 1 < j < |s| - 1 && s[j] == '.';
    assert AllPlain(s[..at]);
    assert AllPlain(s[at + 1..j]);
    assert AllPlain(s[j + 1..]);
  }

  lemma MatchHasShape(s: string, i: int, j: int)
    requires && 0 < i && i + 1 < j && j + 1 < |s|
             && s[i] == '@' && s[j] == '.'
             && AllPlain(s[..i]) && AllPlain(s[i + 1..j]) && AllPlain(s[j + 1..])
    ensures EmailShape(s)
  {
    assert forall k :: 0 <= k < i ==> s[k] == s[..i][k];
    assert forall k :: i < k < j ==> s[k] == s[i + 1..j][k - i - 1];
    assert forall k :: j < k < |s| ==> s[k] == s[j + 1..][k - j - 1];
    assert IndexOf(s, '@') == i;
  }

  function CheckEmail(raw: string): (m: Mark)
    ensures m.Valid? <==> MatchesEmailPattern(Trim(raw))
    ensures m.Invalid? ==> m.feedback == Some(if AllSpace(raw) then EmailRequired else EmailMalformed)
  {
    var t := Trim(raw);
    EmailShapeIsPattern(t);
    if !EmailShape(t) then Invalid(Some(if t == "" then EmailRequired else EmailMalformed))
    else Valid
  }

  /** The subject `<select>` value is compared untrimmed: only the empty value is invalid. */
  function CheckSubject(value: string): (m: Mark)
    ensures m.Valid? <==> value != ""
    ensures m.Invalid? ==> m.feedback.None?
  {
    if value == "" then Invalid(None) else Valid
  }

  /** `.length` of a JavaScript string: characters outside the Basic Multilingual Plane take
      two UTF-16 code units. */
  function Utf16Length(s: string): (n: nat)
    ensures |s| <= n <= 2 * |s|
  {
    if |s| == 0 then 0 else (if s[0] as int > 0xFFFF then 2 else 1) + Utf16Length(s[1..])
  }

  function CheckMessage(raw: string): (m: Mark)
    ensures m.Valid? <==> Utf16Length(Trim(raw)) >= MinMessageLength
    ensures m.Invalid? ==> m.feedback == Some(if AllSpace(raw) then MessageRequired else MessageTooShort)
  {
    var t := Trim(raw);
    if Utf16Length(t) < MinMessageLength then Invalid(Some(if t == "" then MessageRequired else MessageTooShort))
    else Valid
  }

  /** `validateForm`: every field is checked (no short-circuit), each ends up marked valid
      or invalid by its own rule, and the form is valid exactly when all four are. */
  function ValidateForm(v: Variant, f: ContactFields): (r: FormResult)
    ensures r.name == CheckName(v, f.name) && r.email == CheckEmail(f.email)
    ensures r.subject == CheckSubject(f.subject) && r.message == CheckMessage(f.message)
    ensures r.Ok() <==> && !AllSpace(f.name) && (v == FrontEnd ==> AllNameChars(Trim(f.name)))
                        && MatchesEmailPattern(Trim(f.email))
                        && f.subject != ""
                        && Utf16Length(Trim(f.message)) >= MinMessageLength
  {
    FormResult(CheckName(v, f.name), CheckEmail(f.email), CheckSubject(f.subject), CheckMessage(f.message))
  }

  /** The submit listener: the browser's submission is prevented exactly when the form is
      invalid, that is, when at least one field breaks its own rule. */
  function SubmitPrevented(v: Variant, f: ContactFields): (prevented: bool)
    ensures prevented <==> !ValidateForm(v, f).Ok()
    ensures prevented <==> || AllSpace(f.name)
                           || (v == FrontEnd && !AllNameChars(Trim(f.name)))
                           || !MatchesEmailPattern(Trim(f.email))
                           || f.subject == ""
                           || Utf16Length(Trim(f.message)) < MinMessageLength
  {
    var r := ValidateForm(v, f);
    !(r.name.Valid? && r.email.Valid? && r.subject.Valid? && r.message.Valid?)
  }

  /** The Front-end copy is the stricter one: whatever it accepts the other copy accepts,
      with identical marks on email, subject and message. */
  lemma FrontEndStricter(f: ContactFields)
    ensures ValidateForm(FrontEnd, f).Ok() ==> ValidateForm(Site, f).Ok()
    ensures ValidateForm(FrontEnd, f).email == ValidateForm(Site, f).email
    ensures ValidateForm(FrontEnd, f).message == ValidateForm(Site, f).message
  {
  }

  /** A value with no whitespace at either end is its own trim. */
  lemma TrimUnpadded(s: string)
    requires |s| > 0 && !IsJsSpace(s[0]) && !IsJsSpace(s[|s| - 1])
    ensures Trim(s) == s
  {
    assert FirstNonSpace(s, 0) == 0;
    assert EndOfContent(s, 0, |s|) == |s|;
    assert s[0..|s|] == s;
  }

  lemma SampleEmailValid()
    ensures MatchesEmailPattern(Trim("ana@spa.mx"))
  {
    SampleEmailMatches();
    TrimUnpadded("ana@spa.mx");
  }

  lemma SampleEmailMatches()
    ensures MatchesEmailPattern("ana@spa.mx")
  {
    var e := "ana@spa.mx";
    assert e[..3] == "ana" && e[4..7] == "spa" && e[8..] == "mx";
    assert AllPlain(e[..3]) && AllPlain(e[4..7]) && AllPlain(e[8..]);
    assert e[3] == '@' && e[7] == '.';
  }

  lemma SampleMessageLongEnough()
    ensures Utf16Length(Trim("Quiero una cita")) >= MinMessageLength
  {
    TrimUnpadded("Quiero una cita");
  }

  lemma SampleNameMarks()
    ensures CheckName(Site, "Ana 2") == Valid
    ensures CheckName(FrontEnd, "Ana 2").Invalid?
  {
    SampleNameLetters();
    TrimUnpadded("Ana 2");
  }

  lemma SampleNameLetters()
    ensures !AllSpace("Ana 2") && !AllNameChars("Ana 2")
  {
    var name := "Ana 2";
    assert !IsJsSpace(name[0]);
    assert !IsNameChar(name[4]);
  }

  /** ...and strictly so: a name with a digit passes one copy and not the other. */
  lemma FrontEndStrictlyStricter()
    ensures var f := ContactFields("Ana 2", "ana@spa.mx", "citas", "Quiero una cita");
            ValidateForm(Site, f).Ok() && !ValidateForm(FrontEnd, f).Ok()
  {
    SampleNameMarks();
    SampleEmailValid();
    SampleMessageLongEnough();
  }
}
