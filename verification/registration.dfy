/** The rules of the four-step registration wizard: the per-step validators, the step counter
    clamped to 1..4, and the guards of the postal-code (CEP), school-code (INEP) and email
    lookups. The wizard's state (`currentStep`, `formData`, `emailError`) is a class; the
    answers of the address service, the school service and the email check are parameters,
    `None` standing for a request that failed. */
module Registration {
  import opened Common

  // ---------------------------------------------------------------------------------------
  // JavaScript string helpers

  /** The characters `String.prototype.trim` removes: white space (tab, vertical tab, form
      feed, space, no-break space, byte order mark and the Unicode space separators) and line
      terminators. */
  predicate IsWhitespace(c: char) {
    c == '\t' || c == '\n' || c == '\U{000B}' || c == '\U{000C}' || c == '\r' || c == ' ' ||
    c == '\U{00A0}' || c == '\U{1680}' || ('\U{2000}' <= c <= '\U{200A}') ||
    c == '\U{2028}' || c == '\U{2029}' || c == '\U{202F}' || c == '\U{205F}' ||
    c == '\U{3000}' || c == '\U{FEFF}'
  }

  /** `s` without its leading white space. */
  function TrimStart(s: string): (r: string)
    ensures |r| <= |s| && r == s[|s| - |r|..]
    ensures forall i :: 0 <= i < |s| - |r| ==> IsWhitespace(s[i])
    ensures r != [] ==> !IsWhitespace(r[0])
  {
    if s != [] && IsWhitespace(s[0]) then TrimStart(s[1..]) else s
  }

  /** `s` without its trailing white space. */
  function TrimEnd(s: string): (r: string)
    ensures |r| <= |s| && r == s[..|r|]
    ensures forall i :: |r| <= i < |s| ==> IsWhitespace(s[i])
    ensures r != [] ==> !IsWhitespace(r[|r| - 1])
  {
    if s != [] && IsWhitespace(s[|s| - 1]) then TrimEnd(s[..|s| - 1]) else s
  }

  /** `s.trim()`. */
  function Trim(s: string): (r: string)
    ensures |r| <= |s|
    ensures r != [] ==> !IsWhitespace(r[0]) && !IsWhitespace(r[|r| - 1])
  {
    TrimEnd(TrimStart(s))
  }

  /** `!s.trim()`: the trimmed string is empty, so falsy. */
  predicate IsBlank(s: string) {
    Trim(s) == ""
  }

  /** A string is blank exactly when every character of it is white space. */
  lemma BlankIffAllWhitespace(s: string)
    ensures IsBlank(s) <==> forall i :: 0 <= i < |s| ==> IsWhitespace(s[i])
  {
    var t := TrimStart(s);
    var d := |s| - |t|;
    if Trim(s) == "" {
      assert t == [];
    }
  }

  /** A string containing '@' is never blank, so the emptiness test on the email in step 1
      adds nothing to the '@' test. */
  lemma AtSignIsNotBlank(email: string)
    requires '@' in email
    ensures !IsBlank(email)
  {
    var k :| 0 <= k < |email| && email[k] == '@';
    BlankIffAllWhitespace(email);
    assert !IsWhitespace(email[k]);
  }

  /** `s.length`: the number of UTF-16 code units, two for a character beyond the Basic
      Multilingual Plane. */
  function Utf16Length(s: string): (n: nat)
    ensures |s| <= n <= 2 * |s|
  {
    if s == [] then 0
    else Utf16Length(s[..|s| - 1]) + (if s[|s| - 1] as int >= 0x1_0000 then 2 else 1)
  }

  /** A character matched by `\d`. */
  predicate IsDigit(c: char) {
    '0' <= c <= '9'
  }

  /** `s.replace(/\D/g, '')`: the digits of `s`, in order. */
  function DigitsOnly(s: string): (r: string)
    ensures forall i :: 0 <= i < |r| ==> IsDigit(r[i])
    ensures forall i :: 0 <= i < |s| && IsDigit(s[i]) ==> s[i] in r
    ensures |r| <= |s|
    ensures IsSubsequence(r, s)
    ensures forall c :: multiset(r)[c] == (if IsDigit(c) then multiset(s)[c] else 0)
  {
    FilterIsSubsequence(s, IsDigit);
    FilterCounts(s, IsDigit);
    Filter(s, IsDigit)
  }

  /** Cleaning an already clean code changes nothing. */
  lemma DigitsOnlyIdempotent(s: string)
    ensures DigitsOnly(DigitsOnly(s)) == DigitsOnly(s)
  {
    FilterAll(DigitsOnly(s), IsDigit);
  }

  /** The guard of the CEP and INEP lookups: the cleaned code when exactly 8 digits remain
      (digits are one UTF-16 unit each), otherwise no lookup. */
  function LookupCode(code: string): (r: Option<string>)
    ensures r.Some? <==> |DigitsOnly(code)| == 8
    ensures r.Some? ==> r.value == DigitsOnly(code) && Utf16Length(r.value) == 8
  {
    var clean := DigitsOnly(code);
    Utf16OfDigits(clean);
    if Utf16Length(clean) != 8 then None else Some(clean)
  }

  /** A string of digits has one UTF-16 unit per character. */
  lemma {:induction false} Utf16OfDigits(s: string)
    requires forall i :: 0 <= i < |s| ==> IsDigit(s[i])
    ensures Utf16Length(s) == |s|
  {
    if s != [] {
      Utf16OfDigits(s[..|s| - 1]);
    }
  }

  /** A code typed with a separator between its digit groups, as in "01310-100", is looked
      up by its eight digits. */
  lemma SeparatedCodeIsLookedUp(head: string, sep: char, tail: string)
    requires forall i :: 0 <= i < |head| ==> IsDigit(head[i])
    requires forall i :: 0 <= i < |tail| ==> IsDigit(tail[i])
    requires |head| + |tail| == 8 && !IsDigit(sep)
    ensures LookupCode(head + [sep] + tail) == Some(head + tail)
  {
    var code := head + [sep] + tail;
    FilterSnoc(head, sep, IsDigit);
    FilterAll(head, IsDigit);
    assert Filter(head + [sep], IsDigit) == head;
    FilterAll(tail, IsDigit);
    FilterAppend(head + [sep], tail, IsDigit);
    assert DigitsOnly(code) == head + tail;
  }

  // ---------------------------------------------------------------------------------------
  // The form and its validation

  datatype FormData = FormData(
    name: string, email: string, password: string, confirmPassword: string, phone: string,
    role: string, address: string, city: string, zipCode: string, state: string,
    neighborhood: string, cpf: string, emergencyContact: string, medicalInfo: string,
    schoolInep: string, schoolName: string, acceptTerms: bool)

  /** The initial form: every text field empty, terms not accepted. */
  const EmptyForm := FormData("", "", "", "", "", "", "", "", "", "", "", "", "", "", "", "", false)

  const TOTAL_STEPS := 4
  const EMAIL_TAKEN := "Este email já está cadastrado. Tente fazer login."

  /** `validateCurrentStep` for step `step`: the checks of that step in the order the wizard
      makes them, the first failing one answering false. */
  function StepValid(step: int, form: FormData, emailError: string): (ok: bool)
    ensures step == 1 ==> (ok <==>
      !IsBlank(form.name) && !IsBlank(form.email) && '@' in form.email && emailError == "" &&
      Utf16Length(form.password) >= 6 && form.password == form.confirmPassword)
    ensures step == 2 ==> (ok <==> !IsBlank(form.address) && !IsBlank(form.city))
    ensures step == 3 ==> (ok <==> form.role != "")
    ensures step == 4 ==> (ok <==> form.acceptTerms)
    ensures step !in {1, 2, 3, 4} ==> ok
  {
    if step == 1 then
      if IsBlank(form.name) then false
      else if IsBlank(form.email) || '@' !in form.email then false
      else if emailError != "" then false
      else if Utf16Length(form.password) < 6 then false
      else if form.password != form.confirmPassword then false
      else true
    else if step == 2 then
      if IsBlank(form.address) then false
      else if IsBlank(form.city) then false
      else true
    else if step == 3 then
      if form.role == "" then false else true
    else if step == 4 then
      if !form.acceptTerms then false else true
    else true
  }

  /** Only the current step is checked: at the last step a form with no name passes. */
  lemma LastStepIgnoresEarlierSteps(form: FormData, emailError: string)
    requires form.acceptTerms && form.name == ""
    ensures StepValid(4, form, emailError)
    ensures !StepValid(1, form, emailError)
  {
  }

  // ---------------------------------------------------------------------------------------
  // Lookup answers

  /** The fields of an address-service answer used by the wizard; absent fields are `None`. */
  datatype CepResponse = CepResponse(
    erro: bool, logradouro: Option<string>, localidade: Option<string>,
    uf: Option<string>, bairro: Option<string>)

  /** The school-service answer. */
  datatype SchoolResult = SchoolResult(valid: bool, schoolName: string)

  /** `x || ''` for an optional string. */
  function OrEmpty(x: Option<string>): (r: string)
    ensures x.Some? ==> r == x.value
    ensures x.None? ==> r == ""
  {
    x.GetOr("")
  }

  /** The form after a successful address lookup: the street followed by ", " (nothing when
      the street is absent or empty), and city, state and neighbourhood or empty strings. */
  function WithAddress(form: FormData, data: CepResponse): (r: FormData)
    ensures r.address == (if data.logradouro.Some? && data.logradouro.value != ""
                          then data.logradouro.value + ", " else "")
    ensures r.city == OrEmpty(data.localidade) && r.state == OrEmpty(data.uf)
    ensures r.neighborhood == OrEmpty(data.bairro)
    ensures r.(address := form.address, city := form.city, state := form.state,
               neighborhood := form.neighborhood) == form
  {
    form.(address := if data.logradouro.Some? && data.logradouro.value != ""
                     then data.logradouro.value + ", " else "",
          city := OrEmpty(data.localidade), state := OrEmpty(data.uf),
          neighborhood := OrEmpty(data.bairro))
  }

  /** An address found with a street and a city passes step 2. */
  lemma FoundAddressPassesStepTwo(form: FormData, data: CepResponse, emailError: string)
    requires data.logradouro.Some? && data.logradouro.value != ""
    requires data.localidade.Some? && !IsBlank(data.localidade.value)
    ensures StepValid(2, WithAddress(form, data), emailError)
  {
    var address := data.logradouro.value + ", ";
    BlankIffAllWhitespace(address);
    assert address[|address| - 2] == ',';
  }

  // ---------------------------------------------------------------------------------------
  // The wizard

  class RegisterWizard {
    var currentStep: int
    var formData: FormData
    var emailError: string

    /** The step counter stays within 1..4. */
    ghost predicate Valid()
      reads this
    {
      1 <= currentStep <= TOTAL_STEPS
    }

    constructor ()
      ensures Valid()
      ensures currentStep == 1 && formData == EmptyForm && emailError == ""
    {
      currentStep := 1;
      formData := EmptyForm;
      emailError := "";
    }

    /** `validateCurrentStep`. */
    function ValidateCurrentStep(): (valid: bool)
      reads this
      ensures currentStep == 1 && emailError != "" ==> !valid
      ensures currentStep == 2 ==> (valid <==> !IsBlank(formData.address) && !IsBlank(formData.city))
      ensures currentStep == 4 ==> (valid <==> formData.acceptTerms)
    {
      StepValid(currentStep, formData, emailError)
    }

    /** `nextStep`: advances one step, never beyond the last, and only when the current step
        is valid. */
    method NextStep()
      requires Valid()
      modifies this
      ensures Valid()
      ensures old(ValidateCurrentStep()) ==>
        currentStep == (if old(currentStep) + 1 < TOTAL_STEPS then old(currentStep) + 1 else TOTAL_STEPS)
      ensures !old(ValidateCurrentStep()) ==> currentStep == old(currentStep)
      ensures formData == old(formData) && emailError == old(emailError)
    {
      if ValidateCurrentStep() {
        currentStep := if currentStep + 1 < TOTAL_STEPS then currentStep + 1 else TOTAL_STEPS;
      }
    }

    /** `prevStep`: goes back one step, never before the first. */
    method PrevStep()
      requires Valid()
      modifies this
      ensures Valid()
      ensures currentStep == if old(currentStep) - 1 > 1 then old(currentStep) - 1 else 1
      ensures formData == old(formData) && emailError == old(emailError)
    {
      currentStep := if currentStep - 1 > 1 then currentStep - 1 else 1;
    }

    /** `fetchAddressByCep(cep)`: looks up only a code with exactly 8 digits, and fills in the
        address fields when the service answers without `erro`. Returns the code looked up. */
    method FetchAddressByCep(cep: string, response: Option<CepResponse>) returns (lookedUp: Option<string>)
      modifies this
      ensures lookedUp == LookupCode(cep)
      ensures formData == if lookedUp.Some? && response.Some? && !response.value.erro
                          then WithAddress(old(formData), response.value) else old(formData)
      ensures currentStep == old(currentStep) && emailError == old(emailError)
    {
      lookedUp := LookupCode(cep);
      if lookedUp.None? {
        return;
      }
      if response.Some? && !response.value.erro {
        formData := WithAddress(formData, response.value);
      }
    }

    /** `validateSchool(inep)`: looks up only a code with exactly 8 digits, and records the
        school name when the service reports it valid. Returns the code looked up. */
    method ValidateSchool(inep: string, result: Option<SchoolResult>) returns (lookedUp: Option<string>)
      modifies this
      ensures lookedUp == LookupCode(inep)
      ensures formData == if lookedUp.Some? && result.Some? && result.value.valid
                          then old(formData).(schoolName := result.value.schoolName) else old(formData)
      ensures currentStep == old(currentStep) && emailError == old(emailError)
    {
      lookedUp := LookupCode(inep);
      if lookedUp.None? {
        return;
      }
      if result.Some? && result.value.valid {
        formData := formData.(schoolName := result.value.schoolName);
      }
    }

    /** `checkEmailExists(email)`: skipped without '@'; otherwise clears the error and sets it
        again when the backend reports the email as taken (a failed request leaves it clear). */
    method CheckEmailExists(email: string, reported: Option<bool>)
      modifies this
      ensures '@' !in email ==> emailError == old(emailError)
      ensures '@' in email ==> emailError == (if reported == Some(true) then EMAIL_TAKEN else "")
      ensures currentStep == old(currentStep) && formData == old(formData)
    {
      if '@' !in email {
        return;
      }
      emailError := "";
      if reported == Some(true) {
        emailError := EMAIL_TAKEN;
      }
    }

    /** `handleSubmit`: submits only when the current step, and no other, is valid. */
    method HandleSubmit() returns (submits: bool)
      ensures submits <==> StepValid(currentStep, formData, emailError)
    {
      submits := ValidateCurrentStep();
    }
  }

  /** Once a taken email is reported, step 1 fails until a later check clears it. */
  lemma TakenEmailBlocksStepOne(form: FormData)
    ensures !StepValid(1, form, EMAIL_TAKEN)
  {
  }
}
