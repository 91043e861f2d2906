/** The owner step (src/components/AccommodationForm/steps/OwnerStep.tsx):
    the name, email and phone validators, the blur bookkeeping and the gate on
    the step's Next ("Submit") button. */
module OwnerStep {
  import opened Wrappers
  import opened Text
  import opened FormTypes
  import opened Records

  /** `keyof OwnerData`. */
  datatype OwnerField = Name | Email | Phone

  const NameRequired := "Name is required"
  const NameLength := "Name must be between 4 and 64 characters"
  const EmailRequired := "Email is required"
  const EmailFormat := "Invalid email format"
  const PhoneFormat := "Phone must contain only numbers (max 9 digits)"

  // ---------------------------------------------------------------------
  // validateName
  // ---------------------------------------------------------------------

  /** `validateName`: required, then 4 to 64 characters of any content. */
  function ValidateName(name: string): (r: string)
    ensures r == "" <==> 4 <= |name| <= 64
    ensures name == "" ==> r == NameRequired
    ensures name != "" && r != "" ==> r == NameLength
  {
    if name == "" then NameRequired
    else if |name| < 4 || |name| > 64 then NameLength
    else ""
  }

  // ---------------------------------------------------------------------
  // validateEmail and the pattern ^[^\s@]+@[^\s@]+\.[^\s@]+$
  // ---------------------------------------------------------------------

  /** `[^\s@]`: any character that is neither whitespace nor '@'. */
  predicate Atom(c: char) {
    !IsJsWhitespace(c) && c != '@'
  }

  /** `[^\s@]+` matching exactly `s[lo..hi]`. */
  ghost predicate AtomRun(s: string, lo: int, hi: int) {
    0 <= lo < hi <= |s| && forall k :: lo <= k < hi ==> Atom(s[k])
  }

  /** The anchored pattern `^[^\s@]+@[^\s@]+\.[^\s@]+$` matches `s` with its
      '@' at index `at` and its literal '.' at index `dot`. */
  ghost predicate EmailMatchAt(s: string, at: int, dot: int) {
    && 0 < at < dot < |s|
    && AtomRun(s, 0, at) && s[at] == '@'
    && AtomRun(s, at + 1, dot) && s[dot] == '.'
    && AtomRun(s, dot + 1, |s|)
  }

  /** The email pattern matches `s` under some split. */
  ghost predicate MatchesEmailPattern(s: string) {
    exists at, dot :: EmailMatchAt(s, at, dot)
  }

  /** The shape the pattern describes, checked directly: no whitespace,
      exactly one '@', a non-empty local part before it, and a domain after
      it that contains a '.' which is neither its first nor its last
      character. */
  predicate EmailShaped(s: string) {
    var at := IndexOf(s, '@');
    && (forall k :: 0 <= k < |s| ==> !IsJsWhitespace(s[k]))
    && 0 < at < |s|
    && IndexOf(s[at + 1..], '@') == |s| - at - 1
    && HasInnerDot(s[at + 1..])
  }

  /** A '.' strictly inside `d`. */
  predicate HasInnerDot(d: string) {
    exists j :: 0 < j < |d| - 1 && d[j] == '.'
  }

  /** The direct check and the regular expression accept the same strings. */
  lemma {:induction false} EmailShapedIffPattern(s: string)
    ensures EmailShaped(s) <==> MatchesEmailPattern(s)
  {
    if EmailShaped(s) {
      var at := IndexOf(s, '@');
      var d := s[at + 1..];
      var j :| 0 < j < |d| - 1 && d[j] == '.';
      var dot := at + 1 + j;
      assert forall k :: at < k < |s| ==> s[k] == d[k - at - 1];
      assert forall k :: at < k < |s| ==> s[k] != '@';
      assert EmailMatchAt(s, at, dot);
    }
    if MatchesEmailPattern(s) {
      var at, dot :| EmailMatchAt(s, at, dot);
      assert forall k :: 0 <= k < |s| ==> !IsJsWhitespace(s[k]) by {
        forall k | 0 <= k < |s|
          ensures !IsJsWhitespace(s[k])
        {
          if k != at && k != dot {
            assert Atom(s[k]);
          }
        }
      }
      assert forall k :: 0 <= k < at ==> s[k] != '@';
      assert IndexOf(s, '@') == at;
      var d := s[at + 1..];
      assert forall k :: 0 <= k < |d| ==> d[k] == s[at + 1 + k];
      assert forall k :: 0 <= k < |d| ==> d[k] != '@' by {
        forall k | 0 <= k < |d|
          ensures d[k] != '@'
        {
          if at + 1 + k != dot {
            assert Atom(s[at + 1 + k]);
          }
        }
      }
      assert IndexOf(d, '@') == |d|;
      assert d[dot - at - 1] == '.';
      assert HasInnerDot(d);
    }
  }

  /** `validateEmail`: required, then the pattern. */
  function ValidateEmail(email: string): (r: string)
    ensures r == "" <==> MatchesEmailPattern(email)
    ensures email == "" ==> r == EmailRequired
    ensures email != "" && r != "" ==> r == EmailFormat
  {
    EmailShapedIffPattern(email);
    if email == "" then EmailRequired
    else if !EmailShaped(email) then EmailFormat
    else ""
  }

  /** Text without an '@' is not an email address. */
  lemma NoAtExample()
    ensures ValidateEmail("bad-email") == EmailFormat
  {
  }

  /** A plain address passes. */
  lemma PlainAddressExample()
    ensures ValidateEmail("a@b.es") == ""
  {
  }

  /** A domain whose only dot is its last character is refused. */
  lemma TrailingDotExample()
    ensures ValidateEmail("ana@host.") == EmailFormat
  {
  }

  // ---------------------------------------------------------------------
  // validatePhone and the pattern ^\d{1,9}$
  // ---------------------------------------------------------------------

  /** `^\d{1,9}$`: one to nine ASCII digits and nothing else. */
  predicate MatchesPhonePattern(s: string) {
    1 <= |s| <= 9 && AllDigits(s)
  }

  /** `validatePhone`: the empty phone is accepted; otherwise the pattern
      decides, with a single message for every failure. */
  function ValidatePhone(phone: string): (r: string)
    ensures r == "" <==> phone == "" || (|phone| <= 9 && AllDigits(phone))
    ensures r != "" ==> r == PhoneFormat
  {
    if phone == "" then ""
    else if !MatchesPhonePattern(phone) then PhoneFormat
    else ""
  }

  /** A phone with a letter in it is refused. */
  lemma PhoneWithLetterScenario()
    ensures ValidatePhone("12a45") == PhoneFormat
    ensures ValidatePhone("123456789") == ""
    ensures ValidatePhone("1234567890") == PhoneFormat
  {
    assert !IsDigit("12a45"[2]);
  }

  // ---------------------------------------------------------------------
  // Step-local state and handleBlur
  // ---------------------------------------------------------------------

  /** The step's local state: recorded errors and touched flags. */
  datatype StepState = StepState(errors: map<OwnerField, string>, touched: map<OwnerField, bool>)

  /** The state the step mounts with: no recorded error, nothing touched. */
  function InitialState(): (st: StepState)
    ensures st.errors == map[]
    ensures st.touched.Keys == {Name, Email, Phone}
    ensures forall f :: f in st.touched ==> !st.touched[f]
  {
    StepState(map[], map[Name := false, Email := false, Phone := false])
  }

  /** The validator `handleBlur` dispatches to for each field. */
  function ValidatorFor(field: OwnerField, value: string): string {
    match field
    case Name => ValidateName(value)
    case Email => ValidateEmail(value)
    case Phone => ValidatePhone(value)
  }

  /** `handleBlur(field, value)`: `value` is the text in the input as it loses
      focus. The field becomes touched and its recorded error becomes the
      matching validator's verdict on that text; every other entry is kept. */
  function Blur(st: StepState, field: OwnerField, value: string): (r: StepState)
    ensures field in r.touched && r.touched[field]
    ensures field in r.errors
    ensures field == Name ==> r.errors[field] == ValidateName(value)
    ensures field == Email ==> r.errors[field] == ValidateEmail(value)
    ensures field == Phone ==> r.errors[field] == ValidatePhone(value)
    ensures field == Name ==> (r.errors[field] == "" <==> 4 <= |value| <= 64)
    ensures field == Email ==> (r.errors[field] == "" <==> MatchesEmailPattern(value))
    ensures field == Phone ==> (r.errors[field] == "" <==> value == "" || MatchesPhonePattern(value))
    ensures forall g :: g != field ==> SameEntry(st.touched, r.touched, g) && SameEntry(st.errors, r.errors, g)
  {
    var error := ValidatorFor(field, value);
    StepState(st.errors[field := error], st.touched[field := true])
  }

  /** The malformed email "bad-email", once blurred, records the format
      message. */
  lemma BadEmailScenario(st: StepState)
    ensures Blur(st, Email, "bad-email").errors[Email] == EmailFormat
  {
  }

  // ---------------------------------------------------------------------
  // isValid and the Next button
  // ---------------------------------------------------------------------

  /** `isValid`: re-runs the three validators on the current data, an absent
      phone read as the empty text; the recorded errors play no part. */
  function IsValid(data: OwnerData): (r: bool)
    ensures r <==> && 4 <= |data.name| <= 64
                   && MatchesEmailPattern(data.email)
                   && (data.phone.GetOr("") == "" || MatchesPhonePattern(data.phone.GetOr("")))
  {
    var nameError := ValidateName(data.name);
    var emailError := ValidateEmail(data.email);
    var phoneError := ValidatePhone(data.phone.GetOr(""));
    nameError == "" && emailError == "" && phoneError == ""
  }

  /** `disabled={!isValid() || !touched}`: the touched record is an object,
      so the button is disabled exactly when the data is not valid, whatever
      has been touched. */
  function NextDisabled(data: OwnerData, st: StepState): (r: bool)
    ensures r <==> !(4 <= |data.name| <= 64 && MatchesEmailPattern(data.email)
                     && (data.phone.GetOr("") == "" || MatchesPhonePattern(data.phone.GetOr(""))))
  {
    !IsValid(data) || !ObjectIsTruthy(st.touched)
  }

  /** The owner gate depends on the data alone: two step states, however
      different their recorded errors or touched flags, give the same
      verdict. */
  lemma NextIgnoresStepState(data: OwnerData, st1: StepState, st2: StepState)
    ensures NextDisabled(data, st1) == NextDisabled(data, st2)
  {
  }
}
