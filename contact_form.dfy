/**
 * The contact form: field validation with per-field error elements and a
 * honeypot, conversion of the form data to a plain object, submission with
 * a loading state and success/error banners, and the banners' close buttons.
 *
 * The browser's constraint validation (required, minlength, pattern,
 * type=email) is not implemented by the form's script, so each control's
 * `validity.valid` is an input here. The network request is reduced to the
 * body it would carry and to its outcome.
 */
module ContactForm {
  import opened Wrappers

  /** The fields that have an error element. */
  datatype Field = Name | Email | Phone | Subject | Message | Privacy

  /** The error elements in the order validateForm resets them. */
  const AllFields: seq<Field> := [Name, Email, Phone, Subject, Message, Privacy]

  /** A form control as validation reads it: its value, `validity.valid` and `checked`. */
  datatype Control = Control(value: string, valid: bool, checked: bool)

  /** The controls validateForm receives; None is a control missing from the page. */
  datatype Controls = Controls(
    name: Option<Control>,
    email: Option<Control>,
    phone: Option<Control>,
    subject: Option<Control>,
    message: Option<Control>,
    privacyConsent: Option<Control>,
    botField: Option<Control>)

  /** A FormData entry: a string, or a file (which formDataToObject drops). */
  datatype EntryValue = Text(text: string) | File(fileName: string)
  datatype Entry = Entry(key: string, value: EntryValue)

  /** The three ways the POST can end. */
  datatype Outcome = Ok | NotOk | Thrown

  /** The part of the page the form's script writes. */
  datatype Page = Page(
    errorHidden: map<Field, bool>,   // the error elements present on the page; true when they carry `hidden`
    submitHidden: bool,
    loadingHidden: bool,
    successHidden: bool,
    errorBannerHidden: bool,
    entries: seq<Entry>,             // the form's current data set
    posted: seq<map<string, string>>) // the bodies sent to '/', oldest first

  // ---------------------------------------------------------------- validation

  /** The check of field f fails; a control missing from the page never fails. */
  predicate Fails(c: Controls, f: Field) {
    match f
    case Name => c.name.Some? && !c.name.value.valid
    case Email => c.email.Some? && !c.email.value.valid
    case Phone => c.phone.Some? && c.phone.value.value != "" && !c.phone.value.valid
    case Subject => c.subject.Some? && (c.subject.value.value == "" || !c.subject.value.valid)
    case Message => c.message.Some? && !c.message.value.valid
    case Privacy => c.privacyConsent.Some? && !c.privacyConsent.value.checked
  }

  /** The honeypot has been filled in. */
  predicate IsBot(c: Controls) {
    c.botField.Some? && c.botField.value.value != ""
  }

  /** When a submission is acceptable, stated control by control. */
  predicate Accepts(c: Controls) {
    && (c.name.None? || c.name.value.valid)
    && (c.email.None? || c.email.value.valid)
    && (c.phone.None? || c.phone.value.value == "" || c.phone.value.valid)
    && (c.subject.None? || (c.subject.value.value != "" && c.subject.value.valid))
    && (c.message.None? || c.message.value.valid)
    && (c.privacyConsent.None? || c.privacyConsent.value.checked)
    && (c.botField.None? || c.botField.value.value == "")
  }

  /** The error elements after validation: present ones visible exactly when their check fails. */
  function ErrorsAfter(before: map<Field, bool>, c: Controls): map<Field, bool> {
    map f | f in before :: !Fails(c, f)
  }

  /** The position of f's check in validateForm. */
  function Order(f: Field): nat {
    match f
    case Name => 0
    case Email => 1
    case Phone => 2
    case Subject => 3
    case Message => 4
    case Privacy => 5
  }

  /** The error elements once the first `done` checks have run after the reset. */
  predicate ShownAfter(m: map<Field, bool>, before: map<Field, bool>, c: Controls, done: nat) {
    && m.Keys == before.Keys
    && forall f :: f in m ==> m[f] == !(Order(f) < done && Fails(c, f))
  }

  /** Running the next check reveals its element exactly when it fails. */
  lemma ShownStep(before: map<Field, bool>, c: Controls, f: Field, m: map<Field, bool>, m': map<Field, bool>)
    requires ShownAfter(m, before, c, Order(f))
    requires m' == if Fails(c, f) && f in m then m[f := false] else m
    ensures ShownAfter(m', before, c, Order(f) + 1)
  {
  }

  /** The verdict as validateForm accumulates it, one check after another. */
  lemma AcceptsInOrder(c: Controls)
    ensures Accepts(c) == (!Fails(c, Name) && !Fails(c, Email) && !Fails(c, Phone) && !Fails(c, Subject)
      && !Fails(c, Message) && !Fails(c, Privacy) && !IsBot(c))
  {
  }

  /** After all six checks the elements are as the reference says. */
  lemma ShownAll(m: map<Field, bool>, before: map<Field, bool>, c: Controls)
    requires ShownAfter(m, before, c, 6)
    ensures m == ErrorsAfter(before, c)
  {
  }

  /** The verdict is the conjunction of the field checks and an empty honeypot. */
  lemma AcceptsIffNoFailure(c: Controls)
    ensures Accepts(c) <==> !IsBot(c) && forall f: Field :: !Fails(c, f)
  {
    if !Accepts(c) && !IsBot(c) {
      assert Fails(c, Name) || Fails(c, Email) || Fails(c, Phone) || Fails(c, Subject)
        || Fails(c, Message) || Fails(c, Privacy);
    }
  }

  /**
   * With every error element on the page, an accepted form shows no error and
   * a rejected one shows an error, unless only the honeypot rejected it.
   */
  lemma VerdictMatchesErrors(before: map<Field, bool>, c: Controls)
    requires forall f: Field :: f in before
    ensures Accepts(c) <==> !IsBot(c) && forall f :: f in ErrorsAfter(before, c) ==> ErrorsAfter(before, c)[f]
  {
    AcceptsIffNoFailure(c);
    var e := ErrorsAfter(before, c);
    assert Name in e && Email in e && Phone in e && Subject in e && Message in e && Privacy in e;
  }

  /** A filled honeypot rejects the form and leaves the error elements as the field checks set them. */
  lemma HoneypotOnlyRejects(before: map<Field, bool>, c: Controls, bot: Control)
    requires bot.value != ""
    ensures !Accepts(c.(botField := Some(bot)))
    ensures ErrorsAfter(before, c.(botField := Some(bot))) == ErrorsAfter(before, c)
  {
  }

  /** Errors are recomputed from scratch: the previous validation leaves no trace. */
  lemma NoStaleErrors(before: map<Field, bool>, c1: Controls, c2: Controls)
    ensures ErrorsAfter(ErrorsAfter(before, c1), c2) == ErrorsAfter(before, c2)
  {
  }

  /** The valid form of the test suite: name, email, subject, a long message, consent, empty honeypot. */
  lemma ValidFormExample(before: map<Field, bool>)
    ensures var c := Controls(
      Some(Control("John Doe", true, false)),
      Some(Control("john@example.com", true, false)),
      Some(Control("", true, false)),
      Some(Control("Individual Therapy", true, false)),
      Some(Control("This is a test message that is long enough.", true, false)),
      Some(Control("on", true, true)),
      Some(Control("", true, false)));
      Accepts(c) && forall f :: f in ErrorsAfter(before, c) ==> ErrorsAfter(before, c)[f]
  {
  }

  // ---------------------------------------------------------------- form data

  /** The entry sets a string value for key k. */
  predicate SetsKey(e: Entry, k: string) {
    e.key == k && e.value.Text?
  }

  /** The object formDataToObject builds: string entries only, the last one for a key wins. */
  function LastWins(es: seq<Entry>): map<string, string>
    decreases |es|
  {
    if es == [] then map[]
    else
      var e := es[|es| - 1];
      var m := LastWins(es[..|es| - 1]);
      if e.value.Text? then m[e.key := e.value.text] else m
  }

  /** A key is in the object iff some string entry has it. */
  lemma {:induction false} LastWinsHasKey(es: seq<Entry>, k: string)
    ensures k in LastWins(es) <==> exists i :: 0 <= i < |es| && SetsKey(es[i], k)
    decreases |es|
  {
    if es != [] {
      var init := es[..|es| - 1];
      LastWinsHasKey(init, k);
      if exists i :: 0 <= i < |init| && SetsKey(init[i], k) {
        var i :| 0 <= i < |init| && SetsKey(init[i], k);
        assert es[i] == init[i];
      }
      if exists i :: 0 <= i < |es| && SetsKey(es[i], k) {
        var i :| 0 <= i < |es| && SetsKey(es[i], k);
        if i < |es| - 1 {
          assert init[i] == es[i];
        }
      }
    }
  }

  /** The value under a key is that of the last string entry with it. */
  lemma {:induction false} LastWinsValue(es: seq<Entry>, k: string, i: int)
    requires 0 <= i < |es| && SetsKey(es[i], k)
    requires forall j :: i < j < |es| ==> !SetsKey(es[j], k)
    ensures k in LastWins(es) && LastWins(es)[k] == es[i].value.text
    decreases |es|
  {
    var init := es[..|es| - 1];
    if i < |es| - 1 {
      assert init[i] == es[i];
      forall j | i < j < |init|
        ensures !SetsKey(init[j], k)
      {
        assert init[j] == es[j];
      }
      LastWinsValue(init, k, i);
    }
  }

  /** formDataToObject, as the loop over the entries that it is. */
  method FormDataToObject(es: seq<Entry>) returns (obj: map<string, string>)
    ensures obj == LastWins(es)
  {
    obj := map[];
    for k := 0 to |es|
      invariant obj == LastWins(es[..k])
    {
      assert es[..k + 1][..k] == es[..k];
      var e := es[k];
      if e.value.Text? {
        obj := obj[e.key := e.value.text];
      }
    }
    assert es[..|es|] == es;
  }

  /** The body of the POST: the form's data plus form-name=contact, as an object. */
  function RequestBody(es: seq<Entry>): map<string, string> {
    LastWins(es + [Entry("form-name", Text("contact"))])
  }

  /** The appended form-name entry always reaches the server, whatever the form holds. */
  lemma RequestNamesForm(es: seq<Entry>)
    ensures "form-name" in RequestBody(es) && RequestBody(es)["form-name"] == "contact"
  {
    assert (es + [Entry("form-name", Text("contact"))])[..|es|] == es;
  }

  // ---------------------------------------------------------------- submission and banners

  /** handleFormSubmit, step by step: validate, show loading, POST, show a banner, restore the buttons. */
  function Submit(p: Page, c: Controls, defaults: seq<Entry>, outcome: Outcome): (r: Page)
    ensures r.errorHidden == ErrorsAfter(p.errorHidden, c)
    ensures !Accepts(c) ==> r == p.(errorHidden := r.errorHidden)
    ensures Accepts(c) ==> !r.submitHidden && r.loadingHidden
    ensures Accepts(c) ==> r.posted == p.posted + [RequestBody(p.entries)]
    ensures !r.successHidden <==> !p.successHidden || (Accepts(c) && outcome == Ok)
    ensures !r.errorBannerHidden <==> !p.errorBannerHidden || (Accepts(c) && outcome != Ok)
    ensures r.entries == if Accepts(c) && outcome == Ok then defaults else p.entries
  {
    var validated := p.(errorHidden := ErrorsAfter(p.errorHidden, c));
    if !Accepts(c) then validated
    else
      var loading := validated.(submitHidden := true, loadingHidden := false);
      var sent := loading.(posted := loading.posted + [RequestBody(loading.entries)]);
      var settled :=
        match outcome
        case Ok => sent.(successHidden := false, entries := defaults)
        case NotOk => sent.(errorBannerHidden := false)
        case Thrown => sent.(errorBannerHidden := false);
      settled.(submitHidden := false, loadingHidden := true)
  }

  /** A failed validation sends nothing and touches no button or banner. */
  lemma RejectedSubmitSendsNothing(p: Page, c: Controls, defaults: seq<Entry>, outcome: Outcome)
    requires !Accepts(c)
    ensures var r := Submit(p, c, defaults, outcome);
      r.posted == p.posted && r.submitHidden == p.submitHidden && r.loadingHidden == p.loadingHidden
      && r.successHidden == p.successHidden && r.errorBannerHidden == p.errorBannerHidden
  {
  }

  /** Closing a banner twice is closing it once, and the two close buttons do not interact. */
  lemma CloseButtonsIdempotent(p: Page)
    ensures CloseSuccess(CloseSuccess(p)) == CloseSuccess(p)
    ensures CloseError(CloseError(p)) == CloseError(p)
    ensures CloseSuccess(CloseError(p)) == CloseError(CloseSuccess(p))
  {
  }

  /** The success banner's close button. */
  function CloseSuccess(p: Page): (r: Page)
    ensures r.successHidden
    ensures r.(successHidden := p.successHidden) == p
  {
    p.(successHidden := true)
  }

  /** The error banner's close button. */
  function CloseError(p: Page): (r: Page)
    ensures r.errorBannerHidden
    ensures r.(errorBannerHidden := p.errorBannerHidden) == p
  {
    p.(errorBannerHidden := true)
  }

  // ---------------------------------------------------------------- the page object

  class ContactPage {
    var errorHidden: map<Field, bool>
    var submitHidden: bool
    var loadingHidden: bool
    var successHidden: bool
    var errorBannerHidden: bool
    var entries: seq<Entry>
    var posted: seq<map<string, string>>
    const defaults: seq<Entry>  // what form.reset() restores

    ghost function View(): Page
      reads this
    {
      Page(errorHidden, submitHidden, loadingHidden, successHidden, errorBannerHidden, entries, posted)
    }

    constructor (errors: map<Field, bool>, initial: seq<Entry>)
      ensures View() == Page(errors, false, true, true, true, initial, []) && defaults == initial
    {
      errorHidden, submitHidden, loadingHidden := errors, false, true;
      successHidden, errorBannerHidden := true, true;
      entries, posted, defaults := initial, [], initial;
    }

    /** The forEach that opens validateForm: every error element present gets `hidden`. */
    method ResetErrors()
      modifies this`errorHidden
      ensures errorHidden.Keys == old(errorHidden).Keys
      ensures forall f :: f in errorHidden ==> errorHidden[f]
    {
      for k := 0 to |AllFields|
        invariant errorHidden.Keys == old(errorHidden).Keys
        invariant forall f :: f in errorHidden ==> errorHidden[f] == (f in AllFields[..k] || old(errorHidden)[f])
      {
        var f := AllFields[k];
        if f in errorHidden {
          errorHidden := errorHidden[f := true];
        }
      }
      forall f | f in errorHidden ensures errorHidden[f] {
        assert f == AllFields[0] || f == AllFields[1] || f == AllFields[2]
          || f == AllFields[3] || f == AllFields[4] || f == AllFields[5];
      }
    }

    /** `if (el) el.classList.remove('hidden')` for the error element of f. */
    method ShowError(f: Field)
      modifies this`errorHidden
      ensures errorHidden == if f in old(errorHidden) then old(errorHidden)[f := false] else old(errorHidden)
    {
      if f in errorHidden {
        errorHidden := errorHidden[f := false];
      }
    }

    /** One of validateForm's six field checks: reveal f's error element when the check fails. */
    method CheckField(c: Controls, f: Field) returns (failed: bool)
      modifies this`errorHidden
      ensures failed == Fails(c, f)
      ensures errorHidden == if failed && f in old(errorHidden) then old(errorHidden)[f := false] else old(errorHidden)
    {
      failed := false;
      match f {
        case Name =>
          if c.name.Some? && !c.name.value.valid { ShowError(Name); failed := true; }
        case Email =>
          if c.email.Some? && !c.email.value.valid { ShowError(Email); failed := true; }
        case Phone =>
          if c.phone.Some? && c.phone.value.value != "" && !c.phone.value.valid { ShowError(Phone); failed := true; }
        case Subject =>
          if c.subject.Some? && (c.subject.value.value == "" || !c.subject.value.valid) { ShowError(Subject); failed := true; }
        case Message =>
          if c.message.Some? && !c.message.value.valid { ShowError(Message); failed := true; }
        case Privacy =>
          if c.privacyConsent.Some? && !c.privacyConsent.value.checked { ShowError(Privacy); failed := true; }
      }
    }

    /** A check run as validateForm's next one: the elements reflect one more check. */
    method CheckInOrder(c: Controls, f: Field, ghost before: map<Field, bool>, ghost done: nat) returns (failed: bool)
      requires done == Order(f) && ShownAfter(errorHidden, before, c, done)
      modifies this`errorHidden
      ensures failed == Fails(c, f)
      ensures ShownAfter(errorHidden, before, c, done + 1)
    {
      ghost var m := errorHidden;
      failed := CheckField(c, f);
      ShownStep(before, c, f, m, errorHidden);
    }

    /** The six checks of validateForm in their order, with the verdict they accumulate. */
    method RunChecks(c: Controls, ghost before: map<Field, bool>) returns (allPass: bool)
      requires ShownAfter(errorHidden, before, c, 0)
      modifies this`errorHidden
      ensures allPass == (!Fails(c, Name) && !Fails(c, Email) && !Fails(c, Phone)
        && !Fails(c, Subject) && !Fails(c, Message) && !Fails(c, Privacy))
      ensures ShownAfter(errorHidden, before, c, 6)
    {
      allPass := true;
      var failed := CheckInOrder(c, Name, before, 0);
      allPass := allPass && !failed;
      failed := CheckInOrder(c, Email, before, 1);
      allPass := allPass && !failed;
      failed := CheckInOrder(c, Phone, before, 2);
      allPass := allPass && !failed;
      failed := CheckInOrder(c, Subject, before, 3);
      allPass := allPass && !failed;
      failed := CheckInOrder(c, Message, before, 4);
      allPass := allPass && !failed;
      failed := CheckInOrder(c, Privacy, before, 5);
      allPass := allPass && !failed;
    }

    /** validateForm: hide every error element, run the six checks in order, then consult the honeypot. */
    method ValidateForm(c: Controls) returns (isValid: bool)
      modifies this`errorHidden
      ensures isValid == Accepts(c)
      ensures errorHidden == ErrorsAfter(old(errorHidden), c)
    {
      ghost var before := errorHidden;
      ResetErrors();
      assert ShownAfter(errorHidden, before, c, 0);
      isValid := RunChecks(c, before);
      ShownAll(errorHidden, before, c);
      AcceptsInOrder(c);
      if c.botField.Some? && c.botField.value.value != "" {
        isValid := false;
        return;
      }
    }

    /** handleFormSubmit with the request's outcome as an input. */
    method HandleFormSubmit(c: Controls, outcome: Outcome)
      modifies this
      ensures View() == Submit(old(View()), c, defaults, outcome)
    {
      var valid := ValidateForm(c);
      if !valid {
        return;
      }
      submitHidden := true;
      loadingHidden := false;
      var body := FormDataToObject(entries + [Entry("form-name", Text("contact"))]);
      posted := posted + [body];
      match outcome {
        case Ok =>
          successHidden := false;
          entries := defaults;
        case NotOk =>
          errorBannerHidden := false;
        case Thrown =>
          errorBannerHidden := false;
      }
      submitHidden := false;
      loadingHidden := true;
    }

    method ClickCloseSuccess()
      modifies this
      ensures View() == CloseSuccess(old(View()))
    {
      successHidden := true;
    }

    method ClickCloseError()
      modifies this
      ensures View() == CloseError(old(View()))
    {
      errorBannerHidden := true;
    }
  }
}
