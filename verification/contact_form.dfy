/** The contact form of `components/ContactForm.jsx` (the home page in
    `app/page.js` carries the same form with the same two handlers): the
    fields are edited one at a time, a submission goes ahead only when every
    field is filled in and the email has the shape `local@domain.tld`, and
    the form is cleared only when the submission succeeded. */
module ContactForm {
  import opened Wrappers
  import opened Strings
  import JsObject
  import ApiServices
  import HomeContext
  import AppContext

  /** The form's four fields. */
  const FieldNames: seq<string> := ["name", "email", "subject", "message"]

  /** The form with every field empty: its initial state and its state after
      a successful submission. */
  function EmptyForm(): (f: JsObject.Object<string>)
    ensures JsObject.Valid(f)
    ensures JsObject.Keys(f) == FieldNames
    ensures JsObject.Get(f, "name") == Some("") && JsObject.Get(f, "email") == Some("")
    ensures JsObject.Get(f, "subject") == Some("") && JsObject.Get(f, "message") == Some("")
    ensures forall k :: k !in FieldNames ==> JsObject.Get(f, k) == None
  {
    JsObject.Object([("name", ""), ("email", ""), ("subject", ""), ("message", "")])
  }

  /** The field `k` is truthy: present and non-empty. */
  predicate Filled(form: JsObject.Object<string>, k: string) {
    Truthy(JsObject.Get(form, k))
  }

  /** `!formData.name || !formData.email || ...` fails: every field is
      filled in. */
  predicate AllFilled(form: JsObject.Object<string>) {
    Filled(form, "name") && Filled(form, "email") && Filled(form, "subject") && Filled(form, "message")
  }

  // ---------------------------------------------------------------------
  // The email pattern `^[^\s@]+@[^\s@]+\.[^\s@]+$`

  /** The characters `s[lo..hi]` are all of the class `[^\s@]`: neither
      whitespace nor "@". */
  predicate Clean(s: string, lo: int, hi: int)
    requires 0 <= lo <= hi <= |s|
  {
    forall k :: lo <= k < hi ==> s[k] != '@' && !IsSpace(s[k])
  }

  /** The pattern, read off the regular expression: an "@" at `i` and a "."
      at `j` split the string into three non-empty runs of `[^\s@]`. */
  predicate EmailPattern(s: string) {
    exists i, j :: 0 < i && i + 1 < j && j + 1 < |s| && s[i] == '@' && s[j] == '.'
                   && Clean(s, 0, i) && Clean(s, i + 1, j) && Clean(s, j + 1, |s|)
  }

  /** No character of `s` is whitespace. */
  predicate NoSpace(s: string) {
    forall k :: 0 <= k < |s| ==> !IsSpace(s[k])
  }

  /** The test as a scan: no whitespace; exactly one "@", not the first
      character; and a "." at least two characters after it that is not
      the last character. */
  function IsEmail(s: string): bool {
    var at := IndexOf(s, '@');
    NoSpace(s) && at > 0 && LastIndexOf(s, '@') == at
    && LastIndexOf(s[..|s| - 1], '.') > at + 1
  }

  /** What the scan accepts, the pattern matches. */
  lemma EmailCheckSound(s: string)
    requires IsEmail(s)
    ensures EmailPattern(s)
  {
    var at := IndexOf(s, '@');
    var d := LastIndexOf(s[..|s| - 1], '.');
    assert s[d] == s[..|s| - 1][d] == '.';
    assert Clean(s, 0, at);
    assert Clean(s, at + 1, d);
    assert Clean(s, d + 1, |s|);
  }

  /** Three clean runs around an "@" and a "." hold no whitespace. */
  lemma CleanRunsNoSpace(s: string, i: int, j: int)
    requires 0 < i && i + 1 < j && j + 1 < |s| && s[i] == '@' && s[j] == '.'
    requires Clean(s, 0, i) && Clean(s, i + 1, j) && Clean(s, j + 1, |s|)
    ensures NoSpace(s)
  {
    forall k | 0 <= k < |s| ensures !IsSpace(s[k]) {
      if k != i && k != j {
        assert k < i || i < k < j || j < k;
      }
    }
  }

  /** The "@" between the clean runs is the only one. */
  lemma SingleAt(s: string, i: int, j: int)
    requires 0 < i && i + 1 < j && j + 1 < |s| && s[i] == '@' && s[j] == '.'
    requires Clean(s, 0, i) && Clean(s, i + 1, j) && Clean(s, j + 1, |s|)
    ensures IndexOf(s, '@') == i && LastIndexOf(s, '@') == i
  {
    assert forall k :: 0 <= k < |s| && k != i ==> s[k] != '@' by {
      forall k | 0 <= k < |s| && k != i ensures s[k] != '@' {
        assert k < i || i < k < j || k == j || j < k;
      }
    }
    var first := IndexOf(s, '@');
    var last := LastIndexOf(s, '@');
    assert first >= 0 && last >= 0;
  }

  /** What the pattern matches, the scan accepts. */
  lemma EmailCheckComplete(s: string)
    requires EmailPattern(s)
    ensures IsEmail(s)
  {
    var i, j :| 0 < i && i + 1 < j && j + 1 < |s| && s[i] == '@' && s[j] == '.'
                && Clean(s, 0, i) && Clean(s, i + 1, j) && Clean(s, j + 1, |s|);
    CleanRunsNoSpace(s, i, j);
    SingleAt(s, i, j);
    var prefix := s[..|s| - 1];
    assert prefix[j] == '.';
    assert LastIndexOf(prefix, '.') >= j;
  }

  /** The scan accepts exactly the strings the pattern matches. */
  lemma EmailCheckIsPattern(s: string)
    ensures IsEmail(s) <==> EmailPattern(s)
  {
    if IsEmail(s) { EmailCheckSound(s); }
    if EmailPattern(s) { EmailCheckComplete(s); }
  }

  /** The submission goes ahead: every field filled and the email valid. */
  predicate CanSubmit(form: JsObject.Object<string>) {
    AllFilled(form) && IsEmail(JsObject.Get(form, "email").value)
  }

  // ---------------------------------------------------------------------
  // The submission as wired: `submitContactForm` comes from the
  // application context, which does not define it

  /** The error calling `undefined` throws, in V8's wording. */
  const NotAFunction := "TypeError: submitContactForm is not a function"

  /** How a submission attempt ends: stopped by the checks, or thrown out of
      before any request, or sent with its result. */
  datatype Attempt = Stopped | Threw(error: string) | Sent(result: HomeContext.SubmitResult)

  /** `handleSubmit` as the component is wired: the checks pass or stop it
      as in `HandleSubmit`, but the call that follows them is a call of
      `undefined` (see `AppContext.ConsumedKeysMissing`), so nothing is ever
      sent and the form is never cleared. */
  function SubmitAsWritten(form: JsObject.Object<string>): (a: Attempt)
    ensures a.Stopped? <==> !CanSubmit(form)
    ensures a.Threw? <==> CanSubmit(form)
    ensures a.Threw? ==> a.error == NotAFunction
    ensures !a.Sent?
  {
    if !AllFilled(form) then Stopped
    else if !IsEmail(JsObject.Get(form, "email").value) then Stopped
    else Threw(NotAFunction)
  }

  /** A complete form with a valid address. */
  const SampleForm: JsObject.Object<string> :=
    JsObject.Object([("name", "a"), ("email", "a@b.co"), ("subject", "s"), ("message", "m")])

  /** A complete, valid form is not sent as the form is wired, while the
      same form handed to the provider's `submitContactForm` is. */
  lemma SubmitAsWrittenSendsNothing()
    ensures CanSubmit(SampleForm)
    ensures SubmitAsWritten(SampleForm) == Threw(NotAFunction)
  {
    assert JsObject.Get(SampleForm, "email") == Some("a@b.co");
    SampleEmailValid();
  }

  lemma SampleEmailValid()
    ensures IsEmail("a@b.co")
  {
    var e := "a@b.co";
    assert e[1] == '@' && e[3] == '.';
    assert Clean(e, 0, 1) && Clean(e, 2, 3) && Clean(e, 4, 6);
    EmailCheckComplete(e);
  }

  /** The state the form keeps: the field values, which never repeat a
      key. */
  class ContactFormState {
    var formData: JsObject.Object<string>

    predicate Valid()
      reads this
    {
      JsObject.Valid(formData)
    }

    constructor ()
      ensures Valid() && formData == EmptyForm()
    {
      formData := EmptyForm();
    }

    /** `handleInputChange`: the input's value becomes the field named by
        the input; every other field keeps its value. */
    method HandleInputChange(name: string, value: string)
      requires Valid()
      modifies this
      ensures Valid()
      ensures JsObject.Get(formData, name) == Some(value)
      ensures forall k :: k != name ==> JsObject.Get(formData, k) == JsObject.Get(old(formData), k)
    {
      formData := JsObject.Set(formData, name, value);
    }

    /** `handleSubmit` wired to the home provider, which defines
        `submitContactForm` (the component as written reads it from
        `AppContext`, which does not: see `HandleSubmitAsWritten`). An
        incomplete form or an invalid email stops the submission (no call,
        nothing changes); otherwise the form goes to the provider, and is
        cleared if and only if the submission succeeded. The provider's
        button flag is clear afterwards. */
    method HandleSubmit(provider: HomeContext.HomeProvider, lang: string,
                        outcome: ApiServices.Transport<HomeContext.ContactResponse>)
      returns (submitted: Option<HomeContext.SubmitResult>)
      requires Valid()
      modifies this, provider`isSubmittingContact
      ensures Valid()
      ensures submitted.None? <==> !CanSubmit(old(formData))
      ensures submitted.None? ==> provider.isSubmittingContact == old(provider.isSubmittingContact)
      ensures submitted.Some? ==> submitted.value == HomeContext.SubmitOutcome(outcome)
                                  && !provider.isSubmittingContact
      ensures formData == if submitted.Some? && submitted.value.success then EmptyForm() else old(formData)
    {
      if !AllFilled(formData) {
        return None;
      }
      if !IsEmail(JsObject.Get(formData, "email").value) {
        return None;
      }
      var result, _, _ := provider.SubmitContactForm(formData, lang, outcome);
      submitted := Some(result);
      if result.success {
        formData := EmptyForm();
      }
    }

    /** `handleSubmit` as wired: reports how the attempt ends and changes
        nothing, neither the form nor any provider. */
    method HandleSubmitAsWritten() returns (attempt: Attempt)
      requires Valid()
      ensures attempt.Stopped? <==> !CanSubmit(formData)
      ensures attempt.Threw? <==> CanSubmit(formData)
      ensures !attempt.Sent?
    {
      attempt := SubmitAsWritten(formData);
    }
  }
}
