/** The contact form: three field values, a status line and a submitting
    flag, updated by the change handler and by the submit handler's
    try / catch / finally around one request to the relay. The browser
    checks the form before the submit handler runs: every field is
    `required`, the address input is `type="email"`, and the submit button
    is disabled while a request is pending. The request is split at its
    `await`: `BeginSubmit` runs up to the request and `CompleteSubmit` runs
    once its outcome is known. */
module Contact {
  import opened Wrappers
  import SendEmail

  /** The `name` attribute of the input that fired a change. */
  datatype Field = NameField | EmailField | MessageField

  datatype FormData = FormData(name: string, email: string, message: string)

  const EmptyForm := FormData("", "", "")

  /** What `response.json()` gave: an object with an optional `error`
      string, or a rejection. */
  datatype JsonBody = Parsed(error: Option<string>) | Unparseable

  /** How the request ended: a response (with `response.ok`) or a rejected
      `fetch`. */
  datatype SubmitOutcome = Responded(ok: bool, body: JsonBody) | NetworkError

  const SendingStatus := "Sending..."
  const SentStatus := "Message sent! I'll get back to you soon."
  const DefaultFailure := "Failed to send message. Please try again."
  const ExceptionFailure := "Failed to send message. Please try again later."

  function Get(f: FormData, field: Field): string {
    match field
    case NameField => f.name
    case EmailField => f.email
    case MessageField => f.message
  }

  /** `{...formData, [name]: value}`. */
  function WithField(f: FormData, field: Field, value: string): (r: FormData)
    ensures Get(r, field) == value
    ensures forall other :: other != field ==> Get(r, other) == Get(f, other)
  {
    match field
    case NameField => f.(name := value)
    case EmailField => f.(email := value)
    case MessageField => f.(message := value)
  }

  /** The status line the handler leaves for each outcome. */
  function StatusAfter(outcome: SubmitOutcome): (r: string)
    ensures outcome.Responded? && outcome.ok && outcome.body.Parsed? ==> r == SentStatus
    ensures outcome.NetworkError? || (outcome.Responded? && outcome.body.Unparseable?) ==> r == ExceptionFailure
    ensures (outcome.Responded? && !outcome.ok && outcome.body.Parsed? && outcome.body.error.Some?
             && outcome.body.error.value != "") ==> r == outcome.body.error.value
    ensures (outcome.Responded? && !outcome.ok && outcome.body.Parsed?
             && (outcome.body.error.None? || outcome.body.error == Some(""))) ==> r == DefaultFailure
  {
    match outcome
    case NetworkError => ExceptionFailure
    case Responded(_, Unparseable) => ExceptionFailure
    case Responded(true, Parsed(_)) => SentStatus
    case Responded(false, Parsed(e)) => if e.Some? && e.value != "" then e.value else DefaultFailure
  }

  /** The field values the handler leaves: cleared only on success. */
  function FormAfter(f: FormData, outcome: SubmitOutcome): (r: FormData)
    ensures r == EmptyForm || r == f
    ensures r == f <==> !(outcome.Responded? && outcome.ok && outcome.body.Parsed?) || f == EmptyForm
  {
    if outcome.Responded? && outcome.ok && outcome.body.Parsed? then EmptyForm else f
  }

  // ---- the browser's constraint validation ----

  predicate IsAsciiAlnum(c: char) {
    'a' <= c <= 'z' || 'A' <= c <= 'Z' || '0' <= c <= '9'
  }

  /** A character allowed before the `@` of a valid e-mail address. */
  predicate IsLocalChar(c: char) {
    IsAsciiAlnum(c) || c in ".!#$%&'*+/=?^_`{|}~-"
  }

  /** A character allowed after the `@`. */
  predicate IsDomainChar(c: char) {
    IsAsciiAlnum(c) || c == '-' || c == '.'
  }

  predicate ValidLocalPart(l: string) {
    |l| > 0 && forall k :: 0 <= k < |l| ==> IsLocalChar(l[k])
  }

  /** Labels of letters, digits and inner hyphens, separated by single
      dots, each beginning and ending with a letter or digit and at most 63
      characters long. */
  predicate ValidDomain(d: string) {
    && |d| > 0
    && (forall k :: 0 <= k < |d| ==> IsDomainChar(d[k]))
    && IsAsciiAlnum(d[0]) && IsAsciiAlnum(d[|d| - 1])
    && (forall k :: 0 < k < |d| - 1 && d[k] == '.' ==> IsAsciiAlnum(d[k - 1]) && IsAsciiAlnum(d[k + 1]))
    && (forall k :: 0 <= k < |d| ==> LabelRun(d, k) <= 63)
  }

  /** How many characters of the label containing position `k` end at
      `k` (0 on a dot). */
  function LabelRun(d: string, k: nat): nat
    requires k < |d|
  {
    if d[k] == '.' then 0 else if k == 0 then 1 else LabelRun(d, k - 1) + 1
  }

  /** A "valid e-mail address" in the sense of the HTML standard's
      `type="email"` input (section 4.10.5.1.5 of the HTML Living
      Standard). */
  predicate HtmlValidEmail(e: string) {
    exists at | 0 <= at < |e| :: e[at] == '@' && ValidLocalPart(e[..at]) && ValidDomain(e[at + 1..])
  }

  /** The form passes the browser's checks: all three `required` fields are
      filled and the address is a valid e-mail address. */
  predicate FormAccepted(f: FormData) {
    f.name != "" && f.email != "" && f.message != "" && HtmlValidEmail(f.email)
  }

  /** What a press of the submit button hands to `handleSubmit`: nothing
      while the button is disabled or the form fails the browser's checks,
      otherwise the current field values. */
  function SubmitGate(isSubmitting: bool, f: FormData): (r: Option<FormData>)
    ensures r.Some? <==> !isSubmitting && FormAccepted(f)
    ensures r.Some? ==> r.value == f
  {
    if isSubmitting || !FormAccepted(f) then None else Some(f)
  }

  /** The form component's state cells. */
  class ContactForm {
    var formData: FormData
    var status: string
    var isSubmitting: bool

    constructor ()
      ensures formData == EmptyForm && status == "" && !isSubmitting
    {
      formData := EmptyForm;
      status := "";
      isSubmitting := false;
    }

    /** The submit button is disabled exactly while a request is pending. */
    predicate SubmitDisabled()
      reads this
    {
      isSubmitting
    }

    function SubmitLabel(): (r: string)
      reads this
      ensures r == SendingStatus <==> SubmitDisabled()
    {
      if isSubmitting then SendingStatus else "Send Message"
    }

    /** `handleChange`: only the named field changes. */
    method HandleChange(field: Field, value: string)
      modifies this
      ensures formData == WithField(old(formData), field, value)
      ensures status == old(status) && isSubmitting == old(isSubmitting)
    {
      formData := WithField(formData, field, value);
    }

    /** `handleSubmit` up to its `await`: the flag and the status are set
      and the current field values are the request body. */
    method BeginSubmit() returns (body: FormData)
      modifies this
      ensures isSubmitting && status == SendingStatus
      ensures formData == old(formData) && body == formData
    {
      isSubmitting := true;
      status := SendingStatus;
      body := formData;
    }

    /** A press of the submit button (or Enter in a field): the browser
        blocks it while the button is disabled or a check fails, and then
        nothing changes and nothing is sent; otherwise `handleSubmit` runs
        up to its `await`. */
    method TrySubmit() returns (request: Option<FormData>)
      modifies this
      ensures request == SubmitGate(old(isSubmitting), old(formData))
      ensures request.None? ==>
                formData == old(formData) && status == old(status) && isSubmitting == old(isSubmitting)
      ensures request.Some? ==> isSubmitting && status == SendingStatus && formData == old(formData)
    {
      if isSubmitting || !FormAccepted(formData) {
        return None;
      }
      var body := BeginSubmit();
      request := Some(body);
    }

    /** `handleSubmit` after its `await`: the outcome's branch, then the
      `finally` that lowers the flag. */
    method CompleteSubmit(outcome: SubmitOutcome)
      modifies this
      ensures status == StatusAfter(outcome)
      ensures formData == FormAfter(old(formData), outcome)
      ensures !isSubmitting
    {
      match outcome {
        case Responded(ok, Parsed(e)) =>
          if ok {
            status := SentStatus;
            formData := EmptyForm;
          } else {
            status := if e.Some? && e.value != "" then e.value else DefaultFailure;
          }
        case _ =>
          status := ExceptionFailure;
      }
      isSubmitting := false;
    }

    /** One of the five-second timers set by the handler firing. */
    method ClearStatus()
      modifies this
      ensures status == "" && formData == old(formData) && isSubmitting == old(isSubmitting)
    {
      status := "";
    }
  }

  /** The request the relay receives for a body. */
  function ToRequest(body: FormData): SendEmail.ContactRequest {
    SendEmail.ContactRequest("POST", Some(body.name), Some(body.email), Some(body.message))
  }

  /** How the form sees a relay reply: `ok` for a 2xx status, and the JSON
      body's `error` field. */
  function ClientOutcome(r: SendEmail.Response): SubmitOutcome {
    Responded(200 <= r.status < 300,
              match r.body
              case ErrorBody(e) => Parsed(Some(e))
              case SuccessBody(_) => Parsed(None))
  }

  /** The outcome of submitting `body` to the relay. */
  function Submit(body: FormData, apiKey: Option<string>, provider: SendEmail.ProviderReply): SubmitOutcome {
    ClientOutcome(SendEmail.Handle(ToRequest(body), apiKey, provider).response)
  }

  /** A form with an empty field, or submitted while a request is
      pending, is never sent. */
  lemma EmptyFieldBlocked(isSubmitting: bool, f: FormData)
    ensures f.name == "" || f.email == "" || f.message == "" ==> SubmitGate(isSubmitting, f) == None
    ensures SubmitGate(true, f) == None
  {
  }

  /** An address without `@` fails the `type="email"` check, so the relay
      never sees it. */
  lemma NotAnEmailBlocked()
    ensures SubmitGate(false, FormData("Ana", "not-an-email", "hi")) == None
  {
    var e := "not-an-email";
    forall k | 0 <= k < |e| ensures e[k] != '@' { }
    NoAtIsInvalid(e);
  }

  /** Without an `@` there is no valid address. */
  lemma NoAtIsInvalid(e: string)
    requires forall k :: 0 <= k < |e| ==> e[k] != '@'
    ensures !HtmlValidEmail(e)
  {
  }

  /** Characters of either part of a valid address are neither whitespace
      nor `@` for the relay. */
  lemma AddressCharIsPlain(c: char)
    requires IsLocalChar(c) || IsDomainChar(c)
    ensures !SendEmail.IsJsWhitespace(c) && c != '@'
  {
  }

  /** In `local@domain` built from valid parts, the only `@` is the one
      between them and nothing is whitespace. */
  lemma JoinedAddressPlain(local: string, domain: string)
    requires ValidLocalPart(local) && ValidDomain(domain)
    ensures forall k :: 0 <= k < |local + "@" + domain| ==> !SendEmail.IsJsWhitespace((local + "@" + domain)[k])
    ensures forall k :: 0 <= k < |local + "@" + domain| && k != |local| ==> (local + "@" + domain)[k] != '@'
    ensures SendEmail.IndexOf(local + "@" + domain, '@') == |local|
  {
    var e := local + "@" + domain;
    var at := |local|;
    forall k | 0 <= k < |e| ensures !SendEmail.IsJsWhitespace(e[k]) && (k != at ==> e[k] != '@') {
      if k < at {
        assert e[k] == local[k];
        AddressCharIsPlain(local[k]);
      } else if k > at {
        assert e[k] == domain[k - at - 1];
        AddressCharIsPlain(domain[k - at - 1]);
      }
    }
    var r := SendEmail.IndexOf(e, '@');
    assert e[at] == '@';
    assert r != -1;
    assert r == at;
  }

  /** For an address the browser accepts, the relay's check only adds one
      requirement: a dot in the domain. */
  lemma RelayVerdictOnBrowserAddresses(local: string, domain: string)
    requires ValidLocalPart(local) && ValidDomain(domain)
    ensures HtmlValidEmail(local + "@" + domain)
    ensures SendEmail.IsEmailShape(local + "@" + domain) <==> '.' in domain
  {
    var e := local + "@" + domain;
    assert e[|local|] == '@' && e[..|local|] == local && e[|local| + 1..] == domain;
    if '.' in domain {
      DottedDomainPassesRelay(local, domain);
    }
    if SendEmail.IsEmailShape(e) {
      RelayShapeHasDottedDomain(local, domain);
    }
  }

  lemma DottedDomainPassesRelay(local: string, domain: string)
    requires ValidLocalPart(local) && ValidDomain(domain) && '.' in domain
    ensures SendEmail.IsEmailShape(local + "@" + domain)
  {
    var e := local + "@" + domain;
    var at := |local|;
    JoinedAddressPlain(local, domain);
    var j :| 0 <= j < |domain| && domain[j] == '.';
    assert 0 < j < |domain| - 1;
    assert e[at + 1 + j] == '.';
  }

  lemma RelayShapeHasDottedDomain(local: string, domain: string)
    requires ValidLocalPart(local) && ValidDomain(domain) && SendEmail.IsEmailShape(local + "@" + domain)
    ensures '.' in domain
  {
    var e := local + "@" + domain;
    var at := |local|;
    JoinedAddressPlain(local, domain);
    var k :| at + 1 < k < |e| - 1 && e[k] == '.';
    assert domain[k - at - 1] == e[k];
  }

  /** An address the browser accepts but the relay refuses reaches the
      relay, and the form shows the relay's "Invalid email address" and
      keeps the fields. */
  lemma BrowserPassedRelayRefused(body: FormData, apiKey: Option<string>, provider: SendEmail.ProviderReply)
    requires FormAccepted(body) && !SendEmail.IsEmailShape(body.email)
    ensures SubmitGate(false, body) == Some(body)
    ensures StatusAfter(Submit(body, apiKey, provider)) == SendEmail.InvalidEmail
    ensures FormAfter(body, Submit(body, apiKey, provider)) == body
  {
    SendEmail.EmailShapeIffRegex(body.email);
    SendEmail.MalformedEmailRefused(ToRequest(body), apiKey, provider);
  }

  /** `a@b` is such an address: valid for the browser, without the dot the
      relay demands. */
  lemma DotlessDomainRefusedByRelay(apiKey: Option<string>, provider: SendEmail.ProviderReply)
    ensures FormAccepted(FormData("Ana", "a@b", "hi"))
    ensures StatusAfter(Submit(FormData("Ana", "a@b", "hi"), apiKey, provider)) == SendEmail.InvalidEmail
    ensures FormAfter(FormData("Ana", "a@b", "hi"), Submit(FormData("Ana", "a@b", "hi"), apiKey, provider))
            == FormData("Ana", "a@b", "hi")
  {
    assert "a" + "@" + "b" == "a@b";
    RelayVerdictOnBrowserAddresses("a", "b");
    BrowserPassedRelayRefused(FormData("Ana", "a@b", "hi"), apiKey, provider);
  }

  /** Valid fields against a relay without a credential: success, and the
      form is cleared. */
  lemma ValidWithoutCredentialSucceeds(provider: SendEmail.ProviderReply)
    ensures StatusAfter(Submit(FormData("Ana", "ana@x.com", "hi"), None, provider)) == SentStatus
    ensures FormAfter(FormData("Ana", "ana@x.com", "hi"), Submit(FormData("Ana", "ana@x.com", "hi"), None, provider)) == EmptyForm
  {
    var req := ToRequest(FormData("Ana", "ana@x.com", "hi"));
    SendEmail.AcceptedExample();
    SendEmail.EmailShapeIffRegex("ana@x.com");
    assert SendEmail.ValidSubmission(req);
    SendEmail.NoCredentialLogsOnly(req, None, provider);
  }

  /** Valid fields, a credential, and a provider that fails: the form shows
      the relay's fixed failure message and keeps every field. */
  lemma ProviderFailureKeepsFields(body: FormData, key: string, provider: SendEmail.ProviderReply)
    requires SendEmail.ValidSubmission(ToRequest(body)) && key != ""
    requires provider != SendEmail.ProviderOk(true)
    ensures StatusAfter(Submit(body, Some(key), provider)) == SendEmail.GenericFailure
    ensures FormAfter(body, Submit(body, Some(key), provider)) == body
  {
    SendEmail.ProviderOutcomeMapped(ToRequest(body), Some(key), provider);
    assert Submit(body, Some(key), provider) == Responded(false, Parsed(Some(SendEmail.GenericFailure)));
  }
}
