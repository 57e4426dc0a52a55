/** The serverless contact relay `POST /api/send-email`: an ordered chain of
    checks (method, required fields, e-mail shape, provider credential)
    followed by one call to the mail provider, whose result is mapped to a
    status code. The provider call is an input (`ProviderReply`); whether the
    handler issued it is part of the result (`Outcome.sent`). */
module SendEmail {
  import opened Wrappers
  import opened Text

  /** The request: its HTTP method and the three fields destructured from
      the JSON body; a field that is absent or `null` is `None`. */
  datatype ContactRequest = ContactRequest(
    httpMethod: string,
    name: Option<string>,
    email: Option<string>,
    message: Option<string>)

  /** What the mail provider did with the one request sent to it. */
  datatype ProviderReply =
    | ProviderOk(bodyIsJson: bool)             // `response.ok`; whether `response.json()` parsed
    | ProviderNotOk(message: Option<string>)   // non-ok status, with the provider's own message if any
    | ProviderUnreachable                      // `fetch` itself rejected

  /** The message handed to the provider. */
  datatype OutboundEmail = OutboundEmail(
    from: string, to: string, subject: string, html: string, text: string)

  datatype ResponseBody = ErrorBody(error: string) | SuccessBody(message: string)

  datatype Response = Response(status: int, body: ResponseBody)

  /** The reply to the caller and the provider request, if one was made. */
  datatype Outcome = Outcome(response: Response, sent: Option<OutboundEmail>)

  const MethodNotAllowed := "Method not allowed"
  const MissingFields := "Missing required fields"
  const InvalidEmail := "Invalid email address"
  const LoggedSuccess := "Email sent successfully (logged in development)"
  const SentSuccess := "Email sent successfully"
  const GenericFailure := "Failed to send email. Please try again later."

  const Sender := "Portfolio Contact <onboarding@resend.dev>"
  const Recipient := "jonahortega7@me.com"
  const SubjectPrefix := "New Contact Form Submission from "

  /** JavaScript truthiness of an optional string: present and non-empty. */
  predicate Truthy(field: Option<string>) {
    field.Some? && field.value != ""
  }

  /** The class `\s` of JavaScript regular expressions: the ECMAScript
      WhiteSpace and LineTerminator code points. */
  predicate IsJsWhitespace(c: char) {
    var n := c as int;
    || n == 0x09 || n == 0x0A || n == 0x0B || n == 0x0C || n == 0x0D
    || n == 0x20 || n == 0xA0 || n == 0x1680
    || (0x2000 <= n <= 0x200A)
    || n == 0x2028 || n == 0x2029 || n == 0x202F || n == 0x205F
    || n == 0x3000 || n == 0xFEFF
  }

  /** A run of the class `[^\s@]`. */
  predicate AddrChars(s: string) {
    forall k :: 0 <= k < |s| ==> !IsJsWhitespace(s[k]) && s[k] != '@'
  }

  /** The regular expression `^[^\s@]+@[^\s@]+\.[^\s@]+$` read literally:
      three non-empty runs of `[^\s@]`, the first two separated by `@`, the
      last two by `.`. */
  ghost predicate MatchesEmailRegex(e: string) {
    exists at, dot ::
      && 0 < at && at + 1 < dot && dot + 1 < |e|
      && e[at] == '@' && e[dot] == '.'
      && AddrChars(e[..at]) && AddrChars(e[at + 1..dot]) && AddrChars(e[dot + 1..])
  }

  /** Index of the first `c` in `s`, or -1. */
  function IndexOf(s: string, c: char): (r: int)
    ensures -1 <= r < |s|
    ensures r >= 0 ==> s[r] == c && forall k :: 0 <= k < r ==> s[k] != c
    ensures r == -1 ==> forall k :: 0 <= k < |s| ==> s[k] != c
  {
    if |s| == 0 then -1
    else if s[0] == c then 0
    else
      var t := IndexOf(s[1..], c);
      if t < 0 then -1 else t + 1
  }

  /** The address shape the handler accepts, stated directly: no whitespace
      anywhere, exactly one `@` and not first, and a `.` in the domain with
      text on both sides of it. */
  predicate IsEmailShape(e: string) {
    var at := IndexOf(e, '@');
    && (forall k :: 0 <= k < |e| ==> !IsJsWhitespace(e[k]))
    && at > 0
    && (forall k :: at < k < |e| ==> e[k] != '@')
    && (exists k :: at + 1 < k < |e| - 1 && e[k] == '.')
  }

  /** The direct statement of the shape accepts exactly what the regular
      expression accepts. */
  lemma EmailShapeIffRegex(e: string)
    ensures IsEmailShape(e) <==> MatchesEmailRegex(e)
  {
    if IsEmailShape(e) {
      ShapeMatchesRegex(e);
    }
    if MatchesEmailRegex(e) {
      RegexMatchesShape(e);
    }
  }

  /** A run with no whitespace and no `@` at the given positions of `e`. */
  lemma AddrCharsOfSlice(e: string, lo: int, hi: int)
    requires 0 <= lo <= hi <= |e|
    requires forall k :: lo <= k < hi ==> e[k] != '@' && !IsJsWhitespace(e[k])
    ensures AddrChars(e[lo..hi])
  {
    forall k | 0 <= k < hi - lo ensures e[lo..hi][k] != '@' && !IsJsWhitespace(e[lo..hi][k]) {
      assert e[lo..hi][k] == e[lo + k];
    }
  }

  lemma ShapeMatchesRegex(e: string)
    requires IsEmailShape(e)
    ensures MatchesEmailRegex(e)
  {
    var at := IndexOf(e, '@');
    var dot :| at + 1 < dot < |e| - 1 && e[dot] == '.';
    AddrCharsOfSlice(e, 0, at);
    AddrCharsOfSlice(e, at + 1, dot);
    AddrCharsOfSlice(e, dot + 1, |e|);
    assert e[..at] == e[0..at];
    assert e[dot + 1..] == e[dot + 1..|e|];
  }

  lemma RegexMatchesShape(e: string)
    requires MatchesEmailRegex(e)
    ensures IsEmailShape(e)
  {
    var at, dot :|
      && 0 < at && at + 1 < dot && dot + 1 < |e|
      && e[at] == '@' && e[dot] == '.'
      && AddrChars(e[..at]) && AddrChars(e[at + 1..dot]) && AddrChars(e[dot + 1..]);
    forall k | 0 <= k < at ensures e[k] != '@' && !IsJsWhitespace(e[k]) {
      assert e[..at][k] == e[k];
    }
    forall k | at < k < dot ensures e[k] != '@' && !IsJsWhitespace(e[k]) {
      assert e[at + 1..dot][k - at - 1] == e[k];
    }
    forall k | dot < k < |e| ensures e[k] != '@' && !IsJsWhitespace(e[k]) {
      assert e[dot + 1..][k - dot - 1] == e[k];
    }
    assert !IsJsWhitespace(e[at]) && !IsJsWhitespace(e[dot]);
    assert IndexOf(e, '@') == at;
  }

  /** Number of line feeds in `s`. */
  function NewlineCount(s: string): nat {
    if s == [] then 0 else (if s[0] == '\n' then 1 else 0) + NewlineCount(s[1..])
  }

  /** `message.replace(/\n/g, '<br>')`. */
  function NewlinesToBr(m: string): (r: string)
    ensures forall k :: 0 <= k < |r| ==> r[k] != '\n'
    ensures |r| == |m| + 3 * NewlineCount(m)
  {
    if m == [] then []
    else (if m[0] == '\n' then "<br>" else [m[0]]) + NewlinesToBr(m[1..])
  }

  /** A message without line feeds goes into the HTML body unchanged. */
  lemma {:induction false} NewlinesToBrKeepsPlainText(m: string)
    requires forall k :: 0 <= k < |m| ==> m[k] != '\n'
    ensures NewlinesToBr(m) == m
  {
    if m != [] {
      NewlinesToBrKeepsPlainText(m[1..]);
    }
  }

  /** The replacement works piecewise: it distributes over concatenation. */
  lemma {:induction false} NewlinesToBrConcat(a: string, b: string)
    ensures NewlinesToBr(a + b) == NewlinesToBr(a) + NewlinesToBr(b)
  {
    if a == [] {
      assert a + b == b;
    } else {
      assert (a + b)[0] == a[0];
      assert (a + b)[1..] == a[1..] + b;
      NewlinesToBrConcat(a[1..], b);
    }
  }

  /** The reverse replacement, `<br>` back to a line feed. */
  function BrToNewlines(r: string): string
    decreases |r|
  {
    if r == [] then []
    else if StartsWith(r, "<br>") then "\n" + BrToNewlines(r[4..])
    else [r[0]] + BrToNewlines(r[1..])
  }

  /** For a message without `<` the HTML line breaks can be read back into
      the original message. */
  lemma {:induction false} NewlinesToBrRoundTrip(m: string)
    requires forall k :: 0 <= k < |m| ==> m[k] != '<'
    ensures BrToNewlines(NewlinesToBr(m)) == m
  {
    if m != [] {
      var rest := NewlinesToBr(m[1..]);
      NewlinesToBrRoundTrip(m[1..]);
      if m[0] == '\n' {
        assert NewlinesToBr(m) == "<br>" + rest;
        assert ("<br>" + rest)[4..] == rest;
      } else {
        assert NewlinesToBr(m) == [m[0]] + rest;
        assert ([m[0]] + rest)[1..] == rest;
      }
    }
  }

  /** Without that restriction the replacement loses information: a typed
      `<br>` and a line feed produce the same HTML. */
  lemma NewlinesToBrNotInjective()
    ensures NewlinesToBr("a\nb") == NewlinesToBr("a<br>b")
  {
    assert "a\nb" == "a" + "\n" + "b";
    assert "a<br>b" == "a" + "<" + "b" + "r" + ">" + "b";
    NewlinesToBrConcat("a", "\nb");
    NewlinesToBrConcat("\n", "b");
    NewlinesToBrKeepsPlainText("a<br>b");
    NewlinesToBrKeepsPlainText("a");
    NewlinesToBrKeepsPlainText("b");
  }

  /** The subject line. */
  function Subject(name: string): (r: string)
    ensures StartsWith(r, SubjectPrefix)
    ensures r[|SubjectPrefix|..] == name
  {
    SubjectPrefix + name
  }

  function HtmlBody(name: string, email: string, message: string): string {
    "\n          <h2>New Contact Form Submission</h2>\n          <p><strong>Name:</strong> "
    + name + "</p>\n          <p><strong>Email:</strong> "
    + email + "</p>\n          <p><strong>Message:</strong></p>\n          <p>"
    + NewlinesToBr(message) + "</p>\n        "
  }

  function TextBody(name: string, email: string, message: string): string {
    "\n          New Contact Form Submission\n          \n          Name: "
    + name + "\n          Email: "
    + email + "\n          Message: "
    + message + "\n        "
  }

  function ComposeEmail(name: string, email: string, message: string): OutboundEmail {
    OutboundEmail(Sender, Recipient, Subject(name), HtmlBody(name, email, message),
                  TextBody(name, email, message))
  }

  /** Input that passes every check before the credential test. */
  predicate ValidSubmission(req: ContactRequest) {
    && req.httpMethod == "POST"
    && Truthy(req.name) && Truthy(req.email) && Truthy(req.message)
    && IsEmailShape(req.email.value)
  }

  /** The handler. `apiKey` is the `RESEND_API_KEY` environment variable;
      `provider` is what the provider would answer if asked. */
  function Handle(req: ContactRequest, apiKey: Option<string>, provider: ProviderReply): (r: Outcome)
    ensures r.response.status in {200, 400, 405, 500}
    ensures r.response.body.SuccessBody? <==> r.response.status == 200
    ensures r.sent.Some? <==> ValidSubmission(req) && Truthy(apiKey)
    ensures r.sent.Some? ==> r.sent.value.subject == Subject(req.name.value)
  {
    if req.httpMethod != "POST" then
      Outcome(Response(405, ErrorBody(MethodNotAllowed)), None)
    else if !Truthy(req.name) || !Truthy(req.email) || !Truthy(req.message) then
      Outcome(Response(400, ErrorBody(MissingFields)), None)
    else if !IsEmailShape(req.email.value) then
      Outcome(Response(400, ErrorBody(InvalidEmail)), None)
    else if !Truthy(apiKey) then
      Outcome(Response(200, SuccessBody(LoggedSuccess)), None)
    else
      var mail := ComposeEmail(req.name.value, req.email.value, req.message.value);
      match provider
      case ProviderOk(true) => Outcome(Response(200, SuccessBody(SentSuccess)), Some(mail))
      case _ => Outcome(Response(500, ErrorBody(GenericFailure)), Some(mail))
  }

  /** Any method but POST is refused with 405 whatever the body, credential
      or provider: no later check runs and nothing is sent. */
  lemma NonPostRefused(req: ContactRequest, apiKey: Option<string>, provider: ProviderReply)
    requires req.httpMethod != "POST"
    ensures Handle(req, apiKey, provider) == Outcome(Response(405, ErrorBody(MethodNotAllowed)), None)
  {
  }

  /** A missing or empty field gives 400 "Missing required fields", even
      when the address is also malformed: presence is checked first. */
  lemma MissingFieldRefused(req: ContactRequest, apiKey: Option<string>, provider: ProviderReply)
    requires req.httpMethod == "POST"
    requires !Truthy(req.name) || !Truthy(req.email) || !Truthy(req.message)
    ensures Handle(req, apiKey, provider) == Outcome(Response(400, ErrorBody(MissingFields)), None)
  {
  }

  /** With all fields present, an address the regular expression rejects
      gives 400 "Invalid email address"; one it accepts is never refused for
      its shape. */
  lemma MalformedEmailRefused(req: ContactRequest, apiKey: Option<string>, provider: ProviderReply)
    requires req.httpMethod == "POST"
    requires Truthy(req.name) && Truthy(req.email) && Truthy(req.message)
    ensures !MatchesEmailRegex(req.email.value) <==>
            Handle(req, apiKey, provider) == Outcome(Response(400, ErrorBody(InvalidEmail)), None)
  {
    EmailShapeIffRegex(req.email.value);
  }

  /** Without a credential, valid input is answered 200 with success and no
      provider request is made. */
  lemma NoCredentialLogsOnly(req: ContactRequest, apiKey: Option<string>, provider: ProviderReply)
    requires ValidSubmission(req) && !Truthy(apiKey)
    ensures Handle(req, apiKey, provider) == Outcome(Response(200, SuccessBody(LoggedSuccess)), None)
  {
  }

  /** With a credential, exactly one provider request carrying the three
      fields is made; the reply is 200 iff the provider accepted it with a
      readable body, and otherwise 500 with the fixed message, so nothing
      the provider says reaches the caller. */
  lemma ProviderOutcomeMapped(req: ContactRequest, apiKey: Option<string>, provider: ProviderReply)
    requires ValidSubmission(req) && Truthy(apiKey)
    ensures Handle(req, apiKey, provider).sent ==
            Some(ComposeEmail(req.name.value, req.email.value, req.message.value))
    ensures provider == ProviderOk(true) ==>
            Handle(req, apiKey, provider).response == Response(200, SuccessBody(SentSuccess))
    ensures provider != ProviderOk(true) ==>
            Handle(req, apiKey, provider).response == Response(500, ErrorBody(GenericFailure))
  {
  }

  /** The provider's own error text never changes the reply. */
  lemma ProviderMessageNotLeaked(req: ContactRequest, apiKey: Option<string>, m1: Option<string>, m2: Option<string>)
    ensures Handle(req, apiKey, ProviderNotOk(m1)) == Handle(req, apiKey, ProviderNotOk(m2))
  {
  }

  /** A plain address is accepted. */
  lemma AcceptedExample()
    ensures MatchesEmailRegex("ana@x.com")
  {
    var e := "ana@x.com";
    assert e[..3] == "ana" && e[4..5] == "x" && e[6..] == "com";
    assert AddrChars(e[..3]) && AddrChars(e[4..5]) && AddrChars(e[6..]);
    assert e[3] == '@' && e[5] == '.';
  }

  /** An address without `@` is refused. */
  lemma RefusedExample()
    ensures !MatchesEmailRegex("not-an-email")
  {
    var e := "not-an-email";
    forall k | 0 <= k < |e| ensures e[k] != '@' { }
  }
}
