/**
 * The contact-form handler: it reads `name`, `email` and `message` from an untrusted
 * request body, checks each field on its own, answers 400 with the aggregated error
 * messages when a check fails, and otherwise composes an HTML email addressed to the
 * configured address, hands it to the email service and answers 200 or 500.
 *
 * The request body arrives already parsed (see `RequestBody`), and the email service
 * is a function from the command it is given to the outcome of the call.
 */
module ContactForm {
  import opened Wrappers
  import opened JsString
  import opened EmailPattern

  /**
   * One property of the parsed body: missing (`undefined`), a string, or any other
   * JSON value, which JavaScript treats as truthy or falsy (`null`, `false`, `0`).
   */
  datatype Field = Absent | Str(s: string) | Other(truthy: bool)

  /**
   * The outcome of `JSON.parse(event.body)` followed by the three property reads.
   * `Unreadable` is a body that throws on the way: text that is not JSON, or JSON
   * `null`, whose property read throws a `TypeError`; `detail` is that error's message.
   */
  datatype RequestBody =
    | Unreadable(detail: string)
    | Fields(name: Field, email: Field, message: Field)

  /** What `await ses.send(command)` does: resolve with `$metadata.httpStatusCode`, or throw. */
  datatype SendOutcome = Returned(httpStatusCode: int) | Threw(detail: string)

  /** The two CORS headers of every response. */
  datatype Headers = Headers(allowOrigin: string, allowCredentials: bool)

  const CorsHeaders := Headers("*", true)

  datatype Response = Response(statusCode: int, headers: Headers, body: string)

  /** The parts of the `SendEmailCommand` input the handler fills in. */
  datatype SendEmailCommand = SendEmailCommand(toAddresses: seq<string>, source: string, subject: string, htmlData: string)

  /** A JavaScript `Error` as far as the catch block looks at it. */
  datatype JsError = JsError(message: string, cause: Option<string>)

  /** What one invocation leaves behind: the response, and the command handed to the email service, if any. */
  datatype Invocation = Invocation(response: Response, sent: Option<SendEmailCommand>)

  /** The four validation failures, in the order the handler checks them. */
  datatype ErrorKind = MissingName | MissingEmail | MalformedEmail | MissingMessage

  const BadRequestCause := "badRequestBody"
  const BadRequestPrefix := "Bad request: "
  const Separator := "; "
  const SuccessBody := "Email has been successfully sent."
  const FailureBody := "Email could not be sent at this time. Please try again later."
  const NotSentMessage := "Email was not sent."
  const Subject := "New Message from your Portfolio Page"

  const MissingNameText := "value \"name\" is not present or is invalid"
  const MissingEmailText := "value \"email\" is not present or is invalid"
  const MalformedEmailText := "value \"email\" is improperly formatted"
  const MissingMessageText := "value \"message\" is not present or is invalid"

  /** The text the handler pushes for each failed check. */
  function Message(k: ErrorKind): string {
    match k
    case MissingName => MissingNameText
    case MissingEmail => MissingEmailText
    case MalformedEmail => MalformedEmailText
    case MissingMessage => MissingMessageText
  }

  /** The texts of a list of failures, one per failure, in the same order. */
  function Messages(ks: seq<ErrorKind>): (ms: seq<string>)
    ensures |ms| == |ks|
    ensures forall i :: 0 <= i < |ks| ==> ms[i] == Message(ks[i])
  {
    if ks == [] then [] else [Message(ks[0])] + Messages(ks[1..])
  }

  function Rank(k: ErrorKind): nat {
    match k
    case MissingName => 0
    case MissingEmail => 1
    case MalformedEmail => 2
    case MissingMessage => 3
  }

  /** Strictly in check order, hence also without repetition. */
  predicate InCheckOrder(ks: seq<ErrorKind>) {
    forall i, j :: 0 <= i < j < |ks| ==> Rank(ks[i]) < Rank(ks[j])
  }

  predicate IsTruthy(v: Field) {
    match v
    case Absent => false
    case Str(s) => s != ""
    case Other(truthy) => truthy
  }

  /** The field check `!v || typeof v !== "string"`. */
  function FailsCheck(v: Field): (failed: bool)
    ensures failed <==> v.Absent? || v.Other? || v == Str("")
  {
    !IsTruthy(v) || !v.Str?
  }

  /**
   * The errors of one submission, as the independent checks find them: each check
   * looks at its own field only, none is skipped, the format check applies to a
   * non-empty string only, and the list keeps the check order.
   */
  function ValidationErrors(name: Field, email: Field, message: Field): (errs: seq<ErrorKind>)
    ensures MissingName in errs <==> FailsCheck(name)
    ensures MissingEmail in errs <==> FailsCheck(email)
    ensures MalformedEmail in errs <==> !FailsCheck(email) && !IsEmailAddress(email.s)
    ensures MissingMessage in errs <==> FailsCheck(message)
    ensures !(MissingEmail in errs && MalformedEmail in errs)
    ensures InCheckOrder(errs)
    ensures errs == [] <==>
      !FailsCheck(name) && !FailsCheck(email) && IsEmailAddress(email.s) && !FailsCheck(message)
  {
    (if FailsCheck(name) then [MissingName] else []) +
    (if FailsCheck(email) then [MissingEmail] else if !IsEmailAddress(email.s) then [MalformedEmail] else []) +
    (if FailsCheck(message) then [MissingMessage] else [])
  }

  /** The fixed text of an HTML email around the three submitted values. */
  datatype EmailTemplate = EmailTemplate(beforeName: string, beforeEmail: string, beforeMessage: string, afterMessage: string)

  /**
   * The document the deployed handler fills in; indentation is not reproduced. The
   * handler below is stated for any template, so its properties hold for this one.
   */
  const PortfolioTemplate := EmailTemplate(
    "<!DOCTYPE html PUBLIC \"-//W3C//DTD XHTML 1.0 Transitional//EN\" \"http://www.w3.org/TR/xhtml1/DTD/xhtml1-transitional.dtd\">\n" +
    "<html lang=\"en\">\n<head>\n<meta charset=\"utf-8\">\n<title>The HTML5 Herald</title>\n" +
    "<meta name=\"description\" content=\"The HTML5 Herald\">\n<meta name=\"author\" content=\"SitePoint\">\n" +
    "<meta http-equiv=\"Content-Type\" content=\"text/html charset=UTF-8\" />\n" +
    "<link rel=\"stylesheet\" href=\"css/styles.css?v=1.0\">\n</head>\n<body>\n" +
    "<div class=\"img-container\" style=\"display: flex;justify-content: center;align-items: center;" +
    "border-radius: 5px;overflow: hidden; font-family: 'helvetica', 'ui-sans';\">\n</div>\n" +
    "<div class=\"container\" style=\"margin-left: 20px;margin-right: 20px;\">\n" +
    "<h3>You've got a new email from ",
    ". Their email is:\U{FE0F} ",
    " </h3>\n<div style=\"font-size: 16px;\">\n<p><b>Message:</b></p>\n<p>",
    "</p>\n<br>\n</div>\n</body>\n</html>")

  /**
   * The email body: the template with the three submitted values substituted
   * verbatim, without any HTML escaping, each at the offset the text before it fixes.
   */
  function EmailHtml(t: EmailTemplate, name: string, email: string, message: string): (html: string)
    ensures |html| == |t.beforeName| + |name| + |t.beforeEmail| + |email| + |t.beforeMessage| + |message| + |t.afterMessage|
    ensures t.beforeName <= html
    ensures var at := |t.beforeName|; html[at..at + |name|] == name
    ensures var at := |t.beforeName| + |name|; html[at..at + |t.beforeEmail|] == t.beforeEmail
    ensures var at := |t.beforeName| + |name| + |t.beforeEmail|; html[at..at + |email|] == email
    ensures var at := |t.beforeName| + |name| + |t.beforeEmail| + |email|; html[at..at + |t.beforeMessage|] == t.beforeMessage
    ensures var at := |t.beforeName| + |name| + |t.beforeEmail| + |email| + |t.beforeMessage|;
            html[at..at + |message|] == message
    ensures var at := |html| - |t.afterMessage|; html[at..] == t.afterMessage
  {
    t.beforeName + name + t.beforeEmail + email + t.beforeMessage + message + t.afterMessage
  }

  /** The command for the email service: the configured address is both the only recipient and the sender. */
  function Compose(name: string, email: string, message: string, sesEmailAddress: string, template: EmailTemplate): (command: SendEmailCommand)
    ensures command.toAddresses == [sesEmailAddress] && command.source == sesEmailAddress
    ensures command.subject == Subject && command.htmlData == EmailHtml(template, name, email, message)
  {
    SendEmailCommand([sesEmailAddress], sesEmailAddress, Subject, EmailHtml(template, name, email, message))
  }

  /**
   * The catch block: an error tagged with the bad-request cause becomes a 400 that
   * quotes its message; every other error becomes the same 500, whatever its message.
   */
  function Catch(error: JsError): (response: Response)
    ensures response.headers == CorsHeaders
    ensures error.cause == Some(BadRequestCause) ==>
      response.statusCode == 400 && response.body == BadRequestPrefix + error.message
    ensures error.cause != Some(BadRequestCause) ==> response == Response(500, CorsHeaders, FailureBody)
  {
    if error.cause == Some(BadRequestCause) then Response(400, CorsHeaders, BadRequestPrefix + error.message)
    else Response(500, CorsHeaders, FailureBody)
  }

  /** Appending a failure appends its message. */
  lemma {:induction false} MessagesSnoc(ks: seq<ErrorKind>, k: ErrorKind)
    ensures Messages(ks + [k]) == Messages(ks) + [Message(k)]
  {
    if ks != [] {
      assert (ks + [k])[1..] == ks[1..] + [k];
      MessagesSnoc(ks[1..], k);
    }
  }

  /** One failure: the joined text is its message alone. */
  lemma JoinedMessagesOfOne(k: ErrorKind)
    ensures Join(Messages([k]), Separator) == Message(k)
  {
    assert Messages([k]) == [Message(k)];
    JoinOne(Message(k), Separator);
  }

  /** Two or more failures: the first message, the separator, then the join of the rest. */
  lemma JoinedMessagesCons(ks: seq<ErrorKind>)
    requires |ks| >= 2
    ensures Join(Messages(ks), Separator) == Message(ks[0]) + (Separator + Join(Messages(ks[1..]), Separator))
  {
    var ms := Messages(ks);
    assert ms[1..] == Messages(ks[1..]);
    assert Join(ms, Separator) == ms[0] + Separator + Join(ms[1..], Separator);
  }

  /** The 400 body for a list of failed checks. */
  function BadRequestBody(errs: seq<ErrorKind>): (body: string)
    ensures BadRequestPrefix <= body
    ensures errs == [] <==> body == BadRequestPrefix
  {
    BadRequestPrefix + Join(Messages(errs), Separator)
  }

  /** A readable body whose three fields pass every check. */
  predicate IsValid(event: RequestBody) {
    event.Fields? && ValidationErrors(event.name, event.email, event.message) == []
  }

  /**
   * One invocation as a value: the outcomes form a closed set, 400 exactly when a check
   * failed, 200 exactly when the checks passed and the service answered 200, 500 in every
   * other case, and a command reaches the service exactly when the checks passed.
   */
  function HandlerResult(event: RequestBody, sesEmailAddress: string, template: EmailTemplate, send: SendEmailCommand -> SendOutcome): (r: Invocation)
    ensures r.response.headers == CorsHeaders
    ensures r.response.statusCode in {200, 400, 500}
    ensures r.sent.Some? <==> IsValid(event)
    ensures r.sent.Some? ==>
      r.sent.value == Compose(event.name.s, event.email.s, event.message.s, sesEmailAddress, template)
    ensures r.response.statusCode == 400 <==> event.Fields? && !IsValid(event)
    ensures r.response.statusCode == 400 ==>
      r.response.body == BadRequestBody(ValidationErrors(event.name, event.email, event.message))
    ensures r.response.statusCode == 200 <==> r.sent.Some? && send(r.sent.value) == Returned(200)
    ensures r.response.statusCode == 200 ==> r.response.body == SuccessBody
    ensures r.response.statusCode == 500 <==>
      event.Unreadable? || (r.sent.Some? && send(r.sent.value) != Returned(200))
    ensures r.response.statusCode == 500 ==> r.response.body == FailureBody
  {
    match event
    case Unreadable(detail) => Invocation(Catch(JsError(detail, None)), None)
    case Fields(name, email, message) =>
      var errs := ValidationErrors(name, email, message);
      if errs != [] then
        Invocation(Catch(JsError(Join(Messages(errs), Separator), Some(BadRequestCause))), None)
      else
        var command := Compose(name.s, email.s, message.s, sesEmailAddress, template);
        match send(command)
        case Returned(code) =>
          if code == 200 then Invocation(Response(200, CorsHeaders, SuccessBody), Some(command))
          else Invocation(Catch(JsError(NotSentMessage, None)), Some(command))
        case Threw(detail) => Invocation(Catch(JsError(detail, None)), Some(command))
  }

  /**
   * The validation steps of the handler as the source runs them: one flag per check,
   * each check run whatever the others found, then one push per raised flag in a fixed
   * order. The list is what the independent checks report, message by message.
   */
  method CheckFields(name: Field, email: Field, message: Field)
    returns (badRequest: bool, errorMessageArray: seq<string>)
    ensures badRequest <==> ValidationErrors(name, email, message) != []
    ensures errorMessageArray == Messages(ValidationErrors(name, email, message))
  {
    badRequest := false;
    var noName := false;
    var noEmail := false;
    var badEmailFormat := false;
    var noMessage := false;

    if FailsCheck(name) {
      noName := true;
      badRequest := true;
    }
    if FailsCheck(email) {
      noEmail := true;
      badRequest := true;
    } else {
      if !IsEmailAddress(email.s) {
        badEmailFormat := true;
        badRequest := true;
      }
    }
    if FailsCheck(message) {
      noMessage := true;
      badRequest := true;
    }

    assert noName == FailsCheck(name) && noEmail == FailsCheck(email) && noMessage == FailsCheck(message);
    assert badEmailFormat == (!FailsCheck(email) && !IsEmailAddress(email.s));
    assert badRequest == (noName || noEmail || badEmailFormat || noMessage);

    // The failures pushed so far, alongside their messages.
    ghost var pushed: seq<ErrorKind> := [];
    errorMessageArray := [];
    if badRequest {
      if noName {
        MessagesSnoc(pushed, MissingName);
        pushed, errorMessageArray := pushed + [MissingName], errorMessageArray + [Message(MissingName)];
      }
      ghost var byName := pushed;
      if noEmail {
        MessagesSnoc(pushed, MissingEmail);
        pushed, errorMessageArray := pushed + [MissingEmail], errorMessageArray + [Message(MissingEmail)];
      }
      if badEmailFormat {
        MessagesSnoc(pushed, MalformedEmail);
        pushed, errorMessageArray := pushed + [MalformedEmail], errorMessageArray + [Message(MalformedEmail)];
      }
      ghost var byEmail := pushed;
      if noMessage {
        MessagesSnoc(pushed, MissingMessage);
        pushed, errorMessageArray := pushed + [MissingMessage], errorMessageArray + [Message(MissingMessage)];
      }
      assert byName == (if noName then [MissingName] else []);
      assert byEmail == byName + (if noEmail then [MissingEmail] else if badEmailFormat then [MalformedEmail] else []);
      assert pushed == byEmail + (if noMessage then [MissingMessage] else []);
    }
    assert errorMessageArray == Messages(pushed);
    assert pushed == ValidationErrors(name, email, message);
  }

  /**
   * The handler as the source runs it: the checks above, the bad request thrown as an
   * error tagged with its cause, the send awaited only after every check passed, and
   * every thrown error mapped by the catch block. `sent` is the command handed to the
   * email service, `None` when the service is never called.
   */
  method Handler(event: RequestBody, sesEmailAddress: string, template: EmailTemplate, send: SendEmailCommand -> SendOutcome)
    returns (response: Response, sent: Option<SendEmailCommand>)
    ensures response == HandlerResult(event, sesEmailAddress, template, send).response
    ensures sent == HandlerResult(event, sesEmailAddress, template, send).sent
  {
    sent := None;
    var error: JsError;
    if event.Unreadable? {
      error := JsError(event.detail, None);
    } else {
      var name, email, message := event.name, event.email, event.message;
      var badRequest, errorMessageArray := CheckFields(name, email, message);
      if badRequest {
        error := JsError(Join(errorMessageArray, Separator), Some(BadRequestCause));
      } else {
        var command := Compose(name.s, email.s, message.s, sesEmailAddress, template);
        sent := Some(command);
        var sesResponse := send(command);
        if sesResponse == Returned(200) {
          response := Response(200, CorsHeaders, SuccessBody);
          return;
        }
        error := if sesResponse.Threw? then JsError(sesResponse.detail, None) else JsError(NotSentMessage, None);
      }
    }
    response := Catch(error);
  }
}
