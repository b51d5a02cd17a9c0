/**
 * End-to-end behaviour of the contact-form handler: the response and the service call
 * for a valid submission, for a submission with failed checks, and for a body that
 * cannot be read, followed by concrete submissions of each kind.
 */
module HandlerScenarios {
  import opened Wrappers
  import opened JsString
  import opened EmailPattern
  import opened ContactForm

  /** A valid submission is composed, sent once, and answered 200 or the generic 500. */
  lemma ValidSubmission(event: RequestBody, sesEmailAddress: string, template: EmailTemplate, send: SendEmailCommand -> SendOutcome)
    requires IsValid(event)
    ensures var command := Compose(event.name.s, event.email.s, event.message.s, sesEmailAddress, template);
            var r := HandlerResult(event, sesEmailAddress, template, send);
            r.sent == Some(command) &&
            (send(command) == Returned(200) ==> r.response == Response(200, CorsHeaders, SuccessBody)) &&
            (send(command) != Returned(200) ==> r.response == Response(500, CorsHeaders, FailureBody))
  {
    var r := HandlerResult(event, sesEmailAddress, template, send);
    assert r.response.statusCode in {200, 500};
  }

  /** A submission with a failed check is answered 400 with its error list, and nothing is sent. */
  lemma RejectedSubmission(event: RequestBody, sesEmailAddress: string, template: EmailTemplate, send: SendEmailCommand -> SendOutcome)
    requires event.Fields? && !IsValid(event)
    ensures var errs := ValidationErrors(event.name, event.email, event.message);
            HandlerResult(event, sesEmailAddress, template, send) ==
              Invocation(Response(400, CorsHeaders, BadRequestBody(errs)), None)
  {
  }

  /**
   * Whatever the submission, a command that reaches the service carries three non-empty
   * strings, an accepted address among them, and goes to and from the configured address.
   */
  lemma SentCommandShape(event: RequestBody, sesEmailAddress: string, template: EmailTemplate, send: SendEmailCommand -> SendOutcome)
    requires HandlerResult(event, sesEmailAddress, template, send).sent.Some?
    ensures var command := HandlerResult(event, sesEmailAddress, template, send).sent.value;
            event.Fields? && event.name.Str? && event.email.Str? && event.message.Str? &&
            event.name.s != "" && event.message.s != "" && IsEmailAddress(event.email.s) &&
            command.toAddresses == [sesEmailAddress] && command.source == sesEmailAddress &&
            command.subject == Subject &&
            command.htmlData == EmailHtml(template, event.name.s, event.email.s, event.message.s)
  {
  }

  /** Non-empty strings for the name and the message and an accepted address pass every check. */
  lemma StringsValid(name: string, email: string, message: string)
    requires name != "" && message != "" && IsEmailAddress(email)
    ensures IsValid(Fields(Str(name), Str(email), Str(message)))
  {
  }

  /**
   * The `Alice` / `alice@example.com` / `Hi` submission passes every check, so by `ValidSubmission` it is
   * answered 200 when the service answers 200 and the generic 500 otherwise.
   */
  lemma ExampleSubmissionValid()
    ensures IsValid(Fields(Str("Alice"), Str("alice@example.com"), Str("Hi")))
  {
    ScenarioAddressAccepted();
    StringsValid("Alice", "alice@example.com", "Hi");
  }

  /**
   * The `Alice` / `alice@example.com` / `Hi` submission, with a service that answers 200: the composed
   * command is sent once and the answer is the success body.
   */
  lemma ExampleSubmissionSucceeds(sesEmailAddress: string, template: EmailTemplate, send: SendEmailCommand -> SendOutcome)
    requires send(Compose("Alice", "alice@example.com", "Hi", sesEmailAddress, template)) == Returned(200)
    ensures HandlerResult(Fields(Str("Alice"), Str("alice@example.com"), Str("Hi")), sesEmailAddress, template, send) ==
      Invocation(Response(200, CorsHeaders, SuccessBody), Some(Compose("Alice", "alice@example.com", "Hi", sesEmailAddress, template)))
  {
    ExampleSubmissionValid();
    ValidSubmission(Fields(Str("Alice"), Str("alice@example.com"), Str("Hi")), sesEmailAddress, template, send);
  }

  /**
   * With the deployed template, the email the service receives opens with the fixed
   * document head and carries the submitted name right after it.
   */
  lemma DeployedTemplateCarriesName(event: RequestBody, sesEmailAddress: string, send: SendEmailCommand -> SendOutcome)
    requires IsValid(event)
    ensures var r := HandlerResult(event, sesEmailAddress, PortfolioTemplate, send);
            var at := |PortfolioTemplate.beforeName|;
            r.sent.Some? && PortfolioTemplate.beforeName <= r.sent.value.htmlData &&
            r.sent.value.htmlData[at..at + |event.name.s|] == event.name.s
  {
    SentEmailCarriesName(event, sesEmailAddress, PortfolioTemplate, send);
  }

  lemma SentEmailCarriesName(event: RequestBody, sesEmailAddress: string, t: EmailTemplate, send: SendEmailCommand -> SendOutcome)
    requires IsValid(event)
    ensures var r := HandlerResult(event, sesEmailAddress, t, send);
            var at := |t.beforeName|;
            r.sent.Some? && t.beforeName <= r.sent.value.htmlData &&
            r.sent.value.htmlData[at..at + |event.name.s|] == event.name.s
  {
    ValidSubmission(event, sesEmailAddress, t, send);
  }

  lemma JoinedMessagesOfThree(k1: ErrorKind, k2: ErrorKind, k3: ErrorKind)
    ensures Join(Messages([k1, k2, k3]), Separator) ==
      Message(k1) + Separator + Message(k2) + Separator + Message(k3)
  {
    assert Messages([k1, k2, k3]) == [Message(k1), Message(k2), Message(k3)];
    JoinThree(Message(k1), Message(k2), Message(k3), Separator);
  }

  /** No name: 400 naming only the name. */
  lemma MissingNameSubmission(sesEmailAddress: string, template: EmailTemplate, send: SendEmailCommand -> SendOutcome)
    ensures var r := HandlerResult(Fields(Absent, Str("alice@example.com"), Str("Hi")), sesEmailAddress, template, send);
            r == Invocation(Response(400, CorsHeaders, BadRequestPrefix + Message(MissingName)), None)
  {
    var event := Fields(Absent, Str("alice@example.com"), Str("Hi"));
    assert ValidationErrors(event.name, event.email, event.message) == [MissingName] by {
      ScenarioAddressAccepted();
    }
    JoinedMessagesOfOne(MissingName);
    RejectedSubmission(event, sesEmailAddress, template, send);
  }

  /** A malformed address: 400 naming only the format. */
  lemma MalformedEmailSubmission(sesEmailAddress: string, template: EmailTemplate, send: SendEmailCommand -> SendOutcome)
    ensures var r := HandlerResult(Fields(Str("Alice"), Str("bad"), Str("Hi")), sesEmailAddress, template, send);
            r == Invocation(Response(400, CorsHeaders, BadRequestPrefix + Message(MalformedEmail)), None)
  {
    var event := Fields(Str("Alice"), Str("bad"), Str("Hi"));
    assert ValidationErrors(event.name, event.email, event.message) == [MalformedEmail] by {
      ExamplesRejected();
    }
    JoinedMessagesOfOne(MalformedEmail);
    RejectedSubmission(event, sesEmailAddress, template, send);
  }

  /** Nothing usable: every presence check reports, in check order, and the format check does not. */
  lemma EmptySubmission(sesEmailAddress: string, template: EmailTemplate, send: SendEmailCommand -> SendOutcome)
    ensures var r := HandlerResult(Fields(Str(""), Other(false), Absent), sesEmailAddress, template, send);
            r == Invocation(Response(400, CorsHeaders, BadRequestPrefix +
              (Message(MissingName) + Separator + Message(MissingEmail) + Separator + Message(MissingMessage))), None)
  {
    var event := Fields(Str(""), Other(false), Absent);
    assert ValidationErrors(event.name, event.email, event.message) == [MissingName, MissingEmail, MissingMessage];
    JoinedMessagesOfThree(MissingName, MissingEmail, MissingMessage);
    RejectedSubmission(event, sesEmailAddress, template, send);
  }

  /** A body that cannot be read: the generic 500, and the service is never called. */
  lemma UnreadableBody(detail: string, sesEmailAddress: string, template: EmailTemplate, send: SendEmailCommand -> SendOutcome)
    ensures HandlerResult(Unreadable(detail), sesEmailAddress, template, send) ==
      Invocation(Response(500, CorsHeaders, FailureBody), None)
  {
  }
}
