/**
 * Reading a 400 body back. The four error messages are prefix-free and none holds the
 * separator `; `, so the body of a bad-request response names exactly the checks that
 * failed: the decoder below recovers the error list from the text, which makes the
 * `; `-join of the messages an injective encoding of that list.
 */
module ErrorReport {
  import opened Wrappers
  import opened JsString
  import opened ContactForm

  /** The failure whose message opens `s`, trying them in check order. */
  function KindAtStart(s: string): (k: Option<ErrorKind>)
    ensures k.Some? ==> Message(k.value) <= s
  {
    if Message(MissingName) <= s then Some(MissingName)
    else if Message(MissingEmail) <= s then Some(MissingEmail)
    else if Message(MalformedEmail) <= s then Some(MalformedEmail)
    else if Message(MissingMessage) <= s then Some(MissingMessage)
    else None
  }

  /** Messages separated by `; `, back to their failures; `None` for any other text. */
  function DecodeMessages(s: string): Option<seq<ErrorKind>>
    decreases |s|
  {
    match KindAtStart(s)
    case None => None
    case Some(k) =>
      var rest := s[|Message(k)|..];
      if rest == "" then Some([k])
      else if Separator <= rest then
        match DecodeMessages(rest[|Separator|..])
        case None => None
        case Some(ks) => Some([k] + ks)
      else None
  }

  /** The failures a 400 body reports, or `None` when it is not one. */
  function DecodeBadRequestBody(body: string): Option<seq<ErrorKind>> {
    if BadRequestPrefix <= body then DecodeMessages(body[|BadRequestPrefix|..]) else None
  }

  lemma PrefixOfAppend(a: string, rest: string)
    ensures a <= a + rest
  {
  }

  /** A text that differs from `a` at index `i` does not start with `a`. */
  lemma DiffersAt(a: string, b: string, rest: string, i: nat)
    requires i < |a| && i < |b| && a[i] != b[i]
    ensures !(a <= b + rest)
  {
    assert (b + rest)[i] == b[i];
  }

  /** No message opens another one, so the decoder recognises each message whatever follows it. */
  lemma KindAtStartOf(k: ErrorKind, rest: string)
    ensures KindAtStart(Message(k) + rest) == Some(k)
  {
    PrefixOfAppend(Message(k), rest);
    match k
    case MissingName =>
    case MissingEmail =>
      DiffersAt(MissingNameText, MissingEmailText, rest, 7);
    case MalformedEmail =>
      DiffersAt(MissingNameText, MalformedEmailText, rest, 7);
      DiffersAt(MissingEmailText, MalformedEmailText, rest, 17);
    case MissingMessage =>
      DiffersAt(MissingNameText, MissingMessageText, rest, 7);
      DiffersAt(MissingEmailText, MissingMessageText, rest, 7);
      DiffersAt(MalformedEmailText, MissingMessageText, rest, 7);
  }

  /** One message alone decodes to its failure. */
  lemma DecodeOne(k: ErrorKind)
    ensures DecodeMessages(Message(k)) == Some([k])
  {
    KindAtStartOf(k, "");
    assert Message(k) + "" == Message(k);
  }

  /** A message followed by the separator decodes to its failure followed by whatever the rest decodes to. */
  lemma DecodeCons(k: ErrorKind, tail: string)
    ensures DecodeMessages(Message(k) + (Separator + tail)) ==
      match DecodeMessages(tail)
      case None => None
      case Some(ks) => Some([k] + ks)
  {
    var s := Message(k) + (Separator + tail);
    KindAtStartOf(k, Separator + tail);
    assert s[|Message(k)|..] == Separator + tail;
    assert (Separator + tail)[|Separator|..] == tail;
  }

  /** Decoding undoes the `; `-join of any non-empty list of failures. */
  lemma {:induction false} DecodeJoined(ks: seq<ErrorKind>)
    requires ks != []
    ensures DecodeMessages(Join(Messages(ks), Separator)) == Some(ks)
  {
    if |ks| == 1 {
      assert ks == [ks[0]];
      JoinedMessagesOfOne(ks[0]);
      DecodeOne(ks[0]);
    } else {
      DecodeJoined(ks[1..]);
      DecodeJoinedStep(ks);
    }
  }

  lemma DecodeJoinedStep(ks: seq<ErrorKind>)
    requires |ks| >= 2
    requires DecodeMessages(Join(Messages(ks[1..]), Separator)) == Some(ks[1..])
    ensures DecodeMessages(Join(Messages(ks), Separator)) == Some(ks)
  {
    JoinedMessagesCons(ks);
    DecodeCons(ks[0], Join(Messages(ks[1..]), Separator));
    HeadTail(ks);
  }

  lemma HeadTail<T>(s: seq<T>)
    requires |s| > 0
    ensures [s[0]] + s[1..] == s
  {
  }

  /** The 400 body of a non-empty error list decodes back to that list. */
  lemma BadRequestBodyRoundTrip(errs: seq<ErrorKind>)
    requires errs != []
    ensures DecodeBadRequestBody(BadRequestBody(errs)) == Some(errs)
  {
    var body := BadRequestBody(errs);
    assert body[|BadRequestPrefix|..] == Join(Messages(errs), Separator);
    DecodeJoined(errs);
  }

  /** Two different lists of failures never produce the same 400 body. */
  lemma BadRequestBodyInjective(errs1: seq<ErrorKind>, errs2: seq<ErrorKind>)
    requires errs1 != [] && errs2 != []
    requires BadRequestBody(errs1) == BadRequestBody(errs2)
    ensures errs1 == errs2
  {
    BadRequestBodyRoundTrip(errs1);
    BadRequestBodyRoundTrip(errs2);
  }

  /** Every 400 response of the handler names exactly the checks that failed, in check order. */
  lemma BadRequestNamesFailedChecks(event: RequestBody, sesEmailAddress: string, template: EmailTemplate, send: SendEmailCommand -> SendOutcome)
    requires HandlerResult(event, sesEmailAddress, template, send).response.statusCode == 400
    ensures DecodeBadRequestBody(HandlerResult(event, sesEmailAddress, template, send).response.body)
      == Some(ValidationErrors(event.name, event.email, event.message))
  {
    BadRequestBodyRoundTrip(ValidationErrors(event.name, event.email, event.message));
  }
}
