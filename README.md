# Portfolio contact form and stack naming, in Dafny

This project models two pieces of a personal-site deployment:

- **The contact-form handler** (`lambdaFunctions/emailFunction.ts`). The handler reads
  `name`, `email` and `message` from a JSON request body. It checks each field independently,
  raising one flag per check, and tests the address against a fixed regular expression.
  - If any check fails, it answers 400. The body is `Bad request: ` followed by the messages of
    the failed checks, in a fixed order and joined with `; `.
  - Otherwise it fills an HTML template with the three values verbatim and hands an email
    command to the email service. The command's recipient and sender are both the configured
    address.
  - It answers 200 only when the service reports status 200. Every other outcome is one fixed
    500 body: a non-200 status, an error thrown by the service, or a body that cannot be read.
  - Every response carries the same two CORS headers.
- **`formatDomainForStackName`** (`bin/static-page-cdk.ts:9-16`, and the same text again in
  `bin/next-js-cdk.ts:9-16`). It turns the site's domain into the prefix of a deployment stack
  name. It drops the last dot and upper-cases the first character and the character that
  followed the dot. The two copies are identical, character for character, so one Dafny
  function models both. The table below cites both files.

## Structure

- **Wrappers**: `Option`, which stands for JavaScript's `undefined` and for decoders that can fail.
- **JsString**: the JavaScript string primitives the sources rely on, with their ECMAScript
  meaning:
  - `lastIndexOf` answers -1 when the character is absent;
  - `charAt` answers `""` out of range;
  - `slice` counts negative indices from the end and clamps;
  - `join` puts the separator between consecutive parts;
  - `toUpperCase` is restricted to ASCII.
- **StackName**: `FormatDomainForStackName`, with lemmas that pin down every shape of domain:
  undefined or empty, a last dot after the first character, a trailing dot, no dot, and a
  leading dot.
- **EmailPattern**: the language of the address regular expression, as predicates. The local
  part is dot-separated atoms or a quoted string. The domain is a bracketed dotted quad or
  labels followed by a top-level label of at least two letters. `\s` is JavaScript's full
  whitespace class.
- **ContactForm**: the handler.
  - Data types: the parsed body (`RequestBody`, `Field`), the service's outcome, the response
    and the email command.
  - Validation: the independent checks (`ValidationErrors`).
  - The email: the template (`EmailTemplate`, with the deployed text in `PortfolioTemplate`) and
    the command (`Compose`).
  - The catch block: `Catch`.
  - `HandlerResult`: one invocation as a value.
  - `CheckFields` and `Handler`: imperative methods that follow the source's flags, pushes,
    throw and catch step by step. They are proved equal to the functions above.
  - The email service is a function parameter `send`. `sent` reports the command it was handed,
    if any.
- **ErrorReport**: a decoder for 400 bodies. It proves that the `; `-join of the messages
  loses nothing, so the 400 body names exactly the failed checks, in check order.
- **HandlerScenarios**: end-to-end statements about valid, rejected and unreadable submissions,
  followed by concrete submissions.

A body that is not JSON, or is JSON `null`, makes `JSON.parse` or the property read throw
into the generic catch. It is answered with the fixed 500, not 400
(`HandlerScenarios.UnreadableBody`).

## Model

| member | source | states |
|---|---|---|
| JsString.LastIndexOf | bin/static-page-cdk.ts:13 | the result is -1 or an index holding the character, and the character does not occur after it; so -1 exactly when the character is absent |
| JsString.CharAt | bin/static-page-cdk.ts:14-15 | an index inside the string gives the one-character string at it; any other index gives the empty string |
| JsString.Slice | bin/static-page-cdk.ts:14-15 | in-range arguments give the substring; a negative end counts from the end; whenever the resolved end is not after the resolved start, negative indices included, the result is empty; the result is never longer than the input |
| JsString.SliceFrom | bin/static-page-cdk.ts:15 | a start inside the string gives the whole tail from it; a start past the end gives the empty string |
| JsString.Join | lambdaFunctions/emailFunction.ts:59 | no parts give the empty string, one part gives that part, and the first part always opens the result; that the `; `-join loses nothing is `ErrorReport.DecodeJoined` |
| JsString.ToUpperCase | bin/static-page-cdk.ts:14-15 | same length, and every character is upper-cased on its own |
| StackName.FormatDomainForStackName | bin/static-page-cdk.ts:9-16 | the function itself carries no ensures; its behaviour on every shape of domain is stated by `EmptyOnlyForMissingDomain`, `DotRemovedAndCapitalised`, `OnlyFirstAndAfterDotChange`, `TrailingDot`, `NoDotRepeatsFirst` and `LeadingDotKept` below |
| StackName.EmptyOnlyForMissingDomain | bin/static-page-cdk.ts:10-12 | the prefix is empty exactly when the domain is undefined or empty |
| StackName.DotRemovedAndCapitalised | bin/static-page-cdk.ts:13-15 | when the last dot is at p ≥ 1, the result is the upper-cased first character, then `d[1..p]`, then the upper-cased character after the dot, then the rest; it is one character shorter than the domain |
| StackName.OnlyFirstAndAfterDotChange | bin/next-js-cdk.ts:13-15 | when the last dot is at p ≥ 1: reference definition, the result equals the domain with that dot removed, except that positions 0 and p are upper-cased; every other character, earlier dots included, keeps its value and order |
| StackName.TrailingDot | bin/next-js-cdk.ts:13-15 | a domain of two or more characters ending in a dot loses that dot and has only its first character upper-cased (the one-character domain `.` is the leading-dot case and stays `.`) |
| StackName.NoDotRepeatsFirst | bin/static-page-cdk.ts:13-15 | without a dot, `lastIndexOf` gives -1: the middle slice drops the last character, the upper-cased first character appears twice, and the whole tail follows |
| StackName.LeadingDotKept | bin/next-js-cdk.ts:13-15 | when the only dot is the first character, it is kept, the character after it is upper-cased, and the length is unchanged |
| StackName.ExampleApex | bin/static-page-cdk.ts:9-16 | `example.com` gives `ExampleCom` |
| StackName.ExampleNoDot | bin/next-js-cdk.ts:9-16 | `abc` gives `AbAbc` |
| StackName.ExampleLeadingDot | bin/static-page-cdk.ts:9-16 | `.com` gives `.Com` |
| StackName.ExampleTrailingDot | bin/next-js-cdk.ts:9-16 | `site.` gives `Site` |
| EmailPattern.IsEmailAddress | lambdaFunctions/emailFunction.ts:6 | the predicate carries no ensures; what it accepts and rejects is stated by `AcceptedAddressShape`, `DomainLength`, `NoAtRejected`, `LettersAddressAccepted` and the examples below |
| EmailPattern.DigitGroupsLength | lambdaFunctions/emailFunction.ts:6 | n dotted groups of 1-3 digits take at least 2n-1 characters |
| EmailPattern.DomainLength | lambdaFunctions/emailFunction.ts:6 | every domain the pattern accepts has at least four characters |
| EmailPattern.AcceptedAddressShape | lambdaFunctions/emailFunction.ts:6 | every accepted address contains `@` and has at least six characters, so the empty string is rejected |
| EmailPattern.LettersAddressAccepted | lambdaFunctions/emailFunction.ts:6 | letters, `@`, letters, a dot and at least two letters always match |
| EmailPattern.ExampleAccepted | lambdaFunctions/emailFunction.ts:6 | `user@example.com` matches |
| EmailPattern.ScenarioAddressAccepted | lambdaFunctions/emailFunction.ts:6 | `alice@example.com` matches |
| EmailPattern.NoAtRejected | lambdaFunctions/emailFunction.ts:6 | a string without `@` never matches |
| EmailPattern.ExamplesRejected | lambdaFunctions/emailFunction.ts:6 | `not-an-email`, `bad` and the empty string do not match |
| ContactForm.Messages | lambdaFunctions/emailFunction.ts:46-58 | one message per failure, in the order of the failures, each the text pushed for that check |
| ContactForm.BadRequestBody | lambdaFunctions/emailFunction.ts:59-122 | every 400 body opens with `Bad request: `, and is exactly that prefix only for an empty list; that it names the failures losslessly is `ErrorReport.BadRequestBodyRoundTrip` and `ErrorReport.BadRequestBodyInjective` |
| ContactForm.FailsCheck | lambdaFunctions/emailFunction.ts:25 | the check `!v \|\| typeof v !== "string"` fails exactly for a missing value, a non-string value or the empty string |
| ContactForm.ValidationErrors | lambdaFunctions/emailFunction.ts:19-43 | each presence check reports exactly when its own field fails; the format error is reported exactly when the address is a non-empty string that does not match; the two email errors never occur together; the list is in check order without repetition; it is empty exactly when every check passes |
| ContactForm.EmailHtml | lambdaFunctions/emailFunction.ts:64-85 | the template text and the three values appear verbatim and in order, each at the offset fixed by what precedes it, and the length is the sum of the parts |
| ContactForm.Compose | lambdaFunctions/emailFunction.ts:87-99 | the configured address is both the only recipient and the sender; the subject is fixed; the body is the filled template |
| ContactForm.Catch | lambdaFunctions/emailFunction.ts:114-132 | an error whose cause is `badRequestBody` becomes 400 `Bad request: ` + its message; any other error becomes the fixed 500 whatever its message; CORS headers always |
| ContactForm.HandlerResult | lambdaFunctions/emailFunction.ts:5-134 | CORS headers on every response; the status is 200, 400 or 500; the service is called exactly when the body is readable and every check passes, with the composed command; 400 exactly when a check fails, with the joined messages; 200 exactly when the service returned 200; 500 exactly for an unreadable body or a send that did not return 200, with the fixed body |
| ContactForm.CheckFields | lambdaFunctions/emailFunction.ts:19-62 | the flag-and-push steps raise `badRequest` exactly when a check fails, and the message array is the messages of the failed checks in check order |
| ContactForm.Handler | lambdaFunctions/emailFunction.ts:12-133 | the step-by-step handler, with its throws and single catch, gives the response and the service call of `HandlerResult` |
| ErrorReport.KindAtStartOf | lambdaFunctions/emailFunction.ts:48-57 | no message is a prefix of another, so a message is recognised whatever follows it |
| ErrorReport.DecodeJoined | lambdaFunctions/emailFunction.ts:59 | decoding inverts the `; `-join of the messages of any non-empty list of failures |
| ErrorReport.BadRequestBodyRoundTrip | lambdaFunctions/emailFunction.ts:122 | a 400 body decodes back to the list of failures it was built from |
| ErrorReport.BadRequestBodyInjective | lambdaFunctions/emailFunction.ts:45-62 | different lists of failures never give the same 400 body |
| ErrorReport.BadRequestNamesFailedChecks | lambdaFunctions/emailFunction.ts:45-124 | every 400 of the handler decodes to exactly the checks that failed, in check order |
| HandlerScenarios.ValidSubmission | lambdaFunctions/emailFunction.ts:102-112 | a valid submission sends the composed command; the response is 200 with the success body when the service returns 200, and the fixed 500 otherwise |
| HandlerScenarios.RejectedSubmission | lambdaFunctions/emailFunction.ts:45-62 | a readable body with a failed check gives 400 with its error list and calls no service |
| HandlerScenarios.SentCommandShape | lambdaFunctions/emailFunction.ts:87-102 | a command reaches the service only with three non-empty strings and an accepted address; it goes to and from the configured address and carries the values verbatim |
| HandlerScenarios.StringsValid | lambdaFunctions/emailFunction.ts:25-43 | non-empty name and message strings with an accepted address pass every check |
| HandlerScenarios.ExampleSubmissionValid | lambdaFunctions/emailFunction.ts:25-43 | `Alice`, `alice@example.com`, `Hi` pass every check |
| HandlerScenarios.ExampleSubmissionSucceeds | lambdaFunctions/emailFunction.ts:102-109 | `Alice`, `alice@example.com`, `Hi`, with a service that answers 200, is sent the composed command and answered 200 with the success body |
| HandlerScenarios.SentEmailCarriesName | lambdaFunctions/emailFunction.ts:64-93 | for any template, the email handed to the service for a valid submission opens with the template's head, followed by the submitted name verbatim |
| HandlerScenarios.DeployedTemplateCarriesName | lambdaFunctions/emailFunction.ts:64-93 | the same holds for the deployed template: the email starts with its document head, and the name follows it verbatim |
| HandlerScenarios.MissingNameSubmission | lambdaFunctions/emailFunction.ts:25-28 | without a name the answer is 400 `Bad request: value "name" is not present or is invalid`, and nothing is sent |
| HandlerScenarios.MalformedEmailSubmission | lambdaFunctions/emailFunction.ts:34-37 | the address `bad` gives 400 naming only the format |
| HandlerScenarios.EmptySubmission | lambdaFunctions/emailFunction.ts:45-59 | an empty name, a falsy email and a missing message give the three presence messages in check order, and no format message |
| HandlerScenarios.UnreadableBody | lambdaFunctions/emailFunction.ts:13 | a body that cannot be parsed gives the fixed 500 and calls no service |

## Left out

- Parsing: `JSON.parse` and the property reads are not modelled.
  - The body arrives parsed as `RequestBody`.
  - Text that is not JSON, and JSON `null` (whose property read throws), are both `Unreadable`.
  - Any other parsed value supplies its three properties as `Field`s. A missing property is
    `Absent`; a non-string is `Other`, carrying its truthiness.
- The AWS SES client, the network and the region setting are not modelled.
  - The service is the parameter `send`.
  - An error it throws is modelled without a `cause`. An SDK error that carried the cause
    `badRequestBody` would be answered 400, and that case is not modelled.
  - A response whose `$metadata.httpStatusCode` is missing is covered by an integer other than
    200, which takes the same path.
- `console.log` of the caught error is not modelled; it has no effect on the response.
- `async`/`await` and concurrency between invocations are not modelled. Each invocation is one
  call of `HandlerResult`/`Handler`.
- `process.env` is not modelled. `SES_EMAIL_ADDRESS` is the string parameter `sesEmailAddress`;
  an unset variable is not modelled. The domain of `formatDomainForStackName` is an
  `Option<string>`, with `None` for unset.
- ContactForm.EmailHtml: the template's indentation is not reproduced; its line breaks and text are. The
  handler is stated for any `EmailTemplate`, and `PortfolioTemplate` holds the deployed text
  without its indentation.
- JsString.ToUpperCase: only ASCII letters are upper-cased. Non-ASCII characters are left
  unchanged, whereas JavaScript also maps them, sometimes to several characters.
- JsString.LastIndexOf, JsString.Slice: strings are sequences of Unicode scalar values, not
  UTF-16 code units. Indices differ from JavaScript's for characters outside the Basic
  Multilingual Plane.
- EmailPattern.IsEmailAddress: the model is the language the regular expression accepts. The
  matching engine and the contents of the match array, which the handler only tests for
  `null`, are not modelled.
- The CDK stacks under `lib/` are not part of this model. Neither is the wiring in `bin/` that
  loads `.env`, creates the app and names the stacks.
