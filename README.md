# Bulk email sender: the upload route's campaign pipeline

This project models the core of a bulk email sender: the `POST` handler that
takes an uploaded CSV recipient list and a message. The handler:

1. checks the request,
2. builds the recipient list from the parsed rows,
3. checks that the mail transport is reachable,
4. sends one personalised mail per recipient in batches of 20, with a
   1000 ms pause between consecutive batches,
5. reports how many sends succeeded and which failed.

Modules, one per part of the pipeline:

- `JsText`: the JavaScript string built-ins the handler relies on. These are
  the `\s` class, `trim`, `toLowerCase`, the `||` fallback and the decimal
  rendering of a count.
- `EmailPattern`: `isValidEmail`, the test against
  `^[^\s@]+@[^\s@]+\.[^\s@]+$`. It is proved equal to a literal reading of
  that regular expression.
- `ValidationGate`: the six ordered checks, each with its own error
  message.
- `RecipientList`: the email-cell transform and the filter and map that
  turn parsed rows into recipients.
- `Dispatcher`: the mail each recipient gets, one send with its failure
  caught, and the batch loop. The loop is a method proved against the
  outcome sequence and the step sequence it must produce.
- `BatchPlan`: what those steps are. It covers how many batches there are,
  how large they are, that together they make up the list, and where the
  pauses fall.
- `Aggregation`: the counts, the failed outcomes in order and the summary
  line.
- `UploadRoute`: the handler. It returns the response and the list of
  external effects in the order they happen: parsing, the transport check,
  each batch sent and each pause.

How the external collaborators are modelled:

- The CSV parser is given as the sequence of rows it yields. Each row holds
  its raw `email` and `name` cells.
- The transport's connectivity check is a `Probe` value.
- `sendMail` is an oracle `Transport` that answers the send made for the
  recipient at each position.
- A pause is recorded as a `Delay(1000)` effect. Time itself is not
  modelled.

The handler always returns an answer. In Dafny every function and method
here is deterministic, so aggregating the same outcomes twice gives the same
result by construction.

Behaviour of the code worth noting:

- The handler loads the header image into an attachment but never passes it
  to `sendMail`. The mail template links a fixed remote picture instead, so
  no mail carries the uploaded image.
- A recipient without a name gets the name `""`. Only the greeting falls
  back to "there".
- The reply-to field is never validated. Only the sender email is checked.

## Model

| member | source | states |
|---|---|---|
| `JsText.Trim` | app/api/upload/route.ts:28-37 | the trimmed string is a piece of the input with only white space before and after it, it neither starts nor ends with white space, and it is empty exactly when the input is all white space (the non-blank test of the message and subject checks, and the first step of normalising an email cell) |
| `JsText.TrimCut` | app/api/upload/route.ts:59 | cutting leading white space and then trailing white space leaves the middle piece of the string, surrounded only by white space, with non-space ends, and empty exactly for a blank string |
| `JsText.ToLower` | app/api/upload/route.ts:59 | lower-casing keeps the length and maps each character through the ASCII letter mapping |
| `JsText.Or` | app/api/upload/route.ts:124-126 | JavaScript's `or` fallback on a string gives the value when it is present and non-empty, otherwise the fallback, and is never empty when the fallback is not |
| `JsText.NatToString` | app/api/upload/route.ts:183 | a count is rendered as at least one decimal digit and has no leading zero |
| `JsText.NatToStringRoundTrip` | app/api/upload/route.ts:183 | reading the rendered digits back gives the count again |
| `EmailPattern.FirstAt` | app/api/upload/route.ts:5-7 | the position found is the first '@', or the length of the string when there is none |
| `EmailPattern.IsValidEmailMatchesPattern` | app/api/upload/route.ts:5-7 | `isValidEmail` holds exactly when the whole string matches the regular expression: three non-empty runs of characters other than white space and '@', joined by '@' and then '.' |
| `EmailPattern.ValidEmailSplit` | app/api/upload/route.ts:5-7 | for every cut `s = local + "@" + domain`, `s` is accepted iff local and domain are non-empty, free of white space and '@', and the domain has a '.' that is neither its first nor its last character |
| `EmailPattern.ValidEmailHasOneAt` | app/api/upload/route.ts:5-7 | an accepted address contains exactly one '@' |
| `ValidationGate.FirstFailure` | app/api/upload/route.ts:23-52 | the result is the first failing check and every earlier check passes, and the result is none exactly when all checks pass |
| `ValidationGate.ViolationIsFirstFailingCheck` | app/api/upload/route.ts:23-52 | the gate answers with check k's message iff check k fails and checks 0..k-1 pass (file present, message non-blank, subject non-blank, sender valid, file within 5 MiB, image absent or within 5 MiB) |
| `ValidationGate.NullSenderRejected` | app/api/upload/route.ts:38-42 | a missing sender email is tested as the text "null", which is rejected |
| `ValidationGate.AdmittedRequest` | app/api/upload/route.ts:23-52 | after the gate, the file, message, subject and a valid sender address are present, and both uploads are within 5 MiB |
| `ValidationGate.MissingSubject` | app/api/upload/route.ts:33-37 | a request with a file and a message but a blank or missing subject gets "Subject cannot be empty" |
| `ValidationGate.GateAdmits` | app/api/upload/route.ts:23-52 | a request that passes all six checks gets no error |
| `ValidationGate.CheckRequest` | app/api/upload/route.ts:23-52 | the chain of early returns answers exactly the first failing check's message, and nothing when every check passes |
| `RecipientList.Contribution` | app/api/upload/route.ts:62-67 | one row adds at most one recipient to the list, and only one whose email passes `isValidEmail` |
| `RecipientList.Recipients` | app/api/upload/route.ts:62-67 | the list is never longer than the rows, and every recipient's email passes `isValidEmail` |
| `RecipientList.EmptyEmailNotValid` | app/api/upload/route.ts:63 | the empty string is not an address, so the falsy-email test adds nothing to the address test |
| `RecipientList.RecipientsAppend` | app/api/upload/route.ts:62-67 | the list of concatenated rows is the concatenation of the lists, so row order is kept |
| `RecipientList.RecipientsMembership` | app/api/upload/route.ts:58-67 | a recipient is in the list iff some row whose trimmed, lower-cased email is valid contributes it, so no other row is sent to |
| `RecipientList.AllAdmittedKept` | app/api/upload/route.ts:62-67 | when every row is valid, position i of the list is row i's recipient, so duplicates are kept |
| `RecipientList.NoneAdmitted` | app/api/upload/route.ts:62-67 | when no row is valid the list is empty |
| `RecipientList.RecipientFields` | app/api/upload/route.ts:58-66 | a recipient's email is its row's email trimmed and lower-cased, and its name is the row's name or "" |
| `Dispatcher.DisplayName` | app/api/upload/route.ts:124 | the From display name is the sender name when it is present and non-empty, and "Bulk Email Sender" when it is missing or empty, so it is never empty |
| `Dispatcher.ReplyAddress` | app/api/upload/route.ts:126 | Reply-To is the reply-to address when it is present and non-empty, and the sender email when it is missing or empty |
| `Dispatcher.Greeting` | app/api/upload/route.ts:135 | the greeting uses the recipient's name, or "there" when the name is empty |
| `Dispatcher.MailFor` | app/api/upload/route.ts:123-145 | each mail goes to the recipient's email with the campaign subject and message; From is the quoted sender name, or "Bulk Email Sender" when it is missing or empty, followed by the sender address; Reply-To is the reply-to address, or the sender email when it is missing or empty; the greeting names the recipient, or "there" when the name is empty |
| `Dispatcher.Attempt` | app/api/upload/route.ts:122-158 | one send always yields one outcome carrying the recipient's email: a success with the message id when delivered, otherwise a failure with the error's message or "Send failed" |
| `Dispatcher.Attempts` | app/api/upload/route.ts:121-160 | a batch gives one outcome per member, at that member's position |
| `Dispatcher.AttemptsSplit` | app/api/upload/route.ts:118-162 | the first i outcomes followed by the outcomes of the batch `[i, e)` are the first e outcomes |
| `Dispatcher.Dispatch` | app/api/upload/route.ts:117-166 | the batch loop returns exactly one outcome per recipient, in recipient order, and takes exactly the scheduled steps: each batch of 20, then a pause if recipients remain |
| `Dispatcher.OutcomeIsolation` | app/api/upload/route.ts:120-158 | a recipient's outcome depends only on the transport's reply to that recipient's send, so other sends failing cannot change it |
| `BatchPlan.ScheduleStep` | app/api/upload/route.ts:118-165 | one turn of the loop contributes one batch `rs[i..i+20]` and a pause exactly when recipients remain |
| `BatchPlan.ScheduleFromFacts` | app/api/upload/route.ts:118-165 | from position i, there are ⌈(n-i)/20⌉ batches; together they make up `rs[i..]`; each has 20 members except the last, which has 1 to 20; there is one pause fewer than batches |
| `BatchPlan.BatchingFacts` | app/api/upload/route.ts:118-165 | for n recipients, there are ⌈n/20⌉ batches; together they make up the list; each has 20 members except the last, which has 1 to 20; there are ⌈n/20⌉-1 pauses, and none for an empty list |
| `BatchPlan.ScheduleFromAlternates` | app/api/upload/route.ts:163-165 | from position i the steps alternate batch and pause, starting and ending with a batch |
| `BatchPlan.PacingPlacement` | app/api/upload/route.ts:163-165 | a pause follows a batch exactly when another batch comes after it, and the last step is a batch |
| `BatchPlan.FortyFiveRecipients` | app/api/upload/route.ts:118-165 | 45 recipients give three batches, of 20, 20 and 5, and two pauses |
| `Aggregation.FailedOutcomes` | app/api/upload/route.ts:171-173 | the failed list holds only failed outcomes and is no longer than the outcomes |
| `Aggregation.CountIdentity` | app/api/upload/route.ts:168-180 | successes plus failures equal the number of outcomes |
| `Aggregation.FailedOutcomesAppend` | app/api/upload/route.ts:168-173 | counting successes and extracting failures commute with concatenation, so the failures stay in their original order |
| `Aggregation.FailedOutcomesMembership` | app/api/upload/route.ts:171-173 | an outcome is in the failed list iff it is a failed outcome of the sequence |
| `Aggregation.Summarize` | app/api/upload/route.ts:168-184 | in the report, total is the given recipient count, successful plus failed equals the number of outcomes, the failed list is the failed outcomes, and the message names both counts |
| `Aggregation.SummaryMessageReadsBack` | app/api/upload/route.ts:183 | the summary line is "Sent ", the success count in decimal, " of ", the total in decimal, " emails successfully", and both numbers read back exactly |
| `UploadRoute.Post` | app/api/upload/route.ts:12-184 | a refused request gets 400 with its message and causes no effects; an empty list gets 400 "No valid emails in CSV" after parsing only; a failed transport check gets 502 "Email service unavailable" (details: the error's message or "Connection failed") with no send; otherwise 200; the status is 200 iff all three gates pass; then the report aggregates one outcome per recipient with total = successful + failed = list length, and the effects are parse, check, then the batch schedule |

## Left out

- Reading the multipart form, `file.arrayBuffer()`, the `Buffer` conversions and loading the image attachment are I/O. An upload is modelled by its size alone.
- The CSV tokenising of the parser library is a foreign library. The model takes the rows it yields, with the cells of the `email` and `name` columns, and models the email-cell transform, the filter and the map.
- `JsText.ToLower`: lower-cases only the ASCII letters 'A' to 'Z'. JavaScript's `toLowerCase` also maps non-ASCII letters, and the model has no Unicode case tables.
- Transport creation, `verify()` and `sendMail()` are network calls. They are replaced by the `Probe` value and the `Transport` oracle. The oracle is a function of the recipient's position and the mail, so repeated calls for one recipient cannot answer differently.
- `Promise.allSettled` concurrency. Every send is wrapped in its own try/catch, so every settled entry is fulfilled. A batch is therefore modelled as an in-order map over its members, and each entry is stored as its value. Completion order inside a batch is not modelled.
- `setTimeout` is modelled only as a `Delay(1000)` step, not as elapsed time.
- The HTML template markup is presentation text, apart from the greeting and the inserted message. A `Mail` holds only the headers, the subject, the greeting and the message.
- The catch-all 500 response and `console.error` logging are left out. Every modelled step is total, so none of them throws.
- `process.env` credentials and the diagnostics route `app/api/test/route.ts` are left out. They only read the environment.
- The React form in `components/EmailSender.tsx`, the navigation bar, the layout, the pages and the decorative components are UI with no pipeline logic.
- A form field that holds the wrong kind of value, such as text sent as `file` or a file sent as `subject`, is not modelled. Files are uploads and the other fields are strings.
