/**
 * The batch dispatcher of the upload route: recipients are sent to in
 * batches of 20, one send per recipient, each send's failure caught and
 * recorded as that recipient's outcome, with a pause between consecutive
 * batches and none after the last.
 */
module Dispatcher {
  import opened Wrappers
  import opened JsText
  import opened RecipientList

  /** `BATCH_SIZE`. */
  const BatchSize: nat := 20

  /** `DELAY_MS`: the pause between two batches, in milliseconds. */
  const DelayMs: nat := 1000

  /** The campaign-wide fields of every mail, taken from a validated request. */
  datatype Campaign = Campaign(
    senderName: Option<string>,
    senderEmail: string,
    replyTo: Option<string>,
    subject: string,
    message: string)

  /**
   * The parts of one mail the route sets: the From, To and Reply-To
   * headers, the subject, the greeting line and the message body inserted
   * into the HTML template.
   */
  datatype Mail = Mail(from: string, to: string, replyTo: string, subject: string, greeting: string, body: string)

  /**
   * What the transport does with one mail: it resolves with a message id,
   * or it throws, either an `Error` with a message (`Threw(Some(m))`) or
   * some other value (`Threw(None)`).
   */
  datatype Delivery = Delivered(messageId: string) | Threw(error: Option<string>)

  /** The outcome recorded for one recipient. */
  datatype Outcome = Success(email: string, messageId: string) | Failed(email: string, error: string)

  /**
   * The mail transport's `sendMail`, as an oracle: the reply to the send
   * made for the recipient at the given position of the list.
   */
  type Transport = (nat, Mail) -> Delivery

  /** An externally visible step of handling a request. */
  datatype Effect =
    | ParseCsv                       // the CSV file is read and parsed
    | VerifyTransport                // the transport's connectivity check
    | SendBatch(batch: seq<Recipient>) // one send to each member, all settled before going on
    | Delay(ms: nat)                 // the pacing pause

  /** The display name of the From header: `senderName || "Bulk Email Sender"`. */
  function DisplayName(c: Campaign): (n: string)
    ensures n != ""
    ensures c.senderName.Some? && c.senderName.value != "" ==> n == c.senderName.value
    ensures c.senderName.None? || c.senderName.value == "" ==> n == "Bulk Email Sender"
  {
    Or(c.senderName, "Bulk Email Sender")
  }

  /** The Reply-To header: `replyTo || senderEmail`. */
  function ReplyAddress(c: Campaign): (a: string)
    ensures c.senderEmail != "" ==> a != ""
    ensures c.replyTo.Some? && c.replyTo.value != "" ==> a == c.replyTo.value
    ensures c.replyTo.None? || c.replyTo.value == "" ==> a == c.senderEmail
  {
    Or(c.replyTo, c.senderEmail)
  }

  /** The greeting: "Hello " followed by `recipient.name || "there"`. */
  function Greeting(r: Recipient): (g: string)
    ensures r.name != "" ==> g == "Hello " + r.name + ","
    ensures r.name == "" ==> g == "Hello there,"
  {
    "Hello " + Or(Some(r.name), "there") + ","
  }

  /**
   * The mail sent to recipient `r`: addressed to the recipient, with the
   * campaign's subject and message, and with each header default applied
   * to the campaign's own fields.
   */
  function MailFor(c: Campaign, r: Recipient): (m: Mail)
    ensures m.to == r.email && m.subject == c.subject && m.body == c.message
    ensures var name := if c.senderName.Some? && c.senderName.value != "" then c.senderName.value else "Bulk Email Sender";
      m.from == "\"" + name + "\" <" + c.senderEmail + ">"
    ensures m.replyTo == if c.replyTo.Some? && c.replyTo.value != "" then c.replyTo.value else c.senderEmail
    ensures m.greeting == "Hello " + (if r.name != "" then r.name else "there") + ","
  {
    Mail("\"" + DisplayName(c) + "\" <" + c.senderEmail + ">", r.email, ReplyAddress(c), c.subject, Greeting(r), c.message)
  }

  /**
   * One send inside its try/catch: a delivery becomes a success carrying
   * the message id; a throw becomes a failure carrying the error's
   * message, or "Send failed" when the thrown value is not an `Error`.
   */
  function Attempt(send: Transport, k: nat, c: Campaign, r: Recipient): (o: Outcome)
    ensures o.email == r.email
    ensures o.Success? <==> send(k, MailFor(c, r)).Delivered?
    ensures o.Success? ==> o.messageId == send(k, MailFor(c, r)).messageId
    ensures o.Failed? ==> o.error == send(k, MailFor(c, r)).error.GetOr("Send failed")
  {
    match send(k, MailFor(c, r))
    case Delivered(id) => Success(r.email, id)
    case Threw(e) => Failed(r.email, e.GetOr("Send failed"))
  }

  /**
   * `batch.map(...)` for a batch starting at position `start` of the list:
   * one outcome per member, in member order.
   */
  function Attempts(send: Transport, start: nat, c: Campaign, batch: seq<Recipient>): (os: seq<Outcome>)
    ensures |os| == |batch|
    ensures forall j :: 0 <= j < |batch| ==> os[j] == Attempt(send, start + j, c, batch[j])
  {
    seq(|batch|, j requires 0 <= j < |batch| => Attempt(send, start + j, c, batch[j]))
  }

  function Min(a: int, b: int): int {
    if a <= b then a else b
  }

  /**
   * The steps of the batch loop from position `i` on: the batch
   * `rs[i..i+20]` (cut at the end of the list), a pause when recipients
   * remain after it, and the rest.
   */
  function ScheduleFrom(rs: seq<Recipient>, i: nat): seq<Effect>
    decreases |rs| - i
  {
    if i >= |rs| then []
    else
      [SendBatch(rs[i..Min(i + BatchSize, |rs|)])]
      + (if i + BatchSize < |rs| then [Delay(DelayMs)] else [])
      + ScheduleFrom(rs, i + BatchSize)
  }

  /** The steps of the whole batch loop. */
  function Schedule(rs: seq<Recipient>): seq<Effect> {
    ScheduleFrom(rs, 0)
  }

  /** Splitting the outcomes of a list at a batch boundary. */
  lemma AttemptsSplit(send: Transport, c: Campaign, rs: seq<Recipient>, i: nat, e: nat)
    requires i <= e <= |rs|
    ensures Attempts(send, 0, c, rs)[..i] + Attempts(send, i, c, rs[i..e]) == Attempts(send, 0, c, rs)[..e]
  {
    var all := Attempts(send, 0, c, rs);
    var lhs := all[..i] + Attempts(send, i, c, rs[i..e]);
    forall j | 0 <= j < e ensures lhs[j] == all[..e][j] {
      if j >= i {
        assert rs[i..e][j - i] == rs[j];
      }
    }
  }

  /**
   * The batch loop. It returns the outcomes, in recipient order, and the
   * steps it took (each batch sent and each pause).
   */
  method Dispatch(rs: seq<Recipient>, c: Campaign, send: Transport) returns (results: seq<Outcome>, steps: seq<Effect>)
    ensures results == Attempts(send, 0, c, rs)
    ensures steps == Schedule(rs)
  {
    results, steps := [], [];
    var i: nat := 0;
    while i < |rs|
      invariant results == Attempts(send, 0, c, rs)[..Min(i, |rs|)]
      invariant steps + ScheduleFrom(rs, i) == Schedule(rs)
      decreases |rs| - i
    {
      var end := Min(i + BatchSize, |rs|);
      var batch := rs[i..end];
      var batchResults := Attempts(send, i, c, batch);
      AttemptsSplit(send, c, rs, i, end);
      results := results + batchResults;
      steps := steps + [SendBatch(batch)];
      if i + BatchSize < |rs| {
        steps := steps + [Delay(DelayMs)];
      }
      i := i + BatchSize;
    }
  }

  /**
   * All-settled isolation: the outcome for the recipient at position `k`
   * depends only on the transport's reply to that recipient's send, so
   * any other send failing or succeeding leaves it unchanged.
   */
  lemma OutcomeIsolation(s1: Transport, s2: Transport, c: Campaign, rs: seq<Recipient>, k: nat)
    requires k < |rs|
    requires s1(k, MailFor(c, rs[k])) == s2(k, MailFor(c, rs[k]))
    ensures Attempts(s1, 0, c, rs)[k] == Attempts(s2, 0, c, rs)[k]
  {
  }
}
