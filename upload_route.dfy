/**
 * The `POST` handler of the upload route: the validation gate, the
 * recipient list, the transport check, the batch loop and the report, with
 * the status and body of each response the handler can give.
 */
module UploadRoute {
  import opened Wrappers
  import opened ValidationGate
  import opened RecipientList
  import opened Dispatcher
  import opened Aggregation

  /**
   * The transport's connectivity check: it succeeds, or it throws an
   * `Error` with a message (`Unreachable(Some(m))`) or another value
   * (`Unreachable(None)`).
   */
  datatype Probe = Reachable | Unreachable(error: Option<string>)

  /** The JSON body of a response. */
  datatype Body =
    | ErrorBody(error: string)
    | ErrorWithDetails(error: string, details: string)
    | Report(stats: Summary)

  datatype Response = Response(status: nat, body: Body)

  /** The campaign fields of a request the gate admitted. */
  function CampaignOf(req: Request): Campaign {
    Campaign(req.senderName, SenderText(req), req.replyTo, req.subject.GetOr(""), req.message.GetOr(""))
  }

  /**
   * One request. `rows` is what the CSV parser yields for the uploaded
   * file, `probe` the connectivity check's result and `send` the
   * transport. `effects` lists what the handler did outside itself, in
   * order: parsing, the check, each batch sent and each pause.
   */
  method Post(req: Request, rows: seq<Row>, probe: Probe, send: Transport) returns (resp: Response, effects: seq<Effect>)
    ensures Violation(req).Some? ==>
      resp == Response(400, ErrorBody(Violation(req).value)) && effects == []
    ensures Violation(req).None? && Recipients(rows) == [] ==>
      resp == Response(400, ErrorBody("No valid emails in CSV")) && effects == [ParseCsv]
    ensures Violation(req).None? && Recipients(rows) != [] && probe.Unreachable? ==>
      && resp == Response(502, ErrorWithDetails("Email service unavailable", probe.error.GetOr("Connection failed")))
      && effects == [ParseCsv, VerifyTransport]
    ensures Violation(req).None? && Recipients(rows) != [] && probe.Reachable? ==>
      var rs := Recipients(rows);
      && resp == Response(200, Report(Summarize(Attempts(send, 0, CampaignOf(req), rs), |rs|)))
      && effects == [ParseCsv, VerifyTransport] + Schedule(rs)
    ensures resp.status == 200 <==> Violation(req).None? && Recipients(rows) != [] && probe.Reachable?
    ensures resp.status == 200 ==>
      && resp.body.Report?
      && resp.body.stats.total == |Recipients(rows)| > 0
      && resp.body.stats.successful + resp.body.stats.failed == resp.body.stats.total
    ensures resp.status != 200 ==> forall e :: e in effects ==> !e.SendBatch?
  {
    effects := [];
    var verdict := CheckRequest(req);
    if verdict.Some? {
      return Response(400, ErrorBody(verdict.value)), effects;
    }

    effects := [ParseCsv];
    var recipients := Recipients(rows);
    if |recipients| == 0 {
      return Response(400, ErrorBody("No valid emails in CSV")), effects;
    }

    effects := [ParseCsv, VerifyTransport];
    if probe.Unreachable? {
      return Response(502, ErrorWithDetails("Email service unavailable", probe.error.GetOr("Connection failed"))), effects;
    }

    var results, steps := Dispatch(recipients, CampaignOf(req), send);
    assert steps == Schedule(recipients);
    effects := effects + steps;
    resp := Response(200, Report(Summarize(results, |recipients|)));
  }
}
