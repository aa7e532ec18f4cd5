/**
 * The campaign result the route reports once every batch has settled:
 * counts by outcome, the failed outcomes in order and a summary line.
 */
module Aggregation {
  import opened JsText
  import opened Dispatcher

  /** The `stats`, `failedRecipients` and `message` of the success response. */
  datatype Summary = Summary(total: nat, successful: nat, failed: nat, failedRecipients: seq<Outcome>, message: string)

  /** The number of successful outcomes. */
  function SuccessCount(os: seq<Outcome>): nat {
    if os == [] then 0 else (if os[0].Success? then 1 else 0) + SuccessCount(os[1..])
  }

  /** The failed outcomes, in their original order. */
  function FailedOutcomes(os: seq<Outcome>): (fs: seq<Outcome>)
    ensures |fs| <= |os|
    ensures forall k :: 0 <= k < |fs| ==> fs[k].Failed?
  {
    if os == [] then [] else (if os[0].Failed? then [os[0]] else []) + FailedOutcomes(os[1..])
  }

  /** Every outcome is counted once: as a success or as a failure. */
  lemma {:induction false} CountIdentity(os: seq<Outcome>)
    ensures SuccessCount(os) + |FailedOutcomes(os)| == |os|
  {
    if os != [] {
      CountIdentity(os[1..]);
    }
  }

  /** Extracting the failures commutes with concatenation, so their order is kept. */
  lemma {:induction false} FailedOutcomesAppend(a: seq<Outcome>, b: seq<Outcome>)
    ensures FailedOutcomes(a + b) == FailedOutcomes(a) + FailedOutcomes(b)
    ensures SuccessCount(a + b) == SuccessCount(a) + SuccessCount(b)
  {
    if a == [] {
      assert a + b == b;
    } else {
      assert (a + b)[1..] == a[1..] + b;
      FailedOutcomesAppend(a[1..], b);
    }
  }

  /** An outcome is listed as failed exactly when it is a failed outcome of the sequence. */
  lemma {:induction false} FailedOutcomesMembership(os: seq<Outcome>, o: Outcome)
    ensures o in FailedOutcomes(os) <==> o in os && o.Failed?
  {
    if os != [] {
      FailedOutcomesMembership(os[1..], o);
      assert os == [os[0]] + os[1..];
    }
  }

  /** `Sent ${successful.length} of ${recipients.length} emails successfully`. */
  function SummaryMessage(successful: nat, total: nat): string {
    "Sent " + NatToString(successful) + " of " + NatToString(total) + " emails successfully"
  }

  /** The result reported for the outcomes `os` of a list of `total` recipients. */
  function Summarize(os: seq<Outcome>, total: nat): (s: Summary)
    ensures s.total == total
    ensures s.successful + s.failed == |os|
    ensures s.failedRecipients == FailedOutcomes(os) && s.failed == |s.failedRecipients|
    ensures s.message == SummaryMessage(s.successful, total)
  {
    CountIdentity(os);
    var failed := FailedOutcomes(os);
    var successful := SuccessCount(os);
    Summary(total, successful, |failed|, failed, SummaryMessage(successful, total))
  }

  /**
   * The summary line names the two counts in decimal: cutting it at its
   * fixed words and reading the digits gives back the number of
   * successes and the total.
   */
  lemma SummaryMessageReadsBack(successful: nat, total: nat)
    ensures var m := SummaryMessage(successful, total);
      var a := NatToString(successful);
      var b := NatToString(total);
      && m[..5] == "Sent " && m[5..5 + |a|] == a
      && m[5 + |a|..9 + |a|] == " of " && m[9 + |a|..9 + |a| + |b|] == b
      && m[9 + |a| + |b|..] == " emails successfully"
      && DecimalValue(a) == successful && DecimalValue(b) == total
  {
    NatToStringRoundTrip(successful);
    NatToStringRoundTrip(total);
    var a := NatToString(successful);
    var b := NatToString(total);
    var p1 := "Sent " + a;
    var p2 := p1 + " of ";
    var p3 := p2 + b;
    var m := p3 + " emails successfully";
    assert m == SummaryMessage(successful, total);
    Cut(p3, " emails successfully");
    Cut(p2, b);
    Cut(p1, " of ");
    Cut("Sent ", a);
    assert m[..5] == p3[..|p2|][..|p1|][..5];
    assert m[5..5 + |a|] == p3[..|p2|][..|p1|][5..];
    assert m[5 + |a|..9 + |a|] == p3[..|p2|][|p1|..];
    assert m[9 + |a|..9 + |a| + |b|] == p3[|p2|..];
  }

  lemma Cut(x: string, y: string)
    ensures (x + y)[..|x|] == x && (x + y)[|x|..] == y
  {
  }
}
