/**
 * The request-level checks the upload route makes, in order, before it
 * reads the CSV file or touches the mail transport.
 */
module ValidationGate {
  import opened Wrappers
  import opened JsText
  import opened EmailPattern

  /** An uploaded file; only its size in bytes matters to the checks. */
  datatype Upload = Upload(size: nat)

  /**
   * The multipart form of one request. A field the form lacks is `None`
   * (`formData.get` gives null).
   */
  datatype Request = Request(
    file: Option<Upload>,
    message: Option<string>,
    subject: Option<string>,
    senderName: Option<string>,
    senderEmail: Option<string>,
    replyTo: Option<string>,
    image: Option<Upload>)

  /** 5 MiB: the largest CSV file and the largest header image accepted. */
  const MaxUploadBytes: nat := 5 * 1024 * 1024

  /** The number of checks, numbered 0 to 5 in the order they run. */
  const CheckCount: nat := 6

  /** `field?.trim()` is truthy: present and not blank. */
  predicate NonBlank(field: Option<string>) {
    field.Some? && Trim(field.value) != ""
  }

  /**
   * The string `isValidEmail` tests: a missing sender email (null) is
   * converted to the text "null" by the regular expression test.
   */
  function SenderText(req: Request): string {
    req.senderEmail.GetOr("null")
  }

  /** Check `k` passes. */
  predicate Passes(req: Request, k: nat)
    requires k < CheckCount
  {
    match k
    case 0 => req.file.Some?
    case 1 => NonBlank(req.message)
    case 2 => NonBlank(req.subject)
    case 3 => IsValidEmail(SenderText(req))
    case 4 => req.file.None? || req.file.value.size <= MaxUploadBytes
    case 5 => req.image.None? || req.image.value.size <= MaxUploadBytes
  }

  /** The error text the route answers with when check `k` fails. */
  function CheckMessage(k: nat): string
    requires k < CheckCount
  {
    match k
    case 0 => "No CSV file uploaded"
    case 1 => "Message cannot be empty"
    case 2 => "Subject cannot be empty"
    case 3 => "Invalid sender email"
    case 4 => "CSV file too large"
    case 5 => "Image file too large"
  }

  /**
   * The first check at or after `from` that fails, or `None` when all of
   * them pass.
   */
  function FirstFailure(req: Request, from: nat): (r: Option<nat>)
    requires from <= CheckCount
    ensures r.Some? ==> from <= r.value < CheckCount && !Passes(req, r.value)
    ensures r.Some? ==> forall j :: from <= j < r.value ==> Passes(req, j)
    ensures r.None? <==> forall j :: from <= j < CheckCount ==> Passes(req, j)
    decreases CheckCount - from
  {
    if from == CheckCount then None
    else if !Passes(req, from) then Some(from)
    else FirstFailure(req, from + 1)
  }

  /** The message of the first failing check: the gate's verdict on `req`. */
  function Violation(req: Request): Option<string> {
    match FirstFailure(req, 0)
    case None => None
    case Some(k) => Some(CheckMessage(k))
  }

  /**
   * The gate answers with the message of check `k` exactly when check `k`
   * fails and every check before it passes.
   */
  lemma ViolationIsFirstFailingCheck(req: Request, k: nat)
    requires k < CheckCount
    ensures Violation(req) == Some(CheckMessage(k))
        <==> !Passes(req, k) && forall j :: 0 <= j < k ==> Passes(req, j)
  {
    var r := FirstFailure(req, 0);
    if Violation(req) == Some(CheckMessage(k)) {
      CheckMessageInjective(r.value, k);
    }
    if !Passes(req, k) && forall j :: 0 <= j < k ==> Passes(req, j) {
      assert r.Some?;
      assert r.value == k;
    }
  }

  lemma CheckMessageInjective(a: nat, b: nat)
    requires a < CheckCount && b < CheckCount
    requires CheckMessage(a) == CheckMessage(b)
    ensures a == b
  {
    assert CheckMessage(a)[0] == CheckMessage(b)[0];
    assert CheckMessage(a)[1] == CheckMessage(b)[1];
  }

  /**
   * Once the gate lets a request through, the sender address, the
   * subject and the message are present, the address is valid and both
   * uploads are within the limit.
   */
  lemma AdmittedRequest(req: Request)
    requires Violation(req).None?
    ensures req.file.Some? && req.file.value.size <= MaxUploadBytes
    ensures req.message.Some? && req.subject.Some? && req.senderEmail.Some?
    ensures IsValidEmail(req.senderEmail.value)
    ensures req.image.None? || req.image.value.size <= MaxUploadBytes
  {
    assert Passes(req, 0) && Passes(req, 1) && Passes(req, 2);
    assert Passes(req, 3) && Passes(req, 4) && Passes(req, 5);
    NullSenderRejected();
  }

  /** The text a missing sender email is tested as is not an address. */
  lemma NullSenderRejected()
    ensures !IsValidEmail("null")
  {
    assert '@' !in "null";
  }

  /**
   * A request that has a file and a non-blank message but no usable
   * subject is refused with "Subject cannot be empty", whatever its other
   * fields hold.
   */
  lemma MissingSubject(req: Request)
    requires req.file.Some? && NonBlank(req.message) && !NonBlank(req.subject)
    ensures Violation(req) == Some("Subject cannot be empty")
  {
    assert Passes(req, 0) && Passes(req, 1) && !Passes(req, 2);
  }

  /** A request that passes all six checks is admitted. */
  lemma GateAdmits(req: Request)
    requires req.file.Some? && NonBlank(req.message) && NonBlank(req.subject)
    requires IsValidEmail(SenderText(req)) && req.file.value.size <= MaxUploadBytes
    requires req.image.None? || req.image.value.size <= MaxUploadBytes
    ensures Violation(req).None?
  {
    assert forall j :: 0 <= j < CheckCount ==> Passes(req, j);
  }

  /**
   * The six checks as the handler runs them, each returning its message
   * as soon as it fails: the verdict is that of the first failing check.
   */
  method CheckRequest(req: Request) returns (verdict: Option<string>)
    ensures verdict == Violation(req)
  {
    if req.file.None? {
      ViolationIsFirstFailingCheck(req, 0);
      return Some("No CSV file uploaded");
    }
    if !NonBlank(req.message) {
      ViolationIsFirstFailingCheck(req, 1);
      return Some("Message cannot be empty");
    }
    if !NonBlank(req.subject) {
      ViolationIsFirstFailingCheck(req, 2);
      return Some("Subject cannot be empty");
    }
    if !IsValidEmail(SenderText(req)) {
      ViolationIsFirstFailingCheck(req, 3);
      return Some("Invalid sender email");
    }
    if req.file.value.size > MaxUploadBytes {
      ViolationIsFirstFailingCheck(req, 4);
      return Some("CSV file too large");
    }
    if req.image.Some? && req.image.value.size > MaxUploadBytes {
      ViolationIsFirstFailingCheck(req, 5);
      return Some("Image file too large");
    }
    GateAdmits(req);
    return None;
  }
}
