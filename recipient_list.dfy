/**
 * The recipient list the route builds from the parsed CSV rows: every
 * email cell is trimmed and lower-cased while parsing, rows whose email is
 * missing, empty or not an address are dropped, and the others become
 * recipients, in row order and without removing duplicates.
 */
module RecipientList {
  import opened Wrappers
  import opened JsText
  import opened EmailPattern

  /**
   * One parsed CSV row, as the parser delivers it before its cell
   * transform runs: the cells of the columns headed "email" and "name"
   * (`None` when the row has no such cell).
   */
  datatype Row = Row(email: Option<string>, name: Option<string>)

  /** A recipient of the campaign. */
  datatype Recipient = Recipient(email: string, name: string)

  /** The parser's transform for the email column: `value.trim().toLowerCase()`. */
  function NormalizeEmail(value: string): string {
    ToLower(Trim(value))
  }

  /** The row after the parser's cell transform: only the email cell changes. */
  function Transform(row: Row): Row {
    match row.email
    case None => row
    case Some(e) => row.(email := Some(NormalizeEmail(e)))
  }

  /** The filter on a transformed row: `row.email && isValidEmail(row.email)`. */
  predicate Keeps(row: Row) {
    row.email.Some? && row.email.value != "" && IsValidEmail(row.email.value)
  }

  /** The map on a kept row: `{ email: row.email, name: row.name || "" }`. */
  function ToRecipient(row: Row): Recipient
    requires row.email.Some?
  {
    Recipient(row.email.value, Or(row.name, ""))
  }

  /** Whether the raw row survives the transform and the filter. */
  predicate Admitted(row: Row) {
    Keeps(Transform(row))
  }

  /** The recipient a raw row contributes, when it is admitted. */
  function RecipientOf(row: Row): Recipient
    requires Admitted(row)
  {
    ToRecipient(Transform(row))
  }

  /** What one raw row adds to the list: its recipient, or nothing. */
  function Contribution(row: Row): (rs: seq<Recipient>)
    ensures |rs| <= 1
    ensures forall k :: 0 <= k < |rs| ==> IsValidEmail(rs[k].email)
  {
    if Admitted(row) then [RecipientOf(row)] else []
  }

  /** The recipient list built from the parsed rows. */
  function Recipients(rows: seq<Row>): (rs: seq<Recipient>)
    ensures |rs| <= |rows|
    ensures forall k :: 0 <= k < |rs| ==> IsValidEmail(rs[k].email)
  {
    if rows == [] then []
    else Contribution(rows[0]) + Recipients(rows[1..])
  }

  /**
   * The empty-value test in the filter is already implied by the address
   * test: the empty string is not an address.
   */
  lemma EmptyEmailNotValid()
    ensures !IsValidEmail("")
  {
  }

  /** Building the list row by row: the list of a concatenation is the concatenation of the lists. */
  lemma {:induction false} RecipientsAppend(a: seq<Row>, b: seq<Row>)
    ensures Recipients(a + b) == Recipients(a) + Recipients(b)
  {
    if a == [] {
      assert a + b == b;
    } else {
      assert (a + b)[0] == a[0] && (a + b)[1..] == a[1..] + b;
      RecipientsAppend(a[1..], b);
      assert Recipients(a + b) == Contribution(a[0]) + Recipients(a[1..] + b);
    }
  }

  /**
   * Exactly the admitted rows are sent to: a recipient is in the list if
   * and only if some admitted row contributes it.
   */
  lemma {:induction false} RecipientsMembership(rows: seq<Row>, r: Recipient)
    ensures r in Recipients(rows) <==> exists i :: 0 <= i < |rows| && Admitted(rows[i]) && RecipientOf(rows[i]) == r
  {
    if rows != [] {
      RecipientsMembership(rows[1..], r);
      if r in Recipients(rows[1..]) {
        var i :| 0 <= i < |rows[1..]| && Admitted(rows[1..][i]) && RecipientOf(rows[1..][i]) == r;
        assert rows[i + 1] == rows[1..][i];
      }
      if exists i :: 0 <= i < |rows| && Admitted(rows[i]) && RecipientOf(rows[i]) == r {
        var i :| 0 <= i < |rows| && Admitted(rows[i]) && RecipientOf(rows[i]) == r;
        if i > 0 {
          assert rows[1..][i - 1] == rows[i];
        }
      }
    }
  }

  /**
   * Nothing is deduplicated or reordered: when every row is admitted, the
   * list holds one recipient per row, at that row's position, repeated
   * addresses included.
   */
  lemma {:induction false} AllAdmittedKept(rows: seq<Row>)
    requires forall i :: 0 <= i < |rows| ==> Admitted(rows[i])
    ensures |Recipients(rows)| == |rows|
    ensures forall i :: 0 <= i < |rows| ==> Recipients(rows)[i] == RecipientOf(rows[i])
  {
    if rows != [] {
      AllAdmittedKept(rows[1..]);
    }
  }

  /** When no row is admitted the list is empty. */
  lemma {:induction false} NoneAdmitted(rows: seq<Row>)
    requires forall i :: 0 <= i < |rows| ==> !Admitted(rows[i])
    ensures Recipients(rows) == []
  {
    if rows != [] {
      NoneAdmitted(rows[1..]);
    }
  }

  /**
   * Each recipient's address is the normalised email of its row and its
   * name is the row's name cell, or "" when that is missing or empty.
   */
  lemma RecipientFields(row: Row)
    requires Admitted(row)
    ensures row.email.Some? && RecipientOf(row).email == NormalizeEmail(row.email.value)
    ensures RecipientOf(row).name == (if row.name.Some? then row.name.value else "")
  {
  }
}
