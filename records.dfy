/**
 * The records the matching engine reads. The source passes them around as
 * dictionaries whose keys may be missing. Here the keys of a transaction and
 * of an attachment's `data` are `Option` fields, `None` standing for a
 * missing key or a `None` value; an attachment's `type` and `data` take the
 * defaults of `.get("type", "")` and `.get("data", {})` instead.
 */
module Records {
  import opened Wrappers

  /** The registered name of the company itself, never a counterparty. */
  const COMPANY_NAME: string := "Example Company Oy"

  /**
   * The `type` of an attachment. Only "receipt" changes the engine's
   * behaviour; every other type, and a missing one, acts like `Invoice`.
   */
  datatype AttachmentType = Receipt | Invoice | Other

  /** The `data` mapping of an attachment; a missing `data` has every field `None`. */
  datatype AttachmentData = AttachmentData(
    reference: Option<string>,
    totalAmount: Option<int>,      // in cents
    supplier: Option<string>,
    issuer: Option<string>,
    recipient: Option<string>,
    receivingDate: Option<string>,
    dueDate: Option<string>,
    invoicingDate: Option<string>)

  datatype Attachment = Attachment(kind: AttachmentType, data: AttachmentData)

  datatype Transaction = Transaction(
    reference: Option<string>,
    amount: Option<int>,           // in cents, signed
    date: Option<string>,
    contact: Option<string>)

  /** Python truthiness of an optional string: present and non-empty. */
  predicate Truthy(s: Option<string>) {
    s.Some? && s.value != ""
  }

  /** Python's `a or b` on optional strings. */
  function Or(a: Option<string>, b: Option<string>): Option<string> {
    if Truthy(a) then a else b
  }
}
