/** One row of the invoice metadata ledger (the CSV read with pandas), as far
    as the training and ingestion code reads it. A string column holds either
    a string or, for an empty cell, NaN; `total_amount` holds a number, NaN,
    or (in a column pandas could not read as numbers) a string. */
module Records {
  import opened Wrappers
  import opened Text

  /** A string cell; `None` is an empty cell, which pandas reads as NaN. */
  type Cell = Option<string>

  /** A `total_amount` cell: a number (held as exact cents), NaN, or text. */
  datatype AmountCell = Number(cents: int) | NotANumber | NonNumeric

  datatype Row = Row(
    company: Cell,
    invoiceNumber: Cell,
    date: Cell,
    totalAmount: AmountCell,
    currency: Cell,
    filePath: Cell,
    fileType: Cell)

  /** `f"{row['total_amount']:.2f}"`: NaN prints as "nan", and a text cell
      makes the format raise (`None`). A number is rendered in the fixed
      two-decimal layout, which parses back to the same cents. */
  function AmountText(a: AmountCell): (r: Option<string>)
    ensures r.None? <==> a.NonNumeric?
    ensures a.Number? ==> ParseCents(r.value) == Some(a.cents)
    ensures a.NotANumber? ==> r == Some("nan")
  {
    match a
    case Number(c) => ParseFormatCents(c); Some(FormatCents(c))
    case NotANumber => Some("nan")
    case NonNumeric => None
  }
}
