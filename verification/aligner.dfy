/** The weak-label aligner: given the OCR text of an invoice and the field
    values known for it, label the first occurrence of each value. Shared
    verbatim by the training-set builder and the incremental updater. */
module Aligner {
  import opened Wrappers
  import opened Text
  import opened Records

  /** The entity labels of the recogniser, in the order the aligner tries them. */
  datatype Label = Company | InvoiceNumber | Date | Amount | Currency

  function LabelName(l: Label): string {
    match l
    case Company => "COMPANY"
    case InvoiceNumber => "INVOICE_NUMBER"
    case Date => "DATE"
    case Amount => "AMOUNT"
    case Currency => "CURRENCY"
  }

  /** Position of a label in the aligner's fixed search order. */
  function Rank(l: Label): nat {
    match l
    case Company => 0
    case InvoiceNumber => 1
    case Date => 2
    case Amount => 3
    case Currency => 4
  }

  /** A labelled character range `[start, end)` of the text: the tuple
      `(start, end, "LABEL")` the source appends to `entities`. */
  datatype Span = Span(start: nat, end: nat, tag: Label)

  /** The field values searched for, already rendered as strings (the
      amount in its two-decimal form). */
  datatype Known = Known(company: string, invoiceNumber: string, date: string, amount: string, currency: string)

  function ValueOf(k: Known, l: Label): string {
    match l
    case Company => k.company
    case InvoiceNumber => k.invoiceNumber
    case Date => k.date
    case Amount => k.amount
    case Currency => k.currency
  }

  /** The span covers exactly one occurrence of its label's known value. */
  predicate Covers(text: string, k: Known, s: Span) {
    s.end == s.start + |ValueOf(k, s.tag)| && OccursAt(text, ValueOf(k, s.tag), s.start)
  }

  /** The span of label `l`, if the list holds one. */
  function SpanFor(spans: seq<Span>, l: Label): (r: Option<Span>)
    ensures r.Some? ==> r.value in spans && r.value.tag == l
    ensures r.None? ==> forall i :: 0 <= i < |spans| ==> spans[i].tag != l
  {
    if |spans| == 0 then None
    else if spans[0].tag == l then Some(spans[0])
    else SpanFor(spans[1..], l)
  }

  /** One search of the aligner: the span of the first occurrence of `pat`
      at or after `from`, or nothing when `pat` does not occur there. */
  function Locate(text: string, pat: string, from: nat, l: Label): (r: Option<Span>)
    ensures r.Some? ==> r.value.tag == l && from <= r.value.start
    ensures r.Some? ==> r.value.end == r.value.start + |pat| && OccursAt(text, pat, r.value.start)
    ensures r.Some? ==> AbsentBetween(text, pat, from, r.value.start)
    ensures r.None? ==> AbsentFrom(text, pat, from)
  {
    match FindFrom(text, pat, from)
    case None => None
    case Some(i) => Some(Span(i, i + |pat|, l))
  }

  function AsSeq(o: Option<Span>): (r: seq<Span>)
    ensures |r| <= 1
    ensures o.Some? ==> r == [o.value]
    ensures o.None? ==> r == []
  {
    if o.Some? then [o.value] else []
  }

  /** What the aligner guarantees of its span list. */
  predicate Aligned(text: string, k: Known, spans: seq<Span>) {
    // every span covers an occurrence of its label's value
    && (forall i :: 0 <= i < |spans| ==> Covers(text, k, spans[i]))
    // labels come in the fixed search order, each at most once
    && (forall i, j :: 0 <= i < j < |spans| ==> Rank(spans[i].tag) < Rank(spans[j].tag))
    // every span but the currency's is the first occurrence in the whole text
    && (forall i :: 0 <= i < |spans| && spans[i].tag != Currency ==>
          AbsentBetween(text, ValueOf(k, spans[i].tag), 0, spans[i].start))
    // the currency span directly follows the amount span and is the first
    // currency occurrence at or after the amount's start
    && (forall i :: 0 <= i < |spans| && spans[i].tag == Currency ==>
          0 < i && spans[i - 1].tag == Amount && spans[i - 1].start <= spans[i].start &&
          AbsentBetween(text, k.currency, spans[i - 1].start, spans[i].start))
  }

  /** The currency part of the search: an AMOUNT span and, searching from
      the amount's START, the first currency occurrence. */
  function AlignMoney(text: string, k: Known): (spans: seq<Span>)
    ensures |spans| <= 2 && Aligned(text, k, spans)
    ensures forall i :: 0 <= i < |spans| ==> Rank(Amount) <= Rank(spans[i].tag)
    ensures |spans| == 0 <==> AbsentFrom(text, k.amount, 0)
    ensures |spans| > 0 ==> spans[0].tag == Amount
    ensures |spans| == 2 <==> |spans| > 0 && !AbsentFrom(text, k.currency, spans[0].start)
    ensures |spans| == 2 ==> spans[1].tag == Currency
  {
    match Locate(text, k.amount, 0, Amount)
    case None => []
    case Some(a) =>
      assert OccursAt(text, k.amount, a.start);
      var c := Locate(text, k.currency, a.start, Currency);
      MoneyPair(text, k, a, c);
      [a] + AsSeq(c)
  }

  /** The AMOUNT span found first in the text, followed by whatever the
      currency search from its start finds, is an aligned list. */
  lemma MoneyPair(text: string, k: Known, a: Span, c: Option<Span>)
    requires a.tag == Amount && Covers(text, k, a) && AbsentBetween(text, k.amount, 0, a.start)
    requires c == Locate(text, k.currency, a.start, Currency)
    ensures var spans := [a] + AsSeq(c);
            && |spans| <= 2 && Aligned(text, k, spans)
            && (forall i :: 0 <= i < |spans| ==> Rank(Amount) <= Rank(spans[i].tag))
            && spans[0].tag == Amount
            && (|spans| == 2 <==> !AbsentFrom(text, k.currency, a.start))
            && (|spans| == 2 ==> spans[1].tag == Currency)
  {
    var spans := [a] + AsSeq(c);
    if c.Some? {
      var s := c.value;
      assert spans == [a, s];
      assert OccursAt(text, k.currency, s.start) && Covers(text, k, s);
      assert AbsentBetween(text, k.currency, a.start, s.start);
    } else {
      assert spans == [a];
    }
  }

  /** When the amount is first found at `p` and the currency, searching
      from there, at `q`, the money spans are exactly those two. */
  lemma AlignMoneyAt(text: string, k: Known, p: nat, q: nat)
    requires FindFrom(text, k.amount, 0) == Some(p)
    requires FindFrom(text, k.currency, p) == Some(q)
    ensures AlignMoney(text, k) == [Span(p, p + |k.amount|, Amount), Span(q, q + |k.currency|, Currency)]
  {
    assert Locate(text, k.amount, 0, Amount) == Some(Span(p, p + |k.amount|, Amount));
    assert Locate(text, k.currency, p, Currency) == Some(Span(q, q + |k.currency|, Currency));
  }

  /** Putting the span found for label `l` (if any) in front of the spans of
      later labels keeps the list aligned. */
  lemma AlignedPrepend(text: string, k: Known, o: Option<Span>, rest: seq<Span>, l: Label)
    requires Aligned(text, k, rest)
    requires l != Currency
    requires forall i :: 0 <= i < |rest| ==> Rank(l) < Rank(rest[i].tag)
    requires o.Some? ==> o.value.tag == l && Covers(text, k, o.value)
    requires o.Some? ==> AbsentBetween(text, ValueOf(k, l), 0, o.value.start)
    ensures Aligned(text, k, AsSeq(o) + rest)
    ensures forall i :: 0 <= i < |AsSeq(o) + rest| ==> Rank(l) <= Rank((AsSeq(o) + rest)[i].tag)
  {
    if o.Some? {
      var r := [o.value] + rest;
      assert forall i :: 0 < i < |r| ==> r[i] == rest[i - 1];
    }
  }

  /** The alignment block of `prepare_training_data` (and of
      `update_model_with_new_invoices`): COMPANY, INVOICE_NUMBER, DATE and
      AMOUNT each at the first occurrence of the value in the whole text,
      CURRENCY at the first occurrence at or after the amount's start. */
  function Align(text: string, k: Known): (spans: seq<Span>)
    ensures Aligned(text, k, spans)
    ensures |spans| <= 5
  {
    var money := AlignMoney(text, k);
    var d := Locate(text, k.date, 0, Date);
    AlignedPrepend(text, k, d, money, Date);
    var n := Locate(text, k.invoiceNumber, 0, InvoiceNumber);
    AlignedPrepend(text, k, n, AsSeq(d) + money, InvoiceNumber);
    var c := Locate(text, k.company, 0, Company);
    AlignedPrepend(text, k, c, AsSeq(n) + (AsSeq(d) + money), Company);
    AsSeq(c) + (AsSeq(n) + (AsSeq(d) + money))
  }

  lemma SpanForPrepend(o: Option<Span>, rest: seq<Span>, l: Label)
    ensures SpanFor(AsSeq(o) + rest, l) == if o.Some? && o.value.tag == l then o else SpanFor(rest, l)
  {
    var r := AsSeq(o) + rest;
    if o.Some? {
      assert r[0] == o.value;
      assert r[1..] == rest;
    } else {
      assert r == rest;
    }
  }

  lemma LocateFound(text: string, pat: string, from: nat, l: Label)
    ensures Locate(text, pat, from, l).Some? <==> !AbsentFrom(text, pat, from)
  {
    var o := Locate(text, pat, from, l);
    if o.Some? {
      assert OccursAt(text, pat, o.value.start);
    }
  }

  /** The money part holds at most an AMOUNT span followed by a CURRENCY span. */
  lemma MoneySpanFor(text: string, k: Known, l: Label)
    ensures l == Amount ==>
              SpanFor(AlignMoney(text, k), l) ==
              (if |AlignMoney(text, k)| > 0 then Some(AlignMoney(text, k)[0]) else None)
    ensures l == Currency ==> (SpanFor(AlignMoney(text, k), l).Some? <==> |AlignMoney(text, k)| == 2)
    ensures Rank(l) < 3 ==> SpanFor(AlignMoney(text, k), l).None?
  {
    var money := AlignMoney(text, k);
    if |money| == 2 {
      assert money[1..][0] == money[1];
      assert money[1..][1..] == [];
    } else if |money| == 1 {
      assert money[1..] == [];
    }
  }

  /** The aligned list, split into the three named searches and the money part. */
  lemma AlignSpanFor(text: string, k: Known, l: Label)
    ensures SpanFor(Align(text, k), l) ==
              if l == Company then Locate(text, k.company, 0, Company)
              else if l == InvoiceNumber then Locate(text, k.invoiceNumber, 0, InvoiceNumber)
              else if l == Date then Locate(text, k.date, 0, Date)
              else SpanFor(AlignMoney(text, k), l)
  {
    var money := AlignMoney(text, k);
    var d := Locate(text, k.date, 0, Date);
    var n := Locate(text, k.invoiceNumber, 0, InvoiceNumber);
    var c := Locate(text, k.company, 0, Company);
    var dm := AsSeq(d) + money;
    var ndm := AsSeq(n) + dm;
    assert Align(text, k) == AsSeq(c) + ndm;
    SpanForPrepend(c, ndm, l);
    if l != Company {
      SpanForPrepend(n, dm, l);
      if l != InvoiceNumber {
        SpanForPrepend(d, money, l);
      }
    }
  }

  /** A value that occurs is labelled, and a label other than CURRENCY is
      missing only when its value does not occur in the text at all. */
  lemma AlignFindsOccurring(text: string, k: Known, l: Label)
    requires l != Currency
    ensures SpanFor(Align(text, k), l).Some? <==> !AbsentFrom(text, ValueOf(k, l), 0)
  {
    AlignSpanFor(text, k, l);
    if l == Amount {
      MoneySpanFor(text, k, l);
    } else {
      LocateFound(text, ValueOf(k, l), 0, l);
    }
  }

  /** CURRENCY is labelled exactly when the amount was labelled and the
      currency occurs at or after the amount's start. */
  lemma AlignFindsCurrency(text: string, k: Known)
    ensures SpanFor(Align(text, k), Currency).Some? <==>
              SpanFor(Align(text, k), Amount).Some? &&
              !AbsentFrom(text, k.currency, SpanFor(Align(text, k), Amount).value.start)
  {
    AlignSpanFor(text, k, Currency);
    AlignSpanFor(text, k, Amount);
    MoneySpanFor(text, k, Currency);
    MoneySpanFor(text, k, Amount);
  }

  /** The aligner finds nothing exactly when none of company, invoice
      number, date and amount occurs (the currency alone is never labelled). */
  lemma AlignEmpty(text: string, k: Known)
    ensures Align(text, k) == [] <==>
              AbsentFrom(text, k.company, 0) && AbsentFrom(text, k.invoiceNumber, 0) &&
              AbsentFrom(text, k.date, 0) && AbsentFrom(text, k.amount, 0)
  {
    var spans := Align(text, k);
    AlignFindsOccurring(text, k, Company);
    AlignFindsOccurring(text, k, InvoiceNumber);
    AlignFindsOccurring(text, k, Date);
    AlignFindsOccurring(text, k, Amount);
    AlignFindsCurrency(text, k);
    if |spans| > 0 {
      assert SpanFor(spans, spans[0].tag).Some?;
    }
  }

  /** An empty known value is "found" at offset 0: a zero-length span. */
  lemma EmptyValueGivesEmptySpan(text: string, k: Known)
    requires k.company == ""
    ensures |Align(text, k)| > 0 && Align(text, k)[0] == Span(0, 0, Company)
  {
    FindFromIsFirst(text, "", 0, 0);
  }

  /** The currency search starts at the amount's start, not its end, so a
      currency value that occurs inside the amount is labelled there: in
      "12.50" with currency "5" the CURRENCY span [3, 4) lies inside the
      AMOUNT span [0, 5). */
  lemma CurrencyInsideAmount()
    ensures Align("12.50", Known("Acme", "INV-1", "01.01.2024", "12.50", "5")) ==
              [Span(0, 5, Amount), Span(3, 4, Currency)]
  {
    var text := "12.50";
    var k := Known("Acme", "INV-1", "01.01.2024", "12.50", "5");
    SampleHits();
    SampleMisses();
    AlignMoneyAt(text, k, 0, 3);
    assert Locate(text, k.date, 0, Date).None?;
    assert Locate(text, k.invoiceNumber, 0, InvoiceNumber).None?;
    assert Locate(text, k.company, 0, Company).None?;
  }

  /** In "12.50" the amount is found at 0 and, searching from there, "5"
      at 3. */
  lemma SampleHits()
    ensures FindFrom("12.50", "12.50", 0) == Some(0)
    ensures FindFrom("12.50", "5", 0) == Some(3)
  {
    var text := "12.50";
    FindFromIsFirst(text, "12.50", 0, 0);
    assert AbsentBetween(text, "5", 0, 3) by {
      forall j | 0 <= j < 3 ensures !OccursAt(text, "5", j) {
        assert text[j..j + 1][0] == text[j];
      }
    }
    FindFromIsFirst(text, "5", 0, 3);
  }

  /** None of the other values occurs in "12.50". */
  lemma SampleMisses()
    ensures FindFrom("12.50", "Acme", 0).None?
    ensures FindFrom("12.50", "INV-1", 0).None?
    ensures FindFrom("12.50", "01.01.2024", 0).None?
  {
    var text := "12.50";
    assert AbsentFrom(text, "Acme", 0) by {
      forall j | 0 <= j ensures !OccursAt(text, "Acme", j) {
        if j + 4 <= |text| { assert text[j..j + 4][0] == text[j]; }
      }
    }
    assert AbsentFrom(text, "INV-1", 0) by {
      forall j | 0 <= j ensures !OccursAt(text, "INV-1", j) {
        if j + 5 <= |text| { assert text[j..j + 5][0] == text[j]; }
      }
    }
    assert AbsentFrom(text, "01.01.2024", 0);
  }

  /** Applying the alignment block to a ledger row whose cells are as pandas
      read them. `None` when the block raises: a missing company, invoice
      number or date (searching for NaN), a text amount (formatting fails),
      or a missing currency once the amount was found. */
  function AlignRow(text: string, row: Row): (r: Option<seq<Span>>)
    // a missing company, number or date, or a text amount, always raises
    ensures row.company.None? || row.invoiceNumber.None? || row.date.None? || row.totalAmount.NonNumeric? ==> r.None?
    ensures r.None? ==>
              row.company.None? || row.invoiceNumber.None? || row.date.None? ||
              row.totalAmount.NonNumeric? || row.currency.None?
    ensures row.company.Some? && row.invoiceNumber.Some? && row.date.Some? &&
            !row.totalAmount.NonNumeric? && row.currency.Some? ==>
              r == Some(Align(text, RowKnown(row)))
    ensures row.company.Some? && row.invoiceNumber.Some? && row.date.Some? &&
            !row.totalAmount.NonNumeric? && row.currency.None? ==>
              (r.None? <==> !AbsentFrom(text, AmountText(row.totalAmount).value, 0))
    // a NaN currency is never searched when the amount is absent, so the
    // other spans are kept
    ensures row.company.Some? && row.invoiceNumber.Some? && row.date.Some? &&
            !row.totalAmount.NonNumeric? && AbsentFrom(text, AmountText(row.totalAmount).value, 0) ==>
              r == Some(Align(text, RowKnown(row)))
  {
    if row.company.None? || row.invoiceNumber.None? || row.date.None? || row.totalAmount.NonNumeric? then None
    else
      var k := RowKnown(row);
      if row.currency.None? && FindFrom(text, k.amount, 0).Some? then None
      else Some(Align(text, k))
  }

  /** The known values of a row whose searched cells are present; a missing
      currency is never searched for and stands as "". */
  function RowKnown(row: Row): Known
    requires row.company.Some? && row.invoiceNumber.Some? && row.date.Some?
    requires !row.totalAmount.NonNumeric?
  {
    Known(row.company.value, row.invoiceNumber.value, row.date.value,
          AmountText(row.totalAmount).value,
          if row.currency.Some? then row.currency.value else "")
  }
}
