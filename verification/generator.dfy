/** The deterministic part of the synthetic-invoice generator
    `1.generate_invoices.py`: the per-language phrase table, the invoice
    number and date layouts, the total line printed on every invoice, and
    the names of the 600 generated files. Faker, the clock and `random` are
    replaced by a `Draw` of already drawn values within the ranges the
    generator draws them from. */
module Generator {
  import opened Wrappers
  import opened Text
  import opened Paths
  import opened Records
  import opened Aligner
  import Inference

  // ---------------------------------------------------------------------
  // The language table
  // ---------------------------------------------------------------------

  datatype Language = Lv | En | Ru

  function LanguageCode(l: Language): string {
    match l
    case Lv => "lv"
    case En => "en"
    case Ru => "ru"
  }

  /** The language of a code; any other code leaves the Faker instance
      unbound and the generator raises. */
  function ParseLanguage(code: string): (r: Option<Language>)
    ensures r.Some? ==> LanguageCode(r.value) == code
    ensures r.None? ==> forall l :: LanguageCode(l) != code
  {
    if code == "lv" then Some(Lv)
    else if code == "en" then Some(En)
    else if code == "ru" then Some(Ru)
    else None
  }

  lemma ParseLanguageCode(l: Language)
    ensures ParseLanguage(LanguageCode(l)) == Some(l)
  {
  }

  /** The printed phrases of a language and its two currency spellings. */
  datatype Phrases = Phrases(invoiceText: string, dateText: string, totalText: string, currencies: seq<string>)

  /** A currency spelling that cannot be mistaken for part of an amount or
      for the separating space. */
  predicate CurrencyShaped(c: string) {
    |c| > 0 && !AmountChar(c[0]) && c[0] != ' '
  }

  predicate NoDigits(s: string) {
    forall i :: 0 <= i < |s| ==> !IsDigit(s[i])
  }

  function PhrasesOf(l: Language): (p: Phrases)
    ensures |p.currencies| == 2
    ensures forall i :: 0 <= i < 2 ==> CurrencyShaped(p.currencies[i])
    ensures NoDigits(p.totalText)
  {
    match l
    case Lv => Phrases("Pavadzīme Nr.", "Datums:", "Kopsumma:", ["EUR", "€"])
    case En => Phrases("Invoice No.", "Date:", "Total:", ["USD", "$"])
    case Ru => Phrases("Счет-фактура №", "Дата:", "Итого:", ["RUB", "₽"])
  }

  // ---------------------------------------------------------------------
  // Invoice number and date
  // ---------------------------------------------------------------------

  /** `f"INV-{a}-{b}"`. */
  function InvoiceNumber(a: nat, b: nat): string {
    "INV-" + NatToString(a) + "-" + NatToString(b)
  }

  /** The two series numbers back from a 12-character invoice number. */
  function ParseInvoiceNumber(s: string): Option<(nat, nat)> {
    if |s| == 12 && s[..4] == "INV-" && s[8] == '-' && AllDigits(s[4..8]) && AllDigits(s[9..])
    then Some((ParseNat(s[4..8]), ParseNat(s[9..])))
    else None
  }

  /** With the generator's ranges (a four-digit and a three-digit series) an
      invoice number is always 12 characters long, and it parses back. */
  lemma InvoiceNumberRoundTrip(a: nat, b: nat)
    requires 1000 <= a <= 9999 && 100 <= b <= 999
    ensures |InvoiceNumber(a, b)| == 12
    ensures ParseInvoiceNumber(InvoiceNumber(a, b)) == Some((a, b))
  {
    NatToStringLength(a, 3);
    NatToStringLength(b, 2);
    ParseNatToString(a);
    ParseNatToString(b);
    var s := InvoiceNumber(a, b);
    assert s[..4] == "INV-";
    assert s[4..8] == NatToString(a);
    assert s[9..] == NatToString(b);
  }

  datatype IssueDate = IssueDate(day: nat, month: nat, year: nat)

  predicate ValidDate(d: IssueDate) {
    1 <= d.day <= 31 && 1 <= d.month <= 12 && 1000 <= d.year <= 9999
  }

  /** `strftime("%d.%m.%Y")`. */
  function FormatDate(d: IssueDate): (s: string)
    requires ValidDate(d)
    ensures |s| == 10 && s[2] == '.' && s[5] == '.'
  {
    NatToStringLength(d.year, 3);
    TwoDigits(d.day) + "." + TwoDigits(d.month) + "." + NatToString(d.year)
  }

  function ParseDate(s: string): Option<IssueDate> {
    if |s| == 10 && s[2] == '.' && s[5] == '.' && AllDigits(s[..2]) && AllDigits(s[3..5]) && AllDigits(s[6..])
    then Some(IssueDate(ParseNat(s[..2]), ParseNat(s[3..5]), ParseNat(s[6..])))
    else None
  }

  lemma ParseTwoDigits(n: nat)
    requires n < 100
    ensures ParseNat(TwoDigits(n)) == n
  {
    var s := TwoDigits(n);
    assert s[..1][..0] == [];
    assert ParseNat(s[..1]) == DigitValue(s[0]) == n / 10;
    assert s[..|s| - 1] == s[..1];
    assert DigitValue(s[1]) == n % 10;
  }

  lemma FormatDateRoundTrip(d: IssueDate)
    requires ValidDate(d)
    ensures ParseDate(FormatDate(d)) == Some(d)
  {
    var s := FormatDate(d);
    NatToStringLength(d.year, 3);
    ParseNatToString(d.year);
    ParseTwoDigits(d.day);
    ParseTwoDigits(d.month);
    assert s[..2] == TwoDigits(d.day);
    assert s[3..5] == TwoDigits(d.month);
    assert s[6..] == NatToString(d.year);
  }

  // ---------------------------------------------------------------------
  // generate_invoice_data
  // ---------------------------------------------------------------------

  datatype Item = Item(name: string, quantity: nat, priceCents: nat)

  /** The random values one call draws: the currency spelling, the two
      series numbers, the date, the total in cents, and the item lines. */
  datatype Draw = Draw(currencyIndex: nat, seriesA: nat, seriesB: nat, date: IssueDate, totalCents: nat, items: seq<Item>)

  /** The ranges `random` draws from: `choice` of two, `randint(1000, 9999)`,
      `randint(100, 999)`, a date, `uniform(10, 10000)` to the cent,
      `randint(1, 10)` items of quantity `randint(1, 10)` and price
      `uniform(1, 1000)` to the cent. */
  predicate ValidDraw(d: Draw) {
    && d.currencyIndex < 2
    && 1000 <= d.seriesA <= 9999 && 100 <= d.seriesB <= 999
    && ValidDate(d.date)
    && 1000 <= d.totalCents <= 1000000
    && 1 <= |d.items| <= 10
    && forall i :: 0 <= i < |d.items| ==> 1 <= d.items[i].quantity <= 10 && 100 <= d.items[i].priceCents <= 100000
  }

  datatype InvoiceData = InvoiceData(
    company: string,
    invoiceNumber: string,
    date: string,
    items: seq<Item>,
    totalCents: nat,
    currency: string,
    language: Language,
    phrases: Phrases)

  function GenerateInvoiceData(code: string, company: string, d: Draw): (r: Result<InvoiceData, string>)
    requires ValidDraw(d)
    ensures r.Err? <==> ParseLanguage(code).None?
    // the record is in the requested language, with that language's phrases
    ensures r.Ok? ==> LanguageCode(r.value.language) == code && r.value.phrases == PhrasesOf(r.value.language)
    ensures r.Ok? ==> r.value.currency in PhrasesOf(r.value.language).currencies
    ensures r.Ok? ==> |r.value.invoiceNumber| == 12 && |r.value.date| == 10
    ensures r.Ok? ==> 1 <= |r.value.items| <= 10 && forall i :: 0 <= i < |r.value.items| ==> 1 <= r.value.items[i].quantity <= 10
    // the record carries what was drawn: the number and the date read back
    // to the drawn values, and company, total, items and the chosen
    // currency spelling are carried over
    ensures r.Ok? ==> ParseInvoiceNumber(r.value.invoiceNumber) == Some((d.seriesA, d.seriesB))
    ensures r.Ok? ==> ParseDate(r.value.date) == Some(d.date)
    ensures r.Ok? ==> r.value.company == company && r.value.totalCents == d.totalCents && r.value.items == d.items
    ensures r.Ok? ==> r.value.currency == PhrasesOf(r.value.language).currencies[d.currencyIndex]
  {
    match ParseLanguage(code)
    case None => Err("unsupported language")
    case Some(lang) =>
      var p := PhrasesOf(lang);
      InvoiceNumberRoundTrip(d.seriesA, d.seriesB);
      FormatDateRoundTrip(d.date);
      Ok(InvoiceData(company, InvoiceNumber(d.seriesA, d.seriesB), FormatDate(d.date), d.items,
                     d.totalCents, p.currencies[d.currencyIndex], lang, p))
  }

  // ---------------------------------------------------------------------
  // The total line
  // ---------------------------------------------------------------------

  /** `f"{total_text}: {total_amount:.2f} {currency}"`, drawn on both the
      PDF and the image invoices. */
  function TotalLine(totalText: string, cents: int, currency: string): string {
    totalText + ": " + FormatCents(cents) + " " + currency
  }

  /** On the total line the amount is first found right after the label,
      and the currency search from the amount's start finds the currency
      right after the amount and the space. */
  lemma TotalLineSearch(totalText: string, cents: nat, currency: string)
    requires NoDigits(totalText) && CurrencyShaped(currency)
    ensures var line := TotalLine(totalText, cents, currency);
            var amount := FormatCents(cents);
            var p := |totalText| + 2;
            && FindFrom(line, amount, 0) == Some(p)
            && FindFrom(line, currency, p) == Some(p + |amount| + 1)
  {
    var line := TotalLine(totalText, cents, currency);
    var amount := FormatCents(cents);
    var p := |totalText| + 2;
    var q := p + |amount| + 1;
    assert line[p..p + |amount|] == amount;
    assert line[q..q + |currency|] == currency;
    forall j | 0 <= j < p ensures !OccursAt(line, amount, j) {
      assert line[j..j + |amount|][0] == line[j];
      if j < |totalText| {
        assert line[j] == totalText[j];
      }
      assert !IsDigit(line[j]) && IsDigit(amount[0]);
    }
    FindFromIsFirst(line, amount, 0, p);
    forall j | p <= j < q ensures !OccursAt(line, currency, j) {
      if j + |currency| <= |line| {
        assert line[j..j + |currency|][0] == line[j];
      }
      if j < q - 1 {
        assert line[j] == amount[j - p];
      }
      assert AmountChar(line[j]) || line[j] == ' ';
    }
    FindFromIsFirst(line, currency, p, q);
  }

  /** Every generated invoice's total line has that layout: the aligner's
      two money searches land on the printed amount and currency, so
      `AlignMoneyAt` gives exactly the AMOUNT and CURRENCY spans there. */
  lemma GeneratedTotalLineSearch(data: InvoiceData)
    requires data.currency in data.phrases.currencies && data.phrases == PhrasesOf(data.language)
    ensures var line := TotalLine(data.phrases.totalText, data.totalCents, data.currency);
            var amount := FormatCents(data.totalCents);
            var p := |data.phrases.totalText| + 2;
            && FindFrom(line, amount, 0) == Some(p)
            && FindFrom(line, data.currency, p) == Some(p + |amount| + 1)
  {
    PhrasesShaped(data.language, data.currency);
    TotalLineSearch(data.phrases.totalText, data.totalCents, data.currency);
  }

  /** A language's currency spellings and total label have the shape the
      total-line search relies on. */
  lemma PhrasesShaped(l: Language, c: string)
    requires c in PhrasesOf(l).currencies
    ensures CurrencyShaped(c) && NoDigits(PhrasesOf(l).totalText)
  {
    var p := PhrasesOf(l);
    assert c == p.currencies[0] || c == p.currencies[1];
  }

  // ---------------------------------------------------------------------
  // File naming
  // ---------------------------------------------------------------------

  const Count: nat := 200

  /** `f"{dir}/invoice_{n}.{ext}"`. */
  function FileName(dir: string, n: nat, ext: string): string {
    dir + "/invoice_" + NatToString(n) + "." + ext
  }

  datatype FileEntry = FileEntry(path: string, fileType: string)

  /** The `file_path` and `file_type` of the `k`-th dataset row: 200 PDFs
      numbered from 0, 200 JPEGs numbered from 0, then 200 PNGs numbered
      from 200. */
  function EntryAt(k: nat): FileEntry {
    if k < Count then FileEntry(FileName("invoices/pdf", k, "pdf"), "pdf")
    else if k < 2 * Count then FileEntry(FileName("invoices/images", k - Count, "jpg"), "jpg")
    else FileEntry(FileName("invoices/images", k - Count, "png"), "png")
  }

  lemma MiddleInjective(p: string, x: string, y: string, q: string)
    requires p + x + q == p + y + q
    ensures x == y
  {
    assert |x| == |y|;
    assert x == (p + x + q)[|p|..|p| + |x|];
    assert y == (p + y + q)[|p|..|p| + |y|];
  }

  /** The character `k` places from the end of a file name lies in its
      extension. */
  lemma FileNameEnd(dir: string, n: nat, ext: string, k: nat)
    requires k < |ext|
    ensures FileName(dir, n, ext)[|FileName(dir, n, ext)| - |ext| + k] == ext[k]
  {
  }

  lemma FileNameStart(dir: string, n: nat, ext: string, k: nat)
    requires k < |dir|
    ensures FileName(dir, n, ext)[k] == dir[k]
  {
  }

  lemma FileNamesInjective(dir: string, m: nat, n: nat, ext: string)
    requires FileName(dir, m, ext) == FileName(dir, n, ext)
    ensures m == n
  {
    assert FileName(dir, m, ext) == (dir + "/invoice_") + NatToString(m) + ("." + ext);
    assert FileName(dir, n, ext) == (dir + "/invoice_") + NatToString(n) + ("." + ext);
    MiddleInjective(dir + "/invoice_", NatToString(m), NatToString(n), "." + ext);
    NatToStringInjective(m, n);
  }

  /** No two of the 600 rows name the same file. */
  lemma EntriesDistinct(i: nat, j: nat)
    requires i < 3 * Count && j < 3 * Count && i != j
    ensures EntryAt(i).path != EntryAt(j).path
  {
    var a := EntryAt(i).path;
    var b := EntryAt(j).path;
    if a == b {
      if (i < Count) != (j < Count) {
        FileNameStart("invoices/pdf", if i < Count then i else j, "pdf", 9);
        FileNameStart("invoices/images", if i < Count then j - Count else i - Count, if (if i < Count then j else i) < 2 * Count then "jpg" else "png", 9);
        assert false;
      } else if i < Count {
        FileNamesInjective("invoices/pdf", i, j, "pdf");
      } else if (i < 2 * Count) != (j < 2 * Count) {
        var jpgIndex := if i < 2 * Count then i else j;
        var pngIndex := if i < 2 * Count then j else i;
        FileNameEnd("invoices/images", jpgIndex - Count, "jpg", 0);
        FileNameEnd("invoices/images", pngIndex - Count, "png", 0);
        assert false;
      } else if i < 2 * Count {
        FileNamesInjective("invoices/images", i - Count, j - Count, "jpg");
      } else {
        FileNamesInjective("invoices/images", i - Count, j - Count, "png");
      }
    }
  }

  /** Every row's `file_type` is its file name's extension. */
  lemma EntryTypeMatchesExtension(k: nat)
    requires k < 3 * Count
    ensures Extension(EntryAt(k).path) == "." + EntryAt(k).fileType
  {
    var e := EntryAt(k);
    var dir := if k < Count then "invoices/pdf" else "invoices/images";
    var n := if k < Count then k else k - Count;
    var digits := NatToString(n);
    var stem := dir + "/invoice_" + digits;
    assert IsDigit(stem[|stem| - 1]);
    assert e.path == stem + "." + e.fileType;
    ExtensionOfDotted(stem, e.fileType);
  }

  /** The three loops of the generator, building the file columns. */
  method FileEntries() returns (entries: seq<FileEntry>)
    ensures |entries| == 3 * Count
    ensures forall k :: 0 <= k < |entries| ==> entries[k] == EntryAt(k)
    ensures forall i, j :: 0 <= i < j < |entries| ==> entries[i].path != entries[j].path
    ensures forall k :: 0 <= k < |entries| ==> Extension(entries[k].path) == "." + entries[k].fileType
  {
    entries := [];
    var i := 0;
    while i < Count
      invariant 0 <= i <= Count && |entries| == i
      invariant forall k :: 0 <= k < |entries| ==> entries[k] == EntryAt(k)
    {
      entries := entries + [FileEntry(FileName("invoices/pdf", i, "pdf"), "pdf")];
      i := i + 1;
    }
    i := 0;
    while i < Count
      invariant 0 <= i <= Count && |entries| == Count + i
      invariant forall k :: 0 <= k < |entries| ==> entries[k] == EntryAt(k)
    {
      entries := entries + [FileEntry(FileName("invoices/images", i, "jpg"), "jpg")];
      i := i + 1;
    }
    i := 0;
    while i < Count
      invariant 0 <= i <= Count && |entries| == 2 * Count + i
      invariant forall k :: 0 <= k < |entries| ==> entries[k] == EntryAt(k)
    {
      entries := entries + [FileEntry(FileName("invoices/images", Count + i, "png"), "png")];
      i := i + 1;
    }
    forall i, j | 0 <= i < j < |entries| ensures entries[i].path != entries[j].path {
      EntriesDistinct(i, j);
    }
    forall k | 0 <= k < |entries| ensures Extension(entries[k].path) == "." + entries[k].fileType {
      EntryTypeMatchesExtension(k);
    }
  }

  // ---------------------------------------------------------------------
  // The generated ledger
  // ---------------------------------------------------------------------

  /** The CSV row written for a generated invoice (no cell is empty and the
      total is a number). */
  function LedgerRow(data: InvoiceData, entry: FileEntry): (row: Row)
    ensures AmountText(row.totalAmount) == Some(FormatCents(data.totalCents))
    ensures row.filePath == Some(entry.path) && row.fileType == Some(entry.fileType)
  {
    Row(Some(data.company), Some(data.invoiceNumber), Some(data.date), Number(data.totalCents),
        Some(data.currency), Some(entry.path), Some(entry.fileType))
  }

  /** A generated row never takes the exception path of the alignment
      block: it is aligned with its own values. */
  lemma GeneratedRowsAlign(data: InvoiceData, entry: FileEntry, text: string)
    ensures AlignRow(text, LedgerRow(data, entry)) ==
            Some(Align(text, Known(data.company, data.invoiceNumber, data.date, FormatCents(data.totalCents), data.currency)))
  {
  }

  /** Every generated file has an extension the inference reader accepts,
      and of the matching kind. */
  lemma GeneratedFilesAreReadable(k: nat)
    requires k < 3 * Count
    ensures Inference.KindOf(Lower(Extension(EntryAt(k).path))) ==
            if k < Count then Some(Inference.Pdf) else Some(Inference.Image)
  {
    ReadableExtensions();
    if k < Count {
      EntryReadable(k, ".pdf");
    } else if k < 2 * Count {
      EntryReadable(k, ".jpg");
    } else {
      EntryReadable(k, ".png");
    }
  }

  /** The reader chosen for the `k`-th file is the one its extension names. */
  lemma EntryReadable(k: nat, ext: string)
    requires k < 3 * Count && ext == "." + EntryAt(k).fileType
    ensures Inference.KindOf(Lower(Extension(EntryAt(k).path))) == Inference.KindOf(Lower(ext))
  {
    EntryTypeMatchesExtension(k);
  }

  /** The three generated extensions, lower-cased, select the readers. */
  lemma ReadableExtensions()
    ensures Inference.KindOf(Lower(".pdf")) == Some(Inference.Pdf)
    ensures Inference.KindOf(Lower(".jpg")) == Some(Inference.Image)
    ensures Inference.KindOf(Lower(".png")) == Some(Inference.Image)
  {
    LowerIdentity(".pdf");
    LowerIdentity(".jpg");
    LowerIdentity(".png");
  }
}
