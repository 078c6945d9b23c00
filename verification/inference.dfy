/** Inference of `3.invoices_processor.py`: find the model, read a PDF or an
    image, run the recogniser, and build the result dictionary (five
    canonical fields, a truncated copy of the text, and every entity). Each
    failure becomes an `{"error": ...}` result, here `Err(message)`.
    Rasterising, OCR and the recogniser are oracles. */
module Inference {
  import opened Wrappers
  import opened Text
  import opened Paths
  import opened Aligner

  const ModelPath: string := "invoice_ner_model"
  const RawTextLimit: nat := 500

  // ---------------------------------------------------------------------
  // extract_text_from_file
  // ---------------------------------------------------------------------

  datatype Kind = Pdf | Image

  /** The reader chosen for a lower-cased extension. */
  function KindOf(ext: string): (k: Option<Kind>)
    ensures k == Some(Pdf) <==> ext == ".pdf"
    ensures k == Some(Image) <==> ext == ".jpg" || ext == ".jpeg" || ext == ".png"
  {
    if ext == ".pdf" then Some(Pdf)
    else if ext in [".jpg", ".jpeg", ".png"] then Some(Image)
    else None
  }

  /** The outside world of the extractor: the OCR text of each page of a
      PDF (or the conversion's error message), whether an image file can be
      decoded, and the OCR text of a decoded image (or the error message). */
  datatype Ocr = Ocr(
    pdfPages: string -> Result<seq<string>, string>,
    readable: string -> bool,
    imageText: string -> Result<string, string>)

  /** `full_text += text + "\n"` over the pages. */
  function JoinPages(pages: seq<string>): (r: string)
    ensures |pages| > 0 ==> |r| > 0 && r[|r| - 1] == '\n'
  {
    if |pages| == 0 then "" else JoinPages(pages[..|pages| - 1]) + pages[|pages| - 1] + "\n"
  }

  /** The message of the `RuntimeError` the extractor wraps every failure in. */
  function ExtractionError(path: string, msg: string): string {
    "Kļūda apstrādājot " + path + ": " + msg
  }

  /** The PDF branch: rasterise, OCR every page, join, strip. */
  function ExtractPdf(path: string, ocr: Ocr): (r: Result<string, string>)
    ensures r.Ok? <==> ocr.pdfPages(path).Ok?
    ensures r.Err? ==> exists msg :: r.error == ExtractionError(path, msg)
    ensures r.Ok? ==> Trimmed(r.value)
    ensures r.Ok? ==> (r.value == [] <==> AllSpace(JoinPages(ocr.pdfPages(path).value)))
    // the text is the joined page texts with only surrounding whitespace removed
    ensures r.Ok? ==>
              var j := JoinPages(ocr.pdfPages(path).value);
              exists i :: OccursAt(j, r.value, i) && AllSpace(j[..i]) && AllSpace(j[i + |r.value|..])
  {
    match ocr.pdfPages(path)
    case Err(msg) => Err(ExtractionError(path, msg))
    case Ok(pages) => Ok(Strip(JoinPages(pages)))
  }

  /** The image branch: decode (`cv2.imread` gives None when it cannot),
      OCR, strip. */
  function ExtractImage(path: string, ocr: Ocr): (r: Result<string, string>)
    ensures !ocr.readable(path) ==> r == Err(ExtractionError(path, "Nevar nolasīt attēlu no " + path))
    ensures r.Ok? <==> ocr.readable(path) && ocr.imageText(path).Ok?
    ensures r.Err? ==> exists msg :: r.error == ExtractionError(path, msg)
    ensures r.Ok? ==> Trimmed(r.value)
    ensures r.Ok? ==> (r.value == [] <==> AllSpace(ocr.imageText(path).value))
    // the text is the OCR output with only surrounding whitespace removed
    ensures r.Ok? ==>
              var o := ocr.imageText(path).value;
              exists i :: OccursAt(o, r.value, i) && AllSpace(o[..i]) && AllSpace(o[i + |r.value|..])
  {
    if !ocr.readable(path) then Err(ExtractionError(path, "Nevar nolasīt attēlu no " + path))
    else match ocr.imageText(path)
      case Err(msg) => Err(ExtractionError(path, msg))
      case Ok(t) => Ok(Strip(t))
  }

  /** The text of the file at `path`, chosen by its extension in lower case;
      every failure, an unsupported extension included, is wrapped with the
      path. A successful text carries no surrounding whitespace. */
  function ExtractText(path: string, ocr: Ocr): (r: Result<string, string>)
    ensures r.Ok? ==> KindOf(Lower(Extension(path))).Some?
    ensures KindOf(Lower(Extension(path))).None? ==>
              r == Err(ExtractionError(path, "Nepareizs faila formāts: " + Lower(Extension(path))))
    ensures KindOf(Lower(Extension(path))) == Some(Image) && !ocr.readable(path) ==>
              r == Err(ExtractionError(path, "Nevar nolasīt attēlu no " + path))
    // a supported extension is handed to its reader
    ensures KindOf(Lower(Extension(path))) == Some(Pdf) ==> r == ExtractPdf(path, ocr)
    ensures KindOf(Lower(Extension(path))) == Some(Image) ==> r == ExtractImage(path, ocr)
    ensures r.Err? ==> exists msg :: r.error == ExtractionError(path, msg)
    ensures r.Ok? ==> Trimmed(r.value)
  {
    var ext := Lower(Extension(path));
    match KindOf(ext)
    case None => Err(ExtractionError(path, "Nepareizs faila formāts: " + ext))
    case Some(Pdf) => ExtractPdf(path, ocr)
    case Some(Image) => ExtractImage(path, ocr)
  }

  /** Pages that read as whitespace join into whitespace. */
  lemma {:induction false} BlankPagesJoinBlank(pages: seq<string>)
    requires forall i :: 0 <= i < |pages| ==> AllSpace(pages[i])
    ensures AllSpace(JoinPages(pages))
  {
    if |pages| > 0 {
      var init := pages[..|pages| - 1];
      BlankPagesJoinBlank(init);
      var last := pages[|pages| - 1];
      AllSpaceConcat(JoinPages(init), last);
      assert AllSpace("\n");
      AllSpaceConcat(JoinPages(init) + last, "\n");
    }
  }

  /** A PDF whose every page reads as whitespace yields the empty text,
      which `process_invoice` reports as an error. */
  lemma BlankPagesGiveEmptyText(pages: seq<string>)
    requires forall i :: 0 <= i < |pages| ==> AllSpace(pages[i])
    ensures Strip(JoinPages(pages)) == []
  {
    BlankPagesJoinBlank(pages);
  }

  /** The extension is compared case-insensitively: "scan.PDF" is read as
      a PDF. */
  lemma UpperCaseExtensionIsPdf(stem: string)
    requires |stem| > 0 && stem[|stem| - 1] != '.' && stem[|stem| - 1] != '/'
    ensures KindOf(Lower(Extension(stem + ".PDF"))) == Some(Pdf)
  {
    ExtensionOfDotted(stem, "PDF");
    assert stem + "." + "PDF" == stem + ".PDF";
    var low := Lower(".PDF");
    assert low[0] == '.' && low[1] == 'p' && low[2] == 'd' && low[3] == 'f';
    assert low == ".pdf";
  }

  /** Any other extension is refused with the format message. */
  lemma TextFileIsRefused(stem: string, ocr: Ocr)
    requires |stem| > 0 && stem[|stem| - 1] != '.' && stem[|stem| - 1] != '/'
    ensures ExtractText(stem + ".txt", ocr) ==
            Err(ExtractionError(stem + ".txt", "Nepareizs faila formāts: " + ".txt"))
  {
    ExtensionOfDotted(stem, "txt");
    assert stem + "." + "txt" == stem + ".txt";
    var low := Lower(".txt");
    assert low[0] == '.' && low[1] == 't' && low[2] == 'x' && low[3] == 't';
    assert low == ".txt";
    assert ".txt"[1] != ".jpg"[1] && ".txt"[1] != ".png"[1] && ".txt"[1] != ".pdf"[1];
    assert |".txt"| != |".jpeg"|;
    assert KindOf(".txt") == None;
    assert Extension(stem + ".txt") == ".txt";
  }

  // ---------------------------------------------------------------------
  // process_invoice
  // ---------------------------------------------------------------------

  /** A recognised entity, which is also the dictionary recorded for it:
      its text, label, and character offsets. */
  datatype Entity = Entity(text: string, tag: string, start: nat, end: nat)

  /** The success dictionary of `process_invoice`. */
  datatype Invoice = Invoice(
    company: Option<string>,
    invoiceNumber: Option<string>,
    date: Option<string>,
    amount: Option<string>,
    currency: Option<string>,
    rawText: string,
    entities: seq<Entity>)

  /** `text[:500] + "..."` for a long text, the text itself otherwise. */
  function RawText(text: string): (r: string)
    ensures |r| <= RawTextLimit + 3
    ensures |text| <= RawTextLimit ==> r == text
    ensures |text| > RawTextLimit ==>
              |r| == RawTextLimit + 3 && r[..RawTextLimit] == text[..RawTextLimit] && r[RawTextLimit..] == "..."
  {
    if |text| > RawTextLimit then text[..RawTextLimit] + "..." else text
  }

  /** A Python truthy field: set and non-empty. */
  predicate Truthy(o: Option<string>) {
    o.Some? && o.value != ""
  }

  /** An entity that may fill the field `name`. */
  predicate Fills(e: Entity, name: string) {
    e.tag == name && e.text != ""
  }

  /** Reference: the index of the first entity that may fill `name`. */
  function FirstFilling(ents: seq<Entity>, name: string): (r: Option<nat>)
    ensures r.Some? ==> r.value < |ents| && Fills(ents[r.value], name)
    ensures r.Some? ==> forall j :: 0 <= j < r.value ==> !Fills(ents[j], name)
    ensures r.None? ==> forall j :: 0 <= j < |ents| ==> !Fills(ents[j], name)
  {
    if |ents| == 0 then None
    else if Fills(ents[0], name) then Some(0)
    else match FirstFilling(ents[1..], name)
      case None => None
      case Some(i) => Some(i + 1)
  }

  /** `if ent.label_ == name and not result[field]: result[field] = ent.text`
      over the entities in order. A field is overwritten while it is falsy,
      so it ends with the first non-empty text under that label, with an
      empty text if that label only had empty texts, and untouched if the
      label never occurs. */
  function Fill(acc: Option<string>, ents: seq<Entity>, name: string): (r: Option<string>)
    ensures Truthy(acc) ==> r == acc
    ensures !Truthy(acc) && FirstFilling(ents, name).Some? ==>
              r == Some(ents[FirstFilling(ents, name).value].text)
    ensures !Truthy(acc) && FirstFilling(ents, name).None? && (exists i :: 0 <= i < |ents| && ents[i].tag == name) ==>
              r == Some("")
    ensures !Truthy(acc) && (forall i :: 0 <= i < |ents| ==> ents[i].tag != name) ==> r == acc
    decreases |ents|
  {
    if |ents| == 0 then acc
    else
      var next := if ents[0].tag == name && !Truthy(acc) then Some(ents[0].text) else acc;
      var r := Fill(next, ents[1..], name);
      assert forall i :: 1 <= i < |ents| ==> ents[1..][i - 1] == ents[i];
      assert forall i :: 0 <= i < |ents| - 1 ==> ents[1..][i] == ents[i + 1];
      r
  }

  /** The canonical field for `label` from the recognised entities. */
  function Field(ents: seq<Entity>, l: Label): (r: Option<string>)
    ensures Truthy(r) <==> FirstFilling(ents, LabelName(l)).Some?
    ensures r.None? <==> forall i :: 0 <= i < |ents| ==> ents[i].tag != LabelName(l)
  {
    Fill(None, ents, LabelName(l))
  }

  /** The message for a document whose text is empty. */
  const NoTextError: string := "Neizdevās iegūt tekstu no dokumenta"

  /** Extract, recognise, and build the result. */
  function ProcessInvoice<M>(nlp: M, path: string, ocr: Ocr, recognise: (M, string) -> seq<Entity>): (r: Result<Invoice, string>)
    ensures ExtractText(path, ocr).Err? ==> r == Err(ExtractText(path, ocr).error)
    ensures ExtractText(path, ocr) == Ok("") ==> r == Err(NoTextError)
    // a readable, non-empty text always gives a result
    ensures ExtractText(path, ocr).Ok? && ExtractText(path, ocr).value != "" ==> r.Ok?
    ensures r.Ok? ==>
              var text := ExtractText(path, ocr).value;
              var ents := recognise(nlp, text);
              && ExtractText(path, ocr).Ok? && text != ""
              && r.value.entities == ents
              && r.value.rawText == RawText(text)
    ensures r.Ok? ==>
              var ents := recognise(nlp, ExtractText(path, ocr).value);
              && r.value.company == Field(ents, Company)
              && r.value.invoiceNumber == Field(ents, InvoiceNumber)
              && r.value.date == Field(ents, Date)
              && r.value.amount == Field(ents, Amount)
              && r.value.currency == Field(ents, Currency)
  {
    match ExtractText(path, ocr)
    case Err(e) => Err(e)
    case Ok(text) =>
      if text == "" then Err(NoTextError)
      else
        var ents := recognise(nlp, text);
        Ok(Invoice(Field(ents, Company), Field(ents, InvoiceNumber), Field(ents, Date),
                   Field(ents, Amount), Field(ents, Currency), RawText(text), ents))
  }

  // ---------------------------------------------------------------------
  // analyze_invoice
  // ---------------------------------------------------------------------

  const MissingModelError: string := "Sistēmas kļūda: Nevar atrast modeli mapē 'invoice_ner_model'"

  function LoadError(msg: string): string {
    "Sistēmas kļūda: Nevar ielādēt modeli: " + msg
  }

  function MissingFileError(path: string): string {
    "Fails '" + path + "' neeksistē"
  }

  /** The entry point: the model directory is checked and loaded first,
      then the input file is checked, then the invoice is processed.
      `files` is the set of existing paths and `load` the outcome of
      loading the model. */
  function AnalyzeInvoice<M>(path: string, files: set<string>, load: Result<M, string>, ocr: Ocr,
                             recognise: (M, string) -> seq<Entity>): (r: Result<Invoice, string>)
    // a missing model wins over every other failure
    ensures ModelPath !in files ==> r == Err(MissingModelError)
    ensures ModelPath in files && load.Err? ==> r == Err(LoadError(load.error))
    ensures ModelPath in files && load.Ok? && path !in files ==> r == Err(MissingFileError(path))
    // with the model loaded and the file present, the invoice is processed
    ensures ModelPath in files && load.Ok? && path in files ==> r == ProcessInvoice(load.value, path, ocr, recognise)
    // a result only for an existing file read with a loaded model
    ensures r.Ok? ==> ModelPath in files && load.Ok? && path in files && r == ProcessInvoice(load.value, path, ocr, recognise)
  {
    if ModelPath !in files then Err(MissingModelError)
    else match load
      case Err(e) => Err(LoadError(e))
      case Ok(nlp) =>
        if path !in files then Err(MissingFileError(path))
        else ProcessInvoice(nlp, path, ocr, recognise)
  }
}
