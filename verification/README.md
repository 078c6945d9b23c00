# Invoice weak-labelling and incremental training, modelled in Dafny

This project models the core of a small invoice-recognition system. Each
ledger row has a file and its known field values: company, invoice number,
date, total and currency. The system OCRs the file, locates each known value
in the text with `str.find`, and turns the hits into labelled character
spans (COMPANY, INVOICE_NUMBER, DATE, AMOUNT, CURRENCY). These spans train a
named-entity recogniser. Four scripts are modelled:

- `2.learn_model.py`. It builds the training set from the ledger (the
  alignment block and the skip counter). It then trains with a train/test
  split, 20 epochs of shuffled batches of 8, and exact-match evaluation.
- `4.update_invoices_model.py`. It ingests new invoices incrementally. A row
  whose file yields at least one span is trained on, its file moves to
  `invoices/processed`, and the row leaves the ledger. If that move raises,
  the example is still trained on, but the row stays in the ledger and is
  counted as skipped. Every other row stays pending and is counted as
  skipped.
- `3.invoices_processor.py`. It does inference: it dispatches on the
  extension, builds the result with first-match-wins fields, truncates the
  raw text, and reports failures in a fixed order.
- `1.generate_invoices.py`. Only its deterministic parts are modelled: the
  language table, the invoice-number and date layouts, the printed total
  line, and the 600 file names.

Modules and files:

| module | file | contents |
|---|---|---|
| `Wrappers` | `wrappers.dfy` | `Option` and `Result` |
| `Text` | `text.dfy` | `str.find`, digit strings, the `:.2f` layout, ASCII `lower`, and `strip` over `str.isspace()` whitespace |
| `Paths` | `paths.dfy` | POSIX `os.path.join` and `os.path.splitext` |
| `Records` | `records.dfy` | a ledger row as pandas reads it (empty cells are NaN) |
| `Aligner` | `aligner.dfy` | the alignment block |
| `Builder` | `builder.dfy` | `prepare_training_data` |
| `Trainer` | `trainer.dfy` | `train_model` |
| `Ingest` | `ingest.dfy` | `get_full_file_path` and `update_model_with_new_invoices` |
| `Inference` | `inference.dfy` | `extract_text_from_file`, `process_invoice`, `setup_environment` and `analyze_invoice` |
| `Generator` | `generator.dfy` | the deterministic part of `1.generate_invoices.py` |

The world outside the code is passed in as parameters:

- OCR is the oracle `extract(path, type)`, or the `Ocr` record in inference.
- The recogniser's weights are an abstract type `M` or `W`, changed only by
  an `update` function and read only by a `predict`/`recognise` function.
- Random permutations and draws are parameters, constrained to the ranges
  `random` draws from.
- The file system is a set of existing paths.
- A move that raises is the oracle `moveFails(src, dst)`.

`str.find` returns `None` where Python returns -1. Amounts are exact
integer cents.

Three behaviours of the code deserve a note, each exhibited by a lemma:

- The CURRENCY search starts at the amount's *start*, not its end, in both
  scripts. A CURRENCY span can therefore lie inside the AMOUNT span
  (`Aligner.CurrencyInsideAmount`).
- `prepare_training_data` neither trains on nor counts a row that has text
  but yields no span, so `len(TRAIN_DATA) + skipped` can fall short of
  `len(df)` (`Builder.DroppedRowIsNotCounted`). The ingestion script does
  count such a row, so `Ingest.NoMoveFailureAccounting` holds exactly.
- An empty known value is found at offset 0 and gives the zero-width span
  `[0, 0)` (`Aligner.EmptyValueGivesEmptySpan`).

## Model

| member | source | states |
|---|---|---|
| Text.FindFrom | 2.learn_model.py:134 | `str.find(pat, start)`: a result is an occurrence at or after `start` with none between `start` and it; no result means no occurrence at or after `start` |
| Text.FindFromIsFirst | 2.learn_model.py:113 | an occurrence at `k` with none before it is exactly what `find` returns |
| Text.ParseFormatCents | 2.learn_model.py:128 | the two-decimal layout of an amount in cents parses back to the same cents, so distinct amounts print differently |
| Text.ParseNatToString | 1.generate_invoices.py:49 | `str(n)` parses back to n |
| Text.NatToStringLength | 1.generate_invoices.py:49 | `str(n)` has k+1 digits exactly when 10^k <= n < 10^(k+1) |
| Text.Strip | 3.invoices_processor.py:73 | `strip()` removes only whitespace, and only from the two ends: the result occurs in the input with nothing but whitespace before and after it, has no whitespace at either end, and is empty exactly when the input is all whitespace; whitespace is the set `str.isspace()` accepts |
| Records.AmountText | 2.learn_model.py:128 | `f"{total_amount:.2f}"` raises only on a non-numeric cell; a numeric cell prints as text that parses back to its cents; a NaN cell prints as "nan", which the alignment block then searches for like any value (it also matches inside a word such as "Financial") |
| Aligner.AlignMoney | 2.learn_model.py:128-136 | there are no money spans exactly when the amount does not occur; the CURRENCY span exists exactly when the currency occurs at or after the amount's start |
| Aligner.AlignMoneyAt | 2.learn_model.py:129-136 | when the amount is first found at p and the currency, searching from p, at q, the money spans are exactly [p, p+len) AMOUNT and [q, q+len) CURRENCY |
| Aligner.Align | 2.learn_model.py:110-136 | at most five spans with labels in the fixed order, each label at most once; every span covers its label's value (`text[s:e] == value`, `e == s + len(value)`); every non-currency span is the first occurrence in the whole text; CURRENCY follows AMOUNT and is the first occurrence at or after the amount's start |
| Aligner.AlignFindsOccurring | 2.learn_model.py:113-131 | a label other than CURRENCY gets a span exactly when its value occurs in the text |
| Aligner.AlignFindsCurrency | 2.learn_model.py:130-136 | CURRENCY gets a span exactly when AMOUNT did and the currency occurs at or after the amount's start |
| Aligner.AlignEmpty | 2.learn_model.py:110-138 | no span at all exactly when none of company, invoice number, date and amount occurs |
| Aligner.AlignSpanFor | 2.learn_model.py:110-136 | the span for each label comes from that label's own search |
| Aligner.EmptyValueGivesEmptySpan | 2.learn_model.py:113-115 | an empty company value gives the span (0, 0, COMPANY) |
| Aligner.CurrencyInsideAmount | 2.learn_model.py:134 | in "12.50" with currency "5", CURRENCY [3, 4) lies inside AMOUNT [0, 5), because the search starts at the amount's start |
| Aligner.AlignRow | 2.learn_model.py:103-143 | a missing company, number or date, or a text amount, always raises, and the block raises only for such a row or a missing currency once the amount was found; with every searched cell present, a row is aligned with its own values, and so is a row whose currency is missing when its amount does not occur (the currency is then never searched) |
| Builder.Decide | 2.learn_model.py:104-143 | a row is skipped exactly for empty text or a raising block; it is trained on with its own text and non-empty spans; it is dropped when it has text and raises nothing but yields no span |
| Builder.RunRows | 2.learn_model.py:102-143 | the loop appends the examples and counts the skips of the row-by-row decisions, in row order; when the decision trains only on rows with text and spans, so does every collected example |
| Builder.PrepareTrainingData | 2.learn_model.py:98-145 | `TRAIN_DATA` and `skipped_files` are the examples and the skip count of the rows' decisions; every example has non-empty text and spans; examples + skipped + dropped == rows |
| Builder.TrainedAppend | 2.learn_model.py:102-139 | TRAIN_DATA keeps input order: the examples of a concatenation are the examples of its parts, concatenated |
| Builder.BuildAccounting | 2.learn_model.py:99-145 | every row is trained on, skipped or dropped, so `len(TRAIN_DATA) + skipped <= len(df)` |
| Builder.UnmatchedRowIsDropped | 2.learn_model.py:110-138 | a fully filled row none of whose searched values occurs in its non-empty text raises nothing and yields no span, so it is dropped |
| Builder.DroppedRowIsNotCounted | 2.learn_model.py:138-143 | such a row is neither trained on nor counted as skipped: the examples stay empty and `skipped_files` stays 0 |
| Trainer.TrainTestSplit | 2.learn_model.py:155 | fails exactly for fewer than two examples; holds out ceil(n/5) items; held-out and training parts together are the permuted data |
| Trainer.SplitCovers | 2.learn_model.py:155 | every example ends up in the training part or the held-out part |
| Trainer.PermuteMultiset | 2.learn_model.py:162 | a shuffle reorders without losing or duplicating an example: the multiset is unchanged |
| Trainer.Batches | 2.learn_model.py:166-167 | batches concatenate back to the training list; each holds 1 to 8 items, all but the last exactly 8; there are ceil(n/8) of them |
| Trainer.EpochOrders | 2.learn_model.py:161-162 | each epoch shuffles in place the order the previous epoch left, so every epoch's order holds each example exactly as often as the training list |
| Trainer.EpochBatches | 2.learn_model.py:161-176 | 20 epochs of in-place shuffles give 20 * ceil(n/8) updates; what each epoch's batches hold is `Trainer.EpochIsShuffle` |
| Trainer.EpochIsShuffle | 2.learn_model.py:161-176 | the batches of epoch e are the ceil(n/8) consecutive batches from index e * ceil(n/8); they slice that epoch's order and together hold every training example exactly as often as the training list |
| Trainer.Matches | 2.learn_model.py:187-190 | the intersection with the true span set is at most the size of that set, and equal to it when the prediction is the truth |
| Trainer.Evaluate | 2.learn_model.py:182-191 | the loop's `correct` and `total` are the per-example sums, and `correct <= total` |
| Trainer.PerfectPredictionScoresAll | 2.learn_model.py:185-191 | a model that predicts the aligned spans scores `correct == total` |
| Trainer.Accuracy | 2.learn_model.py:193 | 0 when nothing was held out, within [0, 1] when `correct <= total`, and 1 for a perfect score |
| Trainer.FitAppend | 2.learn_model.py:161-176 | updating on one list of batches and then on another is updating on their concatenation, so the epochs apply in sequence |
| Trainer.TrainModel | 2.learn_model.py:152-196 | fails exactly for fewer than two examples; otherwise makes 20 * ceil(train/8) updates, the returned model is the initial one updated once per batch of the 20 shuffled epochs of the training part, and `correct`/`total` are that model's scores on the held-out part, with `correct <= total` |
| Paths.Join | 4.update_invoices_model.py:63 | `os.path.join(a, b)` is b for an absolute b and otherwise ends with b |
| Paths.Extension | 3.invoices_processor.py:59 | `splitext` gives "" or a suffix that starts with its only dot and holds no separator |
| Paths.ExtensionOfDotted | 3.invoices_processor.py:59 | the extension of `stem.e` is `.e` |
| Ingest.GetFullFilePath | 4.update_invoices_model.py:60-67 | no location exactly for types other than pdf/jpg/jpeg/png (in any case); a relative name is placed under the PDF root or the image root |
| Ingest.GetFullFilePathIgnoresCase | 4.update_invoices_model.py:61 | the type is compared in lower case |
| Ingest.IntakeRootsDisjoint | 4.update_invoices_model.py:20-21 | no relative PDF path equals a relative image path |
| Ingest.RowPath | 4.update_invoices_model.py:88 | a row with both cells present is located exactly where `get_full_file_path` says; a location exists only for such a row |
| Ingest.Decide | 4.update_invoices_model.py:87-132 | a row without a located, existing file stays pending; a row is trained on exactly when its existing file has non-empty text that aligns, as in the builder, to at least one span; a trained row commits exactly when the move to `processed/file_path` does not raise |
| Ingest.Step | 4.update_invoices_model.py:86-132 | each row adds one journal entry and either stays in the ledger, counted skipped, or commits; earlier ledger rows and examples are kept; an example is appended exactly when the row is trained on, and it is that row's text and spans; only a commit changes the files, moving its source to its destination |
| Ingest.ScanInvariant | 4.update_invoices_model.py:86-132 | after the loop the ledger is exactly the non-committed rows in order; `skipped` equals the ledger length; ledger + commits == rows; the files moved as the commits say; TRAIN_DATA is the examples of the commits and failed moves, in row order, one per such row |
| Ingest.OutcomeOfRow | 4.update_invoices_model.py:100-126 | each row's outcome comes from aligning that row; a committed row's file moves from its located path to `processed/file_path` |
| Ingest.NoMoveFailureAccounting | 4.update_invoices_model.py:86-132 | with no failing move, `len(TRAIN_DATA) + skipped == len(df)` |
| Ingest.NothingTrainedNothingMoved | 4.update_invoices_model.py:122-136 | an empty TRAIN_DATA means no file moved and the ledger is the input |
| Ingest.AddMissingLabels | 4.update_invoices_model.py:78-80 | existing labels are kept in order and never re-added; every name is present afterwards; no duplicates arise |
| Ingest.PrepareNer | 4.update_invoices_model.py:73-80 | an "ner" pipe exists afterwards, holding all five labels, and an existing pipe keeps its labels |
| Ingest.IncrementalPasses | 4.update_invoices_model.py:140-144 | one whole-list update per epoch, five in all; each pass holds every example of TRAIN_DATA exactly as often as TRAIN_DATA does |
| Ingest.UpdateModelWithNewInvoices | 4.update_invoices_model.py:69-153 | a missing model raises; an empty TRAIN_DATA returns with ledger, files and model unchanged; otherwise the saved ledger loses exactly the committed rows, `skipped` equals its length, the saved model is the loaded one after the label guard (same pipes and labels as `PrepareNer` gives, so all five labels present) holding the loaded weights after one update per pass over the shuffled TRAIN_DATA, and the report's count is `len(TRAIN_DATA)` |
| Inference.KindOf | 3.invoices_processor.py:61-85 | `.pdf` selects the PDF reader, `.jpg`/`.jpeg`/`.png` the image reader, anything else neither |
| Inference.ExtractPdf | 3.invoices_processor.py:61-73 | the PDF branch succeeds exactly when the pages convert, and a failure is wrapped with the path; the text is the joined page texts with only surrounding whitespace removed: it occurs in them with nothing but whitespace before and after it, has none at either end, and is empty exactly when the joined pages are all whitespace |
| Inference.ExtractImage | 3.invoices_processor.py:75-82 | an undecodable image fails with "Nevar nolasīt attēlu no" and the path; the branch succeeds exactly when the image decodes and OCR succeeds, every failure wrapped with the path; the text is the OCR output with only surrounding whitespace removed: it occurs in it with nothing but whitespace before and after it, is trimmed, and is empty exactly when the OCR output is all whitespace |
| Inference.ExtractText | 3.invoices_processor.py:55-88 | a `.pdf` file is read by the PDF branch and `.jpg`/`.jpeg`/`.png` by the image branch, after lower-casing the extension; any other extension fails with the format message; text carries no surrounding whitespace; every failure is wrapped with the path |
| Inference.BlankPagesGiveEmptyText | 3.invoices_processor.py:64-73 | a PDF whose pages read as whitespace yields empty text |
| Inference.UpperCaseExtensionIsPdf | 3.invoices_processor.py:59-61 | "name.PDF" is read as a PDF |
| Inference.TextFileIsRefused | 3.invoices_processor.py:84-88 | "name.txt" fails with the format message naming ".txt" |
| Inference.RawText | 3.invoices_processor.py:109 | the text itself when at most 500 characters, otherwise its first 500 followed by "..."; never longer than 503 |
| Inference.FirstFilling | 3.invoices_processor.py:114-132 | the index of the first entity with that label and non-empty text |
| Inference.Fill | 3.invoices_processor.py:123-132 | folding over the entities, a field ends as the first non-empty text under its label, as "" if that label only had empty texts, and untouched if the label never occurs |
| Inference.Field | 3.invoices_processor.py:103-132 | a field is truthy exactly when some entity with that label has non-empty text, and None exactly when no entity has that label |
| Inference.ProcessInvoice | 3.invoices_processor.py:90-137 | an extraction failure becomes its error; empty text gives the no-text error; a readable non-empty text always gives a result, listing every recognised entity in order, the truncated text, and the five fields |
| Inference.AnalyzeInvoice | 3.invoices_processor.py:143-160 | through `setup_environment`, a missing model directory is reported first, even when the file is also missing; then a load failure, then a missing file; with the model loaded and the file present, the result is exactly that of processing the invoice |
| Generator.ParseLanguage | 1.generate_invoices.py:29-46 | only "lv", "en" and "ru" are languages, each giving back its own code |
| Generator.PhrasesOf | 1.generate_invoices.py:29-46 | each language has two currency spellings, none of which starts like an amount or a space, and a total label without digits |
| Generator.PhrasesShaped | 1.generate_invoices.py:29-46 | every currency spelling of a language is shaped so that it cannot extend an amount, and the total label has no digits |
| Generator.InvoiceNumberRoundTrip | 1.generate_invoices.py:49 | `INV-a-b` with a in 1000..9999 and b in 100..999 has 12 characters and parses back to (a, b) |
| Generator.FormatDateRoundTrip | 1.generate_invoices.py:50 | a `DD.MM.YYYY` date parses back to the same day, month and year |
| Generator.GenerateInvoiceData | 1.generate_invoices.py:27-76 | fails exactly for an unknown language; the record carries the requested language with its phrases and the drawn currency spelling; the number and the date read back to the drawn series numbers and date; company, total and items are the drawn ones; 1 to 10 items of quantity 1 to 10 |
| Generator.TotalLineSearch | 1.generate_invoices.py:135 | on `total_text: amount currency` the amount is first found right after the label, and the currency search from the amount's start finds the currency just after the space |
| Generator.GeneratedTotalLineSearch | 1.generate_invoices.py:104 | every generated invoice's total line has that layout |
| Generator.EntriesDistinct | 1.generate_invoices.py:144-171 | the 600 generated file paths are pairwise distinct |
| Generator.EntryTypeMatchesExtension | 1.generate_invoices.py:147-170 | each row's `file_type` is its path's extension |
| Generator.FileEntries | 1.generate_invoices.py:144-171 | the three loops produce 600 entries: pdf 0..199, jpg 0..199, png 200..399; they are pairwise distinct and typed by extension |
| Generator.GeneratedRowsAlign | 1.generate_invoices.py:65-76 | a generated ledger row never takes the exception path of the alignment block |
| Generator.GeneratedFilesAreReadable | 1.generate_invoices.py:147-170 | every generated file has an extension the inference reader accepts, of the matching kind |

## Left out

- OCR, rasterising and image preprocessing (pytesseract, pdf2image, cv2). These are foreign calls. They are the `extract` oracle, or the `Ocr` record whose page texts, image decodability and image text are given.
- spaCy itself. `blank`, `add_pipe`, `update`, `begin_training`/`resume_training`, prediction, `to_disk` and `load` are an abstract model value with `update` and `recognise` functions. Dropout and losses are not modelled.
- Randomness (`train_test_split`, `random.shuffle`, `random.choice`/`randint`/`uniform`, Faker, the clock). These are parameters: permutations checked by `IsPermutation`, and a `Draw` constrained to the drawn ranges.
- Floating point. Amounts are exact cents. `Trainer.Accuracy` is a real number, and its `:.2%` rendering is not modelled. `ceil(0.2 * n)` is computed exactly as `(n + 4) / 5`.
- Generator.GenerateInvoiceData: item totals (`quantity * price`) are float products and are not stored.
- Windows paths. The scripts target Windows; `os.path` is modelled with POSIX semantics, and the Tesseract and Poppler paths are left out.
- Text.Lower: only ASCII letters are lower-cased. This is exact for every comparison the scripts make, against "pdf", "jpg", "jpeg", "png" and their dotted forms. It is not exact for the unsupported-format message, which quotes the lower-cased extension: an extension with non-ASCII capitals (".ТХТ") is quoted as written, where Python would lower-case it.
- Real file-system effects. `shutil.move`, `os.path.exists` and `os.makedirs` act on a set of existing paths. A move either happens whole or raises (`moveFails`). A move onto an existing destination is not modelled separately.
- CSV reading and writing. The ledger is a sequence of rows, and a NaN cell is `None`. Columns the modelled code never reads (`items`, `language`, the phrase columns) are not part of `Records.Row`.
- Printing, progress bars, argparse and the `__main__` blocks. Nothing is printed, so the messages only matter where they are returned (inference errors).
- Ingest.UpdateModelWithNewInvoices: a model that cannot be loaded gives `Err` with a fixed message, standing for the `OSError` that ends the script.
- Crash atomicity between moving files, saving the model and writing the CSV. The model applies a run's effects all at once.
- Recogniser failures inside `process_invoice`. These are caught into `{"error": ...}`. The model's `recognise` is total, so that path does not arise.
- Generator.GeneratedTotalLineSearch: states where the two searches land on the total line alone. `Aligner.AlignMoneyAt` then gives the spans. The earlier lines of a whole rendered invoice (company, number, date, items) are not modelled, and any earlier text that contains the amount string is found first: an item price "112.50" for a total of 12.50, or the date "05.11.2024" for a total of 11.20.
- PDF and image rendering (reportlab, PIL): the drawing itself is left out; only the total line's text is modelled.
