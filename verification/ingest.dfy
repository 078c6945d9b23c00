/** The incremental ingestion of `4.update_invoices_model.py`: every ledger
    row whose file is found, read and aligned to at least one span is
    trained on, its file is moved to the processed area and the row leaves
    the ledger; every other row stays pending and is counted as skipped.
    The file system is a set of existing paths, OCR is the `extract`
    oracle, `moveFails` says which moves raise, and the recogniser's
    weights are an abstract `W` changed only by `update`. */
module Ingest {
  import opened Wrappers
  import opened Text
  import opened Paths
  import opened Records
  import opened Aligner
  import opened Builder
  import opened Trainer

  const PdfDir: string := "invoices/newpdf"
  const ImgDir: string := "invoices/newimages"
  const ProcessedDir: string := "invoices/processed"

  /** The five entity label names, in the order the label loop adds them. */
  const LabelNames: seq<string> := ["COMPANY", "INVOICE_NUMBER", "DATE", "AMOUNT", "CURRENCY"]
  const ImageTypes: seq<string> := ["jpg", "jpeg", "png"]
  const IncrementalEpochs: nat := 5

  // ---------------------------------------------------------------------
  // get_full_file_path
  // ---------------------------------------------------------------------

  /** Where a ledger file name lives, by its declared type (compared in
      lower case): PDFs under the PDF intake root, JPG/JPEG/PNG images
      under the image root, and no location for any other type. */
  function GetFullFilePath(name: string, fileType: string): (r: Option<string>)
    ensures r.None? <==> Lower(fileType) != "pdf" && Lower(fileType) !in ImageTypes
    ensures r.Some? && |name| > 0 && name[0] == '/' ==> r.value == name
    ensures r.Some? && (|name| == 0 || name[0] != '/') ==>
              r.value == (if Lower(fileType) == "pdf" then PdfDir else ImgDir) + "/" + name
  {
    var ext := Lower(fileType);
    if ext == "pdf" then Some(Join(PdfDir, name))
    else if ext in ImageTypes then Some(Join(ImgDir, name))
    else None
  }

  /** The type is compared case-insensitively: "PDF", "Pdf" and "pdf"
      resolve alike. */
  lemma GetFullFilePathIgnoresCase(name: string, fileType: string)
    ensures GetFullFilePath(name, fileType) == GetFullFilePath(name, Lower(fileType))
  {
    assert Lower(Lower(fileType)) == Lower(fileType);
  }

  /** For relative names the two intake roots never share a path, so a PDF
      row and an image row can never resolve to the same file. */
  lemma IntakeRootsDisjoint(pdfName: string, imgName: string)
    requires |pdfName| == 0 || pdfName[0] != '/'
    requires |imgName| == 0 || imgName[0] != '/'
    ensures Join(PdfDir, pdfName) != Join(ImgDir, imgName)
  {
    var a := Join(PdfDir, pdfName);
    var b := Join(ImgDir, imgName);
    assert a[12] == 'p' && b[12] == 'i';
  }

  /** `get_full_file_path(row['file_path'], row['file_type'])` on a row: an
      empty type cell raises (NaN has no `lower`), and an empty path cell
      with a supported type raises in `os.path.join`; both end like a
      missing location, so they give `None` here. */
  function RowPath(row: Row): (r: Option<string>)
    ensures r.Some? ==> row.filePath.Some? && row.fileType.Some?
    ensures r.Some? ==> GetFullFilePath(row.filePath.value, row.fileType.value) == r
    // both cells present: exactly the location `get_full_file_path` gives
    ensures row.filePath.Some? && row.fileType.Some? ==> r == GetFullFilePath(row.filePath.value, row.fileType.value)
  {
    if row.fileType.None? || row.filePath.None? then None
    else GetFullFilePath(row.filePath.value, row.fileType.value)
  }

  // ---------------------------------------------------------------------
  // One iteration of the ledger loop
  // ---------------------------------------------------------------------

  /** The oracles of one run: OCR text of a path of a type, and whether
      moving a file from one path to another raises. */
  datatype Env = Env(extract: (string, string) -> string, moveFails: (string, string) -> bool)

  /** What the loop does with one row: leave it pending (counted skipped),
      commit it (train, move `src` to `dst`, drop the row), or train on it
      although the move raised (row stays, counted skipped). */
  datatype Outcome =
    | Pending
    | Commit(ex: Example, src: string, dst: string)
    | MoveFailed(ex: Example)

  function Decide(row: Row, files: set<string>, env: Env): (o: Outcome)
    // a row without a resolvable, existing file stays pending
    ensures RowPath(row).None? || RowPath(row).value !in files ==> o.Pending?
    // a trained row was aligned exactly as in the builder, with at least one span
    ensures !o.Pending? ==> RowPath(row).Some? && o.ex.text == env.extract(RowPath(row).value, row.fileType.value)
    ensures !o.Pending? ==> o.ex.text != "" && o.ex.spans != [] && AlignRow(o.ex.text, row) == Some(o.ex.spans)
    // a commit moves the row's existing file to PROCESSED_DIR/file_path
    ensures o.Commit? ==> o.src == RowPath(row).value && o.src in files
    ensures o.Commit? ==> o.dst == Join(ProcessedDir, row.filePath.value) && !env.moveFails(o.src, o.dst)
    ensures o.MoveFailed? ==> env.moveFails(RowPath(row).value, Join(ProcessedDir, row.filePath.value))
    // conversely, an existing file whose non-empty text aligns to at least
    // one span is trained on: committed, or kept after a failed move
    ensures RowPath(row).Some? && RowPath(row).value in files ==>
              var t := env.extract(RowPath(row).value, row.fileType.value);
              t != "" && AlignRow(t, row).Some? && AlignRow(t, row).value != [] ==>
                && !o.Pending?
                && (o.Commit? <==> !env.moveFails(RowPath(row).value, Join(ProcessedDir, row.filePath.value)))
  {
    match RowPath(row)
    case None => Pending
    case Some(path) =>
      if path !in files then Pending
      else
        var text := env.extract(path, row.fileType.value);
        if text == "" then Pending
        else match AlignRow(text, row)
          case None => Pending
          case Some(spans) =>
            if spans == [] then Pending
            else
              var dst := Join(ProcessedDir, row.filePath.value);
              if env.moveFails(path, dst) then MoveFailed(Example(text, spans))
              else Commit(Example(text, spans), path, dst)
  }

  /** The loop's state: the ledger being rebuilt (`metadata_df` after the
      drops), the files present, `TRAIN_DATA`, `skipped`, and a journal of
      the outcome of every row seen so far. */
  datatype Scan = Scan(ledger: seq<Row>, files: set<string>, trainData: seq<Example>, skipped: nat, outcomes: seq<Outcome>)

  /** One iteration of the ledger loop. */
  function Step(s: Scan, row: Row, env: Env): (t: Scan)
    ensures t.outcomes == s.outcomes + [Decide(row, s.files, env)]
    // the row either stays in the ledger, counted skipped, or it commits
    ensures |t.ledger| + CountCommits(t.outcomes) == |s.ledger| + CountCommits(s.outcomes) + 1
    ensures t.skipped - |t.ledger| == s.skipped - |s.ledger|
    ensures t.ledger[..|s.ledger|] == s.ledger && (|t.ledger| > |s.ledger| ==> t.ledger[|s.ledger|] == row)
    // an example is appended exactly when the row was trained on
    ensures |t.trainData| == |s.trainData| + (if Decide(row, s.files, env).Pending? then 0 else 1)
    ensures t.trainData[..|s.trainData|] == s.trainData
    // and that example is the row's own text and spans
    ensures !Decide(row, s.files, env).Pending? ==> t.trainData == s.trainData + [Decide(row, s.files, env).ex]
    // only a commit changes the files: its source leaves, its destination appears
    ensures t.files != s.files ==> Decide(row, s.files, env).Commit?
    ensures Decide(row, s.files, env).Commit? ==>
              var o := Decide(row, s.files, env);
              o.src in s.files && o.dst in t.files && (o.src != o.dst ==> o.src !in t.files)
  {
    var o := Decide(row, s.files, env);
    match o
    case Pending =>
      Scan(s.ledger + [row], s.files, s.trainData, s.skipped + 1, s.outcomes + [o])
    case Commit(ex, src, dst) =>
      Scan(s.ledger, s.files - {src} + {dst}, s.trainData + [ex], s.skipped, s.outcomes + [o])
    case MoveFailed(ex) =>
      Scan(s.ledger + [row], s.files, s.trainData + [ex], s.skipped + 1, s.outcomes + [o])
  }

  /** The loop over the ledger rows, in order, from the given file set. */
  function ScanRows(rows: seq<Row>, files: set<string>, env: Env): (s: Scan)
    ensures |s.outcomes| == |rows|
  {
    if |rows| == 0 then Scan([], files, [], 0, [])
    else Step(ScanRows(rows[..|rows| - 1], files, env), rows[|rows| - 1], env)
  }

  // ---------------------------------------------------------------------
  // Reference views of the journal
  // ---------------------------------------------------------------------

  /** The rows whose outcome left them in the ledger, in their order. */
  function Kept(rows: seq<Row>, outcomes: seq<Outcome>): seq<Row>
    requires |rows| == |outcomes|
  {
    if |rows| == 0 then []
    else Kept(rows[..|rows| - 1], outcomes[..|rows| - 1]) +
         (if outcomes[|rows| - 1].Commit? then [] else [rows[|rows| - 1]])
  }

  /** The examples of the trained outcomes, in journal order. */
  function TrainedOf(outcomes: seq<Outcome>): seq<Example> {
    if |outcomes| == 0 then []
    else
      var o := outcomes[|outcomes| - 1];
      TrainedOf(outcomes[..|outcomes| - 1]) + (if o.Pending? then [] else [o.ex])
  }

  function CountCommits(outcomes: seq<Outcome>): nat {
    if |outcomes| == 0 then 0
    else CountCommits(outcomes[..|outcomes| - 1]) + (if outcomes[|outcomes| - 1].Commit? then 1 else 0)
  }

  function CountMoveFailures(outcomes: seq<Outcome>): nat {
    if |outcomes| == 0 then 0
    else CountMoveFailures(outcomes[..|outcomes| - 1]) + (if outcomes[|outcomes| - 1].MoveFailed? then 1 else 0)
  }

  /** The file set after performing the commits' moves in order. */
  function ApplyMoves(files: set<string>, outcomes: seq<Outcome>): set<string> {
    if |outcomes| == 0 then files
    else
      var before := ApplyMoves(files, outcomes[..|outcomes| - 1]);
      var o := outcomes[|outcomes| - 1];
      if o.Commit? then before - {o.src} + {o.dst} else before
  }

  /** What the loop leaves behind, stated against the journal: one outcome
      per row; the ledger is exactly the rows not committed, in order; each
      of them was counted skipped and nothing else was; every row is either
      still in the ledger or committed (never both, never neither); the
      files moved exactly as the commits say; and `TRAIN_DATA` is the
      examples of the commits and failed moves, in row order. */
  lemma {:induction false} ScanInvariant(rows: seq<Row>, files: set<string>, env: Env)
    ensures var s := ScanRows(rows, files, env);
            && |s.outcomes| == |rows|
            && s.ledger == Kept(rows, s.outcomes)
            && s.skipped == |s.ledger|
            && |s.ledger| + CountCommits(s.outcomes) == |rows|
            && s.files == ApplyMoves(files, s.outcomes)
            && |s.trainData| == CountCommits(s.outcomes) + CountMoveFailures(s.outcomes)
            && s.trainData == TrainedOf(s.outcomes)
  {
    if |rows| > 0 {
      var prefix := rows[..|rows| - 1];
      ScanInvariant(prefix, files, env);
      var s := ScanRows(prefix, files, env);
      var t := ScanRows(rows, files, env);
      assert t == Step(s, rows[|rows| - 1], env);
      assert t.outcomes[..|rows| - 1] == s.outcomes;
    }
  }

  /** Each row's outcome was decided from that row. */
  lemma {:induction false} OutcomeOfRow(rows: seq<Row>, files: set<string>, env: Env, i: nat)
    requires i < |rows|
    ensures |ScanRows(rows, files, env).outcomes| == |rows|
    ensures var o := ScanRows(rows, files, env).outcomes[i];
            !o.Pending? ==> o.ex.spans != [] && AlignRow(o.ex.text, rows[i]) == Some(o.ex.spans)
    ensures var o := ScanRows(rows, files, env).outcomes[i];
            o.Commit? ==> RowPath(rows[i]) == Some(o.src) && o.dst == Join(ProcessedDir, rows[i].filePath.value)
  {
    var prefix := rows[..|rows| - 1];
    var s := ScanRows(prefix, files, env);
    var t := ScanRows(rows, files, env);
    assert t.outcomes == s.outcomes + [Decide(rows[|rows| - 1], s.files, env)];
    if i < |rows| - 1 {
      OutcomeOfRow(prefix, files, env, i);
      assert t.outcomes[i] == s.outcomes[i];
    }
  }

  /** When no move raises, every row is either trained on or skipped. */
  lemma NoMoveFailureAccounting(rows: seq<Row>, files: set<string>, env: Env)
    requires forall a, b :: !env.moveFails(a, b)
    ensures var s := ScanRows(rows, files, env);
            |s.trainData| + s.skipped == |rows|
  {
    ScanInvariant(rows, files, env);
    NoMoveFailures(rows, files, env);
  }

  lemma {:induction false} NoMoveFailures(rows: seq<Row>, files: set<string>, env: Env)
    requires forall a, b :: !env.moveFails(a, b)
    ensures CountMoveFailures(ScanRows(rows, files, env).outcomes) == 0
  {
    if |rows| > 0 {
      var prefix := rows[..|rows| - 1];
      NoMoveFailures(prefix, files, env);
      var s := ScanRows(prefix, files, env);
      var t := ScanRows(rows, files, env);
      assert t.outcomes[..|t.outcomes| - 1] == s.outcomes;
    }
  }

  /** A run that trained on nothing committed nothing: the ledger is the
      input and no file moved. */
  lemma {:induction false} NothingTrainedNothingMoved(rows: seq<Row>, files: set<string>, env: Env)
    ensures var s := ScanRows(rows, files, env);
            s.trainData == [] ==> s.ledger == rows && s.files == files
  {
    if |rows| > 0 {
      var prefix := rows[..|rows| - 1];
      NothingTrainedNothingMoved(prefix, files, env);
      var s := ScanRows(prefix, files, env);
      var t := ScanRows(rows, files, env);
      var row := rows[|rows| - 1];
      assert t == Step(s, row, env);
      if t.trainData == [] {
        assert Decide(row, s.files, env).Pending?;
        assert t.ledger == s.ledger + [row] && t.files == s.files;
        assert prefix + [row] == rows;
      }
    }
  }

  // ---------------------------------------------------------------------
  // The NER label guard
  // ---------------------------------------------------------------------

  predicate NoDuplicates(xs: seq<string>) {
    forall i, j :: 0 <= i < j < |xs| ==> xs[i] != xs[j]
  }

  /** `for label in names: if label not in ner.labels: ner.add_label(label)`. */
  function AddMissingLabels(labels: seq<string>, names: seq<string>): (r: seq<string>)
    // existing labels are kept, in order, and never re-added
    ensures |labels| <= |r| && r[..|labels|] == labels
    ensures forall i :: |labels| <= i < |r| ==> r[i] in names && r[i] !in labels
    // every name is present afterwards
    ensures forall n :: n in names ==> n in r
    ensures NoDuplicates(labels) ==> NoDuplicates(r)
    decreases |names|
  {
    if |names| == 0 then labels
    else
      var next := if names[0] in labels then labels else labels + [names[0]];
      var r := AddMissingLabels(next, names[1..]);
      assert forall n :: n in names ==> n == names[0] || n in names[1..];
      assert names[0] in next;
      assert forall k :: 0 <= k < |next| ==> r[k] == next[k];
      r
  }

  /** The loaded pipeline as far as the update touches it: pipe names, the
      NER labels, and the weights. */
  datatype Snapshot<W> = Snapshot(pipes: seq<string>, labels: seq<string>, weights: W)

  /** Adds an empty "ner" pipe when there is none, then the missing labels. */
  function PrepareNer<W>(m: Snapshot<W>): (r: Snapshot<W>)
    ensures "ner" in r.pipes && r.weights == m.weights
    ensures forall n :: n in LabelNames ==> n in r.labels
    ensures "ner" in m.pipes ==> r.pipes == m.pipes && |m.labels| <= |r.labels| && r.labels[..|m.labels|] == m.labels
  {
    if "ner" in m.pipes then m.(labels := AddMissingLabels(m.labels, LabelNames))
    else Snapshot(m.pipes + ["ner"], AddMissingLabels([], LabelNames), m.weights)
  }

  // ---------------------------------------------------------------------
  // update_model_with_new_invoices
  // ---------------------------------------------------------------------

  /** The persistent state a run reads and writes: the ledger CSV, the
      files present, and the saved model (`None` when none was saved). */
  datatype Store<W> = Store(ledger: seq<Row>, files: set<string>, model: Option<Snapshot<W>>)

  datatype Report = NoValidData(skipped: nat) | Updated(trained: nat, skipped: nat)

  /** The five update passes: each epoch shuffles `TRAIN_DATA` in place and
      updates once on the whole list (no mini-batches). */
  function IncrementalPasses(data: seq<Example>, shuffles: seq<seq<nat>>): (ps: seq<seq<Example>>)
    requires forall e :: 0 <= e < |shuffles| ==> IsPermutation(shuffles[e], |data|)
    ensures |ps| == |shuffles|
    // every pass sees each example exactly as often as TRAIN_DATA holds it
    ensures forall e :: 0 <= e < |ps| ==> multiset(ps[e]) == multiset(data)
  {
    EpochOrders(data, shuffles)
  }

  /** One run over the ledger CSV. Loading a missing model raises before
      anything changes. With no example the run stops before saving
      anything; otherwise it trains, saves the model, and writes back the
      ledger without the committed rows. */
  function UpdateModelWithNewInvoices<W>(store: Store<W>, env: Env, shuffles: seq<seq<nat>>,
                                         update: (W, seq<Example>) -> W): (r: Result<(Store<W>, Report), string>)
    requires |shuffles| == IncrementalEpochs
    requires forall e :: 0 <= e < |shuffles| ==>
               IsPermutation(shuffles[e], |ScanRows(store.ledger, store.files, env).trainData|)
    ensures r.Err? <==> store.model.None?
    // an empty batch changes nothing at all
    ensures r.Ok? && r.value.1.NoValidData? ==> r.value.0 == store
    ensures r.Ok? ==> (r.value.1.NoValidData? <==> ScanRows(store.ledger, store.files, env).trainData == [])
    // otherwise the ledger loses exactly the committed rows, and the saved
    // model knows every label
    ensures r.Ok? && r.value.1.Updated? ==>
              var s := ScanRows(store.ledger, store.files, env);
              r.value.0.ledger == Kept(store.ledger, s.outcomes) &&
              |r.value.0.ledger| + CountCommits(s.outcomes) == |store.ledger| &&
              r.value.0.files == ApplyMoves(store.files, s.outcomes) &&
              r.value.1.skipped == |r.value.0.ledger| &&
              r.value.0.model.Some? && forall n :: n in LabelNames ==> n in r.value.0.model.value.labels
    // the saved weights are the loaded ones after one update per pass
    ensures r.Ok? && r.value.1.Updated? ==>
              var data := ScanRows(store.ledger, store.files, env).trainData;
              r.value.0.model.value.weights == Fit(store.model.value.weights, IncrementalPasses(data, shuffles), update)
    // the saved pipeline is the loaded one after the label guard, and the
    // report counts the examples trained on
    ensures r.Ok? && r.value.1.Updated? ==>
              && r.value.0.model.value.pipes == PrepareNer(store.model.value).pipes
              && r.value.0.model.value.labels == PrepareNer(store.model.value).labels
              && r.value.1.trained == |ScanRows(store.ledger, store.files, env).trainData|
  {
    match store.model
    case None => Err("invoice_ner_model could not be loaded")
    case Some(saved) =>
      var nlp := PrepareNer(saved);
      var s := ScanRows(store.ledger, store.files, env);
      ScanInvariant(store.ledger, store.files, env);
      if s.trainData == [] then
        NothingTrainedNothingMoved(store.ledger, store.files, env);
        Ok((store, NoValidData(s.skipped)))
      else
        var passes := IncrementalPasses(s.trainData, shuffles);
        var trained := nlp.(weights := Fit(nlp.weights, passes, update));
        Ok((Store(s.ledger, s.files, Some(trained)), Updated(|s.trainData|, s.skipped)))
  }
}
