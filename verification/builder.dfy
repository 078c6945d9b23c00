/** The training-set builder of `2.learn_model.py` (`prepare_training_data`):
    for each ledger row, extract the text, align the known values, and keep
    the rows that produced spans, counting the ones that failed. */
module Builder {
  import opened Wrappers
  import opened Text
  import opened Records
  import opened Aligner

  /** A training example `(text, {"entities": spans})`. */
  datatype Example = Example(text: string, spans: seq<Span>)

  /** The text of a row's file. `extract(path, type)` is the OCR oracle,
      which already turns its own failures into "". An empty path or type
      cell (NaN) fails inside the extractor, so it also yields "". */
  function RowText(row: Row, extract: (string, string) -> string): string {
    if row.filePath.Some? && row.fileType.Some? then extract(row.filePath.value, row.fileType.value) else ""
  }

  /** What one iteration of the row loop does with a row: append an
      example, count it as skipped, or drop it without counting. */
  datatype Decision = Train(ex: Example) | Skip | Drop

  function Decide(row: Row, extract: (string, string) -> string): (d: Decision)
    // skipped exactly for an empty text or a raising alignment block
    ensures d.Skip? <==> RowText(row, extract) == "" || AlignRow(RowText(row, extract), row).None?
    // trained exactly when some span was found, on the row's own text
    ensures d.Train? ==> d.ex.text == RowText(row, extract) && d.ex.text != "" && d.ex.spans != []
    ensures d.Train? ==> AlignRow(d.ex.text, row) == Some(d.ex.spans)
    // dropped: text, no exception, but not one span
    ensures d.Drop? ==> RowText(row, extract) != "" && AlignRow(RowText(row, extract), row) == Some([])
  {
    var text := RowText(row, extract);
    if text == "" then Skip
    else match AlignRow(text, row)
      case None => Skip
      case Some(spans) => if spans == [] then Drop else Train(Example(text, spans))
  }

  /** `Decide` for a fixed extractor, as a function of the row alone. */
  function DecideWith(extract: (string, string) -> string): Row -> Decision {
    row => Decide(row, extract)
  }

  /** The decision for every row, in ledger order. */
  function Decisions(rows: seq<Row>, decide: Row -> Decision): (ds: seq<Decision>)
    ensures |ds| == |rows|
  {
    seq(|rows|, i requires 0 <= i < |rows| => decide(rows[i]))
  }

  /** Deciding two consecutive parts of the ledger decides their
      concatenation. */
  lemma DecisionsAppend(a: seq<Row>, b: seq<Row>, decide: Row -> Decision)
    ensures Decisions(a + b, decide) == Decisions(a, decide) + Decisions(b, decide)
  {
    var ds := Decisions(a + b, decide);
    forall i | 0 <= i < |a + b|
      ensures ds[i] == (Decisions(a, decide) + Decisions(b, decide))[i]
    {
      if i < |a| {
        assert (a + b)[i] == a[i];
      } else {
        assert (a + b)[i] == b[i - |a|];
      }
    }
  }

  /** The examples a run of decisions appends, in order. */
  function Examples(ds: seq<Decision>): seq<Example> {
    if |ds| == 0 then []
    else Examples(ds[..|ds| - 1]) + (if ds[|ds| - 1].Train? then [ds[|ds| - 1].ex] else [])
  }

  function Skips(ds: seq<Decision>): nat {
    if |ds| == 0 then 0 else Skips(ds[..|ds| - 1]) + (if ds[|ds| - 1].Skip? then 1 else 0)
  }

  function Drops(ds: seq<Decision>): nat {
    if |ds| == 0 then 0 else Drops(ds[..|ds| - 1]) + (if ds[|ds| - 1].Drop? then 1 else 0)
  }

  /** The examples the loop appends for `rows`, in row order. */
  function Trained(rows: seq<Row>, extract: (string, string) -> string): seq<Example> {
    Examples(Decisions(rows, DecideWith(extract)))
  }

  /** The value of `skipped_files` after the loop over `rows`. */
  function Skipped(rows: seq<Row>, extract: (string, string) -> string): nat {
    Skips(Decisions(rows, DecideWith(extract)))
  }

  /** Rows that had text and raised nothing but yielded no span. */
  function Dropped(rows: seq<Row>, extract: (string, string) -> string): nat {
    Drops(Decisions(rows, DecideWith(extract)))
  }

  /** The row loop, for a per-row decision that only trains on rows with
      text and spans: it collects the examples and counts the skips. */
  method RunRows(rows: seq<Row>, decide: Row -> Decision) returns (trainData: seq<Example>, skipped: nat)
    requires forall row :: decide(row).Train? ==> decide(row).ex.text != "" && decide(row).ex.spans != []
    ensures trainData == Examples(Decisions(rows, decide))
    ensures skipped == Skips(Decisions(rows, decide))
    ensures forall i :: 0 <= i < |trainData| ==> trainData[i].text != "" && trainData[i].spans != []
  {
    trainData := [];
    skipped := 0;
    var i := 0;
    while i < |rows|
      invariant 0 <= i <= |rows|
      invariant trainData == Examples(Decisions(rows[..i], decide))
      invariant skipped == Skips(Decisions(rows[..i], decide))
      invariant forall j :: 0 <= j < |trainData| ==> trainData[j].text != "" && trainData[j].spans != []
    {
      var d := decide(rows[i]);
      FoldStep(rows, i, decide);
      match d {
        case Train(ex) => trainData := trainData + [ex];
        case Skip => skipped := skipped + 1;
        case Drop =>
      }
      i := i + 1;
    }
    assert rows[..i] == rows;
  }

  /** `prepare_training_data`'s loop over the ledger, returning
      `TRAIN_DATA` and the skip counter. */
  method PrepareTrainingData(rows: seq<Row>, extract: (string, string) -> string)
    returns (trainData: seq<Example>, skipped: nat)
    ensures trainData == Trained(rows, extract)
    ensures skipped == Skipped(rows, extract)
    ensures |trainData| + skipped + Dropped(rows, extract) == |rows|
    ensures forall i :: 0 <= i < |trainData| ==> trainData[i].text != "" && trainData[i].spans != []
  {
    var decide := DecideWith(extract);
    assert forall row :: decide(row) == Decide(row, extract);
    trainData, skipped := RunRows(rows, decide);
    BuildAccounting(rows, extract);
  }

  /** One more row extends each fold by that row's decision. */
  lemma FoldStep(rows: seq<Row>, i: nat, decide: Row -> Decision)
    requires i < |rows|
    ensures var d := decide(rows[i]);
            && Examples(Decisions(rows[..i + 1], decide)) == Examples(Decisions(rows[..i], decide)) + (if d.Train? then [d.ex] else [])
            && Skips(Decisions(rows[..i + 1], decide)) == Skips(Decisions(rows[..i], decide)) + (if d.Skip? then 1 else 0)
            && Drops(Decisions(rows[..i + 1], decide)) == Drops(Decisions(rows[..i], decide)) + (if d.Drop? then 1 else 0)
  {
    var ds := Decisions(rows[..i + 1], decide);
    assert ds[..i] == Decisions(rows[..i], decide);
    assert ds[i] == decide(rows[i]);
  }

  /** The examples of two runs of decisions, one after the other, are the
      examples of the first run followed by those of the second. */
  lemma {:induction false} ExamplesAppend(xs: seq<Decision>, ys: seq<Decision>)
    ensures Examples(xs + ys) == Examples(xs) + Examples(ys)
    decreases |ys|
  {
    if |ys| == 0 {
      assert xs + ys == xs;
    } else {
      var zs := xs + ys;
      assert zs[..|zs| - 1] == xs + ys[..|ys| - 1];
      assert zs[|zs| - 1] == ys[|ys| - 1];
      ExamplesAppend(xs, ys[..|ys| - 1]);
    }
  }

  /** Building over two consecutive parts of the ledger gives the examples
      of the first part followed by those of the second: `TRAIN_DATA`
      keeps the input order. */
  lemma TrainedAppend(a: seq<Row>, b: seq<Row>, extract: (string, string) -> string)
    ensures Trained(a + b, extract) == Trained(a, extract) + Trained(b, extract)
  {
    var decide := DecideWith(extract);
    DecisionsAppend(a, b, decide);
    ExamplesAppend(Decisions(a, decide), Decisions(b, decide));
  }

  /** A one-row ledger has that row's decision. */
  lemma SingleDecision(row: Row, decide: Row -> Decision)
    ensures Decisions([row], decide) == [decide(row)]
  {
  }

  /** A fully filled row none of whose searched values occurs in its
      (non-empty) text is dropped. */
  lemma UnmatchedRowIsDropped(row: Row, extract: (string, string) -> string)
    requires row.company.Some? && row.invoiceNumber.Some? && row.date.Some?
    requires row.totalAmount.Number? && row.currency.Some?
    requires RowText(row, extract) != ""
    requires AbsentFrom(RowText(row, extract), row.company.value, 0)
    requires AbsentFrom(RowText(row, extract), row.invoiceNumber.value, 0)
    requires AbsentFrom(RowText(row, extract), row.date.value, 0)
    requires AbsentFrom(RowText(row, extract), AmountText(row.totalAmount).value, 0)
    ensures Decide(row, extract) == Drop
  {
    var text := RowText(row, extract);
    AlignEmpty(text, RowKnown(row));
    assert AlignRow(text, row) == Some([]);
  }

  /** A dropped row adds nothing to the examples or to the skip counter. */
  lemma DroppedSingle(row: Row, decide: Row -> Decision)
    requires decide(row) == Drop
    ensures Examples(Decisions([row], decide)) == []
    ensures Skips(Decisions([row], decide)) == 0
    ensures Drops(Decisions([row], decide)) == 1
  {
    SingleDecision(row, decide);
    assert [Drop][..0] == [];
  }

  /** Rows with text but no span are neither trained on nor skipped, so the
      counter can undercount: a fully filled row none of whose values occurs
      in its (non-empty) text leaves both at zero. */
  lemma DroppedRowIsNotCounted(row: Row, extract: (string, string) -> string)
    requires row.company.Some? && row.invoiceNumber.Some? && row.date.Some?
    requires row.totalAmount.Number? && row.currency.Some?
    requires RowText(row, extract) != ""
    requires AbsentFrom(RowText(row, extract), row.company.value, 0)
    requires AbsentFrom(RowText(row, extract), row.invoiceNumber.value, 0)
    requires AbsentFrom(RowText(row, extract), row.date.value, 0)
    requires AbsentFrom(RowText(row, extract), AmountText(row.totalAmount).value, 0)
    ensures Trained([row], extract) == []
    ensures Skipped([row], extract) == 0
    ensures Dropped([row], extract) == 1
  {
    UnmatchedRowIsDropped(row, extract);
    DroppedSingle(row, DecideWith(extract));
  }

  /** Each decision is exactly one of train, skip and drop. */
  lemma {:induction false} DecisionAccounting(ds: seq<Decision>)
    ensures |Examples(ds)| + Skips(ds) + Drops(ds) == |ds|
  {
    if |ds| > 0 {
      DecisionAccounting(ds[..|ds| - 1]);
    }
  }

  /** Every row is trained on, skipped or dropped, so the examples and the
      skip counter together never exceed the row count. */
  lemma BuildAccounting(rows: seq<Row>, extract: (string, string) -> string)
    ensures |Trained(rows, extract)| + Skipped(rows, extract) + Dropped(rows, extract) == |rows|
  {
    DecisionAccounting(Decisions(rows, DecideWith(extract)));
  }
}
