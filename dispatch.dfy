/** The batch loop of the label printer: load the sheet, then for each row in
    order normalise it, fill the template, send the label and pause; a row
    whose template fill fails is reported and skipped; a completion notice
    ends the run. The loop's effects are recorded as a trace of events. */
module Dispatch {
  import opened Wrappers
  import opened Rows
  import opened Templates
  import opened Label

  /** Why loading the spreadsheet failed. */
  datatype LoadError = FileNotFound | ReadError

  /** What loading the spreadsheet produced: its rows in order, or a failure. */
  datatype Sheet = Loaded(rows: seq<Row>) | LoadFailed(error: LoadError)

  /** The observable effects of a run. Rows are numbered from 1, as the
      script's progress messages number them. */
  datatype Event =
    | LoadAborted(error: LoadError)            // loading failed, the run returns
    | Entry(number: nat)                       // a row starts being processed
    | Sent(code: string)                       // one label handed to the sender
    | Acknowledged(number: nat)                // the sender reported a status
    | Pause                                    // the one-second pause after a label
    | MissingField(number: nat, name: string)  // the fill raised `KeyError(name)`
    | Done                                     // the completion notice

  /** The events of row number `number`. The pause belongs to the success
      path only: it follows the send inside the same error handler, so a
      failed fill skips both. */
  function RowEvents(number: nat, row: Row, t: Template): seq<Event> {
    StepEvents(number, Render(t, Normalised(row)))
  }

  /** The events of row number `number` once its fill has come to `filled`. */
  function StepEvents(number: nat, filled: Result<string, RenderError>): seq<Event> {
    [Entry(number)] +
    match filled
    case Ok(code) => [Sent(code), Pause]
    case Err(MissingKey(n)) => [MissingField(number, n)]
  }

  /** The events of processing `rows` in order. */
  function RowsEvents(rows: seq<Row>, t: Template): seq<Event>
    decreases |rows|
  {
    if rows == [] then []
    else RowsEvents(rows[..|rows| - 1], t) + RowEvents(|rows|, rows[|rows| - 1], t)
  }

  /** The events of a whole run. */
  function RunEvents(sheet: Sheet, t: Template): seq<Event> {
    match sheet
    case LoadFailed(e) => [LoadAborted(e)]
    case Loaded(rows) => RowsEvents(rows, t) + [Done]
  }

  /** The sender. Connecting, writing, draining and closing are not modelled;
      every failure among them is caught inside the sender, which therefore
      never raises and returns no status. */
  method SendCode(code: string) returns (effect: Event, status: Option<string>)
    ensures effect == Sent(code)
    ensures status == None
  {
    effect := Sent(code);
    status := None;
  }

  /** One pass of the loop body: announce the row, normalise it, fill the
      template, and on success send the label and pause. */
  method ProcessRow(number: nat, row: Row, template: Template) returns (events: seq<Event>)
    ensures events == RowEvents(number, row, template)
  {
    events := [Entry(number)];
    var datos := NormaliseRow(row);
    var rendered := Render(template, datos);
    match rendered {
      case Ok(code) =>
        var effect, status := SendCode(code);
        events := events + [effect];
        if status.Some? {
          events := events + [Acknowledged(number)];
        }
        events := events + [Pause];
      case Err(MissingKey(name)) =>
        events := events + [MissingField(number, name)];
    }
  }

  /** The printing run over a loaded (or failed) sheet. */
  method PrintFromSheet(sheet: Sheet, template: Template) returns (trace: seq<Event>)
    ensures trace == RunEvents(sheet, template)
  {
    if sheet.LoadFailed? {
      trace := [LoadAborted(sheet.error)];
      return;
    }
    var rows := sheet.rows;
    trace := [];
    for i := 0 to |rows|
      invariant trace == RowsEvents(rows[..i], template)
    {
      assert rows[..i + 1][..i] == rows[..i];
      var events := ProcessRow(i + 1, rows[i], template);
      trace := trace + events;
    }
    assert rows[..|rows|] == rows;
    trace := trace + [Done];
  }

  // ---------------------------------------------------------------------
  // Views of a trace

  /** The row numbers of the `Entry` events, in order. */
  function EntryNumbers(trace: seq<Event>): seq<nat> {
    if trace == [] then []
    else if trace[0].Entry? then [trace[0].number] + EntryNumbers(trace[1..])
    else EntryNumbers(trace[1..])
  }

  /** The per-row outcomes, in order: each `Sent` or `MissingField` event. */
  function Outcomes(trace: seq<Event>): seq<Event> {
    if trace == [] then []
    else if trace[0].Sent? || trace[0].MissingField? then [trace[0]] + Outcomes(trace[1..])
    else Outcomes(trace[1..])
  }

  /** The labels sent, in order. */
  function SentCodes(trace: seq<Event>): seq<string> {
    if trace == [] then []
    else if trace[0].Sent? then [trace[0].code] + SentCodes(trace[1..])
    else SentCodes(trace[1..])
  }

  lemma ViewsAppend(a: seq<Event>, b: seq<Event>)
    ensures EntryNumbers(a + b) == EntryNumbers(a) + EntryNumbers(b)
    ensures Outcomes(a + b) == Outcomes(a) + Outcomes(b)
    ensures SentCodes(a + b) == SentCodes(a) + SentCodes(b)
  {
    EntriesAppend(a, b);
    OutcomesAppend(a, b);
    SentAppend(a, b);
  }

  lemma {:induction false} EntriesAppend(a: seq<Event>, b: seq<Event>)
    ensures EntryNumbers(a + b) == EntryNumbers(a) + EntryNumbers(b)
  {
    if a == [] {
      assert a + b == b;
    } else {
      assert (a + b)[1..] == a[1..] + b;
      EntriesAppend(a[1..], b);
    }
  }

  lemma {:induction false} OutcomesAppend(a: seq<Event>, b: seq<Event>)
    ensures Outcomes(a + b) == Outcomes(a) + Outcomes(b)
  {
    if a == [] {
      assert a + b == b;
    } else {
      assert (a + b)[1..] == a[1..] + b;
      OutcomesAppend(a[1..], b);
    }
  }

  lemma {:induction false} SentAppend(a: seq<Event>, b: seq<Event>)
    ensures SentCodes(a + b) == SentCodes(a) + SentCodes(b)
  {
    if a == [] {
      assert a + b == b;
    } else {
      assert (a + b)[1..] == a[1..] + b;
      SentAppend(a[1..], b);
    }
  }

  /** What a row comes to: the label sent for it, or the field it missed. */
  function Outcome(number: nat, row: Row, t: Template): Event {
    OutcomeOf(number, Render(t, Normalised(row)))
  }

  function OutcomeOf(number: nat, filled: Result<string, RenderError>): Event {
    match filled
    case Ok(code) => Sent(code)
    case Err(e) => MissingField(number, e.name)
  }

  /** What each view sees of one row's events. */
  lemma StepViews(number: nat, filled: Result<string, RenderError>)
    ensures EntryNumbers(StepEvents(number, filled)) == [number]
    ensures Outcomes(StepEvents(number, filled)) == [OutcomeOf(number, filled)]
    ensures SentCodes(StepEvents(number, filled)) == if filled.Ok? then [filled.value] else []
  {
    var events := StepEvents(number, filled);
    var tail := events[1..];
    assert events == [Entry(number)] + tail;
    ViewsAppend([Entry(number)], tail);
    match filled
    case Ok(code) =>
      assert tail == [Sent(code)] + [Pause];
      ViewsAppend([Sent(code)], [Pause]);
    case Err(MissingKey(n)) =>
      assert tail == [MissingField(number, n)];
  }

  // ---------------------------------------------------------------------
  // Properties of a run

  /** Every row is processed exactly once, in row order: the entries are
      numbered 1, 2, ..., n. */
  lemma {:induction false} RowsProcessedInOrder(rows: seq<Row>, t: Template)
    ensures var entries := EntryNumbers(RunEvents(Loaded(rows), t));
      |entries| == |rows| && forall i | 0 <= i < |rows| :: entries[i] == i + 1
  {
    RowsEntries(rows, t);
    EntriesAppend(RowsEvents(rows, t), [Done]);
  }

  lemma {:induction false} RowsEntries(rows: seq<Row>, t: Template)
    ensures var entries := EntryNumbers(RowsEvents(rows, t));
      |entries| == |rows| && forall i | 0 <= i < |rows| :: entries[i] == i + 1
    decreases |rows|
  {
    if rows != [] {
      var k := |rows|;
      RowsEntries(rows[..k - 1], t);
      var before := RowsEvents(rows[..k - 1], t);
      EntriesAppend(before, RowEvents(k, rows[k - 1], t));
      StepViews(k, Render(t, Normalised(rows[k - 1])));
      assert EntryNumbers(RowsEvents(rows, t)) == EntryNumbers(before) + [k];
    }
  }

  /** Each row comes to exactly one outcome, in row order: the label rendered
      from it is sent, or the run reports the first field it lacks and moves
      on to the next row. */
  lemma {:induction false} OneOutcomePerRow(rows: seq<Row>, t: Template)
    ensures var outcomes := Outcomes(RunEvents(Loaded(rows), t));
      |outcomes| == |rows| && forall i | 0 <= i < |rows| :: outcomes[i] == Outcome(i + 1, rows[i], t)
  {
    RowsOutcomes(rows, t);
    OutcomesAppend(RowsEvents(rows, t), [Done]);
  }

  lemma {:induction false} RowsOutcomes(rows: seq<Row>, t: Template)
    ensures var outcomes := Outcomes(RowsEvents(rows, t));
      |outcomes| == |rows| && forall i | 0 <= i < |rows| :: outcomes[i] == Outcome(i + 1, rows[i], t)
    decreases |rows|
  {
    if rows != [] {
      var k := |rows|;
      var init := rows[..k - 1];
      RowsOutcomes(init, t);
      OutcomesAppend(RowsEvents(init, t), RowEvents(k, rows[k - 1], t));
      StepViews(k, Render(t, Normalised(rows[k - 1])));
      var before := Outcomes(RowsEvents(init, t));
      assert Outcomes(RowsEvents(rows, t)) == before + [Outcome(k, rows[k - 1], t)];
      forall i | 0 <= i < k
        ensures Outcomes(RowsEvents(rows, t))[i] == Outcome(i + 1, rows[i], t)
      {
        if i < k - 1 {
          assert init[i] == rows[i];
        }
      }
    }
  }


  /** A missed field is a field of the template that the row does not have;
      it is never `Fecha`, which normalisation always supplies. */
  lemma MissedFieldIsAbsentColumn(number: nat, row: Row, t: Template)
    requires Outcome(number, row, t).MissingField?
    ensures var name := Outcome(number, row, t).name;
      name in FieldNames(t) && name != FechaColumn && name !in row
  {
    var m := Normalised(row);
    var name := Render(t, m).error.name;
    FieldNamesOccur(t);
    var i :| 0 <= i < |t| && t[i] == Field(name);
    assert name in FieldNames(t);
  }

  /** When every row fills, every row's label is sent, in row order, and no
      row is reported. */
  lemma {:induction false} EveryRowSent(rows: seq<Row>, t: Template)
    requires forall i | 0 <= i < |rows| :: Render(t, Normalised(rows[i])).Ok?
    ensures var sent := SentCodes(RunEvents(Loaded(rows), t));
      |sent| == |rows| && forall i | 0 <= i < |rows| :: Render(t, Normalised(rows[i])) == Ok(sent[i])
  {
    RowsSent(rows, t);
    SentAppend(RowsEvents(rows, t), [Done]);
  }

  lemma {:induction false} RowsSent(rows: seq<Row>, t: Template)
    requires forall i | 0 <= i < |rows| :: Render(t, Normalised(rows[i])).Ok?
    ensures var sent := SentCodes(RowsEvents(rows, t));
      |sent| == |rows| && forall i | 0 <= i < |rows| :: Render(t, Normalised(rows[i])) == Ok(sent[i])
    decreases |rows|
  {
    if rows != [] {
      var k := |rows|;
      var init := rows[..k - 1];
      assert forall i | 0 <= i < |init| :: init[i] == rows[i];
      RowsSent(init, t);
      SentAppend(RowsEvents(init, t), RowEvents(k, rows[k - 1], t));
      StepViews(k, Render(t, Normalised(rows[k - 1])));
      var before := SentCodes(RowsEvents(init, t));
      var sent := SentCodes(RowsEvents(rows, t));
      assert sent == before + [Render(t, Normalised(rows[k - 1])).value];
      forall i | 0 <= i < k
        ensures Render(t, Normalised(rows[i])) == Ok(sent[i])
      {
        if i < k - 1 {
          assert sent[i] == before[i];
        }
      }
    }
  }

  // ---------------------------------------------------------------------
  // The shape of a trace

  /** Every label sent is followed at once by a pause, and every pause
      follows a label sent. */
  predicate Paced(tr: seq<Event>) {
    forall i {:trigger tr[i]} | 0 <= i < |tr| ::
      (tr[i].Sent? ==> i + 1 < |tr| && tr[i + 1].Pause?) &&
      (tr[i].Pause? ==> 0 < i && tr[i - 1].Sent?)
  }

  /** Only per-row events: no load failure, no status report from the
      sender, no completion notice. */
  predicate RowTraffic(tr: seq<Event>) {
    forall i | 0 <= i < |tr| :: tr[i].Entry? || tr[i].Sent? || tr[i].Pause? || tr[i].MissingField?
  }

  lemma PacedAppend(a: seq<Event>, b: seq<Event>)
    requires Paced(a) && Paced(b)
    ensures Paced(a + b)
  {
    var ab := a + b;
    forall i | 0 <= i < |ab|
      ensures (ab[i].Sent? ==> i + 1 < |ab| && ab[i + 1].Pause?) &&
              (ab[i].Pause? ==> 0 < i && ab[i - 1].Sent?)
    {
      if i < |a| {
        assert ab[i] == a[i];
        assert (a[i].Sent? ==> i + 1 < |a| && a[i + 1].Pause?) && (a[i].Pause? ==> 0 < i && a[i - 1].Sent?);
        if a[i].Sent? { assert ab[i + 1] == a[i + 1]; }
        if a[i].Pause? { assert ab[i - 1] == a[i - 1]; }
      } else {
        var j := i - |a|;
        assert ab[i] == b[j];
        assert (b[j].Sent? ==> j + 1 < |b| && b[j + 1].Pause?) && (b[j].Pause? ==> 0 < j && b[j - 1].Sent?);
        if b[j].Sent? { assert ab[i + 1] == b[j + 1]; }
        if b[j].Pause? { assert ab[i - 1] == b[j - 1]; }
      }
    }
  }

  lemma RowTrafficAppend(a: seq<Event>, b: seq<Event>)
    requires RowTraffic(a) && RowTraffic(b)
    ensures RowTraffic(a + b)
  {
    var ab := a + b;
    forall i | 0 <= i < |ab|
      ensures ab[i].Entry? || ab[i].Sent? || ab[i].Pause? || ab[i].MissingField?
    {
      if i < |a| {
        assert ab[i] == a[i];
      } else {
        assert ab[i] == b[i - |a|];
      }
    }
  }

  lemma StepShape(number: nat, filled: Result<string, RenderError>)
    ensures Paced(StepEvents(number, filled)) && RowTraffic(StepEvents(number, filled))
  {
  }

  lemma {:induction false} RowsShape(rows: seq<Row>, t: Template)
    ensures Paced(RowsEvents(rows, t)) && RowTraffic(RowsEvents(rows, t))
    decreases |rows|
  {
    if rows != [] {
      var k := |rows|;
      RowsShape(rows[..k - 1], t);
      var before := RowsEvents(rows[..k - 1], t);
      var last := RowEvents(k, rows[k - 1], t);
      StepShape(k, Render(t, Normalised(rows[k - 1])));
      PacedAppend(before, last);
      RowTrafficAppend(before, last);
    }
  }

  /** The shape of a whole run: sends and pauses come in pairs; the sender
      never reports a status; the completion notice is the last event and
      appears nowhere else, and appears exactly when the sheet loaded; a
      failed load produces only its own report. */
  lemma RunShape(sheet: Sheet, t: Template)
    ensures var tr := RunEvents(sheet, t);
      && Paced(tr)
      && (forall i | 0 <= i < |tr| :: !tr[i].Acknowledged?)
      && (sheet.Loaded? <==> tr[|tr| - 1] == Done)
      && (forall i | 0 <= i < |tr| - 1 :: tr[i] != Done)
      && (forall i | 0 <= i < |tr| :: tr[i].LoadAborted? <==> sheet.LoadFailed?)
  {
    match sheet
    case LoadFailed(e) =>
    case Loaded(rows) =>
      var body := RowsEvents(rows, t);
      RowsShape(rows, t);
      PacedAppend(body, [Done]);
      var tr := body + [Done];
      assert forall i | 0 <= i < |body| :: tr[i] == body[i];
  }

  /** The run over the script's own label: when every row has all seven label
      columns, every row's label is sent, in row order. */
  lemma LabelRunSendsEveryRow(rows: seq<Row>, t: Template)
    requires FieldNames(t) == LabelFields
    requires forall i, c | 0 <= i < |rows| && c in LabelColumns :: c in rows[i]
    ensures var sent := SentCodes(RunEvents(Loaded(rows), t));
      |sent| == |rows| && forall i | 0 <= i < |rows| :: Render(t, Normalised(rows[i])) == Ok(sent[i])
  {
    forall i | 0 <= i < |rows|
      ensures Render(t, Normalised(rows[i])).Ok?
    {
      LabelRendersIff(t, rows[i]);
    }
    EveryRowSent(rows, t);
  }
}
