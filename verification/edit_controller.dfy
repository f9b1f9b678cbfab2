/** The add/update/delete controller every resource screen repeats: the state
    `(editing, form, error)` and the transitions `onSubmit`, `handleEdit`,
    `handleCancel` and `handleDelete`. It is generic over the record type `R` and
    the form type `F`; each screen supplies its form defaults and how a record
    pre-fills the form. Server calls are not made here: a call is described by a
    `Request`, and what the server answered by an `Outcome`. */
module EditController {
  import opened Options

  const OperationFailed := "Operation failed!"
  const DeleteFailed := "Delete failed!"

  /** How the awaited `unwrap()` settled: resolved, or rejected with an error whose
      `data.message` may be absent. */
  datatype Outcome = Succeeded | Failed(message: Option<string>)

  /** `editing` is the record being edited (`null` when adding), `form` the form values,
      `error` the text shown above the form (`""` when none). */
  datatype State<R, F> = State(editing: Option<R>, form: F, error: string)

  /** The state a screen starts in. */
  function Initial<R, F>(defaults: F): State<R, F>
  {
    State(None, defaults, "")
  }

  /** The mutation `onSubmit` issues. */
  datatype Request<F> = Add(body: F) | Update(id: string, body: F)

  /** `onSubmit`: update the record being edited, under its id, with the form values;
      add the form values as a new record when nothing is being edited. */
  function SubmitRequest<R, F>(s: State<R, F>, idOf: R -> string): (q: Request<F>)
    ensures q.body == s.form
    ensures q.Update? <==> s.editing.Some?
    ensures q.Update? ==> q.id == idOf(s.editing.value)
  {
    match s.editing
    case Some(record) => Update(idOf(record), s.form)
    case None => Add(s.form)
  }

  /** The state while a submit or delete is in flight: the error is cleared before acting. */
  function Pending<R, F>(s: State<R, F>): (r: State<R, F>)
    ensures r.error == ""
    ensures r.editing == s.editing && r.form == s.form
  {
    s.(error := "")
  }

  /** A settled mutation: the next state, and whether the list is fetched again. */
  datatype Step<R, F> = Step(state: State<R, F>, refetch: bool)

  /** `onSubmit` once the request settles. Success leaves editing, resets the form and
      refetches; failure keeps editing and the form and shows the server's message,
      or "Operation failed!" when it has none. */
  function Submit<R, F>(s: State<R, F>, defaults: F, outcome: Outcome): (r: Step<R, F>)
    ensures outcome.Succeeded? ==> r.state == Initial(defaults)
    ensures outcome.Failed? ==> r.state.editing == s.editing && r.state.form == s.form
    ensures outcome.Failed? ==> r.state.error == OrElse(outcome.message, OperationFailed)
    ensures r.state.error == "" <==> outcome.Succeeded?
    ensures r.refetch <==> outcome.Succeeded?
  {
    var p := Pending(s);
    match outcome
    case Succeeded => Step(p.(editing := None, form := defaults), true)
    case Failed(m) => Step(p.(error := OrElse(m, OperationFailed)), false)
  }

  /** `handleDelete` once the request settles. Editing and the form are untouched either
      way; failure shows the server's message, or "Delete failed!" when it has none. */
  function Delete<R, F>(s: State<R, F>, outcome: Outcome): (r: Step<R, F>)
    ensures r.state.editing == s.editing && r.state.form == s.form
    ensures outcome.Failed? ==> r.state.error == OrElse(outcome.message, DeleteFailed)
    ensures r.state.error == "" <==> outcome.Succeeded?
    ensures r.refetch <==> outcome.Succeeded?
  {
    var p := Pending(s);
    match outcome
    case Succeeded => Step(p, true)
    case Failed(m) => Step(p.(error := OrElse(m, DeleteFailed)), false)
  }

  /** `handleEdit`: select the record and load `prefill` (the screen's copy of the
      record's fields) into the form. The error is left as it is. */
  function Edit<R, F>(s: State<R, F>, record: R, prefill: F): (r: State<R, F>)
    ensures r.editing == Some(record) && r.form == prefill
    ensures r.error == s.error
  {
    State(Some(record), prefill, s.error)
  }

  /** `handleCancel`: stop editing and reset the form; no server call, error unchanged. */
  function Cancel<R, F>(s: State<R, F>, defaults: F): (r: State<R, F>)
    ensures r.editing.None? && r.form == defaults
    ensures r.error == s.error
  {
    State(None, defaults, s.error)
  }

  /** A settled `handleExport` on a screen that also has a report export. The export
      writes the same error line as the form: it is cleared when the export starts, and
      once the export settles it holds the export's failure text, or `""` when the file
      arrived. Selection and form are untouched. */
  function Exported<R, F>(s: State<R, F>, exportError: string): (r: State<R, F>)
    ensures r.error == exportError
    ensures r.editing == s.editing && r.form == s.form
  {
    s.(error := exportError)
  }

  /** One user-visible event on a screen. */
  datatype Action<R, F> =
    | Typed(form: F)                    // the user edits form fields
    | EditClicked(record: R, prefill: F)
    | CancelClicked
    | SubmitSettled(outcome: Outcome)
    | DeleteSettled(outcome: Outcome)
    | ExportSettled(exportError: string) // the error line a settled export leaves

  function Apply<R, F>(s: State<R, F>, a: Action<R, F>, defaults: F): State<R, F>
  {
    match a
    case Typed(f) => s.(form := f)
    case EditClicked(record, prefill) => Edit(s, record, prefill)
    case CancelClicked => Cancel(s, defaults)
    case SubmitSettled(o) => Submit(s, defaults, o).state
    case DeleteSettled(o) => Delete(s, o).state
    case ExportSettled(e) => Exported(s, e)
  }

  /** The state after a sequence of events, applied in order. */
  function Run<R, F>(s: State<R, F>, acts: seq<Action<R, F>>, defaults: F): State<R, F>
  {
    if |acts| == 0 then s else Apply(Run(s, acts[..|acts| - 1], defaults), acts[|acts| - 1], defaults)
  }

  /** Reference reading of the error line: the text of the most recent settled submit,
      delete or export (`""` if it succeeded); `initial` if there has been none. */
  function LastServerError<R, F>(acts: seq<Action<R, F>>, initial: string): string
  {
    if |acts| == 0 then initial
    else
      match acts[|acts| - 1]
      case SubmitSettled(Succeeded) => ""
      case SubmitSettled(Failed(m)) => OrElse(m, OperationFailed)
      case DeleteSettled(Succeeded) => ""
      case DeleteSettled(Failed(m)) => OrElse(m, DeleteFailed)
      case ExportSettled(e) => e
      case _ => LastServerError(acts[..|acts| - 1], initial)
  }

  /** Reference reading of the selection: the record of the most recent edit click, unless
      a cancel or a successful submit came after it. */
  function LastSelection<R, F>(acts: seq<Action<R, F>>, initial: Option<R>): Option<R>
  {
    if |acts| == 0 then initial
    else
      match acts[|acts| - 1]
      case EditClicked(record, _) => Some(record)
      case CancelClicked => None
      case SubmitSettled(Succeeded) => None
      case _ => LastSelection(acts[..|acts| - 1], initial)
  }

  /** An error stays on screen until the next submit, delete or export settles: editing,
      cancelling and typing never change it. */
  lemma {:induction false} ErrorReflectsLastServerCall<R, F>(s: State<R, F>, acts: seq<Action<R, F>>, defaults: F)
    ensures Run(s, acts, defaults).error == LastServerError(acts, s.error)
  {
    if |acts| > 0 {
      ErrorReflectsLastServerCall(s, acts[..|acts| - 1], defaults);
    }
  }

  /** The record being edited is the last one selected, until cancel or a successful
      submit; failed submits, deletes and typing keep it. */
  lemma {:induction false} EditingReflectsLastSelection<R, F>(s: State<R, F>, acts: seq<Action<R, F>>, defaults: F)
    ensures Run(s, acts, defaults).editing == LastSelection(acts, s.editing)
  {
    if |acts| > 0 {
      EditingReflectsLastSelection(s, acts[..|acts| - 1], defaults);
    }
  }

  /** Whatever came before, a settled export leaves its own text on the error line (so a
      failed export replaces an "Operation failed!" and a delivered file clears it), and
      keeps the selection and the form. */
  lemma {:induction false} ExportLeavesItsError<R, F>(s: State<R, F>, acts: seq<Action<R, F>>, defaults: F, exportError: string)
    ensures var r := Run(s, acts + [ExportSettled(exportError)], defaults);
            && r.error == exportError
            && r.editing == Run(s, acts, defaults).editing
            && r.form == Run(s, acts, defaults).form
  {
    var all := acts + [ExportSettled(exportError)];
    assert all[..|all| - 1] == acts;
  }
}
