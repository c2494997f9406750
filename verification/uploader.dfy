/** The upload form (frontend/src/components/FileUploader.tsx) as a state
    machine. Each handler is a pure transition; the asynchronous
    `handleUpload` is split into its synchronous start (on a click) and a
    later settlement event. The pending continuation is recorded in the
    model-only `transfer` field; everything else mirrors a `useState` hook. */
module Uploader {

  import opened Wrappers
  import opened Models
  import Api

  datatype Mode = FileMode | TextMode

  /** The upload request still awaited by `handleUpload`, if any. */
  datatype Transfer = NoTransfer | FileTransfer | TextTransfer

  datatype FormState = FormState(
    mode: Mode,
    file: Option<FilePart>,
    text: string,
    description: string,
    progress: nat,
    uploading: bool,
    dragActive: bool,
    transfer: Transfer)

  const Initial := FormState(FileMode, None, "", "", 0, false, false, NoTransfer)

  datatype DragKind = DragEnter | DragOver | DragLeave

  datatype Event =
    | Drag(kind: DragKind)
    | Drop(files: seq<FilePart>)
    | PickFiles(files: seq<FilePart>)
    | SelectTab(tab: Mode)
    | EditText(text: string)
    | EditDescription(description: string)
    | ClickUpload
    | Progress(ev: Api.ProgressEvent)
    | Succeeded(response: UploadResponse)
    | Failed

  /** What the form does outside its own state. */
  datatype Effect =
    | SendFile(file: FilePart, description: string)
    | SendText(content: string, description: string)
    | Deliver(response: UploadResponse)
    | AlertFailure

  datatype StepResult = StepResult(state: FormState, effects: seq<Effect>)

  /** The active mode has something to send. */
  predicate HasPayload(s: FormState) {
    if s.mode == FileMode then s.file.Some? else s.text != ""
  }

  /** The upload button is enabled: the negation of its `disabled`
      expression. */
  predicate UploadEnabled(s: FormState): (b: bool)
    ensures b <==> !s.uploading && HasPayload(s)
  {
    !(s.uploading || (if s.mode == FileMode then s.file.None? else s.text == ""))
  }

  /** `handleDrag`: enter and over light the drop zone, leave dims it. */
  function OnDrag(s: FormState, kind: DragKind): (r: FormState)
    ensures r.dragActive <==> kind != DragLeave
    ensures r.(dragActive := s.dragActive) == s
  {
    match kind
    case DragEnter => s.(dragActive := true)
    case DragOver => s.(dragActive := true)
    case DragLeave => s.(dragActive := false)
  }

  /** `handleDrop`: dims the drop zone; a drop carrying files stages the
      first and switches to file mode. */
  function OnDrop(s: FormState, files: seq<FilePart>): (r: FormState)
    ensures !r.dragActive
    ensures |files| > 0 ==> r.file == Some(files[0]) && r.mode == FileMode
    ensures |files| > 0 ==> r.(file := s.file, mode := s.mode, dragActive := s.dragActive) == s
    ensures |files| == 0 ==> r == s.(dragActive := false)
  {
    var s1 := s.(dragActive := false);
    if |files| > 0 then s1.(file := Some(files[0]), mode := FileMode) else s1
  }

  /** `handleFileSelect`: stages the first picked file; the mode is left
      as it is. */
  function OnPick(s: FormState, files: seq<FilePart>): (r: FormState)
    ensures |files| > 0 ==> r == s.(file := Some(files[0]))
    ensures |files| == 0 ==> r == s
  {
    if |files| > 0 then s.(file := Some(files[0])) else s
  }

  /** The synchronous part of `handleUpload`. With a payload in the active
      mode it marks the form uploading at 0% and issues the request (a file
      upload with `setProgress` as callback, or a text upload); without one
      it throws, and the catch and finally blocks leave it not uploading
      and alert. Staged data is untouched either way. */
  function Begin(s: FormState): (r: StepResult)
    ensures r.state.progress == 0
    ensures r.state.(progress := s.progress, uploading := s.uploading, transfer := s.transfer) == s
    ensures r.state.uploading <==> HasPayload(s)
    ensures s.mode == FileMode && s.file.Some? ==>
              r.effects == [SendFile(s.file.value, s.description)] && r.state.transfer == FileTransfer
    ensures s.mode == TextMode && s.text != "" ==>
              r.effects == [SendText(s.text, s.description)] && r.state.transfer == TextTransfer
    ensures !HasPayload(s) ==> r.effects == [AlertFailure] && r.state.transfer == s.transfer
  {
    var started := s.(uploading := true, progress := 0);
    if s.mode == FileMode && s.file.Some? then
      StepResult(started.(transfer := FileTransfer), [SendFile(s.file.value, s.description)])
    else if s.mode == TextMode && s.text != "" then
      StepResult(started.(transfer := TextTransfer), [SendText(s.text, s.description)])
    else
      StepResult(started.(uploading := false), [AlertFailure])
  }

  /** The progress callback: only a file transfer has one, and it reports
      only events carrying a total. */
  function OnProgress(s: FormState, ev: Api.ProgressEvent): (r: FormState)
    ensures r.(progress := s.progress) == s
    ensures r.progress != s.progress ==> s.transfer == FileTransfer && ev.total > 0
    ensures s.transfer == FileTransfer && ev.total > 0 ==> r.progress == Api.Percent(ev.loaded, ev.total)
  {
    var reported := Api.ReportedProgress(ev, s.transfer == FileTransfer);
    if reported.Some? then s.(progress := reported.value) else s
  }

  /** The awaited request resolved: the response goes to `onUploadSuccess`,
      then file, text and description are all emptied, whichever mode was
      sent and whatever was typed meanwhile, and progress returns to 0. */
  function OnSuccess(s: FormState, response: UploadResponse): (r: StepResult)
    ensures s.transfer == NoTransfer ==> r == StepResult(s, [])
    ensures s.transfer != NoTransfer ==>
              && r.effects == [Deliver(response)]
              && r.state == s.(file := None, text := "", description := "", progress := 0,
                               uploading := false, transfer := NoTransfer)
  {
    if s.transfer == NoTransfer then StepResult(s, [])
    else
      StepResult(s.(file := None, text := "", description := "", progress := 0,
                    uploading := false, transfer := NoTransfer),
                 [Deliver(response)])
  }

  /** The awaited request failed: an alert, the form stops uploading, and
      nothing staged is cleared. */
  function OnFailure(s: FormState): (r: StepResult)
    ensures s.transfer == NoTransfer ==> r == StepResult(s, [])
    ensures s.transfer != NoTransfer ==>
              r == StepResult(s.(uploading := false, transfer := NoTransfer), [AlertFailure])
  {
    if s.transfer == NoTransfer then StepResult(s, [])
    else StepResult(s.(uploading := false, transfer := NoTransfer), [AlertFailure])
  }

  /** One event. A click on a disabled button does nothing. Only an
      enabled click sends a request, only a success hands on a response,
      and at most one effect comes of any event. */
  function Step(s: FormState, e: Event): (r: StepResult)
    ensures |r.effects| <= 1
    ensures Sends(r.effects) > 0 ==> e.ClickUpload? && UploadEnabled(s)
    ensures Deliveries(r.effects) > 0 ==> e.Succeeded? && r.effects == [Deliver(e.response)]
    ensures e.ClickUpload? && !UploadEnabled(s) ==> r == StepResult(s, [])
  {
    var r := (
      match e
      case Drag(kind) => StepResult(OnDrag(s, kind), [])
      case Drop(files) => StepResult(OnDrop(s, files), [])
      case PickFiles(files) => StepResult(OnPick(s, files), [])
      case SelectTab(tab) => StepResult(s.(mode := tab), [])
      case EditText(text) => StepResult(s.(text := text), [])
      case EditDescription(d) => StepResult(s.(description := d), [])
      case ClickUpload => if UploadEnabled(s) then Begin(s) else StepResult(s, [])
      case Progress(ev) => StepResult(OnProgress(s, ev), [])
      case Succeeded(response) => OnSuccess(s, response)
      case Failed => OnFailure(s));
    CountsOfOne(r.effects);
    r
  }

  /** Events the page can actually deliver in state `s`: the drop zone and
      its hidden file input exist only in file mode, the text area only in
      text mode, and transfer events only while a matching request is
      awaited. */
  predicate Dispatchable(s: FormState, e: Event) {
    match e
    case Drag(_) => s.mode == FileMode
    case Drop(_) => s.mode == FileMode
    case PickFiles(_) => s.mode == FileMode
    case EditText(_) => s.mode == TextMode
    case Progress(_) => s.transfer == FileTransfer
    case Succeeded(_) => s.transfer != NoTransfer
    case Failed => s.transfer != NoTransfer
    case _ => true
  }

  /** Transport events the browser can produce: never more sent than the
      total. */
  predicate SaneEvent(e: Event) {
    e.Progress? ==> e.ev.loaded <= e.ev.total || e.ev.total == 0
  }

  /** The form's invariant: `uploading` is set exactly while a request is
      awaited, progress is a percentage, and a text transfer shows 0%. */
  predicate Consistent(s: FormState) {
    && (s.uploading <==> s.transfer != NoTransfer)
    && s.progress <= 100
    && (s.transfer == TextTransfer ==> s.progress == 0)
  }

  /** The fresh form satisfies the invariant. */
  lemma InitialConsistent()
    ensures Consistent(Initial)
  {
  }

  /** Every event keeps the invariant. */
  lemma StepPreservesConsistent(s: FormState, e: Event)
    requires Consistent(s) && SaneEvent(e)
    ensures Consistent(Step(s, e).state)
  {
    if e.Progress? && s.transfer == FileTransfer && e.ev.total > 0 {
      Api.PercentBounded(e.ev.loaded, e.ev.total);
    }
  }

  /** Switching tabs changes only the mode, even during an upload. */
  lemma SwitchTabKeepsData(s: FormState, tab: Mode)
    ensures Step(s, SelectTab(tab)) == StepResult(s.(mode := tab), [])
  {
  }

  /** A click starts a request exactly when the button is enabled; it then
      sends the active mode's payload and disables the button, so a second
      click cannot start another request before this one settles. */
  lemma ClickStartsIffEnabled(s: FormState)
    requires Consistent(s)
    ensures Step(s, ClickUpload).effects != [] <==> UploadEnabled(s)
    ensures UploadEnabled(s) && s.mode == FileMode ==>
              Step(s, ClickUpload).effects == [SendFile(s.file.value, s.description)]
    ensures UploadEnabled(s) && s.mode == TextMode ==>
              Step(s, ClickUpload).effects == [SendText(s.text, s.description)]
    ensures UploadEnabled(s) ==> !UploadEnabled(Step(s, ClickUpload).state)
    ensures UploadEnabled(s) ==> Step(s, ClickUpload).state.progress == 0
  {
  }

  /** Any file the page lets the user select, by drop or by the picker,
      ends up staged in file mode. */
  lemma SelectionIsFileMode(s: FormState, e: Event)
    requires Dispatchable(s, e)
    requires (e.Drop? && |e.files| > 0) || (e.PickFiles? && |e.files| > 0)
    ensures Step(s, e).state.mode == FileMode
    ensures Step(s, e).state.file == Some(e.files[0])
  {
  }

  /** The number of requests sent among `effs`. */
  function Sends(effs: seq<Effect>): nat {
    if |effs| == 0 then 0
    else (if effs[0].SendFile? || effs[0].SendText? then 1 else 0) + Sends(effs[1..])
  }

  /** The number of settlements (success deliveries and failure alerts). */
  function Settles(effs: seq<Effect>): nat {
    if |effs| == 0 then 0
    else (if effs[0].Deliver? || effs[0].AlertFailure? then 1 else 0) + Settles(effs[1..])
  }

  function Deliveries(effs: seq<Effect>): nat {
    if |effs| == 0 then 0
    else (if effs[0].Deliver? then 1 else 0) + Deliveries(effs[1..])
  }

  /** The counts of at most one effect. */
  lemma CountsOfOne(effs: seq<Effect>)
    requires |effs| <= 1
    ensures Sends(effs) == (if |effs| == 1 && (effs[0].SendFile? || effs[0].SendText?) then 1 else 0)
    ensures Deliveries(effs) == (if |effs| == 1 && effs[0].Deliver? then 1 else 0)
    ensures Settles(effs) == (if |effs| == 1 && (effs[0].Deliver? || effs[0].AlertFailure?) then 1 else 0)
  {
    if |effs| == 1 {
      assert effs[1..] == [];
    }
  }

  lemma {:induction false} CountsAppend(a: seq<Effect>, b: seq<Effect>)
    ensures Sends(a + b) == Sends(a) + Sends(b)
    ensures Settles(a + b) == Settles(a) + Settles(b)
    ensures Deliveries(a + b) == Deliveries(a) + Deliveries(b)
  {
    if |a| > 0 {
      assert (a + b)[1..] == a[1..] + b;
      CountsAppend(a[1..], b);
    } else {
      assert a + b == b;
    }
  }

  function InFlight(s: FormState): nat {
    if s.transfer == NoTransfer then 0 else 1
  }

  /** Runs a sequence of events, collecting the effects in order. */
  function Run(s: FormState, events: seq<Event>): StepResult
    decreases |events|
  {
    if |events| == 0 then StepResult(s, [])
    else
      var first := Step(s, events[0]);
      var rest := Run(first.state, events[1..]);
      StepResult(rest.state, first.effects + rest.effects)
  }

  /** Within a single step, a request sent is one more in flight and a
      settlement is one fewer. */
  lemma StepBalance(s: FormState, e: Event)
    requires Consistent(s)
    ensures Sends(Step(s, e).effects) + InFlight(s) == Settles(Step(s, e).effects) + InFlight(Step(s, e).state)
    ensures Sends(Step(s, e).effects) <= 1 && Settles(Step(s, e).effects) <= 1
    ensures Sends(Step(s, e).effects) == 1 ==> InFlight(s) == 0
  {
    var r := Step(s, e);
    assert Sends([]) == 0 && Settles([]) == 0;
    if |r.effects| == 1 {
      assert r.effects[1..] == [];
    }
  }

  /** Over any run: requests sent plus the one possibly pending at the start
      equal settlements plus the one possibly pending at the end. Requests
      are serialised and each ends in exactly one success or failure. */
  lemma {:induction false} RunBalance(s: FormState, events: seq<Event>)
    requires Consistent(s)
    requires forall i :: 0 <= i < |events| ==> SaneEvent(events[i])
    ensures Consistent(Run(s, events).state)
    ensures Sends(Run(s, events).effects) + InFlight(s)
            == Settles(Run(s, events).effects) + InFlight(Run(s, events).state)
    decreases |events|
  {
    if |events| > 0 {
      var first := Step(s, events[0]);
      StepPreservesConsistent(s, events[0]);
      StepBalance(s, events[0]);
      RunBalance(first.state, events[1..]);
      var rest := Run(first.state, events[1..]);
      CountsAppend(first.effects, rest.effects);
    } else {
      assert Sends([]) == 0 && Settles([]) == 0;
    }
  }

  /** From a fresh form, every request sent has settled, except at most the
      one still awaited: sends equal settlements plus 0 or 1. */
  lemma FreshFormBalance(events: seq<Event>)
    requires forall i :: 0 <= i < |events| ==> SaneEvent(events[i])
    ensures var r := Run(Initial, events);
            && Consistent(r.state)
            && Sends(r.effects) == Settles(r.effects) + InFlight(r.state)
            && Sends(r.effects) <= Settles(r.effects) + 1
  {
    InitialConsistent();
    RunBalance(Initial, events);
  }

  /** A success settles the request: `onUploadSuccess` is called once with
      the response, every staged value of both modes is cleared, and the
      button is disabled again until something new is staged. */
  lemma SuccessDeliversOnceAndClears(s: FormState, response: UploadResponse)
    requires s.transfer != NoTransfer
    ensures var r := Step(s, Succeeded(response));
            && Deliveries(r.effects) == 1 && r.effects == [Deliver(response)]
            && r.state.file.None? && r.state.text == "" && r.state.description == ""
            && r.state.progress == 0 && !r.state.uploading
            && !UploadEnabled(r.state)
  {
    var r := Step(s, Succeeded(response));
    assert r.effects[1..] == [];
  }

  /** A failure keeps everything staged, so the same payload can be sent
      again with one click. */
  lemma FailureKeepsPayload(s: FormState)
    requires Consistent(s) && s.transfer != NoTransfer
    ensures var r := Step(s, Failed).state;
            && r.file == s.file && r.text == s.text && r.description == s.description && r.mode == s.mode
            && !r.uploading
            && (HasPayload(s) ==> UploadEnabled(r))
  {
  }

  /** From a fresh form: switch to the text tab, type "hello" and a note,
      click, and receive a success. Exactly one text request goes out with
      the staged values, the response is handed on once, and the form ends
      empty but still on the text tab. */
  lemma TextUploadScenario(response: UploadResponse)
    ensures var r := Run(Initial, [SelectTab(TextMode), EditText("hello"), EditDescription("note"),
                                   ClickUpload, Succeeded(response)]);
            && r.effects == [SendText("hello", "note"), Deliver(response)]
            && r.state == FormState(TextMode, None, "", "", 0, false, false, NoTransfer)
  {
    var evs := [SelectTab(TextMode), EditText("hello"), EditDescription("note"),
                ClickUpload, Succeeded(response)];
    var s1 := Step(Initial, evs[0]).state;
    var s2 := Step(s1, evs[1]).state;
    var s3 := Step(s2, evs[2]).state;
    assert s3 == FormState(TextMode, None, "hello", "note", 0, false, false, NoTransfer);
    var c := Step(s3, evs[3]);
    assert c.effects == [SendText("hello", "note")];
    var d := Step(c.state, evs[4]);
    assert d.effects == [Deliver(response)];
    assert Run(d.state, evs[5..]) == StepResult(d.state, []);
    assert Run(c.state, evs[4..]) == StepResult(d.state, [Deliver(response)]);
    assert Run(s3, evs[3..]) == StepResult(d.state, [SendText("hello", "note"), Deliver(response)]);
    assert Run(s2, evs[2..]) == Run(s3, evs[3..]);
    assert Run(s1, evs[1..]) == Run(s2, evs[2..]);
    assert Run(Initial, evs) == Run(s1, evs[1..]);
  }
}
