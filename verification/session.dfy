/**
 * Input validation and the download session, run sequentially (yt.py,
 * `_validate_inputs`, `_start_download` with its worker `run`, and
 * `_cancel_download`). The window is reduced to the state the session
 * changes: the progress value, the log, the two buttons and whether a
 * child process is held.
 */
module Session {
  import opened Wrappers
  import opened Text
  import Command
  import Sequences
  import Progress

  // ---------------------------------------------------------------------
  // Validation.
  // ---------------------------------------------------------------------

  /** The reasons a download is refused, in the order they are checked. */
  datatype InputError = MissingUrl | MissingFolder | FolderNotFound

  datatype Verdict = Accepted | Rejected(error: InputError)

  /**
   * `_validate_inputs`: the URL must be non-blank, then the folder text
   * non-empty, then the folder must exist; the first failing check is the
   * one reported. Whether a path exists is the parameter `folderExists`.
   */
  function Validate(o: Command.Options, folderExists: string -> bool): (v: Verdict)
    ensures v == Accepted <==> Strip(o.url) != [] && o.folder != [] && folderExists(o.folder)
    ensures v == Rejected(MissingUrl) <==> Strip(o.url) == []
    ensures v == Rejected(MissingFolder) <==> Strip(o.url) != [] && o.folder == []
    ensures v == Rejected(FolderNotFound) <==> Strip(o.url) != [] && o.folder != [] && !folderExists(o.folder)
  {
    if Strip(o.url) == [] then Rejected(MissingUrl)
    else if o.folder == [] then Rejected(MissingFolder)
    else if !folderExists(o.folder) then Rejected(FolderNotFound)
    else Accepted
  }

  // ---------------------------------------------------------------------
  // The window state a session changes.
  // ---------------------------------------------------------------------

  datatype Ui = Ui(
    progress: int,          // the progress bar's variable
    log: seq<string>,       // the chunks inserted into the log window, in order
    startEnabled: bool,     // "Start Download" button state
    cancelEnabled: bool,    // "Cancel" button state
    processActive: bool     // a child process handle is held
  )

  const StartingMessage := "Starting download...\n"
  const SuccessMessage := "\n\U{2713} Download completed successfully!\n\n"
  const NotFoundMessage := "\n\U{2717} Error: yt-dlp not found. Please install it first.\n"
  const CancelMessage := "\n\U{26A0} Download cancelled by user.\n\n"

  function CommandMessage(argv: seq<string>): string {
    "Command: " + Join(argv, " ") + "\n\n"
  }

  function FailureMessage(code: int): string {
    "\n\U{2717} Download failed with error code " + IntToString(code) + "\n\n"
  }

  function ErrorLogMessage(message: string): string {
    "\n\U{2717} Error: " + message + "\n\n"
  }

  /** A line of output that is not blank once stripped. */
  predicate IsContent(line: string) {
    Strip(line) != []
  }

  // ---------------------------------------------------------------------
  // Transitions.
  // ---------------------------------------------------------------------

  /**
   * `_start_download` before the worker starts: a refused request changes
   * nothing; an accepted one logs the start, resets the progress to 0,
   * disables start and enables cancel.
   */
  function StartDownload(ui: Ui, o: Command.Options, folderExists: string -> bool): (u: Ui)
    ensures Validate(o, folderExists) != Accepted ==> u == ui
    ensures Validate(o, folderExists) == Accepted ==>
      && u.progress == 0 && !u.startEnabled && u.cancelEnabled
      && u.log == ui.log + [StartingMessage]
      && u.processActive == ui.processActive
  {
    if Validate(o, folderExists) != Accepted then ui
    else ui.(log := ui.log + [StartingMessage], progress := 0, startEnabled := false, cancelEnabled := true)
  }

  /** One line read from the child's output: a blank line is ignored; any other is logged and scraped. */
  function OnLine(ui: Ui, line: string): (u: Ui)
    ensures !IsContent(line) ==> u == ui
    ensures IsContent(line) ==> u.log == ui.log + [line]
    ensures IsContent(line) && Progress.Percent(line).Some? ==> u.progress == Progress.Percent(line).value
    ensures Progress.Percent(line).None? ==> u.progress == ui.progress
    ensures u.startEnabled == ui.startEnabled && u.cancelEnabled == ui.cancelEnabled && u.processActive == ui.processActive
  {
    if IsContent(line) then
      ui.(log := ui.log + [line], progress := Progress.UpdateProgress(ui.progress, line))
    else ui
  }

  /**
   * The loop over the child's output, line by line. It only ever appends to
   * the log and leaves the buttons and the process handle alone;
   * ProcessLinesSpec states its result exactly.
   */
  function ProcessLines(ui: Ui, lines: seq<string>): (u: Ui)
    ensures |ui.log| <= |u.log| <= |ui.log| + |lines| && u.log[..|ui.log|] == ui.log
    ensures u.startEnabled == ui.startEnabled && u.cancelEnabled == ui.cancelEnabled
    ensures u.processActive == ui.processActive
    decreases |lines|
  {
    if lines == [] then ui
    else
      var next := OnLine(ui, lines[0]);
      var u := ProcessLines(next, lines[1..]);
      assert u.log[..|ui.log|] == next.log[..|ui.log|] == ui.log;
      u
  }

  /** The child's exit status: 0 completes the progress bar; anything else is reported and leaves it. */
  function OnExit(ui: Ui, code: int): (u: Ui)
    ensures code == 0 ==> u.progress == 100 && u.log == ui.log + [SuccessMessage]
    ensures code != 0 ==> u.progress == ui.progress && u.log == ui.log + [FailureMessage(code)]
    ensures u.startEnabled == ui.startEnabled && u.cancelEnabled == ui.cancelEnabled
    ensures u.processActive == ui.processActive
  {
    if code == 0 then ui.(log := ui.log + [SuccessMessage], progress := 100)
    else ui.(log := ui.log + [FailureMessage(code)])
  }

  /** The worker's `finally`: the process handle is dropped, start is enabled and cancel disabled. */
  function Release(ui: Ui): (u: Ui)
    ensures u.startEnabled && !u.cancelEnabled && !u.processActive
    ensures u.progress == ui.progress && u.log == ui.log
  {
    ui.(processActive := false, startEnabled := true, cancelEnabled := false)
  }

  /**
   * `_cancel_download`: with a process held, the cancellation is logged,
   * the progress reset to 0, start enabled and cancel disabled; with none,
   * nothing happens.
   */
  function Cancel(ui: Ui): (u: Ui)
    ensures !ui.processActive ==> u == ui
    ensures ui.processActive ==>
      && u.progress == 0 && u.startEnabled && !u.cancelEnabled
      && u.log == ui.log + [CancelMessage]
    ensures u.processActive == ui.processActive
  {
    if ui.processActive then
      ui.(log := ui.log + [CancelMessage], progress := 0, startEnabled := true, cancelEnabled := false)
    else ui
  }

  // ---------------------------------------------------------------------
  // A whole download, run sequentially.
  // ---------------------------------------------------------------------

  /** How the supervised process ends. */
  datatype End =
    | Exited(code: int)        // the child exited with this status
    | Cancelled                // the user cancelled after the lines were read
    | Crashed(message: string) // any other exception while supervising

  /**
   * What happened to the child: the program was not found, starting it
   * failed in another way (the message of the exception), or it produced
   * lines and then ended.
   */
  datatype Outcome =
    | ToolMissing
    | StartFailed(message: string)
    | Spawned(output: seq<string>, end: End)

  /**
   * The worker's first step: the command line, its arguments separated by
   * single spaces, is logged as one entry; nothing else changes.
   */
  function Announce(ui: Ui, argv: seq<string>): (u: Ui)
    ensures |u.log| == |ui.log| + 1 && u.log[..|ui.log|] == ui.log && u.log[|ui.log|] == CommandMessage(argv)
    ensures u.progress == ui.progress && u.processActive == ui.processActive
    ensures u.startEnabled == ui.startEnabled && u.cancelEnabled == ui.cancelEnabled
  {
    ui.(log := ui.log + [CommandMessage(argv)])
  }

  /** The one log message each ending of a started process adds. */
  function EndMessage(end: End): string {
    match end
    case Exited(0) => SuccessMessage
    case Exited(code) => FailureMessage(code)
    case Cancelled => CancelMessage
    case Crashed(message) => ErrorLogMessage(message)
  }

  /**
   * How the worker's `try` block ends once the child's output is read, with
   * the process still held: exactly one message is logged; status 0 fills
   * the progress bar, a cancel empties it, and any other ending leaves it.
   */
  function Conclude(ui: Ui, end: End): (u: Ui)
    requires ui.processActive
    ensures u.log == ui.log + [EndMessage(end)]
    ensures u.progress == (if end == Exited(0) then 100 else if end == Cancelled then 0 else ui.progress)
    ensures u.processActive
  {
    match end
    case Exited(code) => OnExit(ui, code)
    case Cancelled => Cancel(ui)
    case Crashed(message) => ui.(log := ui.log + [ErrorLogMessage(message)])
  }

  /**
   * The worker's `try` block with its handlers, before the `finally`: a
   * missing tool, or any other failure to start the child, logs one message
   * and changes nothing else, since no handle was ever obtained; a started
   * process keeps its handle until the `finally`, and the log gains the
   * non-blank output lines followed by the ending's message.
   */
  function Supervise(ui: Ui, outcome: Outcome): (u: Ui)
    ensures outcome == ToolMissing ==> u == ui.(log := ui.log + [NotFoundMessage])
    ensures outcome.StartFailed? ==> u == ui.(log := ui.log + [ErrorLogMessage(outcome.message)])
    ensures outcome.Spawned? ==> u.processActive
    ensures outcome.Spawned? ==> u.log == ui.log + ContentLines(outcome.output) + [EndMessage(outcome.end)]
  {
    match outcome
    case ToolMissing => ui.(log := ui.log + [NotFoundMessage])
    case StartFailed(message) => ui.(log := ui.log + [ErrorLogMessage(message)])
    case Spawned(output, end) =>
      var running := ui.(processActive := true);
      ProcessLinesLog(running, output);
      Conclude(ProcessLines(running, output), end)
  }

  /**
   * The effect of pressing start with choices `o`, followed by the worker's
   * whole run: refused input changes nothing and starts no process; every
   * accepted run ends with start enabled, cancel disabled and no process
   * held.
   */
  function Run(ui: Ui, o: Command.Options, folderExists: string -> bool, outcome: Outcome): (u: Ui)
    ensures Validate(o, folderExists) != Accepted ==> u == ui
    ensures Validate(o, folderExists) == Accepted ==> u.startEnabled && !u.cancelEnabled && !u.processActive
  {
    if Validate(o, folderExists) != Accepted then ui
    else Release(Supervise(Announce(StartDownload(ui, o, folderExists), Command.BuildCommand(o)), outcome))
  }

  // ---------------------------------------------------------------------
  // What the output loop does, against an independent description.
  // ---------------------------------------------------------------------

  /** The non-blank lines, in order. */
  function ContentLines(lines: seq<string>): seq<string> {
    if lines == [] then []
    else (if IsContent(lines[0]) then [lines[0]] else []) + ContentLines(lines[1..])
  }

  /** The value scraped from the last line that holds a percentage, if any does. */
  function LastSample(lines: seq<string>): Option<nat> {
    if lines == [] then None
    else
      match LastSample(lines[1..])
      case Some(v) => Some(v)
      case None => Progress.Percent(lines[0])
  }

  /** The progress after reading `lines` from progress p: the last sample, or p if there is none. */
  function ProgressAfter(lines: seq<string>, p: int): int {
    match LastSample(lines)
    case Some(v) => v
    case None => p
  }

  /** A blank line holds no percentage, so skipping it loses no progress. */
  lemma BlankHasNoPercent(line: string)
    requires !IsContent(line)
    ensures Progress.Percent(line) == None
  {
    Progress.PercentSpec(line, 0);
    forall i | 0 <= i < |line|
      ensures !Progress.MatchAt(line, i)
    {
      SpaceIsNotDigit(line[i]);
    }
  }

  /**
   * After the output loop, the log has gained exactly the non-blank lines,
   * in order; the progress is the value of the last line holding a
   * percentage, or what it was if none does; the buttons and the process
   * handle are untouched.
   */
  lemma ProcessLinesSpec(ui: Ui, lines: seq<string>)
    ensures ProcessLines(ui, lines) ==
      ui.(log := ui.log + ContentLines(lines), progress := ProgressAfter(lines, ui.progress))
  {
    ProcessLinesLog(ui, lines);
    ProcessLinesProgress(ui, lines);
  }

  lemma {:induction false} ProcessLinesLog(ui: Ui, lines: seq<string>)
    ensures ProcessLines(ui, lines).log == ui.log + ContentLines(lines)
    decreases |lines|
  {
    if lines == [] {
      assert ui.log + [] == ui.log;
    } else {
      var line, rest := lines[0], lines[1..];
      var next := OnLine(ui, line);
      assert ProcessLines(ui, lines) == ProcessLines(next, rest);
      ProcessLinesLog(next, rest);
      var later := ContentLines(rest);
      if IsContent(line) {
        assert ContentLines(lines) == [line] + later;
        assert next.log == ui.log + [line];
        Sequences.AppendAssoc(ui.log, [line], later);
      } else {
        assert ContentLines(lines) == [] + later;
        assert [] + later == later;
        assert next == ui;
      }
    }
  }

  lemma {:induction false} ProcessLinesProgress(ui: Ui, lines: seq<string>)
    ensures ProcessLines(ui, lines).progress == ProgressAfter(lines, ui.progress)
    decreases |lines|
  {
    if lines != [] {
      var line, rest := lines[0], lines[1..];
      var next := OnLine(ui, line);
      ProcessLinesProgress(next, rest);
      if !IsContent(line) {
        BlankHasNoPercent(line);
      }
      assert ProcessLines(ui, lines) == ProcessLines(next, rest);
      assert LastSample(lines) == (if LastSample(rest).Some? then LastSample(rest) else Progress.Percent(line));
    }
  }

  // ---------------------------------------------------------------------
  // Properties of a whole run.
  // ---------------------------------------------------------------------

  /**
   * The progress an accepted run ends with: 100 after exit status 0; 0
   * after a cancel or a failed start; otherwise the last value scraped from
   * the output, or the 0 it was reset to.
   */
  lemma RunProgress(ui: Ui, o: Command.Options, folderExists: string -> bool, outcome: Outcome)
    requires Validate(o, folderExists) == Accepted
    ensures Run(ui, o, folderExists, outcome).progress ==
      match outcome
      case ToolMissing => 0
      case StartFailed(_) => 0
      case Spawned(output, Exited(0)) => 100
      case Spawned(output, Cancelled) => 0
      case Spawned(output, _) => ProgressAfter(output, 0)
  {
    var announced := Announce(StartDownload(ui, o, folderExists), Command.BuildCommand(o));
    assert announced.progress == 0;
    if outcome.Spawned? {
      var running := announced.(processActive := true);
      ProcessLinesSpec(running, outcome.output);
      assert ProcessLines(running, outcome.output).processActive;
    }
  }

  /**
   * The log of an accepted run: the start notice and the command line, then
   * either the one message of a failed start, or every non-blank output line in
   * order followed by the one message of the process's ending.
   */
  lemma RunLog(ui: Ui, o: Command.Options, folderExists: string -> bool, outcome: Outcome)
    requires Validate(o, folderExists) == Accepted
    ensures Run(ui, o, folderExists, outcome).log ==
      ui.log + [StartingMessage, CommandMessage(Command.BuildCommand(o))] +
      match outcome
      case ToolMissing => [NotFoundMessage]
      case StartFailed(message) => [ErrorLogMessage(message)]
      case Spawned(output, end) => ContentLines(output) + [EndMessage(end)]
  {
    var announced := Announce(StartDownload(ui, o, folderExists), Command.BuildCommand(o));
    var head := ui.log + [StartingMessage, CommandMessage(Command.BuildCommand(o))];
    assert announced.log == head;
    if outcome.Spawned? {
      Sequences.AppendAssoc(head, ContentLines(outcome.output), [EndMessage(outcome.end)]);
    }
  }
}
