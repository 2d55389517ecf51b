# yt-dlp GUI core, modelled in Dafny

The program is a Tkinter window that runs `yt-dlp` as a child process. Three
pieces of it are sequential logic, and this project models and proves them.

- **Command assembler** (`Command`, from `_build_command`). It turns the
  user's choices into the argument vector for `yt-dlp`. The choices are the
  URL text, the download folder, the format label, the resolution label and
  the aria2, thumbnail and subtitle check boxes. The vector is: the program
  name, `-o <folder>/%(title)s.%(ext)s`, then the thumbnail, subtitle,
  format-selection and aria2 groups in that order, then `--add-metadata` and
  the stripped URL. `Decode` is the partner: it reads a vector back into the
  `Request` it expresses. `DecodeBuild` proves that reading an assembled
  vector gives back exactly the request the choices stand for.
- **Progress scraper** (`Progress`, from `_update_progress`). It finds the
  leftmost match of `(\d+(?:\.\d+)?)\s*%` in a line and keeps the integer
  part of the number. The scanner tries one start position after another,
  in the same order Python's `re.search` tries them. `Shape` / `MatchAt`
  state which substrings belong to the pattern's language. `PercentSpec`
  proves that the scanner returns the leftmost match's integer part, and
  returns nothing exactly when the line holds no match.
- **Validation and the download session** (`Session`, from
  `_validate_inputs`, `_start_download`, its worker `run`, and
  `_cancel_download`). The window is reduced to a `Ui` record: progress,
  log, the two button states, and whether a process handle is held. A
  download is modelled as one sequential run: validate, start, log the
  command, fold the output lines, then end. The child may fail to start,
  either because `yt-dlp` is not found or with some other exception. Once
  started, it may exit with a status, the user may cancel, or an exception
  may occur. Whether a folder exists is the parameter
  `folderExists`. The child's output lines and its exit status are inputs.

Supporting definitions live in `Text`. It models the Python string
operations the program calls: `str.isspace` (also the regex class `\s`),
`str.strip()`, `str.replace(c, "")`, `str()` of an integer, and
`' '.join`. `Wrappers` holds `Option`, and `Sequences` holds three facts about
concatenated sequences.

The command assembler and the scraper are total functions, so equal inputs
always give identical vectors and values. This holds by construction and
needs no lemma.

The model keeps these details of the program's behaviour:

- The progress value is not clamped to 0..100: `"150%"` gives 150.
- Whitespace is allowed between the number and `%`: `"12 %"` gives 12.
- Format and resolution are free strings, not enumerations. A format label
  that is neither `MP3 (audio)` nor `Best Quality` takes the video branch.
  Every `'p'` is deleted from the resolution label, wherever it occurs.
- The folder in the output template is joined the way POSIX `os.path.join`
  does it. No separator is added when the folder is empty, and none is
  added when the folder already ends in `/`.

## Model

| member | source | states |
|---|---|---|
| Text.Strip | yt-dlp-gui/usr/share/yt-dlp-gui/yt.py:161 | The stripped text is empty exactly when every character is Python whitespace. Otherwise it neither starts nor ends with whitespace. |
| Text.StripPadded | yt-dlp-gui/usr/share/yt-dlp-gui/yt.py:180 | Strip removes exactly the whitespace padding. Any text whose ends are not whitespace is returned unchanged from inside any padding. |
| Text.RemoveChar | yt-dlp-gui/usr/share/yt-dlp-gui/yt.py:207 | `replace('p', '')` leaves no `'p'`. It keeps every other character that was present and adds none. |
| Text.IntToString | yt-dlp-gui/usr/share/yt-dlp-gui/yt.py:255 | The exit code is printed as its shortest decimal numeral, which reads back as the same integer: no leading zero except for 0 itself, and a leading `-` when the code is negative. |
| Text.WhitespaceTable | yt-dlp-gui/usr/share/yt-dlp-gui/yt.py:245 | The whitespace test that `strip()` and the pattern's `\s` use accepts exactly the 29 code points Python treats as whitespace. These are tab to carriage return, U+001C to space, U+0085, U+00A0, U+1680, U+2000 to U+200A, U+2028, U+2029, U+202F, U+205F and U+3000. |
| Text.Join | yt-dlp-gui/usr/share/yt-dlp-gui/yt.py:234 | `' '.join` gives the empty string for no parts and the part itself for one part. For more, it starts with the first part followed by the separator. |
| Text.JoinAppend | yt-dlp-gui/usr/share/yt-dlp-gui/yt.py:234 | Joining two non-empty lists gives their two joins with exactly one separator between them. With the one-part case of Join, this fixes the result: the parts in order, one separator between neighbours, none at the ends. |
| Command.JoinPath | yt-dlp-gui/usr/share/yt-dlp-gui/yt.py:188 | The file-name template is kept whole at the end. For a relative template, the folder is kept whole at the front. Between them there is one `/`, or none when the folder is empty or already ends in `/`. |
| Command.FormatFlags | yt-dlp-gui/usr/share/yt-dlp-gui/yt.py:198-208 | The audio label gives exactly `-x --audio-format mp3 --audio-quality 0`. Any other label gives four arguments, `-f <selector> --merge-output-format mp4`, whose selector starts with `b`. ParseFormatFlags reads the group back as SelectorOf's choice. |
| Command.FormatMarkers | yt-dlp-gui/usr/share/yt-dlp-gui/yt.py:198-208 | The format group holds `-x` exactly for the audio label and `-f` exactly for any other label. |
| Command.ParseFormatFlags | yt-dlp-gui/usr/share/yt-dlp-gui/yt.py:198-213 | Reading the format group, followed by the aria2 group or nothing, recovers the selector the labels choose and whether aria2 was set. |
| Command.Groups | yt-dlp-gui/usr/share/yt-dlp-gui/yt.py:190-213 | The optional arguments number between 4 and 16. They start with the thumbnail flags when that box is ticked and end with the aria2 flags when that box is ticked. ParseGroupsOf reads them back exactly. |
| Command.ParseGroupsOf | yt-dlp-gui/usr/share/yt-dlp-gui/yt.py:190-213 | Reading the optional arguments back recovers the thumbnail and subtitle choices, the selected format and the aria2 choice. |
| Command.BuildCommand | yt-dlp-gui/usr/share/yt-dlp-gui/yt.py:178-219 | The vector always starts `yt-dlp -o <joined template>` and always ends `--add-metadata <stripped url>`. It has between 9 and 21 arguments, because the format group is always present. |
| Command.SelectorOf | yt-dlp-gui/usr/share/yt-dlp-gui/yt.py:198-208 | Audio is selected exactly for `MP3 (audio)`. The best merged streams are selected exactly for other formats when the format is `Best Quality` or the resolution is `Best`. Otherwise the height cap is the resolution label with its `'p'`s removed. |
| Command.DecodeBuild | yt-dlp-gui/usr/share/yt-dlp-gui/yt.py:185-219 | Reading the assembled vector back gives exactly the intended request: output path, thumbnail, subtitles, selector, aria2 and stripped URL. So each group is present exactly when its option is set, and the groups appear in the fixed order. |
| Command.BuildCommandInjective | yt-dlp-gui/usr/share/yt-dlp-gui/yt.py:178-219 | Two choices that assemble the same vector stand for the same request. |
| Command.GroupPresence | yt-dlp-gui/usr/share/yt-dlp-gui/yt.py:190-213 | Among the optional arguments, `--write-thumbnail`, `--write-subs` and `--external-downloader` appear exactly when their box is ticked. `-x` appears exactly for the audio label, and `-f` appears exactly for any other label. |
| Command.GroupsInOrder | yt-dlp-gui/usr/share/yt-dlp-gui/yt.py:190-213 | The optional arguments are sorted by group: thumbnail, then subtitles, then format selection, then aria2. |
| Command.AudioIgnoresResolution | yt-dlp-gui/usr/share/yt-dlp-gui/yt.py:199-200 | For `MP3 (audio)` the resolution label has no effect. The format group is exactly `-x --audio-format mp3 --audio-quality 0`, and there is no `-f` and no height selector. |
| Command.BestSelectorChosen | yt-dlp-gui/usr/share/yt-dlp-gui/yt.py:201-205 | `Best Quality`, or any non-audio label with resolution `Best`, gives `-f bestvideo+bestaudio/best --merge-output-format mp4`. |
| Command.HeightFromLabel | yt-dlp-gui/usr/share/yt-dlp-gui/yt.py:206-208 | For a video label and a resolution `<N>p` with N in digits, the selector is `bestvideo[height<=N]+bestaudio/best`, merged into mp4. |
| Command.UrlOnlyLast | yt-dlp-gui/usr/share/yt-dlp-gui/yt.py:216-218 | Changing the URL changes only the last argument, which is the stripped URL. |
| Progress.TryAt | yt-dlp-gui/usr/share/yt-dlp-gui/yt.py:151 | A match found at a position really is a word of the pattern starting there. |
| Progress.TryAtFinds | yt-dlp-gui/usr/share/yt-dlp-gui/yt.py:151 | A match at a given start is unique, and the engine-order attempt there always finds it. This covers backtracking: the whole digit run, then the fraction if possible, then the whitespace run. |
| Progress.Search | yt-dlp-gui/usr/share/yt-dlp-gui/yt.py:151 | The search returns a match with no match starting before it. It returns nothing only when no position starts a match. |
| Progress.Percent | yt-dlp-gui/usr/share/yt-dlp-gui/yt.py:151-155 | A line gives a value exactly when some position starts a match of the pattern. PercentSpec says which value. |
| Progress.PercentSpec | yt-dlp-gui/usr/share/yt-dlp-gui/yt.py:151-155 | The scraped value is v exactly when the leftmost match's integer digits denote v. There is no value exactly when the line holds no match. |
| Progress.FirstMatchOnly | yt-dlp-gui/usr/share/yt-dlp-gui/yt.py:151 | Only the first match counts: text after a line's match never changes the value scraped from it. |
| Progress.UpdateProgress | yt-dlp-gui/usr/share/yt-dlp-gui/yt.py:148-157 | With a match, the progress becomes the scraped value, unclamped. Without one, it stays unchanged. |
| Progress.ExampleDownloadLine | yt-dlp-gui/usr/share/yt-dlp-gui/yt.py:151-155 | A yt-dlp line `[download]  37.5% of 10.00MiB` gives 37, so the fraction is truncated. |
| Progress.ExampleBacktracking | yt-dlp-gui/usr/share/yt-dlp-gui/yt.py:151 | In `1.2.3%` the match is `2.3`, giving 2. |
| Progress.ExampleUnclamped | yt-dlp-gui/usr/share/yt-dlp-gui/yt.py:154-155 | `150%` gives 150. The value is not clamped. |
| Progress.ExampleSpaceBeforeSign | yt-dlp-gui/usr/share/yt-dlp-gui/yt.py:151 | `12 %` gives 12, because whitespace may come before the sign. |
| Progress.ExampleNoMatch | yt-dlp-gui/usr/share/yt-dlp-gui/yt.py:152 | A line without a percentage gives nothing. |
| Session.Validate | yt-dlp-gui/usr/share/yt-dlp-gui/yt.py:159-176 | The request is accepted exactly when the stripped URL is non-empty, the folder text is non-empty and the folder exists. Otherwise the first failing check is reported, in that order. |
| Session.StartDownload | yt-dlp-gui/usr/share/yt-dlp-gui/yt.py:221-229 | A refused request changes nothing. An accepted one logs the start, sets progress to 0, disables start and enables cancel. |
| Session.OnLine | yt-dlp-gui/usr/share/yt-dlp-gui/yt.py:244-247 | A line that is blank after stripping is neither logged nor scraped. Any other line is appended to the log and scraped. |
| Session.ProcessLines | yt-dlp-gui/usr/share/yt-dlp-gui/yt.py:244-247 | The output loop only ever appends to the log, at most one entry per line. It leaves the buttons and the process handle alone. ProcessLinesSpec gives its result exactly. |
| Session.OnExit | yt-dlp-gui/usr/share/yt-dlp-gui/yt.py:249-255 | Exit status 0 sets progress to 100 and logs success. Any other status keeps the progress and logs the status. The buttons and the process handle are untouched. |
| Session.Release | yt-dlp-gui/usr/share/yt-dlp-gui/yt.py:263-266 | Every ending drops the process handle, enables start and disables cancel, and leaves progress and log alone. |
| Session.Cancel | yt-dlp-gui/usr/share/yt-dlp-gui/yt.py:270-277 | With a process held, cancel logs the cancellation, sets progress to 0, enables start and disables cancel, and the handle stays held. With no process held, it does nothing. |
| Session.Announce | yt-dlp-gui/usr/share/yt-dlp-gui/yt.py:233-234 | The worker's first step appends exactly one log entry, the command line with its arguments joined by single spaces. Progress, buttons and process handle are unchanged. |
| Session.Conclude | yt-dlp-gui/usr/share/yt-dlp-gui/yt.py:249-277 | Once a started process's output is read, exactly one message is logged for its ending: the exit status (249-255), the generic exception handler (260-261) or the cancel handler (273-277). Status 0 sets progress to 100, a cancel sets it to 0, and a failure status or an exception leaves it. The handle is still held. |
| Session.Supervise | yt-dlp-gui/usr/share/yt-dlp-gui/yt.py:231-262 | A start that fails logs one message and changes nothing else, because no handle was obtained. `FileNotFoundError` gives the not-found message; any other exception gives the generic error message. A started process keeps its handle until the `finally`, and the log gains the non-blank output lines and then the ending's message. |
| Session.Run | yt-dlp-gui/usr/share/yt-dlp-gui/yt.py:221-268 | Refused input leaves the window unchanged and starts no process. Every accepted run ends with start enabled, cancel disabled and no process held. |
| Session.BlankHasNoPercent | yt-dlp-gui/usr/share/yt-dlp-gui/yt.py:245-247 | A blank line holds no percentage, so skipping it loses no progress sample. |
| Session.ProcessLinesSpec | yt-dlp-gui/usr/share/yt-dlp-gui/yt.py:244-247 | After the output loop, the log has gained exactly the non-blank lines in order. The progress is the value from the last line holding a percentage, or the old value if no line does. Buttons and process handle are untouched. |
| Session.RunProgress | yt-dlp-gui/usr/share/yt-dlp-gui/yt.py:249-255 | An accepted run ends with progress 100 after status 0, and 0 after a cancel or a failed start. After any other ending, progress is the last scraped value, or the 0 it was reset to at start. |
| Session.RunLog | yt-dlp-gui/usr/share/yt-dlp-gui/yt.py:226-261 | The log of an accepted run is the start notice and the command line. Then comes either the one message of a failed start, or every non-blank output line in order followed by the one message of the process's ending. |

## Left out

- Widget construction, the dark theme, the folder dialog, the error dialogs and the default folder are presentation and OS plumbing (`Path.home()`, `Downloads`). So is `_on_format_change`, which only greys out the resolution box. The error dialogs' texts are not modelled; `Session.InputError` names which check failed.
- `subprocess.Popen`, reading its output, and waiting for it are not modelled: the output lines and the exit status are inputs. A start that raises `FileNotFoundError` is the `ToolMissing` outcome. A start that raises any other exception, such as a permission or exec-format error, is `StartFailed(message)`: it reaches the generic handler, which logs the error, and no handle is held. An exception after the start is `Crashed(message)`, taken after the lines read before it.
- Threads are not modelled, nor the real interleaving of `_cancel_download` with the worker. In the program, after `terminate()` the worker can still log lines that were already buffered. It then logs "failed with error code" for the terminated child's nonzero status before its `finally` runs. The `Cancelled` ending models the cancel handler followed by that `finally`, and nothing in between.
- Progress.Percent: the number's integer part is taken from its digits. Python's `float` then `int` behave differently on extremes, and those extremes are not modelled. A fraction long enough to round up to the next integer gives the larger value. A digit string too long for a float makes `int()` raise an overflow error, which `_update_progress` does not catch. The `ValueError`/`IndexError` handler cannot be reached for a string that matches the pattern.
- Text.IsDigit: only ASCII digits are modelled. In a `str` pattern, `\d` also matches other Unicode decimal digits, which `float` accepts too.
- `os.path.exists` is the parameter `folderExists`, not modelled further.
- The "Starting download" log line and the button changes happen on the display thread before the worker runs. The model runs them first, in the same order.
