# plex_converter in Dafny

A model of `PlexConverter` from `plex_converter.py`, a tool that re-encodes
video files to H.264/AAC in MP4 by driving `ffmpeg`. It covers:

- how `convert_file` picks the output path: the caller's path unchanged, or
  `stem + "_plex.mp4"` next to the input, with pathlib's `name`, `stem` and
  `with_name` rules (`paths.dfy`);
- the `ffmpeg` argument list it builds from the settings (`command.dfy`);
- how it reads the encoder's diagnostic stream (`progress.dfy`). It takes the
  token after the first `time=`, splits it into `h:m:s`, and turns the elapsed
  time into a percentage of the probed duration. The percentage is not
  clamped. A malformed time is passed over, and an empty token raises;
- the outcomes of `convert_file` (`converter.dfy`): missing input, declined
  overwrite, failure to probe or start, exit status, an exception from a
  status line, and interrupt with cleanup of the output;
- `batch_convert` (`batch.dfy`): one candidate list built up front from the
  seven per-extension listings, a confirmation, then every file converted
  once in order with success and failure counters.

The string operations these rely on are in `text.dfy`: `find`, `split` with a
separator, `split()` on whitespace, `int()`, `str()`, a decimal `float()`
and `lower()`.

The converter's settings are an immutable `Config` (its attributes are set
once by the constructor and never reassigned). The outside world is a `Host`
object holding the set of existing paths and a log of events:

- the encoder started with a command line;
- the encoder sent terminate;
- a path unlinked.

The host is changed in place by the imperative `ConvertFile`, `RunEncoder`,
`ConvertNext`, `ConvertAll` and `BatchConvert`. The loops that do not touch
the host, `ReadProgress` and `CollectCandidates`, are methods as well. Each of
these methods is proved equal to a specification function (`Convert`,
`Encode`, `Monitor`, `Flatten`, `Conversions`, `BatchSpec`). The properties
are proved as lemmas about those functions.

What the program learns from outside is a `Job` given up front:

- the answer typed at the overwrite prompt;
- the duration probe (a float, None, or ffprobe missing);
- whether starting the encoder fails;
- the encoder's diagnostic lines;
- after how many lines a KeyboardInterrupt arrives (equal to the line count
  means during the final wait);
- the exit status;
- whether the output path exists once the encoder stops.

Three behaviours of the code are worth stating outright:

- The percentage is `elapsed / duration * 100` with no clamp, so a 150-second
  timestamp against a 100-second probe reports 150 (`EffectIsNotClamped`).
- `convert_file` returns a plain bool. There is no Skipped or Cancelled outcome:
  a declined overwrite, an interrupt and a failure all return False.
- Not every per-file fault is turned into a result. `with_name` runs outside
  the `try`, so an existing input with an empty name (such as `/`) raises
  ValueError out of `convert_file` (`RaisesOnlyForNamelessInput`). An exception
  from a status line returns False without terminating the encoder or removing
  its output (`CrashLeavesEncoderAlone`).

## Model

| member | source | states |
|---|---|---|
| Paths.DefaultOutput | plex_converter.py:51 | `with_name(stem + '_plex.mp4')` keeps the input's directory and names the file after the input's stem |
| Paths.OutputPath | plex_converter.py:50-53 | a given output path is used unchanged; otherwise the output is in the input's directory and is named the input's stem followed by `_plex.mp4` |
| Paths.StemAndSuffix | plex_converter.py:51 | pathlib's stem and suffix split the name in two; the suffix is empty or a dot, at least one character and no further dot; the stem of a non-empty name is non-empty |
| Paths.DefaultOutputIsNotInput | plex_converter.py:51 | the derived output path never equals the input path |
| Paths.DefaultOutputOfDotted | plex_converter.py:51 | for `dir/base.ext` only the last extension is dropped and the directory is kept: `dir/base_plex.mp4` (with no directory, `movie.mkv` gives `movie_plex.mp4`) |
| Paths.SuffixStart | plex_converter.py:51 | pathlib's suffix starts at the last dot of the name, and only when that dot is neither the first nor the last character |
| Paths.Stem | plex_converter.py:51 | the name without its suffix; `StemAndSuffix` proves the two split the name |
| Paths.Suffix | plex_converter.py:51 | the final `.ext` of the name, or empty; `StemAndSuffix` proves its shape |
| Paths.WithName | plex_converter.py:51 | `with_name` keeps the directory and replaces the final component: for a name without separator, the new path's name is that name and its directory is the old one |
| Paths.Name | plex_converter.py:51 | the name is the text after the last separator and holds no separator |
| Paths.Directory | plex_converter.py:51 | the directory part followed by the name is the whole path, and it is empty or ends in a separator |
| Command.BaseArguments | plex_converter.py:67-77 | the 17 arguments always passed, with the input, preset, quality and audio bitrate in their places |
| Command.EncoderCommand | plex_converter.py:67-82 | the command is the 17-argument base list, then `-c:s mov_text` exactly when subtitles are copied, then the output path last; its length is 18 or 20 |
| Command.ReadEncoderCommand | plex_converter.py:67-82 | settings, input and output can be read back from the command line built from them |
| Command.EncoderCommandInjective | plex_converter.py:67-82 | different settings, inputs or outputs never give the same command line |
| Command.DefaultCommand | plex_converter.py:67-82 | with the constructor's defaults, `movie.mkv` is encoded with `-preset slow -crf 22 -b:a 192k`, no subtitle codec, output `movie_plex.mp4` |
| Text.IntToDecimal | plex_converter.py:72 | `str(q)` is non-empty and starts with `-` exactly for a negative quality; `IntDecimalRoundTrip` reads it back |
| Text.ParseNat | plex_converter.py:105 | `int(hours)` and `int(minutes)` on digit strings: the decimal value, None otherwise; `NatDigitsRoundTrip` reads back the digits of every value |
| Text.Contains | plex_converter.py:97 | `'time=' in line`, via the leftmost occurrence |
| Text.ContainsExactly | plex_converter.py:97 | `pat in s` holds exactly when `pat` occurs at some position of `s` |
| Text.IntDecimalRoundTrip | plex_converter.py:72 | `int(str(q)) == q` for every integer quality, negative ones included |
| Text.Split | plex_converter.py:99 | the parts joined with the separator give back the string; no part holds the separator; there are two or more parts exactly when the separator occurs |
| Text.FirstWord | plex_converter.py:99 | `split()[0]` fails exactly on all-whitespace text; otherwise it is a non-empty word without whitespace |
| Text.FirstWordIs | plex_converter.py:99 | after leading whitespace, the first word is the run of non-whitespace up to the next whitespace or the end |
| Text.DecimalValue | plex_converter.py:105 | `float("w.f")` for digit strings w and f is the whole part plus the exact decimal fraction |
| Text.Lower | plex_converter.py:58 | `lower()` keeps the length and lowers each character on its own |
| Text.Affirmative | plex_converter.py:58 | the prompts' test `answer.lower() == 'y'`; `AffirmativeAnswers` states which answers pass |
| Text.AffirmativeAnswers | plex_converter.py:58 | `answer.lower() == 'y'` holds exactly for `y` and `Y` |
| Progress.ParseTime | plex_converter.py:102-105 | a time comes back exactly when the token has three colon-separated fields, the first two digit strings and the third a decimal; any other field count, or a non-numeric field, gives none; a parsed time is never negative |
| Progress.FieldsTime | plex_converter.py:103-105 | on the fields of a token: a time exactly for three fields that read as `int`, `int` and `float`, and then never negative |
| Text.ParseDecimal | plex_converter.py:105 | `float(seconds)` over digits with an optional `.digits` fraction is never negative |
| Progress.ParseTimeOfFields | plex_converter.py:102-105 | `h:m:s` with digit fields and a decimal seconds field is `h*3600 + m*60 + s` seconds |
| Progress.ParseTimeExample | plex_converter.py:102-105 | `01:02:03.50` is 3723.5 seconds |
| Progress.ParseTimeTwoFields | plex_converter.py:103 | a token with two fields gives no time (every other count is covered by `ParseTime`) |
| Progress.ParseTimeNotAvailable | plex_converter.py:102-103 | ffmpeg's `time=N/A` has one field and gives no time |
| Progress.TimeToken | plex_converter.py:99 | the token after the first marker is missing exactly when only whitespace lies between the first `time=` and the next `time=` or the end of the line; otherwise it is a non-empty word without whitespace |
| Progress.TimeTokenIs | plex_converter.py:99 | the token of `pre time=token post` is `token` when the token ends at whitespace and neither `pre` nor `token post` holds a marker (with a second marker inside `token post`, the text after the first marker is cut at the second) |
| Progress.Effect | plex_converter.py:97-109 | a line reports only with a truthy duration, a marker and a parsable time; it raises exactly when a truthy duration meets a line holding a marker where only whitespace lies between the first `time=` and the next `time=` or the end of the line (for fields within the limits the "Effect:" line under Left out names) |
| Progress.EffectReportsPercent | plex_converter.py:106 | a line whose time parses reports `elapsed / duration * 100`, without a bound |
| Progress.EffectIsNotClamped | plex_converter.py:106 | `time=00:02:30.00` against a 100-second duration reports 150 percent |
| Progress.EffectOfEmptyToken | plex_converter.py:97-99 | a line whose first `time=` is followed only by whitespace raises once a truthy duration is known |
| Progress.EffectOfBareMarker | plex_converter.py:97-99 | the line `time= ` raises once a truthy duration is known |
| Progress.EffectWithoutDuration | plex_converter.py:97 | with no duration, or a zero duration, no line is looked at |
| Progress.Monitor | plex_converter.py:96-111 | the reading loop as a function: the reports shown in order and how the loop stops; it never shows more reports than there are lines |
| Progress.MonitorDrains | plex_converter.py:96-111 | without interrupt or exception the loop reads every line and shows every report in order |
| Progress.MonitorInterrupted | plex_converter.py:96-120 | an interrupt after k lines stops the loop there, with the reports of those k lines shown |
| Progress.MonitorCrashes | plex_converter.py:96-109 | the first line with an empty token ends the loop with an exception, after the reports of the lines before it |
| Progress.MonitorWithoutDuration | plex_converter.py:96-97 | with no truthy duration nothing is reported, and the loop ends by draining or by interrupt |
| Progress.ReadLine | plex_converter.py:97-109 | the body of the loop for one line has the effect `Effect` gives |
| Progress.ReadProgress | plex_converter.py:96-109 | the loop shows the percentages and ends the way `Monitor` gives |
| Converter.Convert | plex_converter.py:42-129 | `convert_file` as a function, early exits in source order; the lemmas below state its outcomes |
| Converter.Encode | plex_converter.py:84-129 | from the start of the encoder on: the reading loop decides between the exit status, an exception, and terminate-and-unlink |
| Converter.ConvertFile | plex_converter.py:42-129 | the outcome, the reports, the paths left and the events appended are those of `Convert` |
| Converter.RunEncoder | plex_converter.py:84-126 | from the start of the encoder on, the outcome, paths and events are those of `Encode` |
| Converter.TrueExactlyOnCleanExit | plex_converter.py:111-118 | `convert_file` returns True exactly when the encoder was started, its stream was drained without interrupt or exception, and it exited with status 0 |
| Converter.RaisesOnlyForNamelessInput | plex_converter.py:50-51 | ValueError escapes exactly for an existing input without a name when no output is given |
| Converter.EarlyExitChangesNothing | plex_converter.py:46-60 | a missing input, or an existing output with an answer other than `y` or `Y`, returns False with nothing started, created or removed |
| Converter.OnlyOutputChanges | plex_converter.py:42-129 | no path other than the output path is ever created or removed |
| Converter.EncoderStartedWithCommand | plex_converter.py:67-93 | once started, the encoder is the first event, with the command built from the settings, input and output |
| Converter.InterruptRemovesOutput | plex_converter.py:120-126 | an interrupt terminates the encoder, leaves no file at the output path (even one approved for overwrite) and returns False; the unlink happens exactly when a file was there |
| Converter.CrashLeavesEncoderAlone | plex_converter.py:127-129 | an exception from a status line returns False without terminating the encoder or removing its output |
| Converter.InterruptWithInputAsOutput | plex_converter.py:120-126 | with the input given as the output and the overwrite approved, an interrupt deletes the input |
| Converter.Host.Exists | plex_converter.py:46 | a path exists exactly when it is in the host's set |
| Converter.Host.Spawn | plex_converter.py:89-93 | starting the encoder logs the command line and changes no path |
| Converter.Host.Settle | plex_converter.py:89-111 | when the encoder stops, the output path exists or not as the encoder left it; nothing is logged |
| Converter.Host.Terminate | plex_converter.py:122 | `terminate()` logs the signal and changes no path |
| Converter.Host.Unlink | plex_converter.py:125 | unlinking removes the path and logs the removal |
| Batch.Flatten | plex_converter.py:136-137 | the listings concatenated in extension order; `FlattenAppend` and `FlattenMembers` state its properties |
| Batch.CollectCandidates | plex_converter.py:136-137 | the candidate list is the seven listings concatenated in extension order |
| Batch.FlattenAppend | plex_converter.py:136-137 | listing one more extension appends its paths after all earlier ones |
| Batch.FlattenMembers | plex_converter.py:136-137 | a path is a candidate exactly when some listing holds it |
| Batch.ListedHaveNames | plex_converter.py:137 | every candidate has a non-empty name, so its output path can be derived |
| Batch.Conversions | plex_converter.py:155-160 | one run per candidate, in order, each from the paths the previous one left |
| Batch.ConversionsInOrder | plex_converter.py:155-160 | the i-th conversion is `convert_file` on the i-th candidate, against the paths the earlier ones left |
| Batch.ConversionsSnoc | plex_converter.py:155-160 | one more candidate adds one conversion, from where the earlier ones left off |
| Batch.ConversionsReturn | plex_converter.py:155-157 | when every candidate has a name, no conversion in the batch raises |
| Batch.Failures | plex_converter.py:159-160 | `failed` counts the runs that did not return True, and never exceeds the number of runs |
| Batch.Successes | plex_converter.py:157-158 | `successful` counts the runs that returned True, and never exceeds the number of runs |
| Batch.SuccessesAndFailures | plex_converter.py:157-160 | every run is counted exactly once, as a success or as a failure |
| Batch.CountersAddUp | plex_converter.py:152-160 | after a confirmed batch, the two counters, each counted by its own branch, add up to the number of candidates, and `successful` counts the True returns |
| Batch.NothingWithoutConfirmation | plex_converter.py:139-150 | with no candidates, or a confirmation other than `y` or `Y`, nothing is converted and nothing changes |
| Batch.ConvertNext | plex_converter.py:155-160 | one turn of the loop appends one run and adds one to exactly one counter |
| Batch.ConvertAll | plex_converter.py:152-160 | the counting loop converts every candidate once in order; `successful` and `failed` are the True and non-True runs of `Conversions` |
| Batch.BatchSpec | plex_converter.py:131-164 | `batch_convert` as a function: no candidates, a declined confirmation, or every candidate converted with both counters |
| Batch.BatchConvert | plex_converter.py:131-164 | the result, the paths left and the events are those of `BatchSpec` |

## Left out

- Console output is left out: the `print` calls, the `\r` progress line and the `{:.1f}` formatting.
- `check_ffmpeg` and `main` (argument parsing) are left out. The quality range and the preset choices are checked only there, so `Config` accepts any values.
- Starting `ffprobe` and reading its output (`get_duration`) become the `Probe` oracle. The oracle is a float, None (non-zero exit or unparsable output), or a missing program (FileNotFoundError, which `get_duration` does not catch).
- The encoder process becomes data: its diagnostic lines, exit status, and whether the output exists when it stops. Its concurrent writing, its own overwrite question (the command has no `-y`), and anything it does after `convert_file` returns in the exception path are not modelled.
- Interrupts are modelled only while the diagnostic stream is read or during the final wait. Left out are an interrupt before the `try` (lines 44-83, including the overwrite prompt), where KeyboardInterrupt itself escapes `convert_file`; an interrupt inside the `try` before `Popen` returns, where `process` is unbound and an UnboundLocalError escapes the handler; and an interrupt inside the cleanup itself. `output_file.unlink()` in the cleanup can itself raise (a permission error, say); that exception leaves `convert_file` from inside the `except KeyboardInterrupt` handler, since the sibling `except Exception` does not catch it. `Host.Unlink` never fails, so this escape is not modelled. Also left out is end of input at a prompt (EOFError).
- Undecodable bytes in the diagnostic stream are left out. They raise UnicodeDecodeError into the generic handler, and the lines are modelled as already decoded text.
- ParseTime: fields are digit strings, and the seconds field may have one `.digits` fraction. Python's `int()` and `float()` also accept signs, surrounding whitespace, underscores, exponents, `inf`, `nan`, `5.`, `.5` and non-ASCII digits. A time such as `-01:00:00.00` would report a negative percentage in the program but is passed over here. Likewise a negative-zero time such as `-00:00:00.50`, which the encoder can print at the start of a stream, is reported by the program (`int("-00")` is 0) and passed over here.
- Effect: the time and the percentage are exact reals, not binary floating point, so rounding and infinities are not modelled. Two consequences for very long fields are not captured. When `int(hours) * 3600 + int(minutes) * 60` is beyond float range, adding `float(seconds)` raises OverflowError; that is not a ValueError, so it ends the conversion with False through the generic handler. The model reports a percentage instead. When a field has more digits than the interpreter's integer-string limit (4300 by default since Python 3.11), `int()` raises ValueError and the line is passed over. The model reports it instead. So Effect's raise condition (a truthy duration, and only whitespace lies between the first `time=` and the next `time=` or the end of the line) and its report condition hold only for fields within those limits.
- Lower: only ASCII letters are mapped. No other character's lower case is `y`, so the prompts' test `Affirmative` is unaffected.
- Paths are taken in pathlib's normal form with `/` separators: no `.` components, no repeated or trailing separators, and no Windows drives. The normalisation done by `Path(...)` and `str(...)` is not modelled.
- `Path.exists` is membership in the host's set. Permission errors and broken links are not modelled.
- The filesystem is a set of path spellings. One file reached under two spellings (`..`, links, a relative and an absolute path) is two entries here. So `OnlyOutputChanges` and `InterruptWithInputAsOutput` hold for each spelling, not for each file.
- The directory listings are inputs that are not tied to the host's set of paths. A listed path need not exist, in which case its conversion returns False at the existence check.
- The order of files within one extension's listing, and whether matching ignores case, depend on the platform. Each listing is therefore an input sequence.
- BatchConvert: requires each listed path's name to end with its listing's extension. This is what `glob('*ext')` yields. It rules out the ValueError that a nameless path would raise out of the batch.
