/**
 * `PlexConverter.convert_file`: one input file through existence check,
 * output-path derivation, overwrite prompt, encoder run with progress, and
 * the cleanup on interrupt (plex_converter.py:42-129).
 *
 * The world the converter acts on is a `Host`: the set of paths that exist
 * and the log of what was done to child processes and files. Everything the
 * converter learns from outside (the prompt answer, the probe, the child's
 * diagnostic lines, exit code and effect on the output, an interrupt) is a
 * `Job` given up front.
 */
module Converter {
  import opened Wrappers
  import opened Text
  import opened Paths
  import opened Command
  import opened Progress

  /** What the converter does to the outside world, in order. */
  datatype Event =
    | Spawned(cmd: seq<string>)  // the encoder is started with this command line
    | Terminated                 // the encoder is sent terminate
    | Removed(path: string)      // the path is unlinked

  /** The duration probe: its answer, or ffprobe missing altogether. */
  datatype Probe =
    | Probed(duration: Option<real>)  // `get_duration` returned a float or None
    | ProbeMissing                    // FileNotFoundError escapes `get_duration`

  /**
   * What the outside world answers during one conversion:
   * `answer` is typed at the overwrite prompt; `spawnFails` says starting the
   * encoder raises; `stderr` is its diagnostic stream; `interruptAfter` is
   * the number of lines read when KeyboardInterrupt arrives, if it does;
   * `exitCode` is the encoder's status; `outputLeft` says whether the output
   * path exists once the encoder has stopped.
   */
  datatype Job = Job(
    answer: string,
    probe: Probe,
    spawnFails: bool,
    stderr: seq<string>,
    interruptAfter: Option<nat>,
    exitCode: int,
    outputLeft: bool)

  /** How `convert_file` ends: it returns a bool, or `with_name` raises ValueError. */
  datatype Outcome = Returned(ok: bool) | RaisedValueError

  /** One conversion: its outcome, the percentages shown, the paths left, the events. */
  datatype Run = Run(outcome: Outcome, reported: seq<real>, after: set<string>, events: seq<Event>)

  /** The state `convert_file` leaves when it gives up without touching anything. */
  function Untouched(files: set<string>, outcome: Outcome): Run
  {
    Run(outcome, [], files, [])
  }

  /**
   * `convert_file(input, output)` against the paths in `files`, as a function.
   * The early exits (missing input, nameless input, declined overwrite,
   * missing ffprobe, encoder that cannot start) change nothing. Once the
   * encoder runs, the reading loop decides: a drained stream returns whether
   * the exit code is zero, an exception from a line returns False leaving
   * the encoder and its output alone, and an interrupt terminates the
   * encoder and removes the output.
   */
  function Convert(cfg: Config, files: set<string>, input: string, output: Option<string>, job: Job): Run
  {
    if input !in files then Untouched(files, Returned(false))
    else if output.None? && Name(input) == "" then Untouched(files, RaisedValueError)
    else
      var out := OutputPath(input, output);
      if out in files && !Affirmative(job.answer) then Untouched(files, Returned(false))
      else if job.probe.ProbeMissing? || job.spawnFails then Untouched(files, Returned(false))
      else Encode(files, out, EncoderCommand(cfg, input, out), job)
  }

  /**
   * The part of `convert_file` after the encoder has started with `cmd`,
   * writing to `out`.
   */
  function Encode(files: set<string>, out: string, cmd: seq<string>, job: Job): Run
    requires job.probe.Probed?
  {
    var m := Monitor(job.probe.duration, job.stderr, job.interruptAfter);
    var written := if job.outputLeft then files + {out} else files - {out};
    match m.stop
    case Drained => Run(Returned(job.exitCode == 0), m.reported, written, [Spawned(cmd)])
    case Crashed => Run(Returned(false), m.reported, written, [Spawned(cmd)])
    case Interrupted =>
      var cleanup := if out in written then [Removed(out)] else [];
      Run(Returned(false), m.reported, written - {out}, [Spawned(cmd), Terminated] + cleanup)
  }

  /** The paths that exist, and everything done to processes and files so far. */
  class Host {
    var files: set<string>
    var log: seq<Event>

    constructor(existing: set<string>)
      ensures files == existing && log == []
    {
      files := existing;
      log := [];
    }

    /** `Path.exists()`. */
    method Exists(path: string) returns (b: bool)
      ensures b <==> path in files
    {
      b := path in files;
    }

    /** `Popen(cmd)`: the encoder starts. */
    method Spawn(cmd: seq<string>)
      modifies this
      ensures files == old(files) && log == old(log) + [Spawned(cmd)]
    {
      log := log + [Spawned(cmd)];
    }

    /** The encoder stops writing: `out` exists afterwards exactly when `left`. */
    method Settle(out: string, left: bool)
      modifies this
      ensures files == if left then old(files) + {out} else old(files) - {out}
      ensures log == old(log)
    {
      files := if left then files + {out} else files - {out};
    }

    /** `process.terminate()`. */
    method Terminate()
      modifies this
      ensures files == old(files) && log == old(log) + [Terminated]
    {
      log := log + [Terminated];
    }

    /** `Path.unlink()` on an existing path. */
    method Unlink(path: string)
      requires path in files
      modifies this
      ensures files == old(files) - {path} && log == old(log) + [Removed(path)]
    {
      files := files - {path};
      log := log + [Removed(path)];
    }
  }

  /**
   * `convert_file`, step by step against the host: its outcome, the
   * percentages shown, the paths left and the events appended are those
   * `Convert` gives.
   */
  method ConvertFile(cfg: Config, host: Host, input: string, output: Option<string>, job: Job)
    returns (outcome: Outcome, reported: seq<real>)
    modifies host
    ensures var r := Convert(cfg, old(host.files), input, output, job);
            outcome == r.outcome && reported == r.reported
            && host.files == r.after && host.log == old(host.log) + r.events
  {
    reported := [];
    var present := host.Exists(input);
    if !present {
      return Returned(false), [];
    }
    var out: string;
    if output.None? {
      if Name(input) == "" {
        return RaisedValueError, [];
      }
      out := WithName(input, Stem(Name(input)) + "_plex.mp4");
    } else {
      out := output.value;
    }
    assert out == OutputPath(input, output);
    var taken := host.Exists(out);
    if taken && Lower(job.answer) != "y" {
      return Returned(false), [];
    }
    var cmd := BaseArguments(cfg, input);
    if cfg.copySubtitles {
      cmd := cmd + SubtitleArguments;
    }
    cmd := cmd + [out];
    assert cmd == EncoderCommand(cfg, input, out);
    if job.probe.ProbeMissing? || job.spawnFails {
      return Returned(false), [];
    }
    ConvertStarted(cfg, host.files, input, output, job);
    outcome, reported := RunEncoder(host, out, cmd, job);
  }

  /** From `Popen` on: start the encoder, read its stream, then wait or clean up. */
  method RunEncoder(host: Host, out: string, cmd: seq<string>, job: Job)
    returns (outcome: Outcome, reported: seq<real>)
    requires job.probe.Probed?
    modifies host
    ensures var r := Encode(old(host.files), out, cmd, job);
            outcome == r.outcome && reported == r.reported
            && host.files == r.after && host.log == old(host.log) + r.events
  {
    host.Spawn(cmd);
    var stop;
    reported, stop := ReadProgress(job.probe.duration, job.stderr, job.interruptAfter);
    host.Settle(out, job.outputLeft);
    assert host.log == old(host.log) + [Spawned(cmd)];
    match stop {
      case Drained =>
        outcome := Returned(job.exitCode == 0);
      case Crashed =>
        outcome := Returned(false);
      case Interrupted =>
        host.Terminate();
        var left := host.Exists(out);
        if left {
          host.Unlink(out);
          assert host.log == old(host.log) + ([Spawned(cmd), Terminated] + [Removed(out)]);
        } else {
          assert host.log == old(host.log) + ([Spawned(cmd), Terminated] + []);
        }
        outcome := Returned(false);
    }
  }

  // ---------------------------------------------------------------------------
  // Properties of a single conversion
  // ---------------------------------------------------------------------------

  /** The conditions under which the encoder is started at all. */
  predicate Starts(files: set<string>, input: string, output: Option<string>, job: Job)
  {
    && input in files
    && (output.Some? || Name(input) != "")
    && (OutputPath(input, output) !in files || Affirmative(job.answer))
    && job.probe.Probed?
    && !job.spawnFails
  }

  /** Once the encoder starts, the rest of the call is `Encode`. */
  lemma ConvertStarted(cfg: Config, files: set<string>, input: string, output: Option<string>, job: Job)
    requires Starts(files, input, output, job)
    ensures Convert(cfg, files, input, output, job)
         == Encode(files, OutputPath(input, output), EncoderCommand(cfg, input, OutputPath(input, output)), job)
  {
  }

  /** When the encoder does not start, nothing changes and only a nameless input raises. */
  lemma ConvertNotStarted(cfg: Config, files: set<string>, input: string, output: Option<string>, job: Job)
    requires !Starts(files, input, output, job)
    ensures Convert(cfg, files, input, output, job)
         == Untouched(files, if input in files && output.None? && Name(input) == "" then RaisedValueError else Returned(false))
  {
  }

  /** After the start: True exactly on a drained stream and status 0; the start is logged first. */
  lemma EncodeOutcome(files: set<string>, out: string, cmd: seq<string>, job: Job)
    requires job.probe.Probed?
    ensures var r := Encode(files, out, cmd, job);
            && r.outcome == Returned(Monitor(job.probe.duration, job.stderr, job.interruptAfter).stop == Drained && job.exitCode == 0)
            && |r.events| >= 1 && r.events[0] == Spawned(cmd)
  {
    var m := Monitor(job.probe.duration, job.stderr, job.interruptAfter);
    match m.stop
    case Drained =>
    case Crashed =>
    case Interrupted =>
  }

  /** After the start, only `out` may appear or disappear. */
  lemma EncodeOnlyOutput(files: set<string>, out: string, cmd: seq<string>, job: Job)
    requires job.probe.Probed?
    ensures Encode(files, out, cmd, job).after - {out} == files - {out}
  {
    var written := if job.outputLeft then files + {out} else files - {out};
    assert written - {out} == files - {out};
    assert written - {out} - {out} == files - {out};
  }

  /** An interrupt after the start: terminate, then unlink the output if it exists. */
  lemma EncodeInterrupted(files: set<string>, out: string, cmd: seq<string>, job: Job)
    requires job.probe.Probed?
    requires Monitor(job.probe.duration, job.stderr, job.interruptAfter).stop == Interrupted
    ensures var r := Encode(files, out, cmd, job);
            && r.outcome == Returned(false)
            && out !in r.after
            && r.events[..2] == [Spawned(cmd), Terminated]
            && (Removed(out) in r.events <==> job.outputLeft)
  {
    var written := if job.outputLeft then files + {out} else files - {out};
    assert out in written <==> job.outputLeft;
  }

  /** An exception from a line after the start: no terminate, no unlink. */
  lemma EncodeCrashed(files: set<string>, out: string, cmd: seq<string>, job: Job)
    requires job.probe.Probed?
    requires Monitor(job.probe.duration, job.stderr, job.interruptAfter).stop == Crashed
    ensures var r := Encode(files, out, cmd, job);
            && r.outcome == Returned(false)
            && r.events == [Spawned(cmd)]
            && (out in r.after <==> job.outputLeft)
  {
  }

  /**
   * `convert_file` returns True exactly when the encoder was started, its
   * stream was read to the end without interrupt or exception, and it
   * exited with status 0.
   */
  lemma TrueExactlyOnCleanExit(cfg: Config, files: set<string>, input: string, output: Option<string>, job: Job)
    ensures Convert(cfg, files, input, output, job).outcome == Returned(true)
        <==> Starts(files, input, output, job)
             && Monitor(job.probe.duration, job.stderr, job.interruptAfter).stop == Drained
             && job.exitCode == 0
  {
    if Starts(files, input, output, job) {
      var out := OutputPath(input, output);
      ConvertStarted(cfg, files, input, output, job);
      EncodeOutcome(files, out, EncoderCommand(cfg, input, out), job);
    } else {
      ConvertNotStarted(cfg, files, input, output, job);
    }
  }

  /** ValueError escapes only for an existing input without a name and no output given. */
  lemma RaisesOnlyForNamelessInput(cfg: Config, files: set<string>, input: string, output: Option<string>, job: Job)
    ensures Convert(cfg, files, input, output, job).outcome == RaisedValueError
        <==> input in files && output.None? && Name(input) == ""
  {
    if Starts(files, input, output, job) {
      var out := OutputPath(input, output);
      ConvertStarted(cfg, files, input, output, job);
      EncodeOutcome(files, out, EncoderCommand(cfg, input, out), job);
    } else {
      ConvertNotStarted(cfg, files, input, output, job);
    }
  }

  /**
   * A missing input, or an existing output whose answer is not `y` or `Y`,
   * ends the call with False before anything is started, created or removed.
   */
  lemma EarlyExitChangesNothing(cfg: Config, files: set<string>, input: string, output: Option<string>, job: Job)
    requires input !in files
          || ((output.Some? || Name(input) != "")
              && OutputPath(input, output) in files && job.answer != "y" && job.answer != "Y")
    ensures Convert(cfg, files, input, output, job) == Run(Returned(false), [], files, [])
  {
    AffirmativeAnswers(job.answer);
    ConvertNotStarted(cfg, files, input, output, job);
  }

  /**
   * Whatever happens, the output path is the only one that may be created
   * or removed.
   */
  lemma OnlyOutputChanges(cfg: Config, files: set<string>, input: string, output: Option<string>, job: Job)
    requires output.Some? || Name(input) != ""
    ensures var r := Convert(cfg, files, input, output, job);
            r.after - {OutputPath(input, output)} == files - {OutputPath(input, output)}
  {
    var out := OutputPath(input, output);
    if Starts(files, input, output, job) {
      ConvertStarted(cfg, files, input, output, job);
      EncodeOnlyOutput(files, out, EncoderCommand(cfg, input, out), job);
    } else {
      ConvertNotStarted(cfg, files, input, output, job);
    }
  }

  /**
   * Once started, the encoder is the first thing in the log, with the
   * command line built from the settings, the input and the output path.
   */
  lemma EncoderStartedWithCommand(cfg: Config, files: set<string>, input: string, output: Option<string>, job: Job)
    requires Starts(files, input, output, job)
    ensures var r := Convert(cfg, files, input, output, job);
            |r.events| >= 1 && r.events[0] == Spawned(EncoderCommand(cfg, input, OutputPath(input, output)))
  {
    var out := OutputPath(input, output);
    ConvertStarted(cfg, files, input, output, job);
    EncodeOutcome(files, out, EncoderCommand(cfg, input, out), job);
  }

  /**
   * An interrupt while the encoder runs terminates it and leaves no file at
   * the output path, whether the encoder wrote one or it existed before and
   * the user agreed to overwrite it; the call returns False.
   */
  lemma InterruptRemovesOutput(cfg: Config, files: set<string>, input: string, output: Option<string>, job: Job)
    requires Starts(files, input, output, job)
    requires Monitor(job.probe.duration, job.stderr, job.interruptAfter).stop == Interrupted
    ensures var r := Convert(cfg, files, input, output, job);
            && r.outcome == Returned(false)
            && OutputPath(input, output) !in r.after
            && r.events[..2] == [Spawned(EncoderCommand(cfg, input, OutputPath(input, output))), Terminated]
            && (Removed(OutputPath(input, output)) in r.events <==> job.outputLeft)
  {
    var out := OutputPath(input, output);
    ConvertStarted(cfg, files, input, output, job);
    EncodeInterrupted(files, out, EncoderCommand(cfg, input, out), job);
  }

  /**
   * An exception from a status line ends the call with False but neither
   * terminates the encoder nor removes anything it wrote.
   */
  lemma CrashLeavesEncoderAlone(cfg: Config, files: set<string>, input: string, output: Option<string>, job: Job)
    requires Starts(files, input, output, job)
    requires Monitor(job.probe.duration, job.stderr, job.interruptAfter).stop == Crashed
    ensures var r := Convert(cfg, files, input, output, job);
            && r.outcome == Returned(false)
            && Terminated !in r.events
            && (OutputPath(input, output) in r.after <==> job.outputLeft)
  {
    var out := OutputPath(input, output);
    ConvertStarted(cfg, files, input, output, job);
    EncodeCrashed(files, out, EncoderCommand(cfg, input, out), job);
  }

  /**
   * With the input itself given as the output and the overwrite approved, an
   * interrupt deletes the input.
   */
  lemma InterruptWithInputAsOutput(cfg: Config, files: set<string>, input: string, job: Job)
    requires input in files && Affirmative(job.answer)
    requires job.probe.Probed? && !job.spawnFails
    requires Monitor(job.probe.duration, job.stderr, job.interruptAfter).stop == Interrupted
    ensures input !in Convert(cfg, files, input, Some(input), job).after
  {
    InterruptRemovesOutput(cfg, files, input, Some(input), job);
  }
}
