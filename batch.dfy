/**
 * `PlexConverter.batch_convert`: list the video files of a directory once,
 * ask for confirmation, then convert each listed file in order and count
 * the successes and failures (plex_converter.py:131-164).
 */
module Batch {
  import opened Wrappers
  import opened Text
  import opened Paths
  import opened Command
  import opened Converter

  /** The list the per-extension listings add up to, in the order they are taken. */
  function Flatten(listings: seq<seq<string>>): seq<string>
  {
    if listings == [] then [] else Flatten(listings[..|listings| - 1]) + listings[|listings| - 1]
  }

  /** Listing one more extension appends its paths after all earlier ones. */
  lemma {:induction false} FlattenAppend(listings: seq<seq<string>>, more: seq<seq<string>>)
    ensures Flatten(listings + more) == Flatten(listings) + Flatten(more)
    decreases |more|
  {
    if more == [] {
      assert listings + more == listings;
    } else {
      var init := more[..|more| - 1];
      assert (listings + more)[..|listings + more| - 1] == listings + init;
      FlattenAppend(listings, init);
    }
  }

  /** Every listed path appears in the combined list, and nothing else does. */
  lemma {:induction false} FlattenMembers(listings: seq<seq<string>>, p: string)
    ensures p in Flatten(listings) <==> exists i :: 0 <= i < |listings| && p in listings[i]
    decreases |listings|
  {
    if listings != [] {
      var init := listings[..|listings| - 1];
      FlattenMembers(init, p);
      if p in Flatten(init) {
        var i :| 0 <= i < |init| && p in init[i];
        assert listings[i] == init[i];
      }
      forall i | 0 <= i < |init|
        ensures listings[i] == init[i]
      {
      }
    }
  }

  /** `name` ends with `ext`, as a `*ext` pattern demands. */
  predicate EndsWith(name: string, ext: string)
  {
    |ext| <= |name| && name[|name| - |ext|..] == ext
  }

  /**
   * The listings the directory gives, one per extension in
   * `VideoExtensions`, each holding only paths whose name has that ending.
   */
  predicate Listed(listings: seq<seq<string>>)
  {
    && |listings| == |VideoExtensions|
    && forall i, j :: 0 <= i < |listings| && 0 <= j < |listings[i]|
         ==> EndsWith(Name(listings[i][j]), VideoExtensions[i])
  }

  /** A listed path always has a name, so its output path can be derived. */
  lemma ListedHaveNames(listings: seq<seq<string>>, p: string)
    requires Listed(listings) && p in Flatten(listings)
    ensures Name(p) != ""
  {
    FlattenMembers(listings, p);
    var i :| 0 <= i < |listings| && p in listings[i];
    var j :| 0 <= j < |listings[i]| && listings[i][j] == p;
    assert EndsWith(Name(p), VideoExtensions[i]);
    assert |VideoExtensions[i]| > 0;
  }

  /**
   * `video_files` grown one extension at a time: the combined list, in
   * extension order and, within one extension, in listing order.
   */
  method CollectCandidates(listings: seq<seq<string>>) returns (videoFiles: seq<string>)
    ensures videoFiles == Flatten(listings)
  {
    videoFiles := [];
    var k := 0;
    while k < |listings|
      invariant 0 <= k <= |listings|
      invariant videoFiles == Flatten(listings[..k])
    {
      FlattenAppend(listings[..k], [listings[k]]);
      assert listings[..k + 1] == listings[..k] + [listings[k]];
      assert Flatten([listings[k]]) == listings[k] by {
        assert [listings[k]][..0] == [];
      }
      videoFiles := videoFiles + listings[k];
      k := k + 1;
    }
    assert listings[..k] == listings;
  }

  /**
   * The conversions of `paths` in order, each with the default output path,
   * each starting from the paths the previous one left.
   */
  function Conversions(cfg: Config, files: set<string>, paths: seq<string>, jobs: seq<Job>): (runs: seq<Run>)
    requires |jobs| == |paths|
    ensures |runs| == |paths|
    decreases |paths|
  {
    if paths == [] then []
    else
      var r := Convert(cfg, files, paths[0], None, jobs[0]);
      [r] + Conversions(cfg, r.after, paths[1..], jobs[1..])
  }

  /** The paths that exist after `runs`, starting from `files`. */
  function Final(files: set<string>, runs: seq<Run>): set<string>
  {
    if runs == [] then files else runs[|runs| - 1].after
  }

  /** The events of `runs`, in order. */
  function Events(runs: seq<Run>): seq<Event>
  {
    if runs == [] then [] else Events(runs[..|runs| - 1]) + runs[|runs| - 1].events
  }

  /** The number of runs that returned True. */
  function Successes(runs: seq<Run>): (n: nat)
    ensures n <= |runs|
  {
    if runs == [] then 0
    else Successes(runs[..|runs| - 1]) + (if runs[|runs| - 1].outcome == Returned(true) then 1 else 0)
  }

  /** The number of runs that did not return True. */
  function Failures(runs: seq<Run>): (n: nat)
    ensures n <= |runs|
  {
    if runs == [] then 0
    else Failures(runs[..|runs| - 1]) + (if runs[|runs| - 1].outcome == Returned(true) then 0 else 1)
  }

  /** Every run is counted once, as a success or as a failure. */
  lemma {:induction false} SuccessesAndFailures(runs: seq<Run>)
    ensures Successes(runs) + Failures(runs) == |runs|
    decreases |runs|
  {
    if runs != [] {
      SuccessesAndFailures(runs[..|runs| - 1]);
    }
  }

  /** Converting one more path extends the earlier conversions by one run, from where they left off. */
  lemma {:induction false} ConversionsSnoc(cfg: Config, files: set<string>, paths: seq<string>, jobs: seq<Job>, p: string, job: Job)
    requires |jobs| == |paths|
    ensures Conversions(cfg, files, paths + [p], jobs + [job])
         == Conversions(cfg, files, paths, jobs)
            + [Convert(cfg, Final(files, Conversions(cfg, files, paths, jobs)), p, None, job)]
    decreases |paths|
  {
    if paths == [] {
      assert paths + [p] == [p] && jobs + [job] == [job];
    } else {
      var r := Convert(cfg, files, paths[0], None, jobs[0]);
      assert (paths + [p])[1..] == paths[1..] + [p];
      assert (jobs + [job])[1..] == jobs[1..] + [job];
      ConversionsSnoc(cfg, r.after, paths[1..], jobs[1..], p, job);
      var rest := Conversions(cfg, r.after, paths[1..], jobs[1..]);
      assert Final(files, [r] + rest) == Final(r.after, rest);
    }
  }

  /**
   * Each listed path is converted exactly once, in list order: the i-th run
   * is `convert_file` on the i-th path, against the paths the earlier runs
   * left.
   */
  lemma {:induction false} ConversionsInOrder(cfg: Config, files: set<string>, paths: seq<string>, jobs: seq<Job>, i: nat)
    requires |jobs| == |paths| && i < |paths|
    ensures var runs := Conversions(cfg, files, paths, jobs);
            runs[i] == Convert(cfg, Final(files, runs[..i]), paths[i], None, jobs[i])
    decreases i
  {
    var runs := Conversions(cfg, files, paths, jobs);
    if i > 0 {
      var r := runs[0];
      var rest := Conversions(cfg, r.after, paths[1..], jobs[1..]);
      ConversionsInOrder(cfg, r.after, paths[1..], jobs[1..], i - 1);
      assert runs[..i] == [r] + rest[..i - 1];
      assert Final(files, runs[..i]) == Final(r.after, rest[..i - 1]);
    }
  }

  /** When every path has a name, no conversion in the batch raises. */
  lemma {:induction false} ConversionsReturn(cfg: Config, files: set<string>, paths: seq<string>, jobs: seq<Job>)
    requires |jobs| == |paths|
    requires forall p :: p in paths ==> Name(p) != ""
    ensures forall r :: r in Conversions(cfg, files, paths, jobs) ==> r.outcome.Returned?
    decreases |paths|
  {
    if paths != [] {
      var r := Convert(cfg, files, paths[0], None, jobs[0]);
      RaisesOnlyForNamelessInput(cfg, files, paths[0], None, jobs[0]);
      ConversionsReturn(cfg, r.after, paths[1..], jobs[1..]);
    }
  }

  /** A prefix one longer is the prefix with the next element appended. */
  lemma TakeOneMore<T>(s: seq<T>, i: nat)
    requires i < |s|
    ensures s[..i + 1] == s[..i] + [s[i]]
  {
  }

  /** Concatenation of sequences is associative. */
  lemma AppendAssociative<T>(a: seq<T>, b: seq<T>, c: seq<T>)
    ensures a + (b + c) == (a + b) + c
  {
  }

  /** How `batch_convert` ends. */
  datatype BatchResult =
    | NoFiles                                   // nothing matched; nothing asked
    | Declined                                  // the confirmation was not `y`
    | Completed(successful: nat, failed: nat)   // every listed file was tried

  /** `batch_convert` as a function: its result, the paths left and the events. */
  datatype BatchRun = BatchRun(result: BatchResult, after: set<string>, events: seq<Event>)

  function BatchSpec(cfg: Config, files: set<string>, listings: seq<seq<string>>, confirm: string, jobs: seq<Job>): BatchRun
    requires |jobs| == |Flatten(listings)|
  {
    var paths := Flatten(listings);
    if paths == [] then BatchRun(NoFiles, files, [])
    else if !Affirmative(confirm) then BatchRun(Declined, files, [])
    else
      var runs := Conversions(cfg, files, paths, jobs);
      BatchRun(Completed(Successes(runs), Failures(runs)), Final(files, runs), Events(runs))
  }

  /**
   * With files to convert and the confirmation given, the counters add up
   * to the number of listed files, and `successful` counts the conversions
   * that returned True.
   */
  lemma CountersAddUp(cfg: Config, files: set<string>, listings: seq<seq<string>>, confirm: string, jobs: seq<Job>)
    requires |jobs| == |Flatten(listings)|
    requires Flatten(listings) != [] && Affirmative(confirm)
    ensures var b := BatchSpec(cfg, files, listings, confirm, jobs);
            && b.result.Completed?
            && b.result.successful + b.result.failed == |Flatten(listings)|
            && b.result.successful == Successes(Conversions(cfg, files, Flatten(listings), jobs))
  {
    SuccessesAndFailures(Conversions(cfg, files, Flatten(listings), jobs));
  }

  /** Nothing listed, or the confirmation declined: nothing is converted and nothing changes. */
  lemma NothingWithoutConfirmation(cfg: Config, files: set<string>, listings: seq<seq<string>>, confirm: string, jobs: seq<Job>)
    requires |jobs| == |Flatten(listings)|
    requires Flatten(listings) == [] || (confirm != "y" && confirm != "Y")
    ensures var b := BatchSpec(cfg, files, listings, confirm, jobs);
            b.after == files && b.events == [] && !b.result.Completed?
  {
    AffirmativeAnswers(confirm);
  }

  /** One more conversion extends the runs, the final paths, the events and the count. */
  lemma ConversionStep(cfg: Config, start: set<string>, paths: seq<string>, jobs: seq<Job>, i: nat, runs: seq<Run>, r: Run)
    requires |jobs| == |paths| && i < |paths|
    requires runs == Conversions(cfg, start, paths[..i], jobs[..i])
    requires r == Convert(cfg, Final(start, runs), paths[i], None, jobs[i])
    ensures runs + [r] == Conversions(cfg, start, paths[..i + 1], jobs[..i + 1])
    ensures Final(start, runs + [r]) == r.after
    ensures Events(runs + [r]) == Events(runs) + r.events
    ensures Successes(runs + [r]) == Successes(runs) + (if r.outcome == Returned(true) then 1 else 0)
    ensures Failures(runs + [r]) == Failures(runs) + (if r.outcome == Returned(true) then 0 else 1)
  {
    ConversionsSnoc(cfg, start, paths[..i], jobs[..i], paths[i], jobs[i]);
    TakeOneMore(paths, i);
    TakeOneMore(jobs, i);
    assert (runs + [r])[..|runs|] == runs;
  }

  /**
   * `batch_convert` against the host: list, confirm, then convert every
   * listed file once in order, counting successes and failures. The result,
   * the paths left and the events are those `BatchSpec` gives.
   */
  method BatchConvert(cfg: Config, host: Host, listings: seq<seq<string>>, confirm: string, jobs: seq<Job>)
    returns (result: BatchResult)
    requires Listed(listings)
    requires |jobs| == |Flatten(listings)|
    modifies host
    ensures var b := BatchSpec(cfg, old(host.files), listings, confirm, jobs);
            result == b.result && host.files == b.after && host.log == old(host.log) + b.events
  {
    var videoFiles := CollectCandidates(listings);
    if videoFiles == [] {
      return NoFiles;
    }
    if Lower(confirm) != "y" {
      return Declined;
    }
    forall p | p in videoFiles
      ensures Name(p) != ""
    {
      ListedHaveNames(listings, p);
    }
    var successful, failed := ConvertAll(cfg, host, videoFiles, jobs);
    result := Completed(successful, failed);
  }

  /** One turn of the counting loop: convert `paths[i]` and extend the runs by its run. */
  method ConvertNext(cfg: Config, host: Host, ghost start: set<string>, ghost startLog: seq<Event>,
                     paths: seq<string>, jobs: seq<Job>, i: nat, ghost runs: seq<Run>)
    returns (ok: bool, ghost runs': seq<Run>)
    requires |jobs| == |paths| && i < |paths| && Name(paths[i]) != ""
    requires runs == Conversions(cfg, start, paths[..i], jobs[..i])
    requires host.files == Final(start, runs) && host.log == startLog + Events(runs)
    modifies host
    ensures runs' == Conversions(cfg, start, paths[..i + 1], jobs[..i + 1])
    ensures host.files == Final(start, runs') && host.log == startLog + Events(runs')
    ensures Successes(runs') == Successes(runs) + (if ok then 1 else 0)
    ensures Failures(runs') == Failures(runs) + (if ok then 0 else 1)
  {
    ghost var r := Convert(cfg, host.files, paths[i], None, jobs[i]);
    var outcome, _ := ConvertFile(cfg, host, paths[i], None, jobs[i]);
    ConversionStep(cfg, start, paths, jobs, i, runs, r);
    AppendAssociative(startLog, Events(runs), r.events);
    runs' := runs + [r];
    ok := outcome == Returned(true);
  }

  /** The counting loop: every path converted once, in order, with its default output path. */
  method ConvertAll(cfg: Config, host: Host, paths: seq<string>, jobs: seq<Job>)
    returns (successful: nat, failed: nat)
    requires |jobs| == |paths|
    requires forall p :: p in paths ==> Name(p) != ""
    modifies host
    ensures var runs := Conversions(cfg, old(host.files), paths, jobs);
            && successful == Successes(runs) && failed == Failures(runs)
            && host.files == Final(old(host.files), runs)
            && host.log == old(host.log) + Events(runs)
  {
    successful, failed := 0, 0;
    ghost var start := host.files;
    ghost var startLog := host.log;
    ghost var runs: seq<Run> := [];
    var i := 0;
    while i < |paths|
      invariant 0 <= i <= |paths|
      invariant runs == Conversions(cfg, start, paths[..i], jobs[..i])
      invariant host.files == Final(start, runs)
      invariant host.log == startLog + Events(runs)
      invariant successful == Successes(runs) && failed == Failures(runs)
    {
      var ok;
      ok, runs := ConvertNext(cfg, host, start, startLog, paths, jobs, i, runs);
      if ok {
        successful := successful + 1;
      } else {
        failed := failed + 1;
      }
      i := i + 1;
    }
    assert paths[..i] == paths && jobs[..i] == jobs;
  }
}
