/**
 * The encoder's diagnostic stream, read line by line while the child runs:
 * the elapsed time after `time=` is turned into a percentage of the probed
 * duration (plex_converter.py, the loop in `convert_file`).
 */
module Progress {
  import opened Wrappers
  import opened Text

  /** The text that announces the elapsed time in an encoder status line. */
  const Marker := "time="

  /** Python truthiness of the probed duration: present and not zero. */
  predicate Truthy(duration: Option<real>)
  {
    duration.Some? && duration.value != 0.0
  }

  /**
   * `line.split('time=')[1].split()[0]`: the first word after the first
   * marker, up to whitespace or the next marker. None stands for the
   * IndexError raised when only whitespace lies between the first marker
   * and the next marker or the end of the line.
   */
  function TimeToken(line: string): (token: Option<string>)
    requires Contains(line, Marker)
    ensures token.None? <==> AllSpace(Split(line, Marker)[1])
    ensures token.Some? ==> token.value != [] && NoSpace(token.value)
  {
    FirstWord(Split(line, Marker)[1])
  }

  /**
   * `int(h) * 3600 + int(m) * 60 + float(s)` for a token of exactly three
   * colon-separated fields; None when the count differs or a field is not a
   * number.
   */
  function ParseTime(token: string): (elapsed: Option<real>)
    ensures elapsed.Some? ==> elapsed.value >= 0.0
    ensures var f := Split(token, ":");
            elapsed.Some? <==> |f| == 3 && ParseNat(f[0]).Some? && ParseNat(f[1]).Some? && ParseDecimal(f[2]).Some?
  {
    FieldsTime(Split(token, ":"))
  }

  /** The seconds denoted by the colon-separated fields of a token. */
  function FieldsTime(fields: seq<string>): (elapsed: Option<real>)
    ensures elapsed.Some? ==> elapsed.value >= 0.0
    ensures elapsed.Some? <==> |fields| == 3 && ParseNat(fields[0]).Some? && ParseNat(fields[1]).Some? && ParseDecimal(fields[2]).Some?
  {
    if |fields| != 3 then None
    else
      match (ParseNat(fields[0]), ParseNat(fields[1]), ParseDecimal(fields[2]))
      case (Some(h), Some(m), Some(s)) =>
        Some((h * 3600 + m * 60) as real + s)
      case _ => None
  }

  /** What one diagnostic line does to the conversion. */
  datatype LineEffect =
    | Quiet                  // nothing is shown
    | Report(percent: real)  // the progress line shows this percentage
    | Crash                  // an exception escapes the reading loop

  /**
   * The effect of one line: a line is looked at only when the duration is
   * truthy and the line holds the marker; a malformed time is passed over,
   * an empty one raises. The percentage is not clamped.
   */
  function Effect(duration: Option<real>, line: string): (e: LineEffect)
    ensures e.Report? ==> Truthy(duration) && Contains(line, Marker)
    ensures e.Report? ==> TimeToken(line).Some? && ParseTime(TimeToken(line).value).Some?
    ensures e.Crash? <==> Truthy(duration) && Contains(line, Marker) && AllSpace(Split(line, Marker)[1])
  {
    if Truthy(duration) && Contains(line, Marker) then
      match TimeToken(line)
      case None => Crash
      case Some(token) =>
        match ParseTime(token)
        case None => Quiet
        case Some(elapsed) => Report(elapsed / duration.value * 100.0)
    else Quiet
  }

  // ---------------------------------------------------------------------------
  // Facts about single lines
  // ---------------------------------------------------------------------------

  /** Text without a `t` holds no marker. */
  lemma NoMarkerWithoutT(s: string)
    requires 't' !in s
    ensures !Contains(s, Marker)
  {
    forall j | 0 <= j <= |s|
      ensures !OccursAt(s, Marker, j)
    {
      if j + |Marker| <= |s| {
        assert s[j..j + |Marker|][0] == s[j];
      }
    }
  }

  /** The first marker of a line is the one right after a marker-free prefix. */
  lemma {:induction false} SplitAtMarker(pre: string, rest: string)
    requires !Contains(pre, Marker)
    ensures Split(pre + (Marker + rest), Marker) == [pre] + Split(rest, Marker)
  {
    var s := pre + (Marker + rest);
    var n := |pre|;
    assert |Marker| == 5;
    assert s[n..n + 5] == Marker;
    assert OccursAt(s, Marker, n);
    forall j | 0 <= j < n
      ensures !OccursAt(s, Marker, j)
    {
      if j + 5 <= n {
        assert s[j..j + 5] == pre[j..j + 5];
        assert !OccursAt(pre, Marker, j);
      } else {
        assert s[n] == 't';
        assert s[j..j + 5][n - j] == s[n];
      }
    }
    assert IndexOf(s, Marker) == Some(n);
    assert s[..n] == pre;
    assert s[n + 5..] == rest;
  }

  /**
   * The time token of `pre time=token post` is `token`, when the prefix holds
   * no marker, the token is a word and what follows starts with whitespace
   * and holds no further marker.
   */
  lemma TimeTokenIs(pre: string, token: string, post: string)
    requires !Contains(pre, Marker) && !Contains(token + post, Marker)
    requires token != [] && NoSpace(token)
    requires post == [] || IsSpace(post[0])
    ensures Contains(pre + (Marker + (token + post)), Marker)
    ensures TimeToken(pre + (Marker + (token + post))) == Some(token)
  {
    var line := pre + (Marker + (token + post));
    SplitAtMarker(pre, token + post);
    assert Split(token + post, Marker) == [token + post];
    var seg := token + post;
    assert seg[..0] == [] && seg[0..|token|] == token;
    FirstWordIs(seg, 0, |token|);
  }

  /** `h:m:s` with colon-free fields splits into exactly those three fields. */
  lemma SplitThreeFields(h: string, m: string, s: string)
    requires ':' !in h && ':' !in m && ':' !in s
    ensures Split(h + (":" + (m + (":" + s))), ":") == [h, m, s]
  {
    SplitNoChar(s, ":");
    SplitAtChar(m, ":", s);
    SplitAtChar(h, ":", m + (":" + s));
  }

  /** Three fields of digits, digits and a decimal give `h*3600 + m*60 + s` seconds. */
  lemma FieldsTimeOfNumbers(h: string, m: string, s: string, secs: real)
    requires IsDigits(h) && IsDigits(m) && ParseDecimal(s) == Some(secs)
    ensures FieldsTime([h, m, s]) == Some((DigitsValue(h) * 3600 + DigitsValue(m) * 60) as real + secs)
  {
    var fields := [h, m, s];
    assert fields[0] == h && fields[1] == m && fields[2] == s;
  }

  /** A digit string holds no colon. */
  lemma NoColonInDigits(d: string)
    requires IsDigits(d)
    ensures ':' !in d
  {
    assert forall i :: 0 <= i < |d| ==> d[i] != ':';
  }

  /** A token `h:m:s` of digit fields gives `h*3600 + m*60 + s` seconds. */
  lemma ParseTimeOfFields(h: string, m: string, s: string, secs: real)
    requires IsDigits(h) && IsDigits(m) && ':' !in s && ParseDecimal(s) == Some(secs)
    ensures ParseTime(h + (":" + (m + (":" + s))))
         == Some((DigitsValue(h) * 3600 + DigitsValue(m) * 60) as real + secs)
  {
    NoColonInDigits(h);
    NoColonInDigits(m);
    SplitThreeFields(h, m, s);
    FieldsTimeOfNumbers(h, m, s, secs);
  }

  /** A digit string, a dot and a digit string hold no colon. */
  lemma NoColonInDecimal(w: string, f: string)
    requires IsDigits(w) && IsDigits(f)
    ensures ':' !in w + ("." + f)
  {
    var s := w + ("." + f);
    forall i | 0 <= i < |s|
      ensures s[i] != ':'
    {
      if i < |w| { assert s[i] == w[i]; }
      else if i > |w| { assert s[i] == f[i - |w| - 1]; }
    }
  }

  /** `w.f` with two-digit fields: `03.50` is three and a half seconds. */
  lemma TwoDigitSeconds(w: string, f: string)
    requires |w| == 2 && |f| == 2 && IsDigits(w) && IsDigits(f)
    ensures ParseDecimal(w + ("." + f))
         == Some((DigitValue(w[0]) * 10 + DigitValue(w[1])) as real
                 + (DigitValue(f[0]) as real * 10.0 + DigitValue(f[1]) as real) / 100.0)
  {
    DecimalValue(w, f);
    TwoDigitsValue(w);
    var tail := f[1..];
    assert tail[1..] == [] && tail[0] == f[1];
    assert FractionValue(tail) == DigitValue(f[1]) as real / 10.0;
  }

  /** `01:02:03.50` is 3723.5 seconds. */
  lemma ParseTimeExample(token: string)
    requires token == "01:02:03.50"
    ensures ParseTime(token) == Some(3723.5)
  {
    var h, m, w, f := "01", "02", "03", "50";
    var s := w + ("." + f);
    assert token == h + (":" + (m + (":" + s)));
    assert ParseDecimal(s) == Some(3.5) by {
      TwoDigitSeconds(w, f);
    }
    assert ':' !in s by {
      NoColonInDecimal(w, f);
    }
    assert DigitsValue(h) == 1 by {
      TwoDigitsValue(h);
    }
    assert DigitsValue(m) == 2 by {
      TwoDigitsValue(m);
    }
    ParseTimeOfFields(h, m, s, 3.5);
  }

  /** ffmpeg's `time=N/A` has a single field and gives no time. */
  lemma ParseTimeNotAvailable(token: string)
    requires token == "N/A"
    ensures ParseTime(token).None?
  {
    assert ':' !in token;
    assert Split(token, ":") == [token];
  }

  /** Two fields instead of three: the line is passed over. */
  lemma ParseTimeTwoFields(m: string, s: string)
    requires ':' !in m && ':' !in s
    ensures ParseTime(m + (":" + s)) == None
  {
    SplitNoChar(s, ":");
    SplitAtChar(m, ":", s);
  }

  /** `00:02:30.00` is 150 seconds. */
  lemma ParseTimeOfSample(token: string)
    requires token == "00:02:30.00"
    ensures ParseTime(token) == Some(150.0)
  {
    var h, m, w, f := "00", "02", "30", "00";
    var s := w + ("." + f);
    assert token == h + (":" + (m + (":" + s)));
    assert ParseDecimal(s) == Some(30.0) by {
      TwoDigitSeconds(w, f);
    }
    assert ':' !in s by {
      NoColonInDecimal(w, f);
    }
    assert DigitsValue(h) == 0 by {
      TwoDigitsValue(h);
    }
    assert DigitsValue(m) == 2 by {
      TwoDigitsValue(m);
    }
    ParseTimeOfFields(h, m, s, 30.0);
  }

  /** The token of a typical status line is the text after `time=` up to the blank. */
  lemma TimeTokenOfSample(line: string)
    requires line == "frame=  100 fps=25 time=00:02:30.00 speed=1.5x\n"
    ensures Contains(line, Marker) && TimeToken(line) == Some("00:02:30.00")
  {
    var pre, token, post := "frame=  100 fps=25 ", "00:02:30.00", " speed=1.5x\n";
    SampleLineParts(line, pre, token, post);
    SampleNoMarker(pre, token, post);
    TimeTokenIs(pre, token, post);
  }

  /** The sample line cut at its marker. */
  lemma SampleLineParts(line: string, pre: string, token: string, post: string)
    requires line == "frame=  100 fps=25 time=00:02:30.00 speed=1.5x\n"
    requires pre == "frame=  100 fps=25 " && token == "00:02:30.00" && post == " speed=1.5x\n"
    ensures line == pre + (Marker + (token + post))
  {
  }

  /** Neither side of the sample's marker holds another one, and the token ends at a space. */
  lemma SampleNoMarker(pre: string, token: string, post: string)
    requires pre == "frame=  100 fps=25 " && token == "00:02:30.00" && post == " speed=1.5x\n"
    ensures !Contains(pre, Marker) && !Contains(token + post, Marker)
    ensures token != [] && NoSpace(token) && IsSpace(post[0])
  {
    assert 't' !in pre;
    NoMarkerWithoutT(pre);
    assert 't' !in token + post;
    NoMarkerWithoutT(token + post);
  }

  /**
   * Two and a half minutes into a 100-second source reports 150 percent:
   * the percentage is not clamped.
   */
  lemma EffectIsNotClamped(line: string)
    requires line == "frame=  100 fps=25 time=00:02:30.00 speed=1.5x\n"
    ensures Effect(Some(100.0), line) == Report(150.0)
  {
    TimeTokenOfSample(line);
    ParseTimeOfSample("00:02:30.00");
  }

  /**
   * A line whose token parses, read with a truthy duration, reports
   * `elapsed / duration * 100`, whatever its size.
   */
  lemma EffectReportsPercent(duration: Option<real>, line: string, token: string, elapsed: real)
    requires Truthy(duration) && Contains(line, Marker)
    requires TimeToken(line) == Some(token) && ParseTime(token) == Some(elapsed)
    ensures Effect(duration, line) == Report(elapsed / duration.value * 100.0)
  {
  }

  /**
   * A first marker followed only by whitespace raises, once a duration is
   * known: `split()` of the rest is empty and `[0]` fails.
   */
  lemma EffectOfEmptyToken(duration: real, pre: string, ws: string)
    requires duration != 0.0 && !Contains(pre, Marker) && AllSpace(ws)
    ensures Effect(Some(duration), pre + (Marker + ws)) == Crash
  {
    assert 't' !in ws;
    NoMarkerWithoutT(ws);
    SplitAtMarker(pre, ws);
    assert Split(ws, Marker) == [ws];
  }

  /** The line `time= ` is one of them. */
  lemma EffectOfBareMarker(duration: real, line: string)
    requires duration != 0.0 && line == "time= \n"
    ensures Effect(Some(duration), line) == Crash
  {
    assert line == "" + (Marker + " \n");
    assert !Contains("", Marker);
    EffectOfEmptyToken(duration, "", " \n");
  }

  /** Without a truthy duration no line is even looked at. */
  lemma EffectWithoutDuration(duration: Option<real>, line: string)
    requires !Truthy(duration)
    ensures Effect(duration, line) == Quiet
  {
  }

  // ---------------------------------------------------------------------------
  // The reading loop
  // ---------------------------------------------------------------------------

  /** How the reading loop ends. */
  datatype Stop =
    | Drained      // every line was read; the child is awaited
    | Interrupted  // KeyboardInterrupt, before a line or during the wait
    | Crashed      // an exception other than KeyboardInterrupt escaped

  datatype Monitoring = Monitoring(reported: seq<real>, stop: Stop)

  /** The interrupt position seen from one line further on. */
  function Later(interruptAfter: Option<nat>): Option<nat>
    requires interruptAfter != Some(0)
  {
    match interruptAfter
    case None => None
    case Some(k) => Some(k - 1)
  }

  /**
   * The reading loop as a function of its inputs: the percentages shown, in
   * order, and how the loop ends. `interruptAfter == Some(k)` delivers
   * KeyboardInterrupt once `k` lines have been read (with `k == |lines|`,
   * during the wait); a larger `k` never fires.
   */
  function Monitor(duration: Option<real>, lines: seq<string>, interruptAfter: Option<nat>): (m: Monitoring)
    ensures |m.reported| <= |lines|
    decreases |lines|
  {
    if interruptAfter == Some(0) then Monitoring([], Interrupted)
    else if lines == [] then Monitoring([], Drained)
    else
      match Effect(duration, lines[0])
      case Crash => Monitoring([], Crashed)
      case Quiet => Monitor(duration, lines[1..], Later(interruptAfter))
      case Report(p) =>
        var rest := Monitor(duration, lines[1..], Later(interruptAfter));
        Monitoring([p] + rest.reported, rest.stop)
  }

  /** The percentages of the lines that report one, in order. */
  function Reports(duration: Option<real>, lines: seq<string>): seq<real>
  {
    if lines == [] then []
    else
      match Effect(duration, lines[0])
      case Report(p) => [p] + Reports(duration, lines[1..])
      case _ => Reports(duration, lines[1..])
  }

  predicate NoCrash(duration: Option<real>, lines: seq<string>)
  {
    forall i :: 0 <= i < |lines| ==> !Effect(duration, lines[i]).Crash?
  }

  /** Without interrupt or crash the loop reads every line and shows every report. */
  lemma {:induction false} MonitorDrains(duration: Option<real>, lines: seq<string>, interruptAfter: Option<nat>)
    requires NoCrash(duration, lines)
    requires interruptAfter.None? || interruptAfter.value > |lines|
    ensures Monitor(duration, lines, interruptAfter) == Monitoring(Reports(duration, lines), Drained)
    decreases |lines|
  {
    if lines != [] {
      assert !Effect(duration, lines[0]).Crash?;
      MonitorDrains(duration, lines[1..], Later(interruptAfter));
    }
  }

  /**
   * An interrupt after `k` lines stops the loop there, with the reports of
   * those `k` lines shown, provided none of them crashed first.
   */
  lemma {:induction false} MonitorInterrupted(duration: Option<real>, lines: seq<string>, k: nat)
    requires k <= |lines| && NoCrash(duration, lines[..k])
    ensures Monitor(duration, lines, Some(k)) == Monitoring(Reports(duration, lines[..k]), Interrupted)
    decreases k
  {
    if k > 0 {
      assert !Effect(duration, lines[..k][0]).Crash?;
      assert lines[1..][..k - 1] == lines[..k][1..];
      MonitorInterrupted(duration, lines[1..], k - 1);
    }
  }

  /**
   * The first line whose token is empty ends the loop with a crash, after
   * the reports of the lines before it, unless an interrupt came first.
   */
  lemma {:induction false} MonitorCrashes(duration: Option<real>, lines: seq<string>, c: nat, interruptAfter: Option<nat>)
    requires c < |lines| && Effect(duration, lines[c]).Crash? && NoCrash(duration, lines[..c])
    requires interruptAfter.None? || interruptAfter.value > c
    ensures Monitor(duration, lines, interruptAfter) == Monitoring(Reports(duration, lines[..c]), Crashed)
    decreases c
  {
    if c > 0 {
      assert !Effect(duration, lines[..c][0]).Crash?;
      assert lines[1..][..c - 1] == lines[..c][1..];
      MonitorCrashes(duration, lines[1..], c - 1, Later(interruptAfter));
    }
  }

  /**
   * Without a truthy duration nothing is shown and nothing crashes: the loop
   * only waits for the end of the stream or an interrupt.
   */
  lemma {:induction false} MonitorWithoutDuration(duration: Option<real>, lines: seq<string>, interruptAfter: Option<nat>)
    requires !Truthy(duration)
    ensures Monitor(duration, lines, interruptAfter).reported == []
    ensures Monitor(duration, lines, interruptAfter).stop
         == if interruptAfter.Some? && interruptAfter.value <= |lines| then Interrupted else Drained
    decreases |lines|
  {
    if interruptAfter != Some(0) && lines != [] {
      MonitorWithoutDuration(duration, lines[1..], Later(interruptAfter));
    }
  }

  /** The reports of `m` shown after `earlier` ones. */
  function After(earlier: seq<real>, m: Monitoring): Monitoring
  {
    Monitoring(earlier + m.reported, m.stop)
  }

  lemma AfterAfter(earlier: seq<real>, between: seq<real>, m: Monitoring)
    ensures After(earlier, After(between, m)) == After(earlier + between, m)
  {
    assert earlier + (between + m.reported) == (earlier + between) + m.reported;
  }

  /** The interrupt position seen from `i` lines further on. */
  function Remaining(interruptAfter: Option<nat>, i: nat): Option<nat>
    requires interruptAfter.None? || interruptAfter.value >= i
  {
    match interruptAfter
    case None => None
    case Some(k) => Some(k - i)
  }

  /** One turn of the loop, seen from line `i`. */
  lemma MonitorStep(duration: Option<real>, lines: seq<string>, i: nat, interruptAfter: Option<nat>)
    requires i < |lines| && (interruptAfter.None? || interruptAfter.value > i)
    ensures Monitor(duration, lines[i..], Remaining(interruptAfter, i))
         == match Effect(duration, lines[i])
            case Crash => Monitoring([], Crashed)
            case Quiet => Monitor(duration, lines[i + 1..], Remaining(interruptAfter, i + 1))
            case Report(p) => After([p], Monitor(duration, lines[i + 1..], Remaining(interruptAfter, i + 1)))
  {
    assert lines[i..][0] == lines[i] && lines[i..][1..] == lines[i + 1..];
    assert Later(Remaining(interruptAfter, i)) == Remaining(interruptAfter, i + 1);
  }

  /**
   * The body of the loop for one line: test for a duration and the marker,
   * cut out the token (raising when there is none) and parse it, passing
   * over a malformed time.
   */
  method ReadLine(duration: Option<real>, line: string) returns (e: LineEffect)
    ensures e == Effect(duration, line)
  {
    e := Quiet;
    if Truthy(duration) && Contains(line, Marker) {
      var word := FirstWord(Split(line, Marker)[1]);
      if word.None? {
        return Crash;
      }
      var elapsed := ParseTime(word.value);
      if elapsed.Some? {
        e := Report(elapsed.value / duration.value * 100.0);
      }
    }
  }

  /**
   * The loop over the diagnostic stream: each line is read in turn, its
   * percentage shown; an exception from a line ends the loop, and an
   * interrupt ends it at once.
   */
  method ReadProgress(duration: Option<real>, lines: seq<string>, interruptAfter: Option<nat>)
    returns (reported: seq<real>, stop: Stop)
    ensures Monitoring(reported, stop) == Monitor(duration, lines, interruptAfter)
  {
    reported := [];
    var i := 0;
    assert lines[0..] == lines;
    while i < |lines|
      invariant 0 <= i <= |lines|
      invariant interruptAfter.None? || interruptAfter.value >= i
      invariant Monitor(duration, lines, interruptAfter)
             == After(reported, Monitor(duration, lines[i..], Remaining(interruptAfter, i)))
    {
      if interruptAfter == Some(i) {
        return reported, Interrupted;
      }
      MonitorStep(duration, lines, i, interruptAfter);
      var e := ReadLine(duration, lines[i]);
      match e {
        case Crash =>
          return reported, Crashed;
        case Quiet =>
        case Report(percent) =>
          AfterAfter(reported, [percent], Monitor(duration, lines[i + 1..], Remaining(interruptAfter, i + 1)));
          reported := reported + [percent];
      }
      i := i + 1;
    }
    assert lines[i..] == [];
    stop := if interruptAfter == Some(i) then Interrupted else Drained;
  }
}
