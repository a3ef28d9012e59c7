/**
 * The converter's settings and the encoder command line it builds from them.
 */
module Command {
  import opened Wrappers
  import opened Text

  /**
   * The attributes of a `PlexConverter`: set once by its constructor and
   * never reassigned. The constructor checks nothing, so any quality, preset
   * and bitrate text is possible here.
   */
  datatype Config = Config(quality: int, preset: string, audioBitrate: string, copySubtitles: bool)

  /** The constructor's defaults: CRF 22, preset `slow`, 192k audio, no subtitles. */
  const DefaultConfig := Config(22, "slow", "192k", false)

  /** The suffixes batch mode looks for, in the order their listings are concatenated. */
  const VideoExtensions: seq<string> := [".mp4", ".mkv", ".avi", ".mov", ".wmv", ".flv", ".m4v"]

  /** The fixed first part of the command: program, input, codecs, quality, container flags. */
  function BaseArguments(cfg: Config, input: string): (args: seq<string>)
    ensures |args| == 17
  {
    [ "ffmpeg",
      "-i", input,
      "-c:v", "libx264",
      "-preset", cfg.preset,
      "-crf", IntToDecimal(cfg.quality),
      "-c:a", "aac",
      "-b:a", cfg.audioBitrate,
      "-movflags", "+faststart",
      "-map_metadata", "0" ]
  }

  const SubtitleArguments: seq<string> := ["-c:s", "mov_text"]

  /**
   * The encoder invocation: the fixed 17 arguments, the subtitle codec pair
   * exactly when subtitles are copied, and the output path last.
   */
  function EncoderCommand(cfg: Config, input: string, output: string): (cmd: seq<string>)
    ensures |cmd| == if cfg.copySubtitles then 20 else 18
    ensures cmd[..17] == BaseArguments(cfg, input)
    ensures cmd[|cmd| - 1] == output
    ensures cfg.copySubtitles <==> cmd[17..|cmd| - 1] == SubtitleArguments
  {
    BaseArguments(cfg, input) + (if cfg.copySubtitles then SubtitleArguments else []) + [output]
  }

  /** What an encoder command line asks for. */
  datatype Invocation = Invocation(config: Config, input: string, output: string)

  /**
   * Reads a command line of the shape `EncoderCommand` builds back into the
   * settings, input and output it was built from; None for any other shape.
   */
  function ReadCommand(cmd: seq<string>): Option<Invocation>
  {
    if |cmd| != 18 && |cmd| != 20 then None
    else
      var subtitles := |cmd| == 20;
      if subtitles && cmd[17..19] != SubtitleArguments then None
      else match ParseInt(cmd[8])
        case None => None
        case Some(quality) =>
          var cfg := Config(quality, cmd[6], cmd[12], subtitles);
          if cmd[..17] == BaseArguments(cfg, cmd[2]) then
            Some(Invocation(cfg, cmd[2], cmd[|cmd| - 1]))
          else None
  }

  /** Reading a built command gives back exactly what it was built from. */
  lemma ReadEncoderCommand(cfg: Config, input: string, output: string)
    ensures ReadCommand(EncoderCommand(cfg, input, output)) == Some(Invocation(cfg, input, output))
  {
    var cmd := EncoderCommand(cfg, input, output);
    IntDecimalRoundTrip(cfg.quality);
    assert cmd[8] == IntToDecimal(cfg.quality);
    assert cmd[2] == input && cmd[6] == cfg.preset && cmd[12] == cfg.audioBitrate;
    if cfg.copySubtitles {
      assert cmd[17..19] == cmd[17..|cmd| - 1];
    }
  }

  /** Different settings, inputs or outputs never produce the same command line. */
  lemma EncoderCommandInjective(c1: Config, i1: string, o1: string, c2: Config, i2: string, o2: string)
    requires EncoderCommand(c1, i1, o1) == EncoderCommand(c2, i2, o2)
    ensures c1 == c2 && i1 == i2 && o1 == o2
  {
    ReadEncoderCommand(c1, i1, o1);
    ReadEncoderCommand(c2, i2, o2);
  }

  /** With the defaults, `movie.mkv` is encoded with CRF 22, preset slow, 192k audio and no subtitle codec. */
  lemma DefaultCommand()
    ensures EncoderCommand(DefaultConfig, "movie.mkv", "movie_plex.mp4")
         == ["ffmpeg", "-i", "movie.mkv", "-c:v", "libx264", "-preset", "slow", "-crf", "22",
             "-c:a", "aac", "-b:a", "192k", "-movflags", "+faststart", "-map_metadata", "0",
             "movie_plex.mp4"]
  {
    assert IntToDecimal(22) == "22" by {
      assert NatToDigits(2) == "2";
    }
  }
}
