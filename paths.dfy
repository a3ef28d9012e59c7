/**
 * The part of pathlib the converter uses to derive an output path:
 * `PurePath.name`, `PurePath.stem` and `PurePath.with_name`, on paths written
 * with `/` separators in pathlib's normal form.
 */
module Paths {
  import opened Wrappers

  /** Python's `s.rfind(c)`: the last position holding `c`. */
  function LastIndexOf(s: string, c: char): (r: Option<nat>)
    ensures r.Some? ==> r.value < |s| && s[r.value] == c
    ensures r.Some? ==> forall j :: r.value < j < |s| ==> s[j] != c
    ensures r.None? ==> c !in s
  {
    if s == [] then None
    else if s[|s| - 1] == c then Some(|s| - 1)
    else LastIndexOf(s[..|s| - 1], c)
  }

  /** `PurePath.name`: the final component, after the last separator. */
  function Name(p: string): (n: string)
    ensures '/' !in n
  {
    match LastIndexOf(p, '/')
    case None => p
    case Some(i) => p[i + 1..]
  }

  /** Everything before the final component, the trailing separator included. */
  function Directory(p: string): (d: string)
    ensures d + Name(p) == p
    ensures d == "" || d[|d| - 1] == '/'
  {
    match LastIndexOf(p, '/')
    case None => ""
    case Some(i) => p[..i + 1]
  }

  /** The position where pathlib's suffix starts: the last dot, unless it is the first or the last character. */
  function SuffixStart(name: string): (r: Option<nat>)
    ensures r.Some? ==> 0 < r.value < |name| - 1 && name[r.value] == '.'
    ensures r.Some? ==> forall j :: r.value < j < |name| ==> name[j] != '.'
  {
    match LastIndexOf(name, '.')
    case Some(i) => if 0 < i < |name| - 1 then Some(i) else None
    case None => None
  }

  /** `PurePath.stem`: the name without its suffix. */
  function Stem(name: string): string
  {
    match SuffixStart(name)
    case Some(i) => name[..i]
    case None => name
  }

  /** `PurePath.suffix`: the final `.ext` of the name, or empty. */
  function Suffix(name: string): string
  {
    match SuffixStart(name)
    case Some(i) => name[i..]
    case None => ""
  }

  /**
   * The stem and suffix cut the name in two. A suffix is a dot followed by at
   * least one character and no further dot, and the stem is never empty
   * unless the name is.
   */
  lemma StemAndSuffix(name: string)
    ensures Stem(name) + Suffix(name) == name
    ensures Suffix(name) == ""
         || (|Suffix(name)| >= 2 && Suffix(name)[0] == '.' && '.' !in Suffix(name)[1..])
    ensures name != "" ==> Stem(name) != ""
  {
    match SuffixStart(name)
    case Some(i) =>
      assert name[..i] + name[i..] == name;
      forall k | 0 <= k < |name[i..][1..]|
        ensures name[i..][1..][k] != '.'
      {
        assert name[i..][1..][k] == name[i + 1 + k];
      }
    case None =>
  }

  /** `PurePath.with_name`: the same directory, another final component. */
  function WithName(p: string, newName: string): (q: string)
    requires Name(p) != ""
    ensures '/' !in newName ==> Name(q) == newName && Directory(q) == Directory(p)
  {
    var q := Directory(p) + newName;
    assert '/' !in newName ==> Name(q) == newName && Directory(q) == Directory(p) by {
      if '/' !in newName {
        NameAfterDirectory(Directory(p), newName);
      }
    }
    q
  }

  /** Appending text without `c` does not move the last `c`. */
  lemma {:induction false} LastIndexOfAppend(a: string, b: string, c: char)
    requires c !in b
    ensures LastIndexOf(a + b, c) == LastIndexOf(a, c)
    decreases |b|
  {
    if b != "" {
      var s := a + b;
      assert s[|s| - 1] == b[|b| - 1];
      assert s[..|s| - 1] == a + b[..|b| - 1];
      LastIndexOfAppend(a, b[..|b| - 1], c);
    } else {
      assert a + b == a;
    }
  }

  /** A final component appended to a directory prefix is read back as the name. */
  lemma NameAfterDirectory(dir: string, n: string)
    requires dir == "" || dir[|dir| - 1] == '/'
    requires '/' !in n
    ensures Name(dir + n) == n && Directory(dir + n) == dir
  {
    LastIndexOfAppend(dir, n, '/');
    if dir != "" {
      assert LastIndexOf(dir, '/') == Some(|dir| - 1);
      assert (dir + n)[|dir|..] == n;
    }
  }

  /** The stem of `base.ext`, when `ext` is a non-empty extension without dots. */
  lemma StemOfDotted(base: string, ext: string)
    requires base != "" && ext != "" && '.' !in ext
    ensures Stem(base + "." + ext) == base
  {
    var name := base + "." + ext;
    LastIndexOfAppend(base + ".", ext, '.');
    assert LastIndexOf(base + ".", '.') == Some(|base|);
    assert name[..|base|] == base;
  }

  /** The stem of a separator-free name is separator-free. */
  lemma StemHasNoSeparator(name: string)
    requires '/' !in name
    ensures '/' !in Stem(name)
  {
    match SuffixStart(name)
    case Some(i) =>
      assert forall k :: 0 <= k < i ==> name[..i][k] == name[k];
    case None =>
  }

  /** The output name the converter derives when none is given: `stem + "_plex.mp4"`. */
  function DefaultOutput(input: string): (out: string)
    requires Name(input) != ""
    ensures Directory(out) == Directory(input) && Name(out) == Stem(Name(input)) + "_plex.mp4"
  {
    StemHasNoSeparator(Name(input));
    WithName(input, Stem(Name(input)) + "_plex.mp4")
  }

  /**
   * The output path of `convert_file`: the caller's path unchanged, otherwise
   * a file in the input's directory named after the input's stem.
   */
  function OutputPath(input: string, output: Option<string>): (out: string)
    requires output.Some? || Name(input) != ""
    ensures output.Some? ==> out == output.value
    ensures output.None? ==> Directory(out) == Directory(input)
    ensures output.None? ==> Name(out) == Stem(Name(input)) + "_plex.mp4"
  {
    match output
    case Some(o) => o
    case None => DefaultOutput(input)
  }

  /** The derived output path is never the input path itself. */
  lemma DefaultOutputIsNotInput(input: string)
    requires Name(input) != ""
    ensures DefaultOutput(input) != input
  {
    StemAndSuffix(Name(input));
    var out := OutputPath(input, None);
  }

  /**
   * For `dir/base.ext`, only the last extension is dropped and the directory
   * is kept: `dir/base_plex.mp4`.
   */
  lemma DefaultOutputOfDotted(dir: string, base: string, ext: string)
    requires dir == "" || dir[|dir| - 1] == '/'
    requires base != "" && ext != "" && '.' !in ext
    requires '/' !in base && '/' !in ext
    ensures Name(dir + (base + "." + ext)) == base + "." + ext
    ensures DefaultOutput(dir + (base + "." + ext)) == dir + (base + "_plex.mp4")
  {
    var name := base + "." + ext;
    var p := dir + name;
    assert Name(p) == name && Directory(p) == dir by {
      assert '/' !in name;
      NameAfterDirectory(dir, name);
    }
    assert Stem(name) == base by {
      StemOfDotted(base, ext);
    }
    assert DefaultOutput(p) == dir + (base + "_plex.mp4");
  }
}
