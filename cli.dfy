/**
 * The driver of the metric tool: validating the parsed command-line options,
 * deriving the transpiler's name from the Rust subdirectory, and writing the
 * list of selected functions under a name that records the hyper-parameters.
 */
module Cli {
  import opened Wrappers
  import opened Text
  import Measure

  /** The options after option parsing; an option that was not given is None. */
  datatype Options = Options(
    mode: Option<string>,
    dir: Option<string>,
    csubdir: Option<string>,
    rustsubdir: Option<string>,
    metricfile: Option<string>,
    partitions: int,
    ratio: real,
    out: Option<string>)

  /** The option values when none is given on the command line. */
  const DEFAULT_PARTITIONS := 9
  const DEFAULT_RATIO := 0.166
  const DEFAULT_OUT := "out/metrics#4_fullset_v1/selected_func_lists/"

  function Defaults(): (o: Options)
    ensures o.mode.None? && o.out.Some?
  {
    Options(None, None, None, None, None, DEFAULT_PARTITIONS, DEFAULT_RATIO, Some(DEFAULT_OUT))
  }

  /** A validated command: each mode carries the options it cannot run without. */
  datatype Command =
    | Get(dir: string, csubdir: string, rustsubdir: string, metricfile: Option<string>)
    | Select(out: string, partitions: int, ratio: real, metricfile: Option<string>)
    | Tune(out: string, metricfile: Option<string>)

  function ModeName(c: Command): string {
    match c
    case Get(_, _, _, _) => "get"
    case Select(_, _, _, _) => "select"
    case Tune(_, _) => "tune"
  }

  const NO_MODE := "Mode of operation is not set"
  const NO_GET_DIRS := "Main benchmark directory, C subdirectory and Rust subdirectory must be set"
  const NO_OUT := "Output path must be specified for selection or parameter tuning"
  const BAD_MODE := "The mode sohuld be set to one of these: get, tune, select"

  /** The mode names, compared after lower-casing. */
  predicate KnownMode(m: string) {
    m == "get" || m == "select" || m == "tune"
  }

  /** What a mode needs besides itself. */
  predicate Provided(o: Options, m: string) {
    if m == "get" then o.dir.Some? && o.csubdir.Some? && o.rustsubdir.Some?
    else o.out.Some?
  }

  /**
   * Validation: a missing mode, an unknown mode, or a known mode without the
   * options it needs ends the program with the matching message.
   */
  function ParseArgs(o: Options): (r: Result<Command, string>)
    ensures r.Success? <==> o.mode.Some? && KnownMode(ToLower(o.mode.value)) && Provided(o, ToLower(o.mode.value))
    ensures r.Success? ==> ModeName(r.value) == ToLower(o.mode.value)
    ensures r.Failure? ==> r.error in {NO_MODE, NO_GET_DIRS, NO_OUT, BAD_MODE}
  {
    if o.mode.None? then Failure(NO_MODE)
    else
      var m := ToLower(o.mode.value);
      if m == "get" then
        if o.dir.None? || o.csubdir.None? || o.rustsubdir.None? then Failure(NO_GET_DIRS)
        else Success(Get(o.dir.value, o.csubdir.value, o.rustsubdir.value, o.metricfile))
      else if m == "select" || m == "tune" then
        if o.out.None? then Failure(NO_OUT)
        else if m == "select" then Success(Select(o.out.value, o.partitions, o.ratio, o.metricfile))
        else Success(Tune(o.out.value, o.metricfile))
      else Failure(BAD_MODE)
  }

  /** Each message is given for exactly one reason. */
  lemma ParseArgsErrors(o: Options)
    ensures ParseArgs(o) == Failure(NO_MODE) <==> o.mode.None?
    ensures ParseArgs(o) == Failure(BAD_MODE) <==> o.mode.Some? && !KnownMode(ToLower(o.mode.value))
    ensures ParseArgs(o) == Failure(NO_GET_DIRS) <==>
      o.mode.Some? && ToLower(o.mode.value) == "get" && !Provided(o, "get")
    ensures ParseArgs(o) == Failure(NO_OUT) <==>
      o.mode.Some? && ToLower(o.mode.value) in {"select", "tune"} && o.out.None?
  {
  }

  /** Lower-casing twice is lower-casing once. */
  lemma ToLowerIdempotent(s: string)
    ensures ToLower(ToLower(s)) == ToLower(s)
  {
  }

  /** The mode is case-insensitive: "GET", "Get" and "get" validate alike. */
  lemma ParseArgsIgnoresCase(o: Options, m: string)
    ensures ParseArgs(o.(mode := Some(m))) == ParseArgs(o.(mode := Some(ToLower(m))))
  {
    ToLowerIdempotent(m);
  }

  /** With the default output path, select and tune need nothing else. */
  lemma DefaultsSelect(m: string)
    requires ToLower(m) == "select" || ToLower(m) == "tune"
    ensures ParseArgs(Defaults().(mode := Some(m))).Success?
  {
    assert Provided(Defaults().(mode := Some(m)), ToLower(m));
  }

  const RUST_PREFIX := "rust_"
  const RUST_SUFFIX := "_sf_withfixing"

  /**
   * The transpiler a Rust subdirectory belongs to: slashes stripped, then the
   * text between "rust_" and "_sf_withfixing" (empty when the two overlap, as
   * a slice whose end lies before its start is). None when the directory is
   * not named that way.
   */
  function TranspilerName(rustDir: string): (r: Option<string>)
    ensures r.Some? <==> StartsWith(Strip(rustDir, '/'), RUST_PREFIX) && EndsWith(Strip(rustDir, '/'), RUST_SUFFIX)
    ensures r.Some? && |Strip(rustDir, '/')| >= |RUST_PREFIX| + |RUST_SUFFIX| ==>
      Strip(rustDir, '/') == RUST_PREFIX + r.value + RUST_SUFFIX
    ensures r.Some? && |Strip(rustDir, '/')| < |RUST_PREFIX| + |RUST_SUFFIX| ==> r.value == ""
  {
    var d := Strip(rustDir, '/');
    if StartsWith(d, RUST_PREFIX) && EndsWith(d, RUST_SUFFIX) then
      if |d| < |RUST_PREFIX| + |RUST_SUFFIX| then Some("")
      else
        Framed(d, RUST_PREFIX, RUST_SUFFIX);
        Some(d[|RUST_PREFIX|..|d| - |RUST_SUFFIX|])
    else None
  }

  /** Stripping a string that neither starts nor ends with the character keeps it. */
  lemma StripUnchanged(s: string, c: char)
    requires s != [] && s[0] != c && s[|s| - 1] != c
    ensures Strip(s, c) == s
  {
  }

  /** Leading slashes do not change the stripped directory. */
  lemma {:induction false} StripLeading(k: nat, s: string)
    requires s != [] && s[0] != '/'
    ensures StripStart(seq(k, _ => '/') + s, '/') == s
    decreases k
  {
    if k > 0 {
      assert (seq(k, _ => '/') + s)[1..] == seq(k - 1, _ => '/') + s;
      StripLeading(k - 1, s);
    }
  }

  /** Trailing slashes do not change the stripped directory. */
  lemma {:induction false} StripTrailing(s: string, k: nat)
    requires s != [] && s[|s| - 1] != '/'
    ensures StripEnd(s + seq(k, _ => '/'), '/') == s
    decreases k
  {
    if k > 0 {
      var t := s + seq(k, _ => '/');
      assert t[..|t| - 1] == s + seq(k - 1, _ => '/');
      StripTrailing(s, k - 1);
    }
  }

  /**
   * The name survives the round trip through the directory naming scheme,
   * whatever slashes surround the directory.
   */
  lemma TranspilerNameOf(name: string, before: nat, after: nat)
    ensures TranspilerName(seq(before, _ => '/') + RUST_PREFIX + name + RUST_SUFFIX + seq(after, _ => '/')) == Some(name)
  {
    var d := RUST_PREFIX + name + RUST_SUFFIX;
    var s := seq(before, _ => '/') + RUST_PREFIX + name + RUST_SUFFIX + seq(after, _ => '/');
    assert s == seq(before, _ => '/') + (d + seq(after, _ => '/'));
    StripLeading(before, d + seq(after, _ => '/'));
    StripTrailing(d, after);
    assert Strip(s, '/') == d;
    FramedParts(RUST_PREFIX, name, RUST_SUFFIX);
  }

  /**
   * The (transpiler, Rust directory) pair handed to the metric collection of
   * one project. A directory not named after a transpiler leaves the name
   * unbound.
   */
  function RustDirsProj(projDir: string, rustDir: string): (r: Result<(string, string), string>)
    ensures r.Failure? <==> TranspilerName(rustDir).None?
    ensures r.Success? ==> r.value.0 == TranspilerName(rustDir).value
    ensures r.Success? ==> r.value.1 == JoinPath(projDir, Strip(rustDir, '/'))
  {
    match TranspilerName(rustDir)
    case None => Failure("UnboundLocalError")
    case Some(name) => Success((name, JoinPath(projDir, Strip(rustDir, '/'))))
  }

  /**
   * The selection's file name: "selected_funcs#<partitions>#<ratio>#<bins>.txt",
   * the ratio written as Python writes the float with its point made an
   * underscore, so that the only point left is the extension's. When the
   * ratio text holds no '#' and no '_', the name splits at '#' into its four
   * parts, from which the partition count, the ratio text and the bin count
   * are read back.
   */
  function OutFilename(partitions: int, ratioText: string, bins: nat): (r: string)
    ensures EndsWith(r, ".txt")
    ensures '#' !in ratioText && '_' !in ratioText ==>
      var f := Split(r, '#');
      && |f| == 4
      && f[0] == "selected_funcs"
      && ParseInt(f[1]) == Some(partitions)
      && ReplaceChar(f[2], '_', '.') == ratioText
      && f[3] == IntToString(bins) + ".txt"
      && ParseInt(f[3][..|f[3]| - 4]) == Some(bins)
  {
    var r := "selected_funcs#" + IntToString(partitions) + "#" + ReplaceChar(ratioText, '.', '_') + "#" + IntToString(bins) + ".txt";
    if '#' !in ratioText && '_' !in ratioText then
      PartsFields(partitions, ratioText, bins, r);
      r
    else
      r
  }

  /** A decimal integer holds neither a '#' nor a '.'. */
  lemma IntToStringChars(i: int)
    ensures '#' !in IntToString(i) && '.' !in IntToString(i)
  {
    var s := IntToString(i);
    if i < 0 {
      assert s == [s[0]] + s[1..];
    }
  }

  /** The file name holds no point before its extension. */
  lemma OutFilenameExtension(partitions: int, ratioText: string, bins: nat)
    ensures var r := OutFilename(partitions, ratioText, bins);
      forall i :: 0 <= i < |r| - 4 ==> r[i] != '.'
  {
    IntToStringChars(partitions);
    IntToStringChars(bins);
  }

  /** Four fields joined with '#', written out. */
  lemma JoinFour(a: string, b: string, c: string, d: string)
    ensures Join([a, b, c, d], '#') == a + "#" + b + "#" + c + "#" + d
  {
    assert [a, b, c, d][1..] == [b, c, d];
    assert [b, c, d][1..] == [c, d];
    assert [c, d][1..] == [d];
    assert Join([c, d], '#') == c + "#" + d;
    assert Join([b, c, d], '#') == b + "#" + (c + "#" + d);
    assert Join([a, b, c, d], '#') == a + "#" + (b + "#" + (c + "#" + d));
  }

  /** A name of four '#'-free parts joined with '#' splits back into them. */
  lemma NameSplit(p: string, t: string, b: string, name: string)
    requires '#' !in p && '#' !in t && '#' !in b
    requires name == "selected_funcs#" + p + "#" + t + "#" + b
    ensures Split(name, '#') == ["selected_funcs", p, t, b]
  {
    var parts := ["selected_funcs", p, t, b];
    JoinFour("selected_funcs", p, t, b);
    assert "selected_funcs#" == "selected_funcs" + "#";
    assert '#' !in parts[0];
    assert forall i :: 0 <= i < |parts| ==> '#' !in parts[i] by {
      assert parts[1] == p && parts[2] == t && parts[3] == b;
    }
    SplitJoin(parts, '#');
  }

  /**
   * A name built from the four parts split back at '#' into those parts, and
   * each reads back as the value it was written from.
   */
  lemma PartsFields(partitions: int, ratioText: string, bins: nat, name: string)
    requires '#' !in ratioText && '_' !in ratioText
    requires name == "selected_funcs#" + IntToString(partitions) + "#" + ReplaceChar(ratioText, '.', '_') + "#" + IntToString(bins) + ".txt"
    ensures var f := Split(name, '#');
      && |f| == 4
      && f[0] == "selected_funcs"
      && ParseInt(f[1]) == Some(partitions)
      && ReplaceChar(f[2], '_', '.') == ratioText
      && f[3] == IntToString(bins) + ".txt"
      && ParseInt(f[3][..|f[3]| - 4]) == Some(bins)
  {
    var t := ReplaceChar(ratioText, '.', '_');
    var b := IntToString(bins) + ".txt";
    IntToStringChars(partitions);
    IntToStringChars(bins);
    assert '#' !in t by {
      forall i | 0 <= i < |t| ensures t[i] != '#' {
        assert ratioText[i] != '#';
      }
    }
    assert '#' !in b;
    NameSplit(IntToString(partitions), t, b, name);
    ParseIntOfIntToString(partitions);
    ParseIntOfIntToString(bins);
    assert b[..|b| - 4] == IntToString(bins);
    ReplaceCharInverse(ratioText, '.', '_');
  }

  /** The selection file: one id per line, each followed by a newline. */
  function SelectionText(ids: seq<string>): (text: string)
    decreases |ids|
  {
    if ids == [] then "" else ids[0] + "\n" + SelectionText(ids[1..])
  }

  /** Written one line at a time, the file grows at its end. */
  lemma {:induction false} SelectionTextSnoc(ids: seq<string>, id: string)
    ensures SelectionText(ids + [id]) == SelectionText(ids) + id + "\n"
    decreases |ids|
  {
    if ids != [] {
      assert (ids + [id])[1..] == ids[1..] + [id];
      SelectionTextSnoc(ids[1..], id);
    } else {
      assert SelectionText([id][1..]) == "";
    }
  }

  /** Splitting the file at newlines gives the ids back, then the empty tail. */
  lemma {:induction false} SelectionTextLines(ids: seq<string>)
    requires forall i :: 0 <= i < |ids| ==> '\n' !in ids[i]
    ensures Split(SelectionText(ids), '\n') == ids + [""]
    decreases |ids|
  {
    if ids != [] {
      SelectionTextLines(ids[1..]);
      SplitAfterField(ids[0], '\n', SelectionText(ids[1..]));
      assert ids[0] + "\n" + SelectionText(ids[1..]) == ids[0] + ['\n'] + SelectionText(ids[1..]);
      assert [ids[0]] + (ids[1..] + [""]) == ids + [""];
    }
  }

  /** The writing loop: each id and then a newline, in order. */
  method WriteSelection(ids: seq<string>) returns (text: string)
    ensures text == SelectionText(ids)
  {
    text := "";
    for i := 0 to |ids|
      invariant text == SelectionText(ids[..i])
    {
      SelectionTextSnoc(ids[..i], ids[i]);
      assert ids[..i + 1] == ids[..i] + [ids[i]];
      text := text + ids[i] + "\n";
    }
    assert ids[..|ids|] == ids;
  }

  /**
   * select_funcs once the bins are formed: the rows picked from every bin are
   * written, one id per line, to the file named after the hyper-parameters.
   * Returns the path and the text of the file.
   */
  method SelectFuncs(outPath: string, partitions: int, ratio: real, ratioText: string, bins: seq<seq<string>>)
    returns (r: Result<(string, string), string>)
    ensures r.Success? <==> forall i :: 0 <= i < |bins| ==> Measure.SampleSize(|bins[i]|, ratio) <= |bins[i]|
    ensures r.Failure? ==> Measure.Selection(bins, ratio).Failure? && r.error == Measure.Selection(bins, ratio).error
    ensures r.Success? ==> (Measure.Selection(bins, ratio).Success?
      && r.value.0 == JoinPath(outPath, OutFilename(partitions, ratioText, |bins|))
      && r.value.1 == SelectionText(Measure.Selection(bins, ratio).value))
  {
    var selected := Measure.SelectFromBins(bins, ratio);
    if selected.Failure? {
      return Failure(selected.error);
    }
    var text := WriteSelection(selected.value);
    r := Success((JoinPath(outPath, OutFilename(partitions, ratioText, |bins|)), text));
  }

  /**
   * The tuning grid: every partition count from 1 to 20 with every ratio from
   * 0.002 to 0.2 in steps of 0.002, in that nesting order.
   */
  function TuneGrid(): (g: seq<(int, real)>)
    ensures |g| == 2000
  {
    seq(2000, i => (i / 100 + 1, ((i % 100) + 1) as real * 0.002))
  }

  /** Each (partition count, ratio step) pair occurs, at the place the nested loops reach it. */
  lemma TuneGridCovers(n: int, x: int)
    requires 1 <= n <= 20 && 1 <= x <= 100
    ensures TuneGrid()[(n - 1) * 100 + (x - 1)] == (n, x as real * 0.002)
  {
    var i := (n - 1) * 100 + (x - 1);
    assert i / 100 == n - 1 && i % 100 == x - 1;
  }

  /** Every grid point is a valid partition count and a ratio in (0, 0.2]. */
  lemma TuneGridBounds(i: int)
    requires 0 <= i < 2000
    ensures 1 <= TuneGrid()[i].0 <= 20
    ensures 0.0 < TuneGrid()[i].1 <= 0.2
  {
  }

  /** The selection at partition count n and ratio step x, from the bins formed for n. */
  function PointSelection(binsOf: int -> seq<seq<string>>, n: int, x: int): Result<seq<string>, string> {
    Measure.Selection(binsOf(n), x as real * 0.002)
  }

  /** The path and text select_funcs writes at partition count n and ratio step x. */
  function PointFile(outPath: string, binsOf: int -> seq<seq<string>>, ratioTextOf: real -> string, n: int, x: int):
    (string, string)
    requires PointSelection(binsOf, n, x).Success?
  {
    (JoinPath(outPath, OutFilename(n, ratioTextOf(x as real * 0.002), |binsOf(n)|)),
     SelectionText(PointSelection(binsOf, n, x).value))
  }

  /** The position of (n, x) in the nested loops' order. */
  function Step(n: int, x: int): int {
    (n - 1) * 100 + (x - 1)
  }

  /** The files written are those of the first points in the nested loops' order. */
  predicate TunedUpTo(outPath: string, binsOf: int -> seq<seq<string>>, ratioTextOf: real -> string, written: seq<(string, string)>) {
    && |written| <= 2000
    && forall n, x :: 1 <= n <= 20 && 1 <= x <= 100 && Step(n, x) < |written| ==>
         PointSelection(binsOf, n, x).Success? && written[Step(n, x)] == PointFile(outPath, binsOf, ratioTextOf, n, x)
  }

  lemma TunedUpToSnoc(outPath: string, binsOf: int -> seq<seq<string>>, ratioTextOf: real -> string,
                      written: seq<(string, string)>, n: int, x: int, w: (string, string))
    requires TunedUpTo(outPath, binsOf, ratioTextOf, written)
    requires 1 <= n <= 20 && 1 <= x <= 100 && Step(n, x) == |written|
    requires PointSelection(binsOf, n, x).Success? && w == PointFile(outPath, binsOf, ratioTextOf, n, x)
    ensures TunedUpTo(outPath, binsOf, ratioTextOf, written + [w])
  {
    forall n', x' | 1 <= n' <= 20 && 1 <= x' <= 100 && Step(n', x') < |written| + 1
      ensures PointSelection(binsOf, n', x').Success?
      ensures (written + [w])[Step(n', x')] == PointFile(outPath, binsOf, ratioTextOf, n', x')
    {
      if Step(n', x') == |written| {
        assert n' == n && x' == x;
      }
    }
  }

  /** One call of select_funcs inside the tune loops, at partition count n and ratio step x. */
  method SelectAt(outPath: string, binsOf: int -> seq<seq<string>>, ratioTextOf: real -> string, n: int, x: int)
    returns (s: Result<(string, string), string>)
    ensures s.Failure? ==> PointSelection(binsOf, n, x).Failure? && s.error == PointSelection(binsOf, n, x).error
    ensures s.Success? ==> PointSelection(binsOf, n, x).Success? && s.value == PointFile(outPath, binsOf, ratioTextOf, n, x)
  {
    var ratio := x as real * 0.002;
    s := SelectFuncs(outPath, n, ratio, ratioTextOf(ratio), binsOf(n));
  }

  /**
   * The tune mode of main: select_funcs at every grid point, partition count
   * outermost, each from the bins formed for that partition count. A bin too
   * small at some point raises and ends the whole run; the files of the
   * earlier points have been written by then.
   */
  method RunTune(outPath: string, binsOf: int -> seq<seq<string>>, ratioTextOf: real -> string)
    returns (r: Result<seq<(string, string)>, string>, written: seq<(string, string)>)
    ensures TunedUpTo(outPath, binsOf, ratioTextOf, written)
    ensures r.Success? ==> |written| == 2000 && r.value == written
    ensures r.Failure? ==> exists n, x ::
      && 1 <= n <= 20 && 1 <= x <= 100 && Step(n, x) == |written|
      && PointSelection(binsOf, n, x).Failure? && r.error == PointSelection(binsOf, n, x).error
  {
    written := [];
    for n := 1 to 21
      invariant |written| == (n - 1) * 100
      invariant TunedUpTo(outPath, binsOf, ratioTextOf, written)
    {
      for x := 1 to 101
        invariant |written| == Step(n, x)
        invariant TunedUpTo(outPath, binsOf, ratioTextOf, written)
      {
        var s := SelectAt(outPath, binsOf, ratioTextOf, n, x);
        if s.Failure? {
          return Failure(s.error), written;
        }
        TunedUpToSnoc(outPath, binsOf, ratioTextOf, written, n, x, s.value);
        written := written + [s.value];
      }
    }
    return Success(written), written;
  }

  /** The k-th grid point is reached by the nested loops at partition count n and ratio step x. */
  lemma GridPointOf(k: int) returns (n: int, x: int)
    requires 0 <= k < 2000
    ensures 1 <= n <= 20 && 1 <= x <= 100 && Step(n, x) == k
    ensures TuneGrid()[k] == (n, x as real * 0.002)
  {
    n, x := k / 100 + 1, k % 100 + 1;
    TuneGridCovers(n, x);
  }

  /** The selection at a grid point. */
  function GridSelection(binsOf: int -> seq<seq<string>>, p: (int, real)): Result<seq<string>, string> {
    Measure.Selection(binsOf(p.0), p.1)
  }

  /** The path and text select_funcs writes at a grid point. */
  function GridFile(outPath: string, binsOf: int -> seq<seq<string>>, ratioTextOf: real -> string, p: (int, real)):
    (string, string)
    requires GridSelection(binsOf, p).Success?
  {
    (JoinPath(outPath, OutFilename(p.0, ratioTextOf(p.1), |binsOf(p.0)|)), SelectionText(GridSelection(binsOf, p).value))
  }

  /**
   * In grid terms: the k-th file a tune run writes is what select_funcs
   * writes at the k-th point of the grid.
   */
  lemma TuneFollowsGrid(outPath: string, binsOf: int -> seq<seq<string>>, ratioTextOf: real -> string,
                        written: seq<(string, string)>, k: int)
    requires TunedUpTo(outPath, binsOf, ratioTextOf, written)
    requires 0 <= k < |written|
    ensures GridSelection(binsOf, TuneGrid()[k]).Success?
    ensures written[k] == GridFile(outPath, binsOf, ratioTextOf, TuneGrid()[k])
  {
    var n, x := GridPointOf(k);
    assert PointSelection(binsOf, n, x).Success? && written[k] == PointFile(outPath, binsOf, ratioTextOf, n, x);
    GridIsPoint(outPath, binsOf, ratioTextOf, TuneGrid()[k], n, x);
  }

  /** A grid point written as a pair has the selection and file of its (n, x) form. */
  lemma GridIsPoint(outPath: string, binsOf: int -> seq<seq<string>>, ratioTextOf: real -> string,
                    p: (int, real), n: int, x: int)
    requires p == (n, x as real * 0.002)
    ensures GridSelection(binsOf, p) == PointSelection(binsOf, n, x)
    ensures PointSelection(binsOf, n, x).Success? ==>
      GridFile(outPath, binsOf, ratioTextOf, p) == PointFile(outPath, binsOf, ratioTextOf, n, x)
  {
  }
}
