/**
 * The per-file driver of the transpilation script (its main function, for one
 * project's input directory): skip files whose artifact exists, log read
 * failures and empty inputs, run translation, repair and annotation until the
 * output is non-empty, write the artifact and append one record to
 * transpilation.log.
 */
module Orchestrator {
  import opened Wrappers
  import opened Text
  import opened Session
  import opened Retry
  import opened Normalizer

  /** The index of the last occurrence of c in s. */
  function LastIndexOf(s: string, c: char): (r: Option<nat>)
    ensures r.Some? ==> r.value < |s| && s[r.value] == c && forall j :: r.value < j < |s| ==> s[j] != c
    ensures r.None? ==> c !in s
  {
    if s == [] then None
    else if s[|s| - 1] == c then Some(|s| - 1)
    else LastIndexOf(s[..|s| - 1], c)
  }

  /**
   * os.path.splitext(name)[0] for a bare file name: the name up to its last
   * dot, unless only dots come before that dot (".hidden" has no extension).
   */
  function Stem(name: string): (r: string)
    ensures r == name || (|r| < |name| && name[..|r|] == r && name[|r|] == '.' && '.' !in name[|r| + 1..])
  {
    match LastIndexOf(name, '.')
    case Some(d) =>
      if exists j | 0 <= j < d :: name[j] != '.' then name[..d] else name
    case None => name
  }

  /** Removing an extension that holds no dot gives back a name that is not all dots. */
  lemma StemOfExtended(base: string, ext: string)
    requires '.' !in ext
    requires exists j :: 0 <= j < |base| && base[j] != '.'
    ensures Stem(base + "." + ext) == base
  {
    var name := base + "." + ext;
    var d := |base|;
    assert name[d] == '.';
    assert forall j :: d < j < |name| ==> name[j] == ext[j - d - 1];
    assert LastIndexOf(name, '.') == Some(d);
    var j :| 0 <= j < |base| && base[j] != '.';
    assert name[j] == base[j];
    assert name[..d] == base;
  }

  /** The artifact written for an input file. */
  function ArtifactName(file: string): string {
    Stem(file) + ".rs"
  }

  /** What opening and reading an input file gives. */
  datatype Contents =
    | Unopenable(reason: string)  // open() raises, outside any handler
    | Unreadable(reason: string)  // read() raises inside the handler
    | Readable(text: string)

  datatype InputFile = InputFile(name: string, contents: Contents)

  /** The rounded durations of the three phases of the last pipeline run. */
  datatype Timings = Timings(translation: nat, compilationFixing: nat, postProcessFixing: nat)

  /** One line of transpilation.log. */
  datatype Entry =
    | ErrorEntry(file: string, message: string)
    | RecordEntry(file: string, compiled: bool, timings: Timings, compIterations: nat, postIterations: nat)

  const EMPTY_INPUT: string := "Input file is empty!"

  function PyBool(b: bool): string {
    if b then "True" else "False"
  }

  /** The eight fields of a record line, in order. */
  function RecordFields(e: Entry): seq<string>
    requires e.RecordEntry?
  {
    [e.file, PyBool(true), PyBool(e.compiled),
     NatToString(e.timings.translation), NatToString(e.compIterations),
     NatToString(e.timings.compilationFixing), NatToString(e.postIterations),
     NatToString(e.timings.postProcessFixing)]
  }

  /** The text of a log line, without its newline; exception messages are put on one line. */
  function Render(e: Entry): string {
    match e
    case ErrorEntry(file, message) => file + ": " + ReplaceChar(message, '\n', ' ')
    case RecordEntry(_, _, _, _, _) => Join(RecordFields(e), ';')
  }

  /**
   * A record line splits back on ';' into exactly its eight fields when the
   * file name holds no ';': the fourth (index 4) is the repair count.
   */
  lemma RecordLineFields(e: Entry)
    requires e.RecordEntry? && ';' !in e.file
    ensures Split(Render(e), ';') == RecordFields(e)
    ensures |Split(Render(e), ';')| == 8
    ensures Split(Render(e), ';')[4] == NatToString(e.compIterations)
  {
    var fields := RecordFields(e);
    forall i | 0 <= i < |fields|
      ensures ';' !in fields[i]
    {
      if 3 <= i {
        assert forall j :: 0 <= j < |fields[i]| ==> IsDigit(fields[i][j]);
      }
    }
    SplitJoin(fields, ';');
  }

  /**
   * The output directory: the artifacts by file name, and the entries of
   * transpilation.log, whose text is one Render(entry) line per entry.
   */
  class OutputDir {
    var artifacts: map<string, string>
    var log: seq<Entry>

    constructor (artifacts: map<string, string>, log: seq<Entry>)
      ensures this.artifacts == artifacts && this.log == log
    {
      this.artifacts := artifacts;
      this.log := log;
    }

    method Append(e: Entry)
      modifies this
      ensures log == old(log) + [e] && artifacts == old(artifacts)
    {
      log := log + [e];
    }

    method Write(name: string, code: string)
      modifies this
      ensures artifacts == old(artifacts)[name := code] && log == old(log)
    {
      artifacts := artifacts[name := code];
    }
  }

  /** What one run of the restart loop produced. */
  datatype Pipeline = Pipeline(code: string, compiled: bool, compIterations: nat, postIterations: nat)

  /**
   * What a finished run promises: compiled code is non-empty and accepted,
   * found within the fix budget and with at most five annotation requests;
   * code that still does not build comes with the fix budget spent and no
   * annotation pass.
   */
  predicate Finished(tc: Toolchain, p: Pipeline) {
    && (p.compiled ==>
          p.code != "" && tc.accepts(p.code) && p.compIterations < MAX_FIXES && p.postIterations <= MAX_TRIES)
    && (!p.compiled ==>
          MAX_FIXES <= p.compIterations <= MAX_FIXES + MAX_TRIES - 1 && p.postIterations == 0)
  }

  /** No reply of the script from position `from` on is usable: the model never answers inside a code fence. */
  predicate StuckFrom(replies: seq<string>, from: nat) {
    forall i :: from <= i < |replies| ==> !Usable(replies[i])
  }

  /**
   * One pass of the body of main's `while True` loop: translate, repair and
   * annotate. None stands for the `continue` taken when translation or repair
   * leaves an empty output. On a stuck model a pass spends exactly five
   * translation requests and compiles nothing.
   */
  method PipelineRound(oracle: Oracle, tc: Toolchain, inputC: string) returns (r: Result<Option<Pipeline>, string>)
    requires oracle.Valid()
    modifies oracle, tc
    ensures oracle.Valid()
    ensures old(oracle.next) <= oracle.next
    ensures r == Success(None) ==> old(oracle.next) < oracle.next
    ensures r.Success? && r.value.Some? ==> Finished(tc, r.value.value)
    ensures r.Failure? ==> oracle.next == |oracle.replies| && r.error == UNAVAILABLE
    ensures StuckFrom(oracle.replies, old(oracle.next)) ==>
      && tc.checked == old(tc.checked)
      && if old(oracle.next) + MAX_TRIES <= |oracle.replies|
         then r == Success(None) && oracle.next == old(oracle.next) + MAX_TRIES
         else r == Failure(UNAVAILABLE)
  {
    var t := Transpilation(oracle, inputC);
    if t.Failure? {
      return Failure(t.error);
    }
    var output := t.value.code;
    var compIterations := 0;
    if output != "" {
      var c := CheckAndFixCompilation(oracle, tc, output, t.value.messages);
      if c.Failure? {
        return Failure(c.error);
      }
      output, compIterations := c.value.code, c.value.fixCount;
      if !c.value.compiled {
        return Success(Some(Pipeline(output, false, compIterations, 0)));
      }
    }
    if output != "" {
      var a := CheckPubNoMangle(oracle, tc, output);
      if a.Failure? {
        return Failure(a.error);
      }
      return Success(Some(Pipeline(a.value.code, true, compIterations, a.value.count)));
    }
    return Success(None);
  }

  /**
   * The `while True` loop of main, as written: passes are repeated until one
   * finishes or a request raises, with no bound on the number of restarts.
   * It ends when repair gives up (the repaired output is kept although it
   * does not build), when annotation has run, or when a request raises. On a
   * stuck model it restarts once per five replies until the script runs out.
   */
  method RunPipeline(oracle: Oracle, tc: Toolchain, inputC: string) returns (r: Result<Pipeline, string>, restarts: nat)
    requires oracle.Valid()
    modifies oracle, tc
    ensures oracle.Valid()
    ensures r.Success? ==> Finished(tc, r.value)
    ensures r.Failure? ==> oracle.next == |oracle.replies| && r.error == UNAVAILABLE
    ensures StuckFrom(oracle.replies, old(oracle.next)) ==>
      && r == Failure(UNAVAILABLE)
      && tc.checked == old(tc.checked)
      && MAX_TRIES * restarts <= |oracle.replies| - old(oracle.next) < MAX_TRIES * (restarts + 1)
  {
    restarts := 0;
    while true
      invariant oracle.Valid() && old(oracle.next) <= oracle.next
      invariant StuckFrom(oracle.replies, old(oracle.next)) ==>
        tc.checked == old(tc.checked) && oracle.next == old(oracle.next) + MAX_TRIES * restarts
      decreases |oracle.replies| - oracle.next
    {
      var p := PipelineRound(oracle, tc, inputC);
      if p.Failure? {
        return Failure(p.error), restarts;
      }
      if p.value.Some? {
        return Success(p.value.value), restarts;
      }
      restarts := restarts + 1;
    }
  }

  /** The error of a file whose pipeline started over more often than allowed. */
  const RESTARTS_EXHAUSTED: string := "RestartsExhausted"

  /**
   * The restart loop with a budget: at most `limit` restarts, after which the
   * file fails instead of starting over again. It ends after at most
   * `limit + 1` passes whatever the model answers; on a stuck model that
   * still has the replies, it gives up after exactly five requests per pass
   * without compiling anything.
   */
  method RunPipelineBounded(oracle: Oracle, tc: Toolchain, inputC: string, limit: nat)
    returns (r: Result<Pipeline, string>, restarts: nat)
    requires oracle.Valid()
    modifies oracle, tc
    ensures oracle.Valid()
    ensures restarts <= limit
    ensures r.Success? ==> Finished(tc, r.value)
    ensures r.Failure? ==>
      || (r.error == UNAVAILABLE && oracle.next == |oracle.replies|)
      || (r.error == RESTARTS_EXHAUSTED && restarts == limit)
    ensures StuckFrom(oracle.replies, old(oracle.next)) && old(oracle.next) + MAX_TRIES * (limit + 1) <= |oracle.replies| ==>
      && r == Failure(RESTARTS_EXHAUSTED)
      && tc.checked == old(tc.checked)
      && oracle.next == old(oracle.next) + MAX_TRIES * (limit + 1)
  {
    restarts := 0;
    while true
      invariant oracle.Valid() && old(oracle.next) <= oracle.next
      invariant restarts <= limit
      invariant StuckFrom(oracle.replies, old(oracle.next)) && old(oracle.next) + MAX_TRIES * (limit + 1) <= |oracle.replies| ==>
        tc.checked == old(tc.checked) && oracle.next == old(oracle.next) + MAX_TRIES * restarts
      decreases limit - restarts
    {
      var p := PipelineRound(oracle, tc, inputC);
      if p.Failure? {
        return Failure(p.error), restarts;
      }
      if p.value.Some? {
        return Success(p.value.value), restarts;
      }
      if restarts == limit {
        return Failure(RESTARTS_EXHAUSTED), restarts;
      }
      restarts := restarts + 1;
    }
  }

  /**
   * Main's loop as written on a model that answers 5 * k times without a code
   * fence: k full restarts of five translation requests each, no compile
   * check, and the run ends only because the script does.
   */
  method StuckModelRestarts(k: nat, inputC: string) returns (r: Result<Pipeline, string>, restarts: nat, checks: nat)
    ensures r == Failure(UNAVAILABLE) && restarts == k && checks == 0
  {
    var oracle := new Oracle(Repeat("", MAX_TRIES * k));
    var tc := new Toolchain(_ => true, _ => "");
    forall i | 0 <= i < |oracle.replies|
      ensures !Usable(oracle.replies[i])
    {
      UnfencedUnusable(oracle.replies[i]);
    }
    r, restarts := RunPipeline(oracle, tc, inputC);
    checks := |tc.checked|;
  }

  /**
   * The part of main's loop for a non-empty input: run the pipeline, write the
   * artifact when it finishes (also when repair gave up) and log the record,
   * or log the exception a request raised.
   */
  method TranslateFile(oracle: Oracle, tc: Toolchain, out: OutputDir, name: string, inputC: string, clock: Timings)
    returns (e: Entry)
    requires oracle.Valid()
    modifies oracle, tc, out
    ensures oracle.Valid()
    ensures e.file == name && out.log == old(out.log) + [e]
    ensures e.ErrorEntry? ==>
      out.artifacts == old(out.artifacts) && e.message == UNAVAILABLE && oracle.next == |oracle.replies|
    ensures e.RecordEntry? ==>
      && ArtifactName(name) in out.artifacts
      && out.artifacts.Keys == old(out.artifacts).Keys + {ArtifactName(name)}
      && forall n :: n in old(out.artifacts) && n != ArtifactName(name) ==> out.artifacts[n] == old(out.artifacts)[n]
    ensures e.RecordEntry? && e.compiled ==>
      var code := out.artifacts[ArtifactName(name)];
      && code != "" && tc.accepts(code)
      && e.timings == clock
      && e.compIterations < MAX_FIXES && e.postIterations <= MAX_TRIES
    ensures e.RecordEntry? && !e.compiled ==>
      && e.timings == clock.(postProcessFixing := 0)
      && MAX_FIXES <= e.compIterations && e.postIterations == 0
  {
    var p, _ := RunPipeline(oracle, tc, inputC);
    match p {
      case Failure(msg) =>
        e := ErrorEntry(name, msg);
      case Success(run) =>
        out.Write(ArtifactName(name), run.code);
        var timings := if run.compiled then clock else clock.(postProcessFixing := 0);
        e := RecordEntry(name, run.compiled, timings, run.compIterations, run.postIterations);
    }
    out.Append(e);
  }

  /** The outcome of one input file. */
  datatype Outcome =
    | Skipped
    | Logged(entry: Entry)
    | Aborted(reason: string)

  /** Every artifact of `before` is still there, unchanged, in `after`. */
  predicate Extends(before: map<string, string>, after: map<string, string>) {
    forall name :: name in before ==> name in after && after[name] == before[name]
  }

  lemma ExtendsTrans(a: map<string, string>, b: map<string, string>, c: map<string, string>)
    requires Extends(a, b) && Extends(b, c)
    ensures Extends(a, c)
  {
  }

  /** Every file among the first |outcomes| that was recorded has its artifact in `artifacts`. */
  predicate Recorded(files: seq<InputFile>, outcomes: seq<Outcome>, artifacts: map<string, string>) {
    |outcomes| <= |files| &&
    forall k :: 0 <= k < |outcomes| && outcomes[k].Logged? && outcomes[k].entry.RecordEntry? ==>
      ArtifactName(files[k].name) in artifacts
  }

  /** Artifacts written for recorded files stay when the directory only grows, and one more outcome keeps them. */
  lemma RecordsKept(files: seq<InputFile>, outcomes: seq<Outcome>, o: Outcome, before: map<string, string>, after: map<string, string>)
    requires |outcomes| < |files|
    requires Extends(before, after)
    requires Recorded(files, outcomes, before)
    requires o.Logged? && o.entry.RecordEntry? ==> ArtifactName(files[|outcomes|].name) in after
    ensures Recorded(files, outcomes + [o], after)
  {
    forall k | 0 <= k < |outcomes| + 1 && (outcomes + [o])[k].Logged? && (outcomes + [o])[k].entry.RecordEntry?
      ensures ArtifactName(files[k].name) in after
    {
      if k < |outcomes| {
        assert (outcomes + [o])[k] == outcomes[k];
      }
    }
  }

  /** No outcome but possibly the last one aborted the run. */
  predicate AbortsLast(outcomes: seq<Outcome>) {
    forall k :: 0 <= k < |outcomes| - 1 ==> !outcomes[k].Aborted?
  }

  /** After outcomes whose last one did not abort, one more outcome still aborts at most at the end. */
  lemma AbortsLastSnoc(outcomes: seq<Outcome>, o: Outcome)
    requires AbortsLast(outcomes) && (outcomes != [] ==> !outcomes[|outcomes| - 1].Aborted?)
    ensures AbortsLast(outcomes + [o])
  {
    forall k | 0 <= k < |outcomes|
      ensures !(outcomes + [o])[k].Aborted?
    {
      assert (outcomes + [o])[k] == outcomes[k];
    }
  }

  /** Every outcome is a skip. */
  predicate AllSkipped(outcomes: seq<Outcome>) {
    forall k :: 0 <= k < |outcomes| ==> outcomes[k].Skipped?
  }

  lemma AllSkippedSnoc(outcomes: seq<Outcome>, o: Outcome)
    requires AllSkipped(outcomes) && o.Skipped?
    ensures AllSkipped(outcomes + [o])
  {
    assert forall k :: 0 <= k < |outcomes| ==> (outcomes + [o])[k] == outcomes[k];
  }

  /**
   * One iteration of main's loop over an input directory. A file whose
   * artifact exists is skipped without any request; an open failure ends the
   * whole run; every other file appends exactly one log line, and only a
   * finished pipeline writes the artifact, also when repair gave up.
   */
  method ProcessFile(oracle: Oracle, tc: Toolchain, out: OutputDir, file: InputFile, clock: Timings)
    returns (o: Outcome)
    requires oracle.Valid()
    modifies oracle, tc, out
    ensures oracle.Valid()
    ensures Extends(old(out.artifacts), out.artifacts)
    ensures ArtifactName(file.name) in old(out.artifacts) <==> o.Skipped?
    ensures o.Skipped? ==>
      && out.artifacts == old(out.artifacts) && out.log == old(out.log)
      && oracle.next == old(oracle.next) && oracle.sent == old(oracle.sent)
      && tc.checked == old(tc.checked)
    ensures o.Aborted? ==>
      file.contents.Unopenable? && out.artifacts == old(out.artifacts) && out.log == old(out.log)
    ensures out.log == old(out.log) + if o.Logged? then [o.entry] else []
    ensures o.Logged? ==> o.entry.file == file.name
    ensures o.Logged? && o.entry.ErrorEntry? ==> out.artifacts == old(out.artifacts)
    ensures o.Logged? && o.entry.ErrorEntry? && file.contents.Unreadable? ==>
      o.entry.message == file.contents.reason
    ensures o.Logged? && o.entry.ErrorEntry? && file.contents.Readable? ==>
      if file.contents.text == "" then o.entry.message == EMPTY_INPUT
      else o.entry.message == UNAVAILABLE && oracle.next == |oracle.replies|
    ensures o.Logged? && o.entry.RecordEntry? ==>
      && file.contents.Readable? && file.contents.text != ""
      && ArtifactName(file.name) in out.artifacts
      && out.artifacts.Keys == old(out.artifacts).Keys + {ArtifactName(file.name)}
      && forall n :: n in old(out.artifacts) ==> out.artifacts[n] == old(out.artifacts)[n]
    ensures o.Logged? && o.entry.RecordEntry? && o.entry.compiled ==>
      var code := out.artifacts[ArtifactName(file.name)];
      && code != "" && tc.accepts(code)
      && o.entry.timings == clock
      && o.entry.compIterations < MAX_FIXES && o.entry.postIterations <= MAX_TRIES
    ensures o.Logged? && o.entry.RecordEntry? && !o.entry.compiled ==>
      && o.entry.timings == clock.(postProcessFixing := 0)
      && MAX_FIXES <= o.entry.compIterations && o.entry.postIterations == 0
  {
    if ArtifactName(file.name) in out.artifacts {
      return Skipped;
    }
    match file.contents
    case Unopenable(reason) =>
      o := Aborted(reason);
    case Unreadable(reason) =>
      o := Logged(ErrorEntry(file.name, reason));
      out.Append(o.entry);
    case Readable(inputC) =>
      if inputC == "" {
        o := Logged(ErrorEntry(file.name, EMPTY_INPUT));
        out.Append(o.entry);
      } else {
        var e := TranslateFile(oracle, tc, out, file.name, inputC, clock);
        o := Logged(e);
      }
  }

  /** The log entries a sequence of outcomes appended. */
  function LoggedLines(outcomes: seq<Outcome>): (lines: seq<Entry>)
    ensures |lines| <= |outcomes|
  {
    if outcomes == [] then []
    else
      var rest := LoggedLines(outcomes[..|outcomes| - 1]);
      match outcomes[|outcomes| - 1]
      case Logged(e) => rest + [e]
      case _ => rest
  }

  lemma LoggedLinesAppend(before: seq<Entry>, outcomes: seq<Outcome>, o: Outcome)
    ensures before + LoggedLines(outcomes + [o]) == (before + LoggedLines(outcomes)) + if o.Logged? then [o.entry] else []
  {
    assert (outcomes + [o])[..|outcomes|] == outcomes;
  }

  /**
   * main's loop over one input directory: files are taken in the given order
   * until the list ends or an open failure ends the run. Artifacts are only
   * ever added, never replaced, so a second run over a finished directory
   * sends no request and logs nothing.
   */
  method ProcessDirectory(oracle: Oracle, tc: Toolchain, out: OutputDir, files: seq<InputFile>, clock: string -> Timings)
    returns (outcomes: seq<Outcome>)
    requires oracle.Valid()
    modifies oracle, tc, out
    ensures oracle.Valid()
    ensures |outcomes| <= |files|
    ensures |outcomes| < |files| ==> |outcomes| > 0 && outcomes[|outcomes| - 1].Aborted?
    ensures forall k :: 0 <= k < |outcomes| - 1 ==> !outcomes[k].Aborted?
    ensures out.log == old(out.log) + LoggedLines(outcomes)
    ensures Extends(old(out.artifacts), out.artifacts)
    ensures forall k :: 0 <= k < |outcomes| && outcomes[k].Logged? && outcomes[k].entry.RecordEntry? ==>
      ArtifactName(files[k].name) in out.artifacts
    ensures (forall k :: 0 <= k < |files| ==> ArtifactName(files[k].name) in old(out.artifacts)) ==>
      && (forall k :: 0 <= k < |outcomes| ==> outcomes[k].Skipped?)
      && out.log == old(out.log) && out.artifacts == old(out.artifacts)
      && oracle.next == old(oracle.next) && oracle.sent == old(oracle.sent)
  {
    outcomes := [];
    ghost var finished := forall k :: 0 <= k < |files| ==> ArtifactName(files[k].name) in old(out.artifacts);
    var i := 0;
    var stop := false;
    while i < |files| && !stop
      invariant oracle.Valid()
      invariant i <= |files| && |outcomes| == i
      invariant stop <==> i > 0 && outcomes[i - 1].Aborted?
      invariant AbortsLast(outcomes)
      invariant out.log == old(out.log) + LoggedLines(outcomes)
      invariant Extends(old(out.artifacts), out.artifacts)
      invariant Recorded(files, outcomes, out.artifacts)
      invariant finished ==>
        && AllSkipped(outcomes)
        && out.log == old(out.log) && out.artifacts == old(out.artifacts)
        && oracle.next == old(oracle.next) && oracle.sent == old(oracle.sent)
    {
      ghost var before := out.artifacts;
      var o := ProcessFile(oracle, tc, out, files[i], clock(files[i].name));
      ExtendsTrans(old(out.artifacts), before, out.artifacts);
      LoggedLinesAppend(old(out.log), outcomes, o);
      RecordsKept(files, outcomes, o, before, out.artifacts);
      AbortsLastSnoc(outcomes, o);
      if finished {
        AllSkippedSnoc(outcomes, o);
      }
      outcomes := outcomes + [o];
      stop := o.Aborted?;
      i := i + 1;
    }
  }
}
