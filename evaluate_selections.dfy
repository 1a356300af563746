/**
 * The record handling of evaluate_selections.py: the translation log read into
 * a dictionary keyed by function id (first line wins, functions no longer in
 * the benchmark dropped), the records of the selected functions picked out of
 * it, the compile-attempt counts tallied per value, and the selection files
 * processed in numeric order while the smallest difference score is kept.
 *
 * A Python dict is modelled as its keys in insertion order and a map.
 */
module EvaluateSelections {
  import opened Wrappers
  import opened Text

  /** No string occurs twice. */
  predicate Distinct(s: seq<string>) {
    forall i, j :: 0 <= i < j < |s| ==> s[i] != s[j]
  }

  /** A dict from function ids to the `;`-separated fields of their log line. */
  datatype LogDict = LogDict(keys: seq<string>, entries: map<string, seq<string>>)
  {
    /** Every key once, in insertion order, and exactly the keys of the map. */
    ghost predicate Valid() {
      Distinct(keys) && forall k :: k in entries <==> k in keys
    }
  }

  const EMPTY: LogDict := LogDict([], map[])

  /** Insertion of a key not yet present; a present key keeps its value. */
  function PutNew(d: LogDict, k: string, v: seq<string>): (r: LogDict)
    ensures d.Valid() ==> r.Valid()
    ensures k in r.entries && forall x :: x in r.entries <==> x in d.entries || x == k
    ensures k !in d.entries ==> r.keys == d.keys + [k] && r.entries == d.entries[k := v]
    ensures k in d.entries ==> r == d
  {
    if k in d.entries then d else LogDict(d.keys + [k], d.entries[k := v])
  }

  /** The fields of a (stripped) log line: split at `;`. */
  function LogFields(line: string): (r: seq<string>)
    ensures |r| >= 1
  {
    Split(line, ';')
  }

  /** The lines of a file with `strip()` applied to each. */
  function Stripped(lines: seq<string>): (r: seq<string>)
    ensures |r| == |lines|
    ensures forall i :: 0 <= i < |lines| ==> r[i] == Trim(lines[i])
  {
    seq(|lines|, i requires 0 <= i < |lines| => Trim(lines[i]))
  }

  /** The id a log line is about: its first field. */
  function LogId(line: string): string {
    LogFields(line)[0]
  }

  /** The ids of the functions still in the benchmark, in the log's format: `:` becomes `#`, `.c` follows. */
  function AliveIds(ids: seq<string>): (r: seq<string>)
    ensures |r| == |ids|
    ensures forall i :: 0 <= i < |ids| ==> r[i] == ReplaceChar(ids[i], ':', '#') + ".c"
  {
    seq(|ids|, i requires 0 <= i < |ids| => ReplaceChar(ids[i], ':', '#') + ".c")
  }

  /** The log dict after the given lines: a line is kept when its id is alive and not yet a key. */
  function LogFromLines(lines: seq<string>, alive: seq<string>): LogDict
    decreases |lines|
  {
    if lines == [] then EMPTY
    else
      var d := LogFromLines(lines[..|lines| - 1], alive);
      var elems := LogFields(lines[|lines| - 1]);
      if elems[0] !in d.entries && elems[0] in alive then PutNew(d, elems[0], elems) else d
  }

  /** A sequence is distinct exactly when its prefix is and its last element is new. */
  lemma DistinctSnoc(s: seq<string>)
    requires s != []
    ensures Distinct(s) <==> Distinct(s[..|s| - 1]) && s[|s| - 1] !in s[..|s| - 1]
  {
    var init := s[..|s| - 1];
    if Distinct(init) && s[|s| - 1] !in init {
      forall i, j | 0 <= i < j < |s|
        ensures s[i] != s[j]
      {
        if j < |s| - 1 {
          assert s[i] == init[i] && s[j] == init[j];
        } else {
          assert s[i] == init[i];
        }
      }
    }
  }

  /** The dict after one more line. */
  lemma LogFromLinesStep(lines: seq<string>, alive: seq<string>)
    requires lines != []
    ensures var d := LogFromLines(lines[..|lines| - 1], alive);
      var last := lines[|lines| - 1];
      LogFromLines(lines, alive) ==
        if LogId(last) !in d.entries && LogId(last) in alive then PutNew(d, LogId(last), LogFields(last)) else d
  {
  }

  /** The id each line is about, in order. */
  function Ids(lines: seq<string>): (r: seq<string>)
    ensures |r| == |lines|
    ensures forall i :: 0 <= i < |lines| ==> r[i] == LogId(lines[i])
  {
    seq(|lines|, i requires 0 <= i < |lines| => LogId(lines[i]))
  }

  lemma IdsSnoc(lines: seq<string>)
    requires lines != []
    ensures Ids(lines) == Ids(lines[..|lines| - 1]) + [LogId(lines[|lines| - 1])]
  {
  }

  /** The dict holds exactly the alive ids that head some line. */
  lemma {:induction false} LogFromLinesKeys(lines: seq<string>, alive: seq<string>)
    ensures LogFromLines(lines, alive).Valid()
    ensures forall k :: k in LogFromLines(lines, alive).entries <==> k in alive && k in Ids(lines)
    decreases |lines|
  {
    if lines != [] {
      var init := lines[..|lines| - 1];
      LogFromLinesKeys(init, alive);
      LogFromLinesStep(lines, alive);
      IdsSnoc(lines);
    }
  }

  /** Each alive id of the log keeps the fields of the first line about it. */
  lemma {:induction false} LogFromLinesFirst(lines: seq<string>, alive: seq<string>, i: nat)
    requires i < |lines| && LogId(lines[i]) in alive
    requires LogId(lines[i]) !in Ids(lines[..i])
    ensures LogId(lines[i]) in LogFromLines(lines, alive).entries
    ensures LogFromLines(lines, alive).entries[LogId(lines[i])] == LogFields(lines[i])
    decreases |lines|
  {
    var init := lines[..|lines| - 1];
    LogFromLinesStep(lines, alive);
    LogFromLinesKeys(init, alive);
    LogFromLinesKeys(lines, alive);
    IdsSnoc(lines);
    if i < |init| {
      assert init[i] == lines[i] && init[..i] == lines[..i];
      LogFromLinesFirst(init, alive, i);
    } else {
      assert init == lines[..i];
    }
  }

  /** main's loop over the stripped log lines, filling the dict. */
  method BuildLogDict(lines: seq<string>, alive: seq<string>) returns (d: LogDict)
    ensures d == LogFromLines(lines, alive)
  {
    d := EMPTY;
    for i := 0 to |lines|
      invariant d == LogFromLines(lines[..i], alive)
    {
      assert lines[..i + 1][..i] == lines[..i];
      var elems := LogFields(lines[i]);
      if elems[0] !in d.entries && elems[0] in alive {
        d := PutNew(d, elems[0], elems);
      }
    }
    assert lines[..|lines|] == lines;
  }

  /** The ids in order of first occurrence, each once. */
  function Dedup(ids: seq<string>): (r: seq<string>)
    ensures Distinct(r)
    ensures forall x :: x in r <==> x in ids
    decreases |ids|
  {
    if ids == [] then []
    else
      var init := Dedup(ids[..|ids| - 1]);
      var last := ids[|ids| - 1];
      assert forall x :: x in ids <==> x in ids[..|ids| - 1] || x == last;
      if last in init then init else init + [last]
  }

  /** get_logs_for_selected: each selected id's record, once, or KeyError for an id missing from the log. */
  function SelectLogs(d: LogDict, ids: seq<string>): Result<LogDict, string>
    decreases |ids|
  {
    if ids == [] then Success(EMPTY)
    else
      match SelectLogs(d, ids[..|ids| - 1])
      case Failure(e) => Failure(e)
      case Success(s) =>
        var id := ids[|ids| - 1];
        if id in s.entries then Success(s)
        else if id !in d.entries then Failure("KeyError")
        else Success(PutNew(s, id, d.entries[id]))
  }

  /** The selection succeeds exactly when every selected id is in the log. */
  lemma {:induction false} SelectLogsSucceeds(d: LogDict, ids: seq<string>)
    ensures SelectLogs(d, ids).Success? <==> forall i :: 0 <= i < |ids| ==> ids[i] in d.entries
    decreases |ids|
  {
    if ids != [] {
      var init := ids[..|ids| - 1];
      var id := ids[|ids| - 1];
      SelectLogsSucceeds(d, init);
      assert forall i :: 0 <= i < |init| ==> init[i] == ids[i];
      assert (forall i :: 0 <= i < |ids| ==> ids[i] in d.entries) <==>
        (forall i :: 0 <= i < |init| ==> init[i] in d.entries) && id in d.entries;
      match SelectLogs(d, init)
      case Failure(_) =>
      case Success(s) =>
        SelectLogsKeys(d, init);
        assert id in s.entries ==> id in d.entries;
    }
  }

  /**
   * A successful selection has the distinct selected ids as keys, in order of
   * first occurrence, each with the record the log holds.
   */
  lemma {:induction false} SelectLogsKeys(d: LogDict, ids: seq<string>)
    requires SelectLogs(d, ids).Success?
    ensures var s := SelectLogs(d, ids).value;
      && s.Valid()
      && s.keys == Dedup(ids)
      && forall k :: k in s.entries ==> k in d.entries && s.entries[k] == d.entries[k]
    decreases |ids|
  {
    if ids != [] {
      var init := ids[..|ids| - 1];
      var id := ids[|ids| - 1];
      assert SelectLogs(d, init).Success?;
      SelectLogsKeys(d, init);
      var s := SelectLogs(d, init).value;
      assert SelectLogs(d, ids) ==
        if id in s.entries then Success(s) else Success(PutNew(s, id, d.entries[id]));
      assert Dedup(ids) == if id in Dedup(init) then Dedup(init) else Dedup(init) + [id];
    }
  }

  /** The loop of get_logs_for_selected. */
  method GetLogsForSelected(d: LogDict, ids: seq<string>) returns (r: Result<LogDict, string>)
    ensures r == SelectLogs(d, ids)
  {
    var s := EMPTY;
    for i := 0 to |ids|
      invariant SelectLogs(d, ids[..i]) == Success(s)
    {
      assert ids[..i + 1][..i] == ids[..i];
      var id := ids[i];
      if id !in s.entries {
        if id !in d.entries {
          SelectLogsStops(d, ids, i + 1);
          return Failure("KeyError");
        }
        s := PutNew(s, id, d.entries[id]);
      }
    }
    assert ids[..|ids|] == ids;
    r := Success(s);
  }

  lemma {:induction false} SelectLogsStops(d: LogDict, ids: seq<string>, n: nat)
    requires n <= |ids| && SelectLogs(d, ids[..n]).Failure?
    ensures SelectLogs(d, ids) == SelectLogs(d, ids[..n])
    decreases |ids| - n
  {
    if n < |ids| {
      assert ids[..n + 1][..n] == ids[..n];
      SelectLogsStops(d, ids, n + 1);
    } else {
      assert ids[..n] == ids;
    }
  }

  /** Every key has a record with a field 4. */
  predicate Complete(keys: seq<string>, entries: map<string, seq<string>>) {
    forall k :: k in keys ==> k in entries && |entries[k]| >= 5
  }

  /** Field 4 (the compile-attempt count) of each key's record, in key order. */
  function Field4(keys: seq<string>, entries: map<string, seq<string>>): (r: seq<string>)
    requires Complete(keys, entries)
    ensures |r| == |keys|
    decreases |keys|
  {
    if keys == [] then []
    else Field4(keys[..|keys| - 1], entries) + [entries[keys[|keys| - 1]][4]]
  }

  /** One value per key, in key order: the key's field 4. */
  lemma {:induction false} Field4Meaning(keys: seq<string>, entries: map<string, seq<string>>)
    requires Complete(keys, entries)
    ensures forall i :: 0 <= i < |keys| ==> Field4(keys, entries)[i] == entries[keys[i]][4]
    decreases |keys|
  {
    if keys != [] {
      Field4Meaning(keys[..|keys| - 1], entries);
    }
  }

  /** get_comp_attempts: field 4 per key, or IndexError when a record is shorter. */
  function CompAttempts(d: LogDict): Result<seq<string>, string>
    requires d.Valid()
  {
    if Complete(d.keys, d.entries) then Success(Field4(d.keys, d.entries)) else Failure("IndexError")
  }

  /** The loop of get_comp_attempts. */
  method GetCompAttempts(d: LogDict) returns (r: Result<seq<string>, string>)
    requires d.Valid()
    ensures r == CompAttempts(d)
  {
    var attempts: seq<string> := [];
    for i := 0 to |d.keys|
      invariant Complete(d.keys[..i], d.entries)
      invariant attempts == Field4(d.keys[..i], d.entries)
    {
      assert d.keys[..i + 1][..i] == d.keys[..i];
      var record := d.entries[d.keys[i]];
      if |record| < 5 {
        return Failure("IndexError");
      }
      attempts := attempts + [record[4]];
    }
    assert d.keys[..|d.keys|] == d.keys;
    r := Success(attempts);
  }

  /** The keys of a distinct sequence other than one of them. */
  function Remove(keys: seq<string>, k: string): (r: seq<string>)
    ensures forall x :: x in r <==> x in keys && x != k
    decreases |keys|
  {
    if keys == [] then []
    else
      var last := keys[|keys| - 1];
      var init := Remove(keys[..|keys| - 1], k);
      assert forall x :: x in keys <==> x in keys[..|keys| - 1] || x == last;
      if last == k then init else init + [last]
  }

  lemma {:induction false} RemoveDistinct(keys: seq<string>, k: string)
    requires Distinct(keys)
    ensures Distinct(Remove(keys, k))
    decreases |keys|
  {
    if keys != [] {
      var last := keys[|keys| - 1];
      DistinctSnoc(keys);
      RemoveDistinct(keys[..|keys| - 1], k);
      if last != k {
        DistinctSnoc(Remove(keys[..|keys| - 1], k) + [last]);
      }
    }
  }

  lemma MultisetSnoc(a: seq<string>, b: seq<string>, v: string, w: string)
    requires multiset(a) == multiset(b) + multiset{w}
    ensures multiset(a + [v]) == multiset(b + [v]) + multiset{w}
  {
  }

  /** Removing a present key removes exactly its count from the multiset. */
  lemma {:induction false} Field4Remove(keys: seq<string>, entries: map<string, seq<string>>, k: string)
    requires Distinct(keys) && Complete(keys, entries) && k in keys
    ensures Complete(Remove(keys, k), entries)
    ensures multiset(Field4(keys, entries)) == multiset(Field4(Remove(keys, k), entries)) + multiset{entries[k][4]}
    decreases |keys|
  {
    var init := keys[..|keys| - 1];
    var last := keys[|keys| - 1];
    DistinctSnoc(keys);
    assert init + [last] == keys;
    if last == k {
      Field4RemoveLast(init, k, entries);
    } else {
      Field4Remove(init, entries, k);
      Field4RemoveOther(init, last, k, entries);
    }
  }

  lemma Field4RemoveLast(init: seq<string>, k: string, entries: map<string, seq<string>>)
    requires k !in init && Complete(init + [k], entries)
    ensures Remove(init + [k], k) == init && Complete(init, entries)
    ensures multiset(Field4(init + [k], entries)) == multiset(Field4(init, entries)) + multiset{entries[k][4]}
  {
    Field4Snoc(init, k, entries);
    RemoveAbsent(init, k);
    assert (init + [k])[..|init|] == init;
  }

  lemma Field4RemoveOther(init: seq<string>, last: string, k: string, entries: map<string, seq<string>>)
    requires last != k && Complete(init + [last], entries) && Complete(Remove(init, k), entries)
    requires k in entries && |entries[k]| >= 5
    requires multiset(Field4(init, entries)) == multiset(Field4(Remove(init, k), entries)) + multiset{entries[k][4]}
    ensures Complete(Remove(init + [last], k), entries)
    ensures multiset(Field4(init + [last], entries)) == multiset(Field4(Remove(init + [last], k), entries)) + multiset{entries[k][4]}
  {
    var rest := Remove(init, k);
    var v := entries[last][4];
    assert Remove(init + [last], k) == rest + [last] by {
      assert (init + [last])[..|init|] == init;
    }
    assert Complete(rest + [last], entries) && Field4(rest + [last], entries) == Field4(rest, entries) + [v] by {
      Field4Snoc(init, last, entries);
      assert forall x :: x in rest + [last] ==> x in init + [last];
      Field4Snoc(rest, last, entries);
    }
    assert Field4(init + [last], entries) == Field4(init, entries) + [v] by {
      Field4Snoc(init, last, entries);
    }
    MultisetSnoc(Field4(init, entries), Field4(rest, entries), v, entries[k][4]);
  }

  lemma Field4Snoc(keys: seq<string>, k: string, entries: map<string, seq<string>>)
    requires Complete(keys + [k], entries)
    ensures Complete(keys, entries)
    ensures k in entries && |entries[k]| >= 5
    ensures Field4(keys + [k], entries) == Field4(keys, entries) + [entries[k][4]]
  {
    assert (keys + [k])[..|keys|] == keys;
  }

  lemma {:induction false} RemoveAbsent(keys: seq<string>, k: string)
    requires k !in keys
    ensures Remove(keys, k) == keys
    decreases |keys|
  {
    if keys != [] {
      RemoveAbsent(keys[..|keys| - 1], k);
      assert keys[..|keys| - 1] + [keys[|keys| - 1]] == keys;
    }
  }

  /**
   * Field 4 over distinct keys drawn from a larger set of distinct keys is a
   * sub-multiset: each value occurs at most as often.
   */
  lemma {:induction false} Field4Within(sub: seq<string>, keys: seq<string>, entries: map<string, seq<string>>)
    requires Distinct(sub) && Distinct(keys) && Complete(keys, entries)
    requires forall k :: k in sub ==> k in keys
    ensures Complete(sub, entries)
    ensures multiset(Field4(sub, entries)) <= multiset(Field4(keys, entries))
    decreases |sub|
  {
    if sub != [] {
      var init := sub[..|sub| - 1];
      var last := sub[|sub| - 1];
      assert forall x :: x in sub <==> x in init || x == last;
      DistinctSnoc(sub);
      Field4Remove(keys, entries, last);
      RemoveDistinct(keys, last);
      Field4Within(init, Remove(keys, last), entries);
    }
  }

  /** Field 4 depends only on the entries of the keys it reads. */
  lemma {:induction false} Field4Agree(keys: seq<string>, a: map<string, seq<string>>, b: map<string, seq<string>>)
    requires Complete(keys, a)
    requires forall k :: k in keys ==> k in b && b[k] == a[k]
    ensures Complete(keys, b) && Field4(keys, b) == Field4(keys, a)
    decreases |keys|
  {
    if keys != [] {
      Field4Agree(keys[..|keys| - 1], a, b);
    }
  }

  /**
   * The compile attempts of a selection are among those of the whole log: when
   * both lists are read without error, each value occurs in the selection's at
   * most as often as in the log's.
   */
  lemma SelectedAttemptsWithin(d: LogDict, ids: seq<string>)
    requires d.Valid() && SelectLogs(d, ids).Success? && CompAttempts(d).Success?
    ensures SelectLogs(d, ids).value.Valid()
    ensures CompAttempts(SelectLogs(d, ids).value).Success?
    ensures multiset(CompAttempts(SelectLogs(d, ids).value).value) <= multiset(CompAttempts(d).value)
  {
    SelectLogsKeys(d, ids);
    var s := SelectLogs(d, ids).value;
    Field4Within(s.keys, d.keys, d.entries);
    Field4Agree(s.keys, d.entries, s.entries);
  }

  /** A selected-function line `proj:file:func` in the log's id format `proj#file#func.c`. */
  function Reformat(line: string): (r: Result<string, string>)
    ensures r.Failure? <==> |Split(line, ':')| < 3
  {
    var parts := Split(line, ':');
    if |parts| < 3 then Failure("IndexError")
    else Success(parts[0] + "#" + parts[1] + "#" + parts[2] + ".c")
  }

  /**
   * A function's `proj:file:func` id becomes the log's id for it: the same
   * string the alive list is rewritten to.
   */
  lemma ReformatOfId(p: string, f: string, fn: string)
    requires ':' !in p && ':' !in f && ':' !in fn
    ensures Reformat(p + ":" + f + ":" + fn) == Success(p + "#" + f + "#" + fn + ".c")
    ensures Reformat(p + ":" + f + ":" + fn).value == ReplaceChar(p + ":" + f + ":" + fn, ':', '#') + ".c"
  {
    var id := p + ":" + f + ":" + fn;
    assert Split(id, ':') == [p, f, fn] by {
      SplitJoin([p, f, fn], ':');
      assert [p, f, fn][1..] == [f, fn];
      assert Join([f, fn], ':') == f + ":" + fn;
      assert Join([p, f, fn], ':') == id;
    }
    assert ReplaceChar(id, ':', '#') == p + "#" + f + "#" + fn by {
      ReplaceCharAppend(p + ":" + f + ":", fn, ':', '#');
      ReplaceCharAppend(p + ":" + f, ":", ':', '#');
      ReplaceCharAppend(p + ":", f, ':', '#');
      ReplaceCharAppend(p, ":", ':', '#');
      assert ReplaceChar(":", ':', '#') == "#";
      ReplaceCharWithout(p, ':', '#');
      ReplaceCharWithout(f, ':', '#');
      ReplaceCharWithout(fn, ':', '#');
    }
  }

  /** The list comprehension over all selected lines: one IndexError fails the whole file. */
  function ReformatAll(lines: seq<string>): (r: Result<seq<string>, string>)
    ensures r.Success? <==> forall i :: 0 <= i < |lines| ==> Reformat(lines[i]).Success?
    ensures r.Success? ==>
      |r.value| == |lines| && forall i :: 0 <= i < |lines| ==> Success(r.value[i]) == Reformat(lines[i])
  {
    if forall i :: 0 <= i < |lines| ==> Reformat(lines[i]).Success? then
      Success(seq(|lines|, i requires 0 <= i < |lines| => Reformat(lines[i]).value))
    else Failure("IndexError")
  }

  /** The decimal texts of 0 to n - 1. */
  function NumberTexts(n: nat): (r: seq<string>)
    ensures |r| == n
    ensures forall i :: 0 <= i < n ==> r[i] == NatToString(i)
  {
    seq(n, i requires 0 <= i < n => NatToString(i))
  }

  /** The 21 tally keys: the decimal texts of 0 to 20. */
  const ALL_KEYS: seq<string> := NumberTexts(21)

  /** `Counter(xs).get(key, 0)`: how often the key occurs. */
  function Tally(xs: seq<string>, key: string): nat {
    multiset(xs)[key]
  }

  /** A baseline bar: the count scaled and rounded up, or 1.0 for a key that never occurs. */
  function Scaled(count: nat, ratio: real): real {
    if count == 0 then 1.0 else Ceil(count as real * ratio) as real
  }

  /** The two histograms: the baseline scaled to the selection's size, and the selection's tally. */
  datatype Frequencies = Frequencies(baseline: seq<real>, selected: seq<nat>)

  /**
   * get_frequencies: the log's tally scaled by the selection's share and rounded
   * up (1.0 for a key the log does not have), and the selection's tally (0 for
   * a key it does not have). An empty log divides by zero.
   */
  function GetFrequencies(comp: seq<string>, sel: seq<string>): (r: Result<Frequencies, string>)
    ensures r.Success? <==> |comp| > 0
    ensures r.Success? ==> |r.value.baseline| == |ALL_KEYS| == |r.value.selected|
    ensures r.Success? ==> forall i :: 0 <= i < |ALL_KEYS| ==>
      var count := multiset(comp)[ALL_KEYS[i]];
      var share := count as real * (|sel| as real / |comp| as real);
      && r.value.selected[i] == multiset(sel)[ALL_KEYS[i]]
      && (count == 0 ==> r.value.baseline[i] == 1.0)
      && (count > 0 ==> share <= r.value.baseline[i] < share + 1.0)
  {
    if |comp| == 0 then Failure("ZeroDivisionError")
    else
      var ratio := |sel| as real / |comp| as real;
      Success(Frequencies(
        seq(21, i requires 0 <= i < 21 => Scaled(Tally(comp, ALL_KEYS[i]), ratio)),
        seq(21, i requires 0 <= i < 21 => Tally(sel, ALL_KEYS[i]))))
  }

  /**
   * process_files without the plot and the score: the stripped lines are
   * reformatted, their records selected from the log, and both lists of
   * compile attempts tallied; the count of selected lines comes with them.
   */
  function ProcessFile(d: LogDict, lines: seq<string>): Result<(Frequencies, nat), string>
    requires d.Valid()
  {
    match ReformatAll(Stripped(lines))
    case Failure(e) => Failure(e)
    case Success(ids) =>
      match SelectLogs(d, ids)
      case Failure(e) => Failure(e)
      case Success(s) =>
        SelectLogsKeys(d, ids);
        match CompAttempts(d)
        case Failure(e) => Failure(e)
        case Success(comp) =>
          match CompAttempts(s)
          case Failure(e) => Failure(e)
          case Success(sel) =>
            match GetFrequencies(comp, sel)
            case Failure(e) => Failure(e)
            case Success(freq) => Success((freq, |lines|))
  }

  /**
   * Every key's selected tally is at most the log's tally for it, a key the
   * log lacks has baseline 1.0 and no selected function, and the count is the
   * number of lines of the selection file.
   */
  lemma ProcessFileBounds(d: LogDict, lines: seq<string>)
    requires d.Valid() && ProcessFile(d, lines).Success?
    ensures var freq := ProcessFile(d, lines).value.0;
      && ProcessFile(d, lines).value.1 == |lines|
      && |freq.selected| == |freq.baseline| == |ALL_KEYS|
      && CompAttempts(d).Success?
      && forall i :: 0 <= i < |ALL_KEYS| ==>
           && freq.selected[i] <= Tally(CompAttempts(d).value, ALL_KEYS[i])
           && (Tally(CompAttempts(d).value, ALL_KEYS[i]) == 0 ==> freq.baseline[i] == 1.0 && freq.selected[i] == 0)
  {
    var ids := ReformatAll(Stripped(lines)).value;
    SelectedAttemptsWithin(d, ids);
  }

  /** The length of the run of digits that starts the string. */
  function LeadingDigits(s: string): (n: nat)
    ensures n <= |s| && AllDigits(s[..n])
    ensures n < |s| ==> !IsDigit(s[n])
    decreases |s|
  {
    if s == [] || !IsDigit(s[0]) then 0
    else
      var n := LeadingDigits(s[1..]);
      assert s[..n + 1] == [s[0]] + s[1..][..n];
      n + 1
  }

  /** `re.findall(r'\d+', s)`: the maximal runs of digits, left to right. */
  function DigitRuns(s: string): (r: seq<string>)
    ensures forall i :: 0 <= i < |r| ==> |r[i]| >= 1 && AllDigits(r[i])
    decreases |s|
  {
    if s == [] then []
    else if !IsDigit(s[0]) then DigitRuns(s[1..])
    else
      var n := LeadingDigits(s);
      [s[..n]] + DigitRuns(s[n..])
  }

  /** extract_number: the runs of digits read as numbers, the sort key of the selection files. */
  function ExtractNumber(s: string): (r: seq<nat>)
    ensures |r| == |DigitRuns(s)|
  {
    var runs := DigitRuns(s);
    seq(|runs|, i requires 0 <= i < |runs| => DigitsValue(runs[i]))
  }

  /** A string without digits has no runs. */
  lemma {:induction false} DigitRunsNone(s: string)
    requires forall i :: 0 <= i < |s| ==> !IsDigit(s[i])
    ensures DigitRuns(s) == []
    decreases |s|
  {
    if s != [] {
      DigitRunsNone(s[1..]);
    }
  }

  /** The leading run of a run of digits followed by a non-digit (or nothing) is that run. */
  lemma {:induction false} LeadingDigitsOf(digits: string, rest: string)
    requires AllDigits(digits)
    requires rest != [] ==> !IsDigit(rest[0])
    ensures LeadingDigits(digits + rest) == |digits|
    decreases |digits|
  {
    if digits == [] {
      assert digits + rest == rest;
    } else {
      assert (digits + rest)[1..] == digits[1..] + rest;
      LeadingDigitsOf(digits[1..], rest);
    }
  }

  /** A non-empty run of digits followed by a non-digit (or nothing) is one run. */
  lemma DigitRunsPrefix(digits: string, rest: string)
    requires |digits| >= 1 && AllDigits(digits)
    requires rest != [] ==> !IsDigit(rest[0])
    ensures DigitRuns(digits + rest) == [digits] + DigitRuns(rest)
  {
    var s := digits + rest;
    LeadingDigitsOf(digits, rest);
    assert s[0] == digits[0];
    assert s[..|digits|] == digits && s[|digits|..] == rest;
  }

  lemma DigitRunsAfterRun(head: string, tail: string, b: string)
    requires |head| >= 1 && AllDigits(head) && tail != [] && !IsDigit(tail[0])
    requires DigitRuns(tail + b) == DigitRuns(tail) + DigitRuns(b)
    ensures DigitRuns(head + (tail + b)) == DigitRuns(head + tail) + DigitRuns(b)
  {
    assert (tail + b)[0] == tail[0];
    DigitRunsPrefix(head, tail);
    DigitRunsPrefix(head, tail + b);
  }

  /** Runs are found separately on each side of a split that does not cut one. */
  lemma {:induction false} DigitRunsAppend(a: string, b: string)
    requires a == [] || b == [] || !IsDigit(a[|a| - 1]) || !IsDigit(b[0])
    ensures DigitRuns(a + b) == DigitRuns(a) + DigitRuns(b)
    decreases |a|
  {
    if a == [] {
      assert a + b == b;
    } else if !IsDigit(a[0]) {
      assert (a + b)[0] == a[0];
      assert (a + b)[1..] == a[1..] + b;
      DigitRunsAppend(a[1..], b);
      assert DigitRuns(a + b) == DigitRuns(a[1..] + b);
      assert DigitRuns(a) == DigitRuns(a[1..]);
    } else {
      var n := LeadingDigits(a);
      var head := a[..n];
      if n < |a| {
        var tail := a[n..];
        assert a == head + tail && a + b == head + (tail + b);
        DigitRunsAppend(tail, b);
        DigitRunsAfterRun(head, tail, b);
        assert DigitRuns(a + b) == DigitRuns(head + (tail + b));
      } else {
        assert head == a;
        DigitRunsPrefix(a, b);
        DigitRunsPrefix(a, []);
        assert a + [] == a;
      }
    }
  }

  /** Python's `<` on tuples of ints: lexicographic, a proper prefix first. */
  predicate TupleLess(a: seq<nat>, b: seq<nat>)
    decreases |a|
  {
    b != [] && (a == [] || a[0] < b[0] || (a[0] == b[0] && TupleLess(a[1..], b[1..])))
  }

  lemma {:induction false} TupleLessTrans(a: seq<nat>, b: seq<nat>, c: seq<nat>)
    requires TupleLess(a, b) && TupleLess(b, c)
    ensures TupleLess(a, c)
    decreases |a|
  {
    if a != [] && a[0] == b[0] && b[0] == c[0] {
      TupleLessTrans(a[1..], b[1..], c[1..]);
    }
  }

  lemma {:induction false} TupleLessTotal(a: seq<nat>, b: seq<nat>)
    ensures TupleLess(a, b) || a == b || TupleLess(b, a)
    decreases |a|
  {
    if a != [] && b != [] && a[0] == b[0] {
      TupleLessTotal(a[1..], b[1..]);
      if a[1..] == b[1..] {
        assert a == [a[0]] + a[1..] && b == [b[0]] + b[1..];
      }
    }
  }

  lemma {:induction false} TupleLessIrreflexive(a: seq<nat>)
    ensures !TupleLess(a, a)
    decreases |a|
  {
    if a != [] {
      TupleLessIrreflexive(a[1..]);
    }
  }

  /** Not after: `<=` on the sort keys. */
  predicate NumberOrdered(x: string, y: string) {
    !TupleLess(ExtractNumber(y), ExtractNumber(x))
  }

  /** In ascending order of the numbers in the names. */
  predicate SortedByNumber(files: seq<string>) {
    forall i, j :: 0 <= i < j < |files| ==> NumberOrdered(files[i], files[j])
  }

  lemma NumberOrderedTrans(x: string, y: string, z: string)
    requires NumberOrdered(x, y) && NumberOrdered(y, z)
    ensures NumberOrdered(x, z)
  {
    var a, b, c := ExtractNumber(x), ExtractNumber(y), ExtractNumber(z);
    TupleLessTotal(a, b);
    if TupleLess(c, a) {
      if TupleLess(a, b) {
        TupleLessTrans(c, a, b);
      }
    }
  }

  lemma NumberOrderedFlip(x: string, y: string)
    requires !NumberOrdered(y, x)
    ensures NumberOrdered(x, y)
  {
    var a, b := ExtractNumber(x), ExtractNumber(y);
    if TupleLess(b, a) {
      TupleLessTrans(a, b, a);
      TupleLessIrreflexive(a);
    }
  }

  /** One insertion step of the sort: after the last name whose key is not greater. */
  function InsertByNumber(x: string, sorted: seq<string>): seq<string>
    decreases |sorted|
  {
    if sorted == [] || NumberOrdered(sorted[|sorted| - 1], x) then sorted + [x]
    else InsertByNumber(x, sorted[..|sorted| - 1]) + [sorted[|sorted| - 1]]
  }

  lemma {:induction false} InsertByNumberSorted(x: string, sorted: seq<string>)
    requires SortedByNumber(sorted)
    ensures multiset(InsertByNumber(x, sorted)) == multiset(sorted) + multiset{x}
    ensures SortedByNumber(InsertByNumber(x, sorted))
    decreases |sorted|
  {
    if sorted != [] {
      var init := sorted[..|sorted| - 1];
      var last := sorted[|sorted| - 1];
      assert sorted == init + [last];
      if NumberOrdered(last, x) {
        AppendSorted(sorted, x);
      } else {
        InsertByNumberSorted(x, init);
        NumberOrderedFlip(x, last);
        AppendAfterInsert(x, init, last);
      }
    }
  }

  /** A name not before the last of a sorted list extends it sorted. */
  lemma AppendSorted(sorted: seq<string>, x: string)
    requires SortedByNumber(sorted) && sorted != [] && NumberOrdered(sorted[|sorted| - 1], x)
    ensures SortedByNumber(sorted + [x])
  {
    var r := sorted + [x];
    forall i, j | 0 <= i < j < |r|
      ensures NumberOrdered(r[i], r[j])
    {
      if j == |sorted| && i < |sorted| - 1 {
        NumberOrderedTrans(sorted[i], sorted[|sorted| - 1], x);
      }
    }
  }

  /** The last of a sorted list stays last after a smaller name is inserted before it. */
  lemma AppendAfterInsert(x: string, init: seq<string>, last: string)
    requires SortedByNumber(init + [last]) && NumberOrdered(x, last)
    requires SortedByNumber(InsertByNumber(x, init))
    requires multiset(InsertByNumber(x, init)) == multiset(init) + multiset{x}
    ensures SortedByNumber(InsertByNumber(x, init) + [last])
  {
    var mid := InsertByNumber(x, init);
    var r := mid + [last];
    var sorted := init + [last];
    forall i, j | 0 <= i < j < |r|
      ensures NumberOrdered(r[i], r[j])
    {
      if j == |mid| {
        assert r[i] in multiset(mid);
        if r[i] != x {
          assert r[i] in multiset(init);
          var k :| 0 <= k < |init| && init[k] == r[i];
          assert sorted[k] == r[i] && sorted[|init|] == last;
        }
      } else {
        assert r[i] == mid[i] && r[j] == mid[j];
      }
    }
  }

  /** `files.sort(key = extract_number)`, as an insertion sort. */
  function SortByNumber(files: seq<string>): seq<string>
    decreases |files|
  {
    if files == [] then []
    else InsertByNumber(files[|files| - 1], SortByNumber(files[..|files| - 1]))
  }

  /** The sort orders the names by their numbers and keeps every name. */
  lemma {:induction false} SortByNumberMeaning(files: seq<string>)
    ensures SortedByNumber(SortByNumber(files))
    ensures multiset(SortByNumber(files)) == multiset(files)
    decreases |files|
  {
    if files != [] {
      var init := files[..|files| - 1];
      SortByNumberMeaning(init);
      InsertByNumberSorted(files[|files| - 1], SortByNumber(init));
      assert files == init + [files[|files| - 1]];
    }
  }

  /** The names whose sort key is k, in their order. */
  function WithNumber(files: seq<string>, k: seq<nat>): (r: seq<string>)
    ensures forall i :: 0 <= i < |r| ==> ExtractNumber(r[i]) == k
    decreases |files|
  {
    if files == [] then []
    else
      var last := files[|files| - 1];
      WithNumber(files[..|files| - 1], k) + if ExtractNumber(last) == k then [last] else []
  }

  lemma {:induction false} WithNumberAppend(a: seq<string>, b: seq<string>, k: seq<nat>)
    ensures WithNumber(a + b, k) == WithNumber(a, k) + WithNumber(b, k)
    decreases |b|
  {
    if b == [] {
      assert a + b == a;
    } else {
      var init := b[..|b| - 1];
      WithNumberAppend(a, init, k);
      assert (a + b)[..|a + b| - 1] == a + init;
    }
  }

  lemma WithNumberOne(x: string, k: seq<nat>)
    ensures WithNumber([x], k) == if ExtractNumber(x) == k then [x] else []
  {
    assert [x][..0] == [];
  }

  /** Two names with strictly ordered keys are not both picked for one key. */
  lemma KeysDiffer(x: string, y: string, k: seq<nat>)
    requires TupleLess(ExtractNumber(x), ExtractNumber(y))
    ensures WithNumber([x], k) == [] || WithNumber([y], k) == []
  {
    TupleLessIrreflexive(ExtractNumber(x));
    WithNumberOne(x, k);
    WithNumberOne(y, k);
  }

  /** The step of the stability proof where the name moves in front of a last name with a different key. */
  lemma StableStep(init: seq<string>, last: string, x: string, mid: seq<string>, k: seq<nat>)
    requires WithNumber(mid, k) == WithNumber(init, k) + WithNumber([x], k)
    requires WithNumber([x], k) == [] || WithNumber([last], k) == []
    ensures WithNumber(mid + [last], k) == WithNumber(init + [last], k) + WithNumber([x], k)
  {
    WithNumberAppend(mid, [last], k);
    WithNumberAppend(init, [last], k);
  }

  /** Inserting a name puts it after every name with the same key. */
  lemma {:induction false} InsertByNumberStable(x: string, sorted: seq<string>, k: seq<nat>)
    ensures WithNumber(InsertByNumber(x, sorted), k) == WithNumber(sorted, k) + WithNumber([x], k)
    decreases |sorted|
  {
    if sorted == [] || NumberOrdered(sorted[|sorted| - 1], x) {
      WithNumberAppend(sorted, [x], k);
    } else {
      var init, last := sorted[..|sorted| - 1], sorted[|sorted| - 1];
      assert init + [last] == sorted;
      var mid := InsertByNumber(x, init);
      assert InsertByNumber(x, sorted) == mid + [last];
      InsertByNumberStable(x, init, k);
      KeysDiffer(x, last, k);
      StableStep(init, last, x, mid, k);
    }
  }

  /** The sort is stable: the names sharing a key keep their listing order. */
  lemma {:induction false} SortByNumberStable(files: seq<string>, k: seq<nat>)
    ensures WithNumber(SortByNumber(files), k) == WithNumber(files, k)
    decreases |files|
  {
    if files != [] {
      var init, x := files[..|files| - 1], files[|files| - 1];
      SortByNumberStable(init, k);
      InsertByNumberStable(x, SortByNumber(init), k);
      WithNumberOne(x, k);
    }
  }

  /** The names of a directory listing that end in `.txt`, in listing order. */
  function TxtFiles(listing: seq<string>): (r: seq<string>)
    ensures forall i :: 0 <= i < |r| ==> EndsWith(r[i], ".txt")
    ensures forall f :: f in listing && EndsWith(f, ".txt") ==> f in r
    ensures forall f :: f in r ==> f in listing
    decreases |listing|
  {
    if listing == [] then []
    else
      var last := listing[|listing| - 1];
      var init := TxtFiles(listing[..|listing| - 1]);
      assert forall f :: f in listing ==> f in listing[..|listing| - 1] || f == last;
      if EndsWith(last, ".txt") then init + [last] else init
  }

  /** `sys.maxsize` on a 64-bit build, the starting minimum. */
  const MAXSIZE: real := 9223372036854775807.0

  /** A selection file and its difference score. */
  datatype Scored = Scored(file: string, diff: real)

  /** The running minimum: a strictly smaller score replaces the kept one. */
  function Minimum(scores: seq<Scored>): (real, Option<string>)
    decreases |scores|
  {
    if scores == [] then (MAXSIZE, None)
    else
      var (m, f) := Minimum(scores[..|scores| - 1]);
      var last := scores[|scores| - 1];
      if last.diff < m then (last.diff, Some(last.file)) else (m, f)
  }

  /**
   * The kept score is the least (never above the starting value); no file is
   * kept when no score is below the starting value; otherwise the kept file is
   * the first one whose score is that least.
   */
  lemma {:induction false} MinimumMeaning(scores: seq<Scored>)
    ensures Minimum(scores).0 <= MAXSIZE
    ensures forall i :: 0 <= i < |scores| ==> Minimum(scores).0 <= scores[i].diff
    ensures Minimum(scores).1.None? <==> forall i :: 0 <= i < |scores| ==> scores[i].diff >= MAXSIZE
    ensures Minimum(scores).1.None? ==> Minimum(scores).0 == MAXSIZE
    ensures Minimum(scores).1.Some? ==>
      exists j :: (0 <= j < |scores| && scores[j] == Scored(Minimum(scores).1.value, Minimum(scores).0) &&
        forall i :: 0 <= i < j ==> scores[i].diff > Minimum(scores).0)
    decreases |scores|
  {
    if scores != [] {
      var init := scores[..|scores| - 1];
      MinimumMeaning(init);
      assert forall i :: 0 <= i < |init| ==> init[i] == scores[i];
      var last := scores[|scores| - 1];
      if last.diff < Minimum(init).0 {
        assert scores[|scores| - 1] == Scored(Minimum(scores).1.value, Minimum(scores).0);
      } else if Minimum(init).1.Some? {
        var j :| 0 <= j < |init| && init[j] == Scored(Minimum(init).1.value, Minimum(init).0) &&
          forall i :: 0 <= i < j ==> init[i].diff > Minimum(init).0;
        assert scores[j] == init[j];
      }
    }
  }

  /** The three paths main takes from its command line. */
  datatype Arguments = Arguments(logFile: string, selected: string, outDir: string)

  const MISSING_ARGUMENT: string := "Error: Missing argument"

  /**
   * main's argument check as written: it lets three entries through, and
   * reading the fourth then raises.
   */
  function ArgumentsAsWritten(args: seq<string>): Result<Arguments, string> {
    if |args| < 3 then Failure(MISSING_ARGUMENT)
    else if |args| < 4 then Failure("IndexError")
    else Success(Arguments(args[1], args[2], args[3]))
  }

  /** A command line with two arguments passes the check and still raises. */
  lemma ArgumentsAsWrittenRaises()
    ensures ArgumentsAsWritten(["evaluate_selections.py", "merged_transpilation.log", "selected_func_lists/"]) ==
      Failure("IndexError")
  {
  }

  /** main's argument check as intended: three arguments are required. */
  function ParseArguments(args: seq<string>): (r: Result<Arguments, string>)
    ensures r.Failure? <==> |args| < 4
    ensures r.Failure? ==> r.error == MISSING_ARGUMENT
    ensures r.Success? ==> r.value == Arguments(args[1], args[2], args[3])
  {
    if |args| < 4 then Failure(MISSING_ARGUMENT) else Success(Arguments(args[1], args[2], args[3]))
  }

  /** A selection file: the name it is scored under and the path it is read from. */
  datatype Source = Source(name: string, path: string)

  /** The selection files of a directory, in numeric order, each under its bare name. */
  function DirectorySources(dir: string, listing: seq<string>): (r: seq<Source>)
    ensures |r| == |SortByNumber(TxtFiles(listing))|
    ensures forall i :: 0 <= i < |r| ==>
      r[i].name == SortByNumber(TxtFiles(listing))[i] && r[i].path == JoinPath(dir, r[i].name)
  {
    var names := SortByNumber(TxtFiles(listing));
    seq(|names|, i requires 0 <= i < |names| => Source(names[i], JoinPath(dir, names[i])))
  }

  /**
   * The sources of a directory are its ".txt" files, each read from the
   * directory, every one of them present, in numeric order.
   */
  lemma DirectorySourcesMeaning(dir: string, listing: seq<string>)
    ensures var r := DirectorySources(dir, listing);
      && |r| == |TxtFiles(listing)|
      && (forall i :: 0 <= i < |r| ==>
            EndsWith(r[i].name, ".txt") && r[i].name in listing && r[i].path == JoinPath(dir, r[i].name))
      && (forall f :: f in listing && EndsWith(f, ".txt") ==> exists i :: 0 <= i < |r| && r[i].name == f)
      && (forall i, j :: 0 <= i < j < |r| ==> NumberOrdered(r[i].name, r[j].name))
  {
    var r := DirectorySources(dir, listing);
    var names := SortByNumber(TxtFiles(listing));
    SortedTxtFiles(listing);
    forall f | f in listing && EndsWith(f, ".txt")
      ensures exists i :: 0 <= i < |r| && r[i].name == f
    {
      var i :| 0 <= i < |names| && names[i] == f;
      assert r[i].name == f;
    }
  }

  /** The ".txt" names of a listing, sorted: each name once per listing entry, all of them, in numeric order. */
  lemma SortedTxtFiles(listing: seq<string>)
    ensures var names := SortByNumber(TxtFiles(listing));
      && |names| == |TxtFiles(listing)|
      && (forall i :: 0 <= i < |names| ==> EndsWith(names[i], ".txt") && names[i] in listing)
      && (forall f :: f in listing && EndsWith(f, ".txt") ==> f in names)
      && SortedByNumber(names)
  {
    var txt := TxtFiles(listing);
    var names := SortByNumber(txt);
    SortByNumberMeaning(txt);
    assert |names| == |multiset(names)| == |multiset(txt)| == |txt|;
    forall i | 0 <= i < |names|
      ensures EndsWith(names[i], ".txt") && names[i] in listing
    {
      assert names[i] in multiset(names);
    }
    forall f | f in listing && EndsWith(f, ".txt")
      ensures f in names
    {
      assert f in multiset(txt);
    }
  }

  /**
   * The score of each selection file in order: its tallies from the log and
   * the difference score computed from them, or the first error.
   */
  function Scores(d: LogDict, sources: seq<Source>, readLines: string -> seq<string>, diffOf: Frequencies -> real):
    Result<seq<Scored>, string>
    requires d.Valid()
    decreases |sources|
  {
    if sources == [] then Success([])
    else
      match Scores(d, sources[..|sources| - 1], readLines, diffOf)
      case Failure(e) => Failure(e)
      case Success(init) =>
        match ScoreOf(d, sources[|sources| - 1], readLines, diffOf)
        case Failure(e) => Failure(e)
        case Success(x) => Success(init + [x])
  }

  /** One selection file processed and scored. */
  function ScoreOf(d: LogDict, src: Source, readLines: string -> seq<string>, diffOf: Frequencies -> real): Result<Scored, string>
    requires d.Valid()
  {
    match ProcessFile(d, readLines(src.path))
    case Failure(e) => Failure(e)
    case Success(p) => Success(Scored(src.name, diffOf(p.0)))
  }

  /** What main ends with: the least score and its file, or the first error. */
  function Outcome(scores: Result<seq<Scored>, string>): Result<(real, Option<string>), string> {
    match scores
    case Failure(e) => Failure(e)
    case Success(s) => Success(Minimum(s))
  }

  /** The loop of main over the selection files, keeping the least score as it goes. */
  method EvaluateFiles(d: LogDict, sources: seq<Source>, readLines: string -> seq<string>, diffOf: Frequencies -> real)
    returns (r: Result<(real, Option<string>), string>)
    requires d.Valid()
    ensures r == Outcome(Scores(d, sources, readLines, diffOf))
  {
    var minDiff := MAXSIZE;
    var minFile: Option<string> := None;
    ghost var scores: seq<Scored> := [];
    for i := 0 to |sources|
      invariant Scores(d, sources[..i], readLines, diffOf) == Success(scores)
      invariant (minDiff, minFile) == Minimum(scores)
    {
      var src := sources[i];
      var processed := ProcessFile(d, readLines(src.path));
      ScoresPrefix(d, sources, readLines, diffOf, i, scores);
      if processed.Failure? {
        ScoresStop(d, sources, readLines, diffOf, i + 1);
        return Failure(processed.error);
      }
      var relativeDiff := diffOf(processed.value.0);
      MinimumSnoc(scores, Scored(src.name, relativeDiff));
      scores := scores + [Scored(src.name, relativeDiff)];
      if relativeDiff < minDiff {
        minDiff := relativeDiff;
        minFile := Some(src.name);
      }
    }
    assert sources[..|sources|] == sources;
    r := Success((minDiff, minFile));
  }

  /** Scoring one more file: its score is appended, or the scoring fails. */
  lemma ScoresPrefix(d: LogDict, sources: seq<Source>, readLines: string -> seq<string>,
                     diffOf: Frequencies -> real, i: int, scores: seq<Scored>)
    requires d.Valid() && 0 <= i < |sources| && Scores(d, sources[..i], readLines, diffOf) == Success(scores)
    ensures Scores(d, sources[..i + 1], readLines, diffOf) ==
      match ScoreOf(d, sources[i], readLines, diffOf)
      case Failure(e) => Failure(e)
      case Success(x) => Success(scores + [x])
  {
    assert sources[..i + 1][..i] == sources[..i];
  }

  /** One more score replaces the kept one only when strictly lower. */
  lemma MinimumSnoc(scores: seq<Scored>, s: Scored)
    ensures Minimum(scores + [s]) == if s.diff < Minimum(scores).0 then (s.diff, Some(s.file)) else Minimum(scores)
  {
    assert (scores + [s])[..|scores|] == scores;
  }

  lemma {:induction false} ScoresStop(d: LogDict, sources: seq<Source>, readLines: string -> seq<string>,
                                      diffOf: Frequencies -> real, n: nat)
    requires d.Valid() && n <= |sources| && Scores(d, sources[..n], readLines, diffOf).Failure?
    ensures Scores(d, sources, readLines, diffOf) == Scores(d, sources[..n], readLines, diffOf)
    decreases |sources| - n
  {
    if n < |sources| {
      assert sources[..n + 1][..n] == sources[..n];
      ScoresStop(d, sources, readLines, diffOf, n + 1);
    } else {
      assert sources[..n] == sources;
    }
  }

  /**
   * The whole of main as intended: the log read into the dict, then either the
   * directory's selection files in numeric order, or the single selection
   * file given, scored against it.
   */
  function Evaluation(args: seq<string>, isDir: string -> bool, listing: string -> seq<string>,
                      readLines: string -> seq<string>, alive: seq<string>, diffOf: Frequencies -> real):
    Result<(real, Option<string>), string>
  {
    match ParseArguments(args)
    case Failure(e) => Failure(e)
    case Success(a) =>
      var d := LogFromLines(Stripped(readLines(a.logFile)), AliveIds(alive));
      LogFromLinesKeys(Stripped(readLines(a.logFile)), AliveIds(alive));
      var sources := if isDir(a.selected) then DirectorySources(a.selected, listing(a.selected))
                     else [Source(a.selected, a.selected)];
      Outcome(Scores(d, sources, readLines, diffOf))
  }

  /**
   * main as written takes the non-directory branch into a call of
   * process_files with two of its three parameters, which always raises.
   */
  function EvaluationAsWritten(args: seq<string>, isDir: string -> bool, listing: string -> seq<string>,
                               readLines: string -> seq<string>, alive: seq<string>, diffOf: Frequencies -> real):
    Result<(real, Option<string>), string>
  {
    match ArgumentsAsWritten(args)
    case Failure(e) => Failure(e)
    case Success(a) =>
      if !isDir(a.selected) then Failure("TypeError")
      else Evaluation(args, isDir, listing, readLines, alive, diffOf)
  }

  /** A single selection file never gets scored as written. */
  lemma SingleFileAsWrittenFails(args: seq<string>, isDir: string -> bool, listing: string -> seq<string>,
                                 readLines: string -> seq<string>, alive: seq<string>, diffOf: Frequencies -> real)
    requires |args| >= 4 && !isDir(args[2])
    ensures EvaluationAsWritten(args, isDir, listing, readLines, alive, diffOf) == Failure("TypeError")
  {
  }

  /** The intended main scores a single selection file against the log. */
  lemma SingleFileScored(args: seq<string>, isDir: string -> bool, listing: string -> seq<string>,
                         readLines: string -> seq<string>, alive: seq<string>, diffOf: Frequencies -> real)
    requires |args| >= 4 && !isDir(args[2])
    ensures var d := LogFromLines(Stripped(readLines(args[1])), AliveIds(alive));
      && d.Valid()
      && Evaluation(args, isDir, listing, readLines, alive, diffOf) ==
           Outcome(Scores(d, [Source(args[2], args[2])], readLines, diffOf))
  {
    LogFromLinesKeys(Stripped(readLines(args[1])), AliveIds(alive));
    assert ParseArguments(args) == Success(Arguments(args[1], args[2], args[3]));
  }

  /** main: the dict is built, then the selection files are scored. */
  method Run(args: seq<string>, isDir: string -> bool, listing: string -> seq<string>,
              readLines: string -> seq<string>, alive: seq<string>, diffOf: Frequencies -> real)
    returns (r: Result<(real, Option<string>), string>)
    ensures r == Evaluation(args, isDir, listing, readLines, alive, diffOf)
  {
    var parsed := ParseArguments(args);
    if parsed.Failure? {
      return Failure(parsed.error);
    }
    var a := parsed.value;
    var d := BuildLogDict(Stripped(readLines(a.logFile)), AliveIds(alive));
    LogFromLinesKeys(Stripped(readLines(a.logFile)), AliveIds(alive));
    var sources: seq<Source>;
    if isDir(a.selected) {
      sources := DirectorySources(a.selected, listing(a.selected));
    } else {
      sources := [Source(a.selected, a.selected)];
    }
    r := EvaluateFiles(d, sources, readLines, diffOf);
  }
}
