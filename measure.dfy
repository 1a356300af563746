/**
 * The record handling of the metric collector: the type categories of the
 * variable-type report, the function ids read from file names and log lines,
 * the compile-attempt and unsafe-usage readings, the per-function section of
 * the variable-type report, and the sampling of bins.
 *
 * A tool's output is given as the rows the `;`-delimited reader yields; a
 * missing field, a field that is not a number or a name read before it was
 * set is the exception Python raises, as a Failure.
 */
module Measure {
  import opened Wrappers
  import opened Text

  /** The categories get_type_cat assigns. */
  datatype Category =
    | Pointer | Integer | FloatCat | StringCat | CharCat | BoolCat
    | EnumCat | ArrayCat | TupleCat | StructCat | Vector | HashMapCat | OptionCat

  const NOT_IDENTIFIED: string := "NotIdentified#"

  const INTEGER_NAMES: seq<string> :=
    ["i64", "i32", "u64", "u32", "c_uint", "c_int", "libc :: c_int", "libc :: size_t", "size_t",
     "c_size_t", "usize", "isize", "u8", "i8", "i128", "u_int", "int"]
  const FLOAT_NAMES: seq<string> := ["f64", "f32", "float", "c_double"]
  const CHAR_NAMES: seq<string> := ["char", "c_char", "libc :: c_char"]

  /**
   * get_type_cat on the type field of a report line: the rules are tried in
   * order and the first that applies decides.
   */
  function TypeCat(t: string): (r: Option<Category>)
    ensures Contains(t, NOT_IDENTIFIED) ==> r.None?
    ensures !Contains(t, NOT_IDENTIFIED) && (StartsWith(t, "*") || StartsWith(t, "&")) ==> r == Some(Pointer)
    ensures r.Some? ==> !Contains(t, NOT_IDENTIFIED)
  {
    if Contains(t, NOT_IDENTIFIED) then None
    else if StartsWith(t, "*") || StartsWith(t, "&") || t == "libc::c_void" || t == "libc :: c_void" then Some(Pointer)
    else if t in INTEGER_NAMES || EndsWith(t, "c_ulong") || EndsWith(t, "c_long") then Some(Integer)
    else if t in FLOAT_NAMES then Some(FloatCat)
    else if t == "string" then Some(StringCat)
    else if t in CHAR_NAMES then Some(CharCat)
    else if t == "bool" then Some(BoolCat)
    else if StartsWith(t, "enum") then Some(EnumCat)
    else if StartsWith(t, "array") then Some(ArrayCat)
    else if StartsWith(t, "tuple") then Some(TupleCat)
    else if StartsWith(t, "struct") || t == "libc::timespec" then Some(StructCat)
    else if t == "Vec<u8>" || t == "Vec < u8 >" then Some(Vector)
    else if StartsWith(t, "HashMap") then Some(HashMapCat)
    else if StartsWith(t, "Option") then Some(OptionCat)
    else None
  }

  /**
   * The names the id parsing keeps between lines and files: the project, which a
   * three-field id overrides for everything read after it, and the file and
   * function, unset until an id has been recognised.
   */
  datatype Names = Names(proj: string, current: Option<Ident>)

  /** A file name and a function name, set together. */
  datatype Ident = Ident(file: string, func: string)

  /**
   * One id split on `#`: two fields give file and function, three fields also
   * the project; any other shape leaves every name as it was.
   */
  function ReadId(names: Names, id: string): (r: Names)
    ensures |Split(id, '#')| == 2 ==>
      r == Names(names.proj, Some(Ident(Split(id, '#')[0], Split(id, '#')[1])))
    ensures |Split(id, '#')| == 3 ==>
      r == Names(Split(id, '#')[0], Some(Ident(Split(id, '#')[1], Split(id, '#')[2])))
    ensures |Split(id, '#')| !in {2, 3} ==> r == names
  {
    var elems := Split(id, '#');
    if |elems| == 2 then Names(names.proj, Some(Ident(elems[0], elems[1])))
    else if |elems| == 3 then Names(elems[0], Some(Ident(elems[1], elems[2])))
    else names
  }

  /** Ids written `file#func` keep the project; ids written `proj#file#func` set it. */
  lemma ReadIdOfParts(names: Names, p: string, f: string, fn: string)
    requires '#' !in p && '#' !in f && '#' !in fn
    ensures ReadId(names, f + "#" + fn) == Names(names.proj, Some(Ident(f, fn)))
    ensures ReadId(names, p + "#" + f + "#" + fn) == Names(p, Some(Ident(f, fn)))
  {
    SplitJoin([f, fn], '#');
    assert Join([f, fn], '#') == f + "#" + fn;
    SplitJoin([p, f, fn], '#');
    assert Join([p, f, fn], '#') == p + "#" + f + "#" + fn;
  }

  /** The key of a function: `proj:file:func`. */
  function Key(proj: string, file: string, func: string): string {
    proj + ":" + file + ":" + func
  }

  /** A key gives its three names back when none holds a `:`. */
  lemma KeyFields(proj: string, file: string, func: string)
    requires ':' !in proj && ':' !in file && ':' !in func
    ensures Split(Key(proj, file, func), ':') == [proj, file, func]
  {
    SplitJoin([proj, file, func], ':');
    assert [proj, file, func][1..] == [file, func];
    assert Join([file, func], ':') == file + ":" + func;
    assert Join([proj, file, func], ':') == Key(proj, file, func);
  }

  /** pathlib's `.name`: the last component, trailing separators ignored. */
  function PathName(path: string): string {
    var parts := Split(StripEnd(path, '/'), '/');
    parts[|parts| - 1]
  }

  /**
   * pathlib's `.stem`: the name without its suffix; a name whose only dot is
   * the first or the last character has no suffix.
   */
  function PathStem(path: string): (r: string)
    ensures |r| <= |PathName(path)| && r == PathName(path)[..|r|]
  {
    var name := PathName(path);
    var i := LastDot(name);
    if 0 < i < |name| - 1 then name[..i] else name
  }

  /** The index of the last `.`, or -1. */
  function LastDot(s: string): (i: int)
    ensures -1 <= i < |s|
    ensures i >= 0 ==> s[i] == '.' && forall j :: i < j < |s| ==> s[j] != '.'
    ensures i == -1 ==> '.' !in s
  {
    if s == [] then -1 else if s[|s| - 1] == '.' then |s| - 1 else LastDot(s[..|s| - 1])
  }

  lemma PathNameOfPlain(name: string)
    requires '/' !in name
    ensures PathName(name) == name
  {
    if name != [] {
      assert name[|name| - 1] != '/';
    }
    assert StripEnd(name, '/') == name;
    SplitWithoutSep(name, '/');
  }

  /** The last component of a path joined from a directory and a plain name is that name. */
  lemma PathNameOfJoin(dir: string, name: string)
    requires name != [] && '/' !in name
    ensures PathName(JoinPath(dir, name)) == name
  {
    JoinPathLast(dir, name);
    assert StripEnd(JoinPath(dir, name), '/') == JoinPath(dir, name);
  }

  /** Characters without a dot after the last dot do not move it. */
  lemma {:induction false} LastDotPastTail(s: string, tail: string)
    requires '.' !in tail
    ensures LastDot(s + tail) == LastDot(s)
    decreases |tail|
  {
    if tail != [] {
      var init := tail[..|tail| - 1];
      assert (s + tail)[..|s + tail| - 1] == s + init;
      LastDotPastTail(s, init);
    } else {
      assert s + tail == s;
    }
  }

  /** A function name with one extension loses exactly that extension. */
  lemma PathStemOfFile(base: string, ext: string)
    requires '/' !in base && '.' !in ext && '/' !in ext && ext != ""
    requires base != "" && '.' !in base
    ensures PathStem(base + "." + ext) == base
  {
    var name := base + "." + ext;
    PathNameOfPlain(name);
    LastDotPastTail(base + ".", ext);
    assert LastDot(base + ".") == |base|;
    assert name[..|base|] == base;
  }

  /** One row of the compile-attempt reading: the key and the text of field 4. */
  datatype Attempt = Attempt(key: string, field: string)

  /**
   * One row of get_comp_attempt_measure: the id in field 0 updates the names,
   * the function name loses its extension (and is kept without it, so a row
   * whose id is not recognised strips the kept name once more), and field 4
   * is the count.
   */
  function AttemptStep(names: Names, row: seq<string>): (r: Result<(Names, Attempt), string>)
    ensures r.Success? <==>
      && |row| >= 5 && ParseInt(row[4]).Some?
      && ReadId(names, row[0]).current.Some?
    ensures r.Success? ==>
      var read := ReadId(names, row[0]);
      var id := read.current.value;
      && r.value.1.field == row[4]
      && r.value.0 == Names(read.proj, Some(Ident(id.file, PathStem(id.func))))
      && r.value.1.key == Key(read.proj, id.file, PathStem(id.func))
  {
    if |row| == 0 then Failure("IndexError")
    else
      var read := ReadId(names, row[0]);
      if read.current.None? then Failure("UnboundLocalError")
      else
        var id := Ident(read.current.value.file, PathStem(read.current.value.func));
        if |row| < 5 then Failure("IndexError")
        else if ParseInt(row[4]).None? then Failure("ValueError")
        else Success((Names(read.proj, Some(id)), Attempt(Key(read.proj, id.file, id.func), row[4])))
  }

  /** The rows read in order, from the caller's project; the first failing row stops the reading. */
  function Attempts(proj: string, rows: seq<seq<string>>): Result<(Names, seq<Attempt>), string>
    decreases |rows|
  {
    if rows == [] then Success((Names(proj, None), []))
    else
      match Attempts(proj, rows[..|rows| - 1])
      case Failure(e) => Failure(e)
      case Success((names, attempts)) =>
        match AttemptStep(names, rows[|rows| - 1])
        case Failure(e) => Failure(e)
        case Success((next, a)) => Success((next, attempts + [a]))
  }

  /** A dictionary filled in order: a later value for a key replaces the earlier one. */
  function LastWins(attempts: seq<Attempt>): map<string, string>
    decreases |attempts|
  {
    if attempts == [] then map[]
    else
      var a := attempts[|attempts| - 1];
      LastWins(attempts[..|attempts| - 1])[a.key := a.field]
  }

  /** The dictionary holds every key read, with the field of the last row for it. */
  lemma LastWinsMeaning(attempts: seq<Attempt>)
    ensures forall k :: k in LastWins(attempts) <==> exists i :: 0 <= i < |attempts| && attempts[i].key == k
    ensures forall i :: 0 <= i < |attempts| && (forall j :: i < j < |attempts| ==> attempts[j].key != attempts[i].key) ==>
      LastWins(attempts)[attempts[i].key] == attempts[i].field
  {
    LastWinsKeys(attempts);
    forall i | 0 <= i < |attempts| && (forall j :: i < j < |attempts| ==> attempts[j].key != attempts[i].key)
      ensures LastWins(attempts)[attempts[i].key] == attempts[i].field
    {
      LastWinsValueAt(attempts, i);
    }
  }

  lemma {:induction false} LastWinsKeys(attempts: seq<Attempt>)
    ensures forall k :: k in LastWins(attempts) <==> exists i :: 0 <= i < |attempts| && attempts[i].key == k
    decreases |attempts|
  {
    if attempts != [] {
      var init := attempts[..|attempts| - 1];
      LastWinsKeys(init);
      forall k
        ensures k in LastWins(attempts) <==> exists i :: 0 <= i < |attempts| && attempts[i].key == k
      {
        if k in LastWins(init) {
          var i :| 0 <= i < |init| && init[i].key == k;
          assert attempts[i].key == k;
        }
        if exists i :: 0 <= i < |attempts| && attempts[i].key == k {
          var i :| 0 <= i < |attempts| && attempts[i].key == k;
          if i < |init| {
            assert init[i].key == k;
          }
        }
      }
    }
  }

  /** The row at index i is the last one for its key, so its field is the one kept. */
  lemma {:induction false} LastWinsValueAt(attempts: seq<Attempt>, i: int)
    requires 0 <= i < |attempts|
    requires forall j :: i < j < |attempts| ==> attempts[j].key != attempts[i].key
    ensures attempts[i].key in LastWins(attempts) && LastWins(attempts)[attempts[i].key] == attempts[i].field
    decreases |attempts|
  {
    var n := |attempts| - 1;
    var init := attempts[..n];
    assert LastWins(attempts) == LastWins(init)[attempts[n].key := attempts[n].field];
    if i < n {
      assert attempts[i] == init[i];
      assert attempts[n].key != attempts[i].key;
      forall j | i < j < |init|
        ensures init[j].key != init[i].key
      {
        assert init[j] == attempts[j];
      }
      LastWinsValueAt(init, i);
    }
  }

  datatype AttemptRecord = AttemptRecord(id: string, compAttempt: int)

  /**
   * get_comp_attempt_measure over the rows of transpilation.log: the
   * dictionary of field-4 texts by key and the table of counts, one row per
   * log line.
   */
  method CompAttemptMeasure(proj: string, rows: seq<seq<string>>)
    returns (r: Result<(map<string, string>, seq<AttemptRecord>), string>)
    ensures Attempts(proj, rows).Failure? <==> r.Failure?
    ensures r.Success? ==>
      var attempts := Attempts(proj, rows).value.1;
      && r.value.0 == LastWins(attempts)
      && |r.value.1| == |attempts| == |rows|
      && forall i :: 0 <= i < |rows| ==> RecordOfRow(rows[i], attempts[i], r.value.1[i])
  {
    var names := Names(proj, None);
    var dict: map<string, string> := map[];
    var table: seq<AttemptRecord> := [];
    ghost var attempts: seq<Attempt> := [];
    for i := 0 to |rows|
      invariant Attempts(proj, rows[..i]) == Success((names, attempts))
      invariant dict == LastWins(attempts)
      invariant |table| == |attempts| == i
      invariant forall j :: 0 <= j < i ==> RecordOfRow(rows[j], attempts[j], table[j])
    {
      var step := AttemptStep(names, rows[i]);
      AttemptsPrefix(proj, rows, i, names, attempts);
      if step.Failure? {
        FailureStops(proj, rows, i + 1);
        assert rows[..|rows|] == rows;
        return Failure(step.error);
      }
      var (next, a) := step.value;
      var rec := AttemptRecord(a.key, ParseInt(a.field).value);
      assert RecordOfRow(rows[i], a, rec);
      names := next;
      dict := dict[a.key := a.field];
      RecordsSnoc(rows[..i + 1], attempts, table, a, rec);
      table := table + [rec];
      attempts := attempts + [a];
    }
    assert rows[..|rows|] == rows;
    r := Success((dict, table));
  }

  /** A table row read from a log row: field 4 read as a number, under the row's key. */
  predicate RecordOfRow(row: seq<string>, a: Attempt, rec: AttemptRecord)
  {
    && |row| >= 5 && a.field == row[4] && ParseInt(row[4]).Some?
    && rec == AttemptRecord(a.key, ParseInt(row[4]).value)
  }

  /** One more row read keeps every earlier table row tied to its log row. */
  lemma RecordsSnoc(rows: seq<seq<string>>, attempts: seq<Attempt>, table: seq<AttemptRecord>, a: Attempt, rec: AttemptRecord)
    requires |rows| == |attempts| + 1 && |table| == |attempts|
    requires forall j :: 0 <= j < |attempts| ==> RecordOfRow(rows[j], attempts[j], table[j])
    requires RecordOfRow(rows[|attempts|], a, rec)
    ensures forall j :: 0 <= j < |rows| ==> RecordOfRow(rows[j], (attempts + [a])[j], (table + [rec])[j])
  {
    forall j | 0 <= j < |rows|
      ensures RecordOfRow(rows[j], (attempts + [a])[j], (table + [rec])[j])
    {
      if j < |attempts| {
        assert (attempts + [a])[j] == attempts[j] && (table + [rec])[j] == table[j];
      }
    }
  }

  /** Reading one more row: the step's result is appended, or the reading fails. */
  lemma AttemptsPrefix(proj: string, rows: seq<seq<string>>, i: int, names: Names, attempts: seq<Attempt>)
    requires 0 <= i < |rows| && Attempts(proj, rows[..i]) == Success((names, attempts))
    ensures AttemptStep(names, rows[i]).Failure? ==> Attempts(proj, rows[..i + 1]).Failure?
    ensures AttemptStep(names, rows[i]).Success? ==>
      Attempts(proj, rows[..i + 1]) == Success((AttemptStep(names, rows[i]).value.0, attempts + [AttemptStep(names, rows[i]).value.1]))
  {
    assert rows[..i + 1][..i] == rows[..i];
  }

  /** Once a prefix of the rows fails, so does the whole reading. */
  lemma {:induction false} FailureStops(proj: string, rows: seq<seq<string>>, n: nat)
    requires n <= |rows| && Attempts(proj, rows[..n]).Failure?
    ensures Attempts(proj, rows).Failure?
    decreases |rows| - n
  {
    if n < |rows| {
      assert rows[..n + 1][..n] == rows[..n];
      FailureStops(proj, rows, n + 1);
    } else {
      assert rows[..n] == rows;
    }
  }

  /** The names after reading a tool's output file: the id is the file name's stem. */
  function NamesOfFile(names: Names, fileName: string): Names {
    ReadId(names, PathStem(fileName))
  }

  /** The sum of fields lo until hi as numbers, or None when one is not a number. */
  function SumFields(row: seq<string>, lo: nat, hi: nat): Option<int>
    requires lo <= hi <= |row|
    decreases hi - lo
  {
    if lo == hi then Some(0)
    else
      match SumFields(row, lo, hi - 1)
      case None => None
      case Some(sum) =>
        match ParseInt(row[hi - 1])
        case None => None
        case Some(n) => Some(sum + n)
  }

  /** One row of get_unsafe_measure for the target: the number of blocks and their average size. */
  datatype UnsafeRecord = UnsafeRecord(id: string, totalUnsafeBlocks: int, avgUnsafeStatements: real)

  /** A row whose block count and block sizes are all there and are numbers. */
  predicate UnsafeReadable(row: seq<string>) {
    && |row| >= 2 && ParseInt(row[1]).Some?
    && var total := ParseInt(row[1]).value;
       total > 0 ==> |row| >= total + 2 && SumFields(row, 2, total + 2).Some?
  }

  /** What such a row reads as: the block count and the average block size (0 with no block). */
  predicate UnsafeReading(row: seq<string>, total: int, avg: real) {
    && |row| >= 2 && ParseInt(row[1]) == Some(total)
    && (total > 0 ==> |row| >= total + 2 && SumFields(row, 2, total + 2).Some? &&
                      avg == SumFields(row, 2, total + 2).value as real / total as real)
    && (total <= 0 ==> avg == 0.0)
  }

  /**
   * The reading of one `name;total;c1;...` row: field 1 is the number of
   * blocks; when it is positive the average of the next that many fields,
   * otherwise 0. The first field that is missing or not a number raises.
   */
  method UnsafeAverage(row: seq<string>) returns (r: Result<(int, real), string>)
    ensures r.Success? <==> UnsafeReadable(row)
    ensures r.Success? ==> UnsafeReading(row, r.value.0, r.value.1)
    ensures r.Failure? && |row| >= 2 && ParseInt(row[1]).Some? && |row| >= ParseInt(row[1]).value + 2 ==>
      r.error == "ValueError"
  {
    if |row| < 2 {
      return Failure("IndexError");
    }
    var parsed := ParseInt(row[1]);
    if parsed.None? {
      return Failure("ValueError");
    }
    var total := parsed.value;
    if total <= 0 {
      return Success((total, 0.0));
    }
    var sum := 0;
    for i := 2 to total + 2
      invariant i <= |row|
      invariant SumFields(row, 2, i) == Some(sum)
    {
      if i >= |row| {
        if |row| >= total + 2 {
          assert false;
        }
        return Failure("IndexError");
      }
      var field := ParseInt(row[i]);
      if field.None? {
        FieldSumStops(row, i + 1, total + 2);
        return Failure("ValueError");
      }
      sum := sum + field.value;
    }
    r := Success((total, sum as real / total as real));
  }

  /** A field that is not a number spoils every sum that reaches past it. */
  lemma {:induction false} FieldSumStops(row: seq<string>, hi: nat, end: nat)
    requires 2 < hi <= |row| && SumFields(row, 2, hi).None?
    ensures end <= |row| && hi <= end ==> SumFields(row, 2, end).None?
    decreases end - hi
  {
    if end <= |row| && hi < end {
      FieldSumStops(row, hi, end - 1);
    }
  }

  /** The rows of a tool's output that are about the target function, in order. */
  function Matching(target: string, rows: seq<seq<string>>): (m: seq<seq<string>>)
    ensures forall j :: 0 <= j < |m| ==> |m[j]| >= 1 && m[j][0] == target
    decreases |rows|
  {
    if rows == [] then []
    else
      var last := rows[|rows| - 1];
      Matching(target, rows[..|rows| - 1]) + (if |last| >= 1 && last[0] == target then [last] else [])
  }

  /** Rows the unsafe reading takes without raising: none is empty, and the target's rows read. */
  predicate UnsafeFileReadable(target: string, rows: seq<seq<string>>)
    decreases |rows|
  {
    rows == [] ||
      var last := rows[|rows| - 1];
      && UnsafeFileReadable(target, rows[..|rows| - 1])
      && |last| >= 1
      && (last[0] == target ==> UnsafeReadable(last))
  }

  /**
   * One file of get_unsafe_measure: the id is read from the file name, and each
   * row about the target function gives one record under the target's key.
   * An unset target raises only once a row is read.
   */
  method UnsafeMeasureFile(names: Names, fileName: string, rows: seq<seq<string>>)
    returns (r: Result<(Names, seq<UnsafeRecord>), string>)
    ensures var n := NamesOfFile(names, fileName);
      r.Success? <==> rows == [] || (n.current.Some? && UnsafeFileReadable(n.current.value.func, rows))
    ensures r.Success? ==> r.value.0 == NamesOfFile(names, fileName)
    ensures r.Success? && rows == [] ==> r.value.1 == []
    ensures r.Success? && rows != [] ==>
      var n := NamesOfFile(names, fileName);
      var id := n.current.value;
      var m := Matching(id.func, rows);
      && |r.value.1| == |m|
      && forall j :: 0 <= j < |m| ==>
           && r.value.1[j].id == Key(n.proj, id.file, id.func)
           && UnsafeReading(m[j], r.value.1[j].totalUnsafeBlocks, r.value.1[j].avgUnsafeStatements)
  {
    var n := NamesOfFile(names, fileName);
    if rows == [] {
      return Success((n, []));
    }
    if n.current.None? {
      return Failure("UnboundLocalError");
    }
    var id := n.current.value;
    var key := Key(n.proj, id.file, id.func);
    var records: seq<UnsafeRecord> := [];
    for i := 0 to |rows|
      invariant UnsafeFileReadable(id.func, rows[..i])
      invariant RecordsRead(key, Matching(id.func, rows[..i]), records)
    {
      UnsafeFilePrefix(id.func, rows, i);
      if |rows[i]| == 0 {
        UnsafeUnreadableStays(id.func, rows, i + 1);
        return Failure("IndexError");
      }
      if rows[i][0] == id.func {
        var reading := UnsafeAverage(rows[i]);
        if reading.Failure? {
          UnsafeUnreadableStays(id.func, rows, i + 1);
          return Failure(reading.error);
        }
        var rec := UnsafeRecord(key, reading.value.0, reading.value.1);
        RecordsReadSnoc(key, Matching(id.func, rows[..i]), records, rows[i], rec);
        records := records + [rec];
      }
    }
    assert rows[..|rows|] == rows;
    r := Success((n, records));
  }

  /** One record per matching row, in order, each under the key and holding that row's reading. */
  predicate RecordsRead(key: string, m: seq<seq<string>>, records: seq<UnsafeRecord>) {
    && |records| == |m|
    && forall j :: 0 <= j < |m| ==>
         records[j].id == key && UnsafeReading(m[j], records[j].totalUnsafeBlocks, records[j].avgUnsafeStatements)
  }

  lemma RecordsReadSnoc(key: string, m: seq<seq<string>>, records: seq<UnsafeRecord>, row: seq<string>, rec: UnsafeRecord)
    requires RecordsRead(key, m, records)
    requires rec.id == key && UnsafeReading(row, rec.totalUnsafeBlocks, rec.avgUnsafeStatements)
    ensures RecordsRead(key, m + [row], records + [rec])
  {
    forall j | 0 <= j < |m| + 1
      ensures (records + [rec])[j].id == key
      ensures UnsafeReading((m + [row])[j], (records + [rec])[j].totalUnsafeBlocks, (records + [rec])[j].avgUnsafeStatements)
    {
      if j < |m| {
        assert (m + [row])[j] == m[j] && (records + [rec])[j] == records[j];
      }
    }
  }

  /** Reading one more row of a file: what it adds to the matching rows and to readability. */
  lemma UnsafeFilePrefix(target: string, rows: seq<seq<string>>, i: int)
    requires 0 <= i < |rows|
    ensures Matching(target, rows[..i + 1]) ==
      Matching(target, rows[..i]) + (if |rows[i]| >= 1 && rows[i][0] == target then [rows[i]] else [])
    ensures UnsafeFileReadable(target, rows[..i + 1]) <==>
      && UnsafeFileReadable(target, rows[..i])
      && |rows[i]| >= 1
      && (rows[i][0] == target ==> UnsafeReadable(rows[i]))
  {
    assert rows[..i + 1][..i] == rows[..i];
  }

  lemma {:induction false} UnsafeUnreadableStays(target: string, rows: seq<seq<string>>, n: nat)
    requires n <= |rows| && !UnsafeFileReadable(target, rows[..n])
    ensures !UnsafeFileReadable(target, rows)
    decreases |rows| - n
  {
    if n < |rows| {
      assert rows[..n + 1][..n] == rows[..n];
      UnsafeUnreadableStays(target, rows, n + 1);
    } else {
      assert rows[..n] == rows;
    }
  }

  /** The name on the last `Function` row, if any: the function whose section is open. */
  function LastFunction(rows: seq<seq<string>>): Option<string>
    decreases |rows|
  {
    if rows == [] then None
    else
      var last := rows[|rows| - 1];
      if |last| >= 2 && last[0] == "Function" then Some(last[1]) else LastFunction(rows[..|rows| - 1])
  }

  /** An `Argument` or `Local` row. */
  predicate TypeRow(row: seq<string>) {
    |row| >= 1 && (row[0] == "Argument" || row[0] == "Local")
  }

  /**
   * Rows the section reading takes without raising: none is empty, a
   * `Function` row has a name, and a type row inside the target's section has
   * a type field.
   */
  predicate SectionReadable(target: string, rows: seq<seq<string>>)
    decreases |rows|
  {
    rows == [] ||
      var last := rows[|rows| - 1];
      && SectionReadable(target, rows[..|rows| - 1])
      && |last| >= 1
      && (last[0] == "Function" ==> |last| >= 2)
      && (LastFunction(rows) == Some(target) && TypeRow(last) ==> |last| >= 3)
  }

  /**
   * The categories counted for the target: those of the type rows inside the
   * target's section that get one, duplicates included.
   */
  function SectionCategories(target: string, rows: seq<seq<string>>): seq<Category>
    decreases |rows|
  {
    if rows == [] then []
    else
      var last := rows[|rows| - 1];
      SectionCategories(target, rows[..|rows| - 1]) +
        (if LastFunction(rows) == Some(target) && TypeRow(last) && |last| >= 3 && TypeCat(last[2]).Some?
         then [TypeCat(last[2]).value] else [])
  }

  /** Some `Function` row names the target. */
  predicate Declares(rows: seq<seq<string>>, target: string)
    decreases |rows|
  {
    rows != [] &&
      var last := rows[|rows| - 1];
      (|last| >= 2 && last[0] == "Function" && last[1] == target) || Declares(rows[..|rows| - 1], target)
  }

  /** What get_var_type_measure records for the target: the set of categories and their count. */
  datatype VarTypeRecord = VarTypeRecord(id: string, categories: set<Category>, totalTypes: nat)

  /**
   * One file of get_var_type_measure: the `flag`/`funcname` walk over the
   * report. The target's section opens on its `Function` row and closes on any
   * other `Function` row; `Return` and `ExprLit` rows are skipped; a record is
   * made when the name last kept equals the target, that is when the target's
   * `Function` row was seen (or the target is empty, the name's initial value).
   */
  method VarTypeMeasureFile(names: Names, fileName: string, rows: seq<seq<string>>)
    returns (r: Result<(Names, Option<VarTypeRecord>), string>)
    ensures var n := NamesOfFile(names, fileName);
      r.Success? <==> n.current.Some? && SectionReadable(n.current.value.func, rows)
    ensures r.Success? ==>
      var n := NamesOfFile(names, fileName);
      var id := n.current.value;
      var cats := SectionCategories(id.func, rows);
      && r.value.0 == n
      && (r.value.1.Some? <==> id.func == "" || Declares(rows, id.func))
      && (r.value.1.Some? ==>
            r.value.1.value == VarTypeRecord(Key(n.proj, id.file, id.func), set c | c in cats, |cats|))
  {
    var n := NamesOfFile(names, fileName);
    if n.current.None? {
      return Failure("UnboundLocalError");
    }
    var id := n.current.value;
    var target := id.func;
    var flag := false;
    var tmp: seq<Category> := [];
    var funcname := "";
    for i := 0 to |rows|
      invariant SectionReadable(target, rows[..i])
      invariant flag == (LastFunction(rows[..i]) == Some(target))
      invariant tmp == SectionCategories(target, rows[..i])
      invariant funcname == target <==> target == "" || Declares(rows[..i], target)
    {
      SectionPrefix(target, rows, i);
      var row := rows[i];
      if |row| == 0 || (row[0] == "Function" && |row| < 2) {
        SectionUnreadableStays(target, rows, i + 1);
        return Failure("IndexError");
      }
      if row[0] == "Function" {
        flag := row[1] == target;
      }
      if flag {
        if row[0] == "Function" {
          funcname := row[1];
        } else if row[0] == "Argument" || row[0] == "Local" {
          if |row| < 3 {
            SectionUnreadableStays(target, rows, i + 1);
            return Failure("IndexError");
          }
          var cat := TypeCat(row[2]);
          if cat.Some? {
            tmp := tmp + [cat.value];
          }
        }
      }
    }
    assert rows[..|rows|] == rows;
    if funcname == target {
      r := Success((n, Some(VarTypeRecord(Key(n.proj, id.file, target), set c | c in tmp, |tmp|))));
    } else {
      r := Success((n, None));
    }
  }

  /** Reading one more row of a report: what it does to the open section, readability, categories and declarations. */
  lemma SectionPrefix(target: string, rows: seq<seq<string>>, i: int)
    requires 0 <= i < |rows|
    ensures LastFunction(rows[..i + 1]) ==
      if |rows[i]| >= 2 && rows[i][0] == "Function" then Some(rows[i][1]) else LastFunction(rows[..i])
    ensures SectionReadable(target, rows[..i + 1]) <==>
      && SectionReadable(target, rows[..i])
      && |rows[i]| >= 1
      && (rows[i][0] == "Function" ==> |rows[i]| >= 2)
      && (LastFunction(rows[..i + 1]) == Some(target) && TypeRow(rows[i]) ==> |rows[i]| >= 3)
    ensures SectionCategories(target, rows[..i + 1]) ==
      SectionCategories(target, rows[..i]) +
        (if LastFunction(rows[..i + 1]) == Some(target) && TypeRow(rows[i]) && |rows[i]| >= 3 && TypeCat(rows[i][2]).Some?
         then [TypeCat(rows[i][2]).value] else [])
    ensures Declares(rows[..i + 1], target) <==>
      (|rows[i]| >= 2 && rows[i][0] == "Function" && rows[i][1] == target) || Declares(rows[..i], target)
  {
    assert rows[..i + 1][..i] == rows[..i];
  }

  lemma {:induction false} SectionUnreadableStays(target: string, rows: seq<seq<string>>, n: nat)
    requires n <= |rows| && !SectionReadable(target, rows[..n])
    ensures !SectionReadable(target, rows)
    decreases |rows| - n
  {
    if n < |rows| {
      assert rows[..n + 1][..n] == rows[..n];
      SectionUnreadableStays(target, rows, n + 1);
    } else {
      assert rows[..n] == rows;
    }
  }

  /** The sample size of a bin: the ratio of its length rounded up, at least one. */
  function SampleSize(n: nat, ratio: real): (k: nat)
    ensures k >= 1
    ensures k as real >= n as real * ratio
  {
    var c := Ceil(n as real * ratio);
    if c < 1 then 1 else c
  }

  /** `xs[::step]`: every step-th element, starting with the first. */
  function Every<T>(xs: seq<T>, step: nat): seq<T>
    requires step >= 1
    decreases |xs|
  {
    if xs == [] then []
    else if |xs| <= step then [xs[0]]
    else [xs[0]] + Every(xs[step..], step)
  }

  /** Exactly the elements at the multiples of the step below the length, in order. */
  lemma EveryMeaning<T>(xs: seq<T>, step: nat)
    requires step >= 1
    ensures |Every(xs, step)| * step >= |xs|
    ensures |Every(xs, step)| == 0 || (|Every(xs, step)| - 1) * step < |xs|
    ensures forall k :: 0 <= k < |Every(xs, step)| ==> k * step < |xs| && Every(xs, step)[k] == xs[k * step]
  {
    EveryLength(xs, step);
    forall k | 0 <= k < |Every(xs, step)|
      ensures k * step < |xs| && Every(xs, step)[k] == xs[k * step]
    {
      EveryAt(xs, step, k);
    }
  }

  lemma {:induction false} EveryLength<T>(xs: seq<T>, step: nat)
    requires step >= 1
    ensures |Every(xs, step)| * step >= |xs|
    ensures |Every(xs, step)| == 0 || (|Every(xs, step)| - 1) * step < |xs|
    decreases |xs|
  {
    if xs != [] && |xs| > step {
      var rest := xs[step..];
      EveryLength(rest, step);
      var m := |Every(rest, step)|;
      assert |Every(xs, step)| == m + 1;
      MulSucc(m + 1, step);
      if m >= 1 {
        MulSucc(m, step);
      }
    }
  }

  lemma {:induction false} EveryAt<T>(xs: seq<T>, step: nat, k: nat)
    requires step >= 1 && k < |Every(xs, step)|
    ensures k * step < |xs| && Every(xs, step)[k] == xs[k * step]
    decreases |xs|
  {
    if k > 0 {
      var rest := xs[step..];
      assert Every(xs, step) == [xs[0]] + Every(rest, step);
      EveryAt(rest, step, k - 1);
      MulSucc(k, step);
    }
  }

  lemma MulSucc(k: nat, step: nat)
    requires k >= 1
    ensures k * step == (k - 1) * step + step
  {
  }

  /** The step of a bin's slice: its length over the sample size, truncated. */
  function Interval(n: nat, ratio: real): nat {
    n / SampleSize(n, ratio)
  }

  /**
   * One bin of select_from_bins: a zero step (a bin shorter than its sample
   * size) makes the slice raise.
   */
  function SelectBin<T>(bin: seq<T>, ratio: real): (r: Result<seq<T>, string>)
  {
    var interval := Interval(|bin|, ratio);
    if interval == 0 then Failure("ValueError") else Success(Every(bin, interval))
  }

  /**
   * A bin is selected from unless it is shorter than its sample size; then the
   * first row is taken, at least the sample size and at most the whole bin,
   * and the rows taken are the bin's rows at the multiples of the step.
   */
  lemma SelectBinMeaning<T>(bin: seq<T>, ratio: real)
    ensures SelectBin(bin, ratio).Success? <==> SampleSize(|bin|, ratio) <= |bin|
    ensures SelectBin(bin, ratio).Success? ==>
      var s := SelectBin(bin, ratio).value;
      var interval := Interval(|bin|, ratio);
      && SampleSize(|bin|, ratio) <= |s| <= |bin|
      && s[0] == bin[0]
      && forall k :: 0 <= k < |s| ==> k * interval < |bin| && s[k] == bin[k * interval]
  {
    var k := SampleSize(|bin|, ratio);
    var interval := Interval(|bin|, ratio);
    if interval != 0 {
      EveryMeaning(bin, interval);
      var s := Every(bin, interval);
      DivBound(|bin|, k);
      StepAtLeast(|s|, k, interval);
      StepAtMost(|s|, |bin|, interval);
    }
  }

  lemma DivBound(n: nat, k: nat)
    requires k >= 1
    ensures (n / k) * k <= n
    ensures n / k == 0 <==> n < k
  {
  }

  lemma StepAtLeast(a: nat, b: nat, c: nat)
    requires c >= 1 && a * c >= c * b
    ensures a >= b
  {
  }

  lemma StepAtMost(a: nat, n: nat, c: nat)
    requires c >= 1 && (a == 0 || (a - 1) * c < n)
    ensures a <= n
  {
    if a > 0 {
      assert (a - 1) * c >= a - 1;
    }
  }

  /** The concatenated selection of all bins, failing at the first bin that fails. */
  function Selection<T>(bins: seq<seq<T>>, ratio: real): Result<seq<T>, string>
    decreases |bins|
  {
    if bins == [] then Success([])
    else
      match Selection(bins[..|bins| - 1], ratio)
      case Failure(e) => Failure(e)
      case Success(init) =>
        match SelectBin(bins[|bins| - 1], ratio)
        case Failure(e) => Failure(e)
        case Success(s) => Success(init + s)
  }

  /** select_from_bins: the selections of the bins, concatenated in order. */
  method SelectFromBins<T>(bins: seq<seq<T>>, ratio: real) returns (r: Result<seq<T>, string>)
    ensures r == Selection(bins, ratio)
    ensures r.Success? <==> forall i :: 0 <= i < |bins| ==> SampleSize(|bins[i]|, ratio) <= |bins[i]|
  {
    var selected: seq<T> := [];
    for i := 0 to |bins|
      invariant Selection(bins[..i], ratio) == Success(selected)
      invariant forall j :: 0 <= j < i ==> SampleSize(|bins[j]|, ratio) <= |bins[j]|
    {
      assert bins[..i + 1][..i] == bins[..i];
      SelectBinMeaning(bins[i], ratio);
      var s := SelectBin(bins[i], ratio);
      if s.Failure? {
        SelectionStops(bins, ratio, i + 1);
        return s;
      }
      selected := selected + s.value;
    }
    assert bins[..|bins|] == bins;
    r := Success(selected);
  }

  lemma {:induction false} SelectionStops<T>(bins: seq<seq<T>>, ratio: real, n: nat)
    requires n <= |bins| && Selection(bins[..n], ratio).Failure?
    ensures Selection(bins, ratio) == Selection(bins[..n], ratio)
    decreases |bins| - n
  {
    if n < |bins| {
      assert bins[..n + 1][..n] == bins[..n];
      SelectionStops(bins, ratio, n + 1);
    } else {
      assert bins[..n] == bins;
    }
  }
}
