/**
 * The files the parts of the pipeline hand to each other, read by the part
 * that consumes them: the translation log read by the compile-attempt
 * measure, the unsafe-usage report read by the unsafe measure, the var-type
 * report read by the type categorisation, the selection keys read back as log
 * ids, and the selection file names read as sort keys.
 */
module Interchange {
  import opened Wrappers
  import opened Text
  import Measure
  import Cli
  import EvaluateSelections
  import UnsafeUsage
  import VarTypes
  import Orchestrator

  // ---------------------------------------------------------------------
  // transpilation.log -> get_comp_attempt_measure
  // ---------------------------------------------------------------------

  /**
   * A record line of the translation log, split on ';', is a row the
   * compile-attempt reading accepts whenever its file name is an id it
   * recognises, and the count it reads is the number of repair rounds logged.
   */
  lemma RecordAttempt(names: Measure.Names, e: Orchestrator.Entry)
    requires e.RecordEntry? && ';' !in e.file
    ensures var r := Measure.AttemptStep(names, Split(Orchestrator.Render(e), ';'));
      && (r.Success? <==> Measure.ReadId(names, e.file).current.Some?)
      && (r.Success? ==> ParseInt(r.value.1.field) == Some(e.compIterations as int))
  {
    Orchestrator.RecordLineFields(e);
    ParseIntOfIntToString(e.compIterations);
  }

  /**
   * The log line of the input `proj#file#func.c` is counted under the key
   * `proj:file:func`, and that key reformatted is the log's name again.
   */
  lemma RecordAttemptKey(names: Measure.Names, e: Orchestrator.Entry, p: string, f: string, fn: string)
    requires e.RecordEntry? && e.file == p + "#" + f + "#" + fn + ".c"
    requires ';' !in p && ';' !in f && ';' !in fn
    requires '#' !in p && '#' !in f && '#' !in fn
    requires ':' !in p && ':' !in f && ':' !in fn
    requires '/' !in fn && '.' !in fn && fn != ""
    ensures var r := Measure.AttemptStep(names, Split(Orchestrator.Render(e), ';'));
      && r.Success?
      && r.value.1 == Measure.Attempt(Measure.Key(p, f, fn), NatToString(e.compIterations))
      && EvaluateSelections.Reformat(r.value.1.key) == Success(e.file)
  {
    Orchestrator.RecordLineFields(e);
    ParseIntOfIntToString(e.compIterations);
    assert e.file == p + "#" + f + "#" + (fn + ".c");
    Measure.ReadIdOfParts(names, p, f, fn + ".c");
    Measure.PathStemOfFile(fn, "c");
    assert fn + ".c" == fn + "." + "c";
    EvaluateSelections.ReformatOfId(p, f, fn);
  }

  // ---------------------------------------------------------------------
  // dump-unsafe-usage -> get_unsafe_measure
  // ---------------------------------------------------------------------

  /** The counts written as fields are summed back to their total. */
  lemma {:induction false} SumAppend(a: seq<nat>, b: seq<nat>)
    ensures UnsafeUsage.Sum(a + b) == UnsafeUsage.Sum(a) + UnsafeUsage.Sum(b)
    decreases |a|
  {
    if a != [] {
      assert (a + b)[0] == a[0];
      assert (a + b)[1..] == a[1..] + b;
      SumAppend(a[1..], b);
      assert UnsafeUsage.Sum(a + b) == a[0] + UnsafeUsage.Sum(a[1..] + b);
    } else {
      assert a + b == b;
    }
  }

  lemma {:induction false} SumFieldsOfCounts(row: seq<string>, xs: seq<nat>, k: nat)
    requires k <= |xs| && 2 + k <= |row|
    requires forall i :: 0 <= i < k ==> ParseInt(row[2 + i]) == Some(xs[i] as int)
    ensures Measure.SumFields(row, 2, 2 + k) == Some(UnsafeUsage.Sum(xs[..k]) as int)
    decreases k
  {
    if k == 0 {
      assert xs[..0] == [];
    } else {
      SumFieldsOfCounts(row, xs, k - 1);
      assert ParseInt(row[2 + (k - 1)]) == Some(xs[k - 1] as int);
      assert xs[..k] == xs[..k - 1] + [xs[k - 1]];
      SumAppend(xs[..k - 1], [xs[k - 1]]);
      assert UnsafeUsage.Sum([xs[k - 1]]) == xs[k - 1];
    }
  }

  /** The count fields of a report line read back as the counts. */
  lemma CountFieldsParse(row: seq<string>, head: seq<string>, xs: seq<nat>)
    requires |head| == 2 && row == head + UnsafeUsage.CountTexts(xs)
    ensures forall i :: 0 <= i < |xs| ==> ParseInt(row[2 + i]) == Some(xs[i] as int)
  {
    forall i | 0 <= i < |xs|
      ensures ParseInt(row[2 + i]) == Some(xs[i] as int)
    {
      assert row[2 + i] == NatToString(xs[i]);
      ParseIntOfIntToString(xs[i]);
    }
  }

  /**
   * A report line of the unsafe-usage tool, split on ';', reads as the number
   * of unsafe blocks it reports and the average of their statement counts.
   */
  lemma UnsafeLineReading(name: string, xs: seq<nat>)
    requires ';' !in name
    ensures var row := Split(UnsafeUsage.OutputLine(name, |xs|, xs), ';');
      && row[0] == name
      && Measure.UnsafeReadable(row)
      && Measure.UnsafeReading(row, |xs|, if xs == [] then 0.0 else UnsafeUsage.Sum(xs) as real / |xs| as real)
  {
    var row := Split(UnsafeUsage.OutputLine(name, |xs|, xs), ';');
    UnsafeUsage.OutputLineFields(name, |xs|, xs);
    ParseIntOfIntToString(|xs|);
    if xs != [] {
      CountFieldsParse(row, [name, NatToString(|xs|)], xs);
      SumFieldsOfCounts(row, xs, |xs|);
      assert xs[..|xs|] == xs;
    }
  }

  /**
   * What the unsafe measure records for a function is what the tool counted
   * in it: its top-level unsafe blocks and their mean size.
   */
  lemma UnsafeFunctionReading(f: UnsafeUsage.Item)
    requires f.Fn? && ';' !in f.name
    ensures var counts := UnsafeUsage.UnsafeCounts(f.body);
      var row := Split(UnsafeUsage.FunctionLine(f), ';');
      && row[0] == f.name
      && Measure.UnsafeReadable(row)
      && Measure.UnsafeReading(row, |counts|,
           if counts == [] then 0.0 else UnsafeUsage.Sum(counts) as real / |counts| as real)
  {
    UnsafeLineReading(f.name, UnsafeUsage.UnsafeCounts(f.body));
  }

  // ---------------------------------------------------------------------
  // dump-var-types -> get_type_cat
  // ---------------------------------------------------------------------

  /** A type the tool could not identify is not counted in any category. */
  lemma UnidentifiedUncategorised(rest: string)
    ensures Measure.TypeCat(VarTypes.NOT_IDENTIFIED + rest) == None
  {
    assert OccursAt(VarTypes.NOT_IDENTIFIED + rest, Measure.NOT_IDENTIFIED, 0);
  }

  /** A name none of the fixed type-name lists holds: it starts with 'a', 't', 'e' or "st". */
  predicate UnlistedHead(n: string) {
    n != [] && (n[0] == 'a' || n[0] == 't' || n[0] == 'e' || (|n| >= 2 && n[0] == 's' && n[1] == 't'))
  }

  lemma NotListed(s: string)
    requires UnlistedHead(s)
    ensures s !in Measure.INTEGER_NAMES && s !in Measure.FLOAT_NAMES && s !in Measure.CHAR_NAMES
  {
    IntegerNamesHeads();
    FloatNamesHeads();
    CharNamesHeads();
  }

  lemma IntegerNamesHeads()
    ensures forall n :: n in Measure.INTEGER_NAMES ==> !UnlistedHead(n)
  {
    forall n | n in Measure.INTEGER_NAMES
      ensures !UnlistedHead(n)
    {
    }
  }

  lemma FloatNamesHeads()
    ensures forall n :: n in Measure.FLOAT_NAMES ==> !UnlistedHead(n)
  {
  }

  lemma CharNamesHeads()
    ensures forall n :: n in Measure.CHAR_NAMES ==> !UnlistedHead(n)
  {
  }

  /**
   * The prefix the tool gives annotated array locals is the one the
   * categorisation looks for, unless the type text itself ends like a C long
   * or holds the unidentified marker, which are tested first.
   */
  lemma ArrayPrefixCategory(t: string)
    requires !EndsWith("array#" + t, "c_ulong") && !EndsWith("array#" + t, "c_long")
    requires !Contains("array#" + t, Measure.NOT_IDENTIFIED)
    ensures Measure.TypeCat(VarTypes.KindPrefix(VarTypes.ArrayType) + t) == Some(Measure.ArrayCat)
  {
    var a := "array#" + t;
    NotListed(a);
    assert a[..5] == "array";
  }

  /** Likewise for annotated tuple locals. */
  lemma TuplePrefixCategory(t: string)
    requires !EndsWith("tuple#" + t, "c_ulong") && !EndsWith("tuple#" + t, "c_long")
    requires !Contains("tuple#" + t, Measure.NOT_IDENTIFIED)
    ensures Measure.TypeCat(VarTypes.KindPrefix(VarTypes.TupleType) + t) == Some(Measure.TupleCat)
  {
    var u := "tuple#" + t;
    NotListed(u);
    assert u[..5] == "tuple";
  }

  /** Enum paths: the tool's "enum#" prefix is the one the categorisation looks for. */
  lemma EnumPrefixCategory(segments: seq<string>)
    requires segments != []
    requires !EndsWith("enum#" + segments[0], "c_ulong") && !EndsWith("enum#" + segments[0], "c_long")
    requires !Contains("enum#" + segments[0], Measure.NOT_IDENTIFIED)
    ensures Measure.TypeCat(VarTypes.TypeOf(VarTypes.PathExpr(segments))) == Some(Measure.EnumCat)
  {
    var e := "enum#" + segments[0];
    NotListed(e);
    assert e[..4] == "enum";
  }

  /** Struct literals with named fields: the "struct#" prefix gives the struct category. */
  lemma StructPrefixCategory(ident: string, fields: seq<VarTypes.Member>)
    requires fields != [] && fields[0].Named?
    requires !EndsWith("struct#" + ident, "c_ulong") && !EndsWith("struct#" + ident, "c_long")
    requires !Contains("struct#" + ident, Measure.NOT_IDENTIFIED)
    ensures Measure.TypeCat(VarTypes.TypeOf(VarTypes.StructExpr(Some(ident), fields))) == Some(Measure.StructCat)
  {
    var u := "struct#" + ident;
    NotListed(u);
    assert u[..6] == "struct";
    NotStartingWith(u, "*");
    NotStartingWith(u, "&");
    NotStartingWith(u, "enum");
    NotStartingWith(u, "array");
    NotStartingWith(u, "tuple");
    NotStartingWith(u, "libc::c_void");
    NotStartingWith(u, "libc :: c_void");
    NotStartingWith(u, "bool");
    assert u != "string";
    assert !(u in Measure.INTEGER_NAMES || EndsWith(u, "c_ulong") || EndsWith(u, "c_long"));
    assert Measure.TypeCat(u) == Some(Measure.StructCat);
    assert VarTypes.TypeOf(VarTypes.StructExpr(Some(ident), fields)) == u;
  }

  /** A string neither equals nor starts with a string whose first character it does not share. */
  lemma NotStartingWith(t: string, p: string)
    requires t != [] && p != [] && t[0] != p[0]
    ensures !StartsWith(t, p) && t != p
  {
    assert |p| <= |t| ==> t[..|p|][0] == t[0];
  }

  /** A type string that starts with none of "*", "&", "e", "a", "t", "s", "H" or "O" has no prefix rule. */
  lemma NoPrefixRule(t: string)
    requires t != [] && t[0] !in "*&eatsHO"
    ensures !StartsWith(t, "*") && !StartsWith(t, "&") && !StartsWith(t, "enum") && !StartsWith(t, "array")
    ensures !StartsWith(t, "tuple") && !StartsWith(t, "struct") && !StartsWith(t, "HashMap") && !StartsWith(t, "Option")
  {
    NotStartingWith(t, "*");
    NotStartingWith(t, "&");
    NotStartingWith(t, "enum");
    NotStartingWith(t, "array");
    NotStartingWith(t, "tuple");
    NotStartingWith(t, "struct");
    NotStartingWith(t, "HashMap");
    NotStartingWith(t, "Option");
  }

  /** The fixed type-name lists hold no name starting with a character outside "iuclsf". */
  lemma Unlisted(t: string)
    requires t != [] && t[0] !in "iuclsf"
    ensures t !in Measure.INTEGER_NAMES && t !in Measure.FLOAT_NAMES && t !in Measure.CHAR_NAMES
  {
    assert forall n :: n in Measure.INTEGER_NAMES ==> n != [] && n[0] in "iucls";
    assert forall n :: n in Measure.FLOAT_NAMES ==> n != [] && n[0] in "fc";
    assert forall n :: n in Measure.CHAR_NAMES ==> n != [] && n[0] in "cl";
  }

  /** A string does not end with a suffix whose first character is not at the matching place. */
  lemma NotEndingWith(t: string, p: string)
    requires p != [] && (|p| <= |t| ==> t[|t| - |p|] != p[0])
    ensures !EndsWith(t, p)
  {
    assert |p| <= |t| ==> t[|t| - |p|..][0] == t[|t| - |p|];
  }

  /**
   * A type string starting with a character none of get_type_cat's names and
   * prefixes starts with: only the exact "bool" and vector spellings are
   * categorised, everything else is not.
   */
  lemma PlainTypeCat(t: string)
    requires t != [] && t[0] !in "*&eatsHOiuclf"
    requires !Contains(t, Measure.NOT_IDENTIFIED)
    requires !EndsWith(t, "c_ulong") && !EndsWith(t, "c_long")
    ensures Measure.TypeCat(t) ==
      if t == "bool" then Some(Measure.BoolCat)
      else if t == "Vec<u8>" || t == "Vec < u8 >" then Some(Measure.Vector)
      else None
  {
    NoPrefixRule(t);
    Unlisted(t);
  }

  /** An integer literal is typed "int", which is an integer name. */
  lemma IntLitCategory(lit: VarTypes.Lit)
    requires lit.IntLit?
    ensures Measure.TypeCat(VarTypes.TypeOf(VarTypes.LitExpr(lit))) == Some(Measure.Integer)
  {
    var t := VarTypes.TypeOf(VarTypes.LitExpr(lit));
    assert t == "int" == Measure.INTEGER_NAMES[16];
    NoPrefixRule(t);
  }

  /** A float literal is typed "float", a float name and no integer name. */
  lemma FloatLitCategory(lit: VarTypes.Lit)
    requires lit.FloatLit?
    ensures Measure.TypeCat(VarTypes.TypeOf(VarTypes.LitExpr(lit))) == Some(Measure.FloatCat)
  {
    var t := VarTypes.TypeOf(VarTypes.LitExpr(lit));
    assert t == "float" == Measure.FLOAT_NAMES[2];
    NoPrefixRule(t);
  }

  /** A string literal is typed "string", which has a rule of its own after the integer and float names. */
  lemma StrLitCategory(lit: VarTypes.Lit)
    requires lit.StrLit?
    ensures Measure.TypeCat(VarTypes.TypeOf(VarTypes.LitExpr(lit))) == Some(Measure.StringCat)
  {
    var t := VarTypes.TypeOf(VarTypes.LitExpr(lit));
    assert t == "string";
    NotStartingWith(t, "*");
    NotStartingWith(t, "&");
  }

  /** A character literal is typed "char", a char name. */
  lemma CharLitCategory(lit: VarTypes.Lit)
    requires lit.CharLit?
    ensures Measure.TypeCat(VarTypes.TypeOf(VarTypes.LitExpr(lit))) == Some(Measure.CharCat)
  {
    var t := VarTypes.TypeOf(VarTypes.LitExpr(lit));
    assert t == "char" == Measure.CHAR_NAMES[0];
    NoPrefixRule(t);
  }

  /** A boolean literal is typed "bool", which has a rule of its own. */
  lemma BoolLitCategory(lit: VarTypes.Lit)
    requires lit.BoolLit?
    ensures Measure.TypeCat(VarTypes.TypeOf(VarTypes.LitExpr(lit))) == Some(Measure.BoolCat)
  {
    var t := VarTypes.TypeOf(VarTypes.LitExpr(lit));
    assert t == "bool";
    PlainTypeCat(t);
  }

  /** A byte literal is typed "u8", which the integer rule claims before any other. */
  lemma ByteLitCategory(lit: VarTypes.Lit)
    requires lit.ByteLit?
    ensures Measure.TypeCat(VarTypes.TypeOf(VarTypes.LitExpr(lit))) == Some(Measure.Integer)
  {
    var t := VarTypes.TypeOf(VarTypes.LitExpr(lit));
    assert t == "u8" == Measure.INTEGER_NAMES[12];
    NoPrefixRule(t);
  }

  /** A byte-string literal is typed "Vec<u8>", the vector rule's spelling. */
  lemma ByteStrLitCategory(lit: VarTypes.Lit)
    requires lit.ByteStrLit?
    ensures Measure.TypeCat(VarTypes.TypeOf(VarTypes.LitExpr(lit))) == Some(Measure.Vector)
  {
    var t := VarTypes.TypeOf(VarTypes.LitExpr(lit));
    assert t == "Vec<u8>";
    PlainTypeCat(t);
  }

  /** A verbatim literal is typed "Verbatim Literal", which no rule matches. */
  lemma VerbatimLitUncategorised(lit: VarTypes.Lit)
    requires lit.VerbatimLit?
    ensures Measure.TypeCat(VarTypes.TypeOf(VarTypes.LitExpr(lit))) == None
  {
    var t := VarTypes.TypeOf(VarTypes.LitExpr(lit));
    assert t == "Verbatim Literal";
    forall i | 0 <= i <= |t| - |Measure.NOT_IDENTIFIED|
      ensures !OccursAt(t, Measure.NOT_IDENTIFIED, i)
    {
      assert t[i..i + 14][0] == t[i];
    }
    NotEndingWith(t, "c_ulong");
    NotEndingWith(t, "c_long");
    PlainTypeCat(t);
  }

  // ---------------------------------------------------------------------
  // main.py's selection file -> evaluate_selections.py
  // ---------------------------------------------------------------------

  /** A number is one run. */
  lemma RunsOfNumber(d: string)
    requires |d| >= 1 && AllDigits(d)
    ensures EvaluateSelections.DigitRuns(d) == [d]
  {
    EvaluateSelections.DigitRunsPrefix(d, []);
    assert d + [] == d;
    assert EvaluateSelections.DigitRuns([]) == [];
  }

  /** A separator is no run. */
  lemma HashRuns()
    ensures EvaluateSelections.DigitRuns("#") == []
  {
    EvaluateSelections.DigitRunsNone("#");
  }

  /** Runs of a non-digit-ended prefix, a number, a '#' and a field. */
  lemma HeadRuns(x0: string, d1: string, t: string)
    requires EvaluateSelections.DigitRuns(x0) == [] && x0 != [] && !IsDigit(x0[|x0| - 1])
    requires |d1| >= 1 && AllDigits(d1)
    ensures EvaluateSelections.DigitRuns(x0 + d1 + "#" + t) == [d1] + EvaluateSelections.DigitRuns(t)
  {
    HashRuns();
    RunsOfNumber(d1);
    EvaluateSelections.DigitRunsAppend(x0, d1);
    EvaluateSelections.DigitRunsAppend(x0 + d1, "#");
    EvaluateSelections.DigitRunsAppend(x0 + d1 + "#", t);
  }

  /** Runs after a '#', a number and a non-digit-started suffix. */
  lemma TailRuns(p: string, d2: string, e: string)
    requires EvaluateSelections.DigitRuns(e) == [] && e != [] && !IsDigit(e[0])
    requires |d2| >= 1 && AllDigits(d2)
    ensures EvaluateSelections.DigitRuns(p + "#" + d2 + e) == EvaluateSelections.DigitRuns(p) + [d2]
  {
    HashRuns();
    RunsOfNumber(d2);
    EvaluateSelections.DigitRunsAppend(p, "#");
    EvaluateSelections.DigitRunsAppend(p + "#", d2);
    EvaluateSelections.DigitRunsAppend(p + "#" + d2, e);
  }

  /** The runs of a name made of a prefix, a number, a field, a number and a suffix. */
  lemma NameRuns(x0: string, d1: string, t: string, d2: string, e: string)
    requires EvaluateSelections.DigitRuns(x0) == [] && EvaluateSelections.DigitRuns(e) == []
    requires x0 != [] && !IsDigit(x0[|x0| - 1]) && e != [] && !IsDigit(e[0])
    requires |d1| >= 1 && AllDigits(d1) && |d2| >= 1 && AllDigits(d2)
    ensures EvaluateSelections.DigitRuns(x0 + d1 + "#" + t + "#" + d2 + e) ==
      [d1] + EvaluateSelections.DigitRuns(t) + [d2]
  {
    HeadRuns(x0, d1, t);
    TailRuns(x0 + d1 + "#" + t, d2, e);
  }
  /** The fixed head of a selection file name holds no digit. */
  lemma PrefixRuns()
    ensures EvaluateSelections.DigitRuns("selected_funcs#") == []
  {
    var x0 := "selected_funcs#";
    assert forall c :: c in x0 ==> !IsDigit(c);
    assert forall i :: 0 <= i < |x0| ==> x0[i] in x0;
    EvaluateSelections.DigitRunsNone(x0);
  }

  /** Nor does its extension. */
  lemma SuffixRuns()
    ensures EvaluateSelections.DigitRuns(".txt") == []
  {
    assert ".txt"[1..] == "txt";
    assert "txt"[1..] == "xt";
    assert "xt"[1..] == "t";
    assert "t"[1..] == "";
  }

  /** The runs of a selection file name. */
  lemma OutFilenameRuns(partitions: nat, ratioText: string, bins: nat)
    ensures EvaluateSelections.DigitRuns(Cli.OutFilename(partitions, ratioText, bins)) ==
      [NatToString(partitions)] + EvaluateSelections.DigitRuns(ReplaceChar(ratioText, '.', '_')) + [NatToString(bins)]
  {
    PrefixRuns();
    SuffixRuns();
    NameRuns("selected_funcs#", NatToString(partitions), ReplaceChar(ratioText, '.', '_'), NatToString(bins), ".txt");
  }

  /** The numbers of a sequence of runs, one by one. */
  function Values(runs: seq<string>): (r: seq<nat>)
    requires forall i :: 0 <= i < |runs| ==> AllDigits(runs[i])
  {
    seq(|runs|, i requires 0 <= i < |runs| => DigitsValue(runs[i]))
  }

  /** Reading runs as numbers goes run by run. */
  lemma ValuesAppend(a: seq<string>, b: seq<string>)
    requires forall i :: 0 <= i < |a| ==> AllDigits(a[i])
    requires forall i :: 0 <= i < |b| ==> AllDigits(b[i])
    ensures Values(a + b) == Values(a) + Values(b)
  {
  }

  /** The numbers of a string are the values of its runs. */
  lemma ExtractNumberIsValues(s: string)
    ensures EvaluateSelections.ExtractNumber(s) == Values(EvaluateSelections.DigitRuns(s))
  {
  }

  /** Runs framed by two numbers read as those numbers around the inner values. */
  lemma ValuesFramed(d1: string, inner: seq<string>, d2: string)
    requires AllDigits(d1) && AllDigits(d2)
    requires forall i :: 0 <= i < |inner| ==> AllDigits(inner[i])
    ensures Values([d1] + inner + [d2]) == [DigitsValue(d1)] + Values(inner) + [DigitsValue(d2)]
  {
    ValuesAppend([d1], inner);
    ValuesAppend([d1] + inner, [d2]);
  }

  /** The numbers of a name whose runs are a number, a field's runs and a number. */
  lemma ExtractNumberOfRuns(s: string, d1: string, t: string, d2: string)
    requires AllDigits(d1) && AllDigits(d2)
    requires EvaluateSelections.DigitRuns(s) == [d1] + EvaluateSelections.DigitRuns(t) + [d2]
    ensures EvaluateSelections.ExtractNumber(s) ==
      [DigitsValue(d1)] + EvaluateSelections.ExtractNumber(t) + [DigitsValue(d2)]
  {
    ExtractNumberIsValues(s);
    ExtractNumberIsValues(t);
    ValuesFramed(d1, EvaluateSelections.DigitRuns(t), d2);
  }

  /**
   * The numbers the evaluation sorts selection files by: the partition count,
   * the digit runs of the ratio, then the bin count.
   */
  lemma OutFilenameSortKey(partitions: nat, ratioText: string, bins: nat)
    ensures EvaluateSelections.ExtractNumber(Cli.OutFilename(partitions, ratioText, bins)) ==
      [partitions] + EvaluateSelections.ExtractNumber(ReplaceChar(ratioText, '.', '_')) + [bins]
  {
    OutFilenameRuns(partitions, ratioText, bins);
    ExtractNumberOfRuns(Cli.OutFilename(partitions, ratioText, bins), NatToString(partitions),
                        ReplaceChar(ratioText, '.', '_'), NatToString(bins));
    DigitsValueOfNatToString(partitions);
    DigitsValueOfNatToString(bins);
  }
}
