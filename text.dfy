/**
 * String operations shared by the scripts and the two Rust tools: Python's
 * str.split / str.join / str.replace on one character, int() and str() on
 * integers, prefix and suffix tests, and substring search.
 */
module Text {
  import opened Wrappers

  predicate StartsWith(s: string, p: string) {
    |p| <= |s| && s[..|p|] == p
  }

  predicate EndsWith(s: string, p: string) {
    |p| <= |s| && s[|s| - |p|..] == p
  }

  /** A string built as `pre`, a middle and `suf` starts with `pre`, ends with `suf` and holds the middle between them. */
  lemma FramedParts(pre: string, mid: string, suf: string)
    ensures var s := pre + mid + suf;
      && StartsWith(s, pre) && EndsWith(s, suf) && |pre| + |suf| <= |s|
      && s[|pre|..|s| - |suf|] == mid
  {
    var s := pre + mid + suf;
    assert s[..|pre|] == pre;
    assert s[|s| - |suf|..] == suf;
    assert s[|pre|..|s| - |suf|] == mid;
  }

  /** A string that starts with `pre` and ends with `suf`, with room for both, is framed by them. */
  lemma Framed(s: string, pre: string, suf: string)
    requires StartsWith(s, pre) && EndsWith(s, suf) && |pre| + |suf| <= |s|
    ensures s == pre + s[|pre|..|s| - |suf|] + suf
  {
    assert s == s[..|pre|] + s[|pre|..|s| - |suf|] + s[|s| - |suf|..];
  }

  predicate OccursAt(s: string, p: string, i: int) {
    0 <= i && i + |p| <= |s| && s[i..i + |p|] == p
  }

  /** Python's `p in s` for strings. */
  predicate Contains(s: string, p: string) {
    exists i | 0 <= i <= |s| - |p| :: OccursAt(s, p, i)
  }

  predicate IsDigit(c: char) {
    '0' <= c <= '9'
  }

  predicate AllDigits(s: string) {
    forall i :: 0 <= i < |s| ==> IsDigit(s[i])
  }

  function DigitChar(d: nat): (c: char)
    requires d < 10
    ensures IsDigit(c)
  {
    ['0', '1', '2', '3', '4', '5', '6', '7', '8', '9'][d]
  }

  function DigitValue(c: char): (d: nat)
    requires IsDigit(c)
    ensures d < 10
  {
    (c as int - '0' as int) as nat
  }

  /** Python's str() on a non-negative int; Rust's to_string() on a usize. */
  function NatToString(n: nat): (s: string)
    ensures |s| >= 1 && AllDigits(s)
    decreases n
  {
    if n < 10 then [DigitChar(n)] else NatToString(n / 10) + [DigitChar(n % 10)]
  }

  /** Python's str() on an int. */
  function IntToString(i: int): (s: string)
    ensures |s| >= 1
    ensures 0 <= i ==> s == NatToString(i)
    ensures i < 0 ==> s[0] == '-' && s[1..] == NatToString(-i)
  {
    if i < 0 then "-" + NatToString(-i) else NatToString(i)
  }

  /** The value of a run of decimal digits, most significant first. */
  function DigitsValue(s: string): nat
    requires AllDigits(s)
  {
    if s == [] then 0 else DigitsValue(s[..|s| - 1]) * 10 + DigitValue(s[|s| - 1])
  }

  /** Python's int() on a decimal literal with an optional sign. */
  function ParseInt(s: string): (r: Option<int>)
    ensures r.Some? ==> |s| >= 1
  {
    if |s| >= 1 && AllDigits(s) then Some(DigitsValue(s))
    else if |s| >= 2 && (s[0] == '-' || s[0] == '+') && AllDigits(s[1..]) then
      var v: int := DigitsValue(s[1..]);
      Some(if s[0] == '-' then -v else v)
    else None
  }

  lemma DigitCharValue(d: nat)
    requires d < 10
    ensures DigitValue(DigitChar(d)) == d
  {
  }

  lemma {:induction false} DigitsValueOfNatToString(n: nat)
    ensures DigitsValue(NatToString(n)) == n
    decreases n
  {
    if n < 10 {
      DigitCharValue(n);
    } else {
      var s := NatToString(n);
      var head := NatToString(n / 10);
      assert s[..|s| - 1] == head;
      DigitsValueOfNatToString(n / 10);
      DigitCharValue(n % 10);
    }
  }

  /** int(str(n)) == n: what every reader of the tools' decimal fields relies on. */
  lemma ParseIntOfIntToString(i: int)
    ensures ParseInt(IntToString(i)) == Some(i)
  {
    if i < 0 {
      DigitsValueOfNatToString(-i);
      ParseIntOfNegative(IntToString(i), NatToString(-i));
    } else {
      DigitsValueOfNatToString(i);
      ParseIntOfDigits(IntToString(i));
    }
  }

  /** A run of digits reads as its value. */
  lemma ParseIntOfDigits(s: string)
    requires |s| >= 1 && AllDigits(s)
    ensures ParseInt(s) == Some(DigitsValue(s) as int)
  {
  }

  /** A minus sign before a run of digits reads as the negated value of the run. */
  lemma ParseIntOfNegative(s: string, digits: string)
    requires |s| >= 1 && s[0] == '-' && s[1..] == digits
    requires |digits| >= 1 && AllDigits(digits)
    ensures ParseInt(s) == Some(-(DigitsValue(digits) as int))
  {
    assert !IsDigit(s[0]);
  }

  /** Python's `s.split(sep)` for a one-character separator: always at least one field. */
  function Split(s: string, sep: char): (r: seq<string>)
    ensures |r| >= 1
    decreases |s|
  {
    if |s| == 0 then [""]
    else if s[0] == sep then [""] + Split(s[1..], sep)
    else
      var rest := Split(s[1..], sep);
      [[s[0]] + rest[0]] + rest[1..]
  }

  /** Python's `sep.join(parts)` and Rust's `parts.join(sep)`. */
  function Join(parts: seq<string>, sep: char): string
    decreases |parts|
  {
    if |parts| == 0 then ""
    else if |parts| == 1 then parts[0]
    else parts[0] + [sep] + Join(parts[1..], sep)
  }

  lemma {:induction false} SplitWithoutSep(a: string, sep: char)
    requires sep !in a
    ensures Split(a, sep) == [a]
    decreases |a|
  {
    if |a| > 0 {
      SplitWithoutSep(a[1..], sep);
      assert [a[0]] + a[1..] == a;
    }
  }

  /** A separator after a separator-free field ends exactly that field. */
  lemma {:induction false} SplitAfterField(a: string, sep: char, b: string)
    requires sep !in a
    ensures Split(a + [sep] + b, sep) == [a] + Split(b, sep)
    decreases |a|
  {
    var s := a + [sep] + b;
    if |a| == 0 {
      assert s[1..] == b;
    } else {
      assert s[1..] == a[1..] + [sep] + b;
      SplitAfterField(a[1..], sep, b);
      assert [a[0]] + a[1..] == a;
    }
  }

  /** Splitting what was joined gives the fields back when none holds the separator. */
  lemma {:induction false} SplitJoin(parts: seq<string>, sep: char)
    requires |parts| >= 1
    requires forall i :: 0 <= i < |parts| ==> sep !in parts[i]
    ensures Split(Join(parts, sep), sep) == parts
    decreases |parts|
  {
    if |parts| == 1 {
      SplitWithoutSep(parts[0], sep);
    } else {
      SplitJoin(parts[1..], sep);
      SplitAfterField(parts[0], sep, Join(parts[1..], sep));
      assert [parts[0]] + parts[1..] == parts;
    }
  }

  /** Python's `s.replace(a, b)` for one-character strings a and b. */
  function ReplaceChar(s: string, a: char, b: char): (r: string)
    ensures |r| == |s|
    ensures forall i :: 0 <= i < |s| ==> r[i] == (if s[i] == a then b else s[i])
  {
    if s == [] then [] else [if s[0] == a then b else s[0]] + ReplaceChar(s[1..], a, b)
  }

  /** Replacement works piecewise. */
  lemma ReplaceCharAppend(s: string, t: string, a: char, b: char)
    ensures ReplaceChar(s + t, a, b) == ReplaceChar(s, a, b) + ReplaceChar(t, a, b)
  {
  }

  /** Replacing back undoes a replacement by a character the string did not hold. */
  lemma ReplaceCharInverse(s: string, a: char, b: char)
    requires b !in s
    ensures ReplaceChar(ReplaceChar(s, a, b), b, a) == s
  {
    var t := ReplaceChar(ReplaceChar(s, a, b), b, a);
    assert forall i :: 0 <= i < |s| ==> t[i] == s[i];
  }

  /** A string without the replaced character is unchanged. */
  lemma ReplaceCharWithout(s: string, a: char, b: char)
    requires a !in s
    ensures ReplaceChar(s, a, b) == s
  {
  }

  /** Python's `s.lower()` restricted to ASCII letters. */
  function ToLower(s: string): (r: string)
    ensures |r| == |s|
    ensures forall i :: 0 <= i < |s| ==> r[i] == (if 'A' <= s[i] <= 'Z' then (s[i] as int + 32) as char else s[i])
  {
    if s == [] then [] else [if 'A' <= s[0] <= 'Z' then (s[0] as int + 32) as char else s[0]] + ToLower(s[1..])
  }

  /** Python's `s.lstrip(c)`: the longest suffix not starting with c; everything dropped is c. */
  function StripStart(s: string, c: char): (r: string)
    ensures |r| <= |s| && r == s[|s| - |r|..]
    ensures r != [] ==> r[0] != c
    ensures forall i :: 0 <= i < |s| - |r| ==> s[i] == c
  {
    if s != [] && s[0] == c then
      var r := StripStart(s[1..], c);
      assert forall i :: 1 <= i < |s| - |r| ==> s[i] == s[1..][i - 1];
      r
    else s
  }

  /** Python's `s.rstrip(c)`: the longest prefix not ending in c; everything dropped is c. */
  function StripEnd(s: string, c: char): (r: string)
    ensures |r| <= |s| && r == s[..|r|]
    ensures r != [] ==> r[|r| - 1] != c
    ensures forall i :: |r| <= i < |s| ==> s[i] == c
  {
    if s != [] && s[|s| - 1] == c then
      var r := StripEnd(s[..|s| - 1], c);
      assert s[..|s| - 1][..|r|] == s[..|r|];
      r
    else s
  }

  /**
   * Python's `s.strip(c)`: a slice of s that neither starts nor ends with c,
   * everything before and after it being c.
   */
  function Strip(s: string, c: char): (r: string)
    ensures r != [] ==> r[0] != c && r[|r| - 1] != c
    ensures exists i, j :: (0 <= i <= j <= |s| && r == s[i..j]
      && (forall k :: 0 <= k < i ==> s[k] == c) && (forall k :: j <= k < |s| ==> s[k] == c))
  {
    var t := StripStart(s, c);
    var r := StripEnd(t, c);
    StripSlice(s, c, t, r);
    r
  }

  /** A prefix r of a suffix t of s, with only c cut off at either end, is a slice of s framed by c. */
  lemma StripSlice(s: string, c: char, t: string, r: string)
    requires |t| <= |s| && t == s[|s| - |t|..] && forall k :: 0 <= k < |s| - |t| ==> s[k] == c
    requires |r| <= |t| && r == t[..|r|] && forall k :: |r| <= k < |t| ==> t[k] == c
    ensures exists i, j :: (0 <= i <= j <= |s| && r == s[i..j]
      && (forall k :: 0 <= k < i ==> s[k] == c) && (forall k :: j <= k < |s| ==> s[k] == c))
  {
    var i, j := |s| - |t|, |s| - |t| + |r|;
    assert r == s[i..j];
    forall k | j <= k < |s|
      ensures s[k] == c
    {
      assert s[k] == t[k - i];
    }
  }

  /**
   * Rust's `char::is_whitespace`: the Unicode White_Space property, that is
   * tab, line feed, vertical tab, form feed, carriage return, space, NEL,
   * no-break space, the Ogham space mark, the en quad to hair space block,
   * the line and paragraph separators, the narrow no-break space, the medium
   * mathematical space and the ideographic space.
   */
  predicate IsWhiteSpace(c: char) {
    || ('\t' <= c <= '\r') || c == ' ' || c == '\U{0085}' || c == '\U{00A0}' || c == '\U{1680}'
    || ('\U{2000}' <= c <= '\U{200A}') || c == '\U{2028}' || c == '\U{2029}' || c == '\U{202F}'
    || c == '\U{205F}' || c == '\U{3000}'
  }

  /** Python's `str.isspace` for one character: White_Space plus the separators 0x1C to 0x1F. */
  predicate IsSpace(c: char) {
    IsWhiteSpace(c) || ('\U{001C}' <= c <= '\U{001F}')
  }

  /** Whose whitespace a trim removes. */
  datatype Spaces = RustSpaces | PythonSpaces

  predicate InSpaces(c: char, spaces: Spaces) {
    if spaces == RustSpaces then IsWhiteSpace(c) else IsSpace(c)
  }

  /** The longest prefix that does not end in whitespace. */
  function DropTrailing(s: string, spaces: Spaces): (r: string)
    ensures |r| <= |s| && r == s[..|r|]
    ensures r != [] ==> !InSpaces(r[|r| - 1], spaces)
    ensures forall i :: |r| <= i < |s| ==> InSpaces(s[i], spaces)
  {
    if s != [] && InSpaces(s[|s| - 1], spaces) then
      var r := DropTrailing(s[..|s| - 1], spaces);
      assert s[..|s| - 1][..|r|] == s[..|r|];
      r
    else s
  }

  /** The longest suffix that does not start with whitespace. */
  function DropLeading(s: string, spaces: Spaces): (r: string)
    ensures |r| <= |s| && r == s[|s| - |r|..]
    ensures r != [] ==> !InSpaces(r[0], spaces)
    ensures forall i :: 0 <= i < |s| - |r| ==> InSpaces(s[i], spaces)
  {
    if s != [] && InSpaces(s[0], spaces) then
      var r := DropLeading(s[1..], spaces);
      assert s[1..][|s| - 1 - |r|..] == s[|s| - |r|..];
      assert forall i :: 1 <= i < |s| - |r| ==> s[i] == s[1..][i - 1];
      r
    else s
  }

  /** Rust's `trim_end()`: the longest prefix that does not end in Unicode whitespace. */
  function TrimEnd(s: string): (r: string)
    ensures |r| <= |s| && r == s[..|r|]
    ensures r != [] ==> !IsWhiteSpace(r[|r| - 1])
    ensures forall i :: |r| <= i < |s| ==> IsWhiteSpace(s[i])
  {
    DropTrailing(s, RustSpaces)
  }

  /**
   * r is s with whitespace cut off at both ends: a slice of s that neither
   * starts nor ends with whitespace, and only whitespace lies outside it.
   */
  predicate StrippedOf(s: string, r: string, spaces: Spaces) {
    && (r != [] ==> !InSpaces(r[0], spaces) && !InSpaces(r[|r| - 1], spaces))
    && exists i, j :: (0 <= i <= j <= |s| && r == s[i..j]
      && (forall k :: 0 <= k < i ==> InSpaces(s[k], spaces)) && (forall k :: j <= k < |s| ==> InSpaces(s[k], spaces)))
  }

  /** Python's `strip()`: whitespace removed at both ends. */
  function Trim(s: string): (r: string)
    ensures StrippedOf(s, r, PythonSpaces)
  {
    var t := DropTrailing(s, PythonSpaces);
    var r := DropLeading(t, PythonSpaces);
    TrimSlice(s, t, r);
    r
  }

  /** A suffix r of a prefix t of s, with only whitespace cut off at either end, is a slice of s framed by whitespace. */
  lemma TrimSlice(s: string, t: string, r: string)
    requires |t| <= |s| && t == s[..|t|] && forall k :: |t| <= k < |s| ==> InSpaces(s[k], PythonSpaces)
    requires t != [] ==> !InSpaces(t[|t| - 1], PythonSpaces)
    requires |r| <= |t| && r == t[|t| - |r|..] && forall k :: 0 <= k < |t| - |r| ==> InSpaces(t[k], PythonSpaces)
    requires r != [] ==> !InSpaces(r[0], PythonSpaces)
    ensures StrippedOf(s, r, PythonSpaces)
  {
    var i, j := |t| - |r|, |t|;
    assert r == s[i..j];
    forall k | 0 <= k < i
      ensures InSpaces(s[k], PythonSpaces)
    {
      assert s[k] == t[k];
    }
  }

  /** A string with no whitespace at either end is its own strip. */
  lemma TrimOfTrimmed(s: string)
    requires s != [] ==> !InSpaces(s[0], PythonSpaces) && !InSpaces(s[|s| - 1], PythonSpaces)
    ensures Trim(s) == s
  {
  }

  /** A line with one trailing carriage return removed. */
  function DropCR(line: string): string {
    if line != [] && line[|line| - 1] == '\r' then line[..|line| - 1] else line
  }

  /**
   * Rust's `str::lines()`: split at every newline, drop a `\r` just before a
   * newline, and yield no empty line after a final newline.
   */
  function Lines(s: string): (r: seq<string>)
  {
    var parts := Split(s, '\n');
    var last := parts[|parts| - 1];
    seq(|parts| - 1, i requires 0 <= i < |parts| - 1 => DropCR(parts[i]))
      + (if last == "" then [] else [last])
  }

  /** Text whose newline-separated fields carry no `\r` at their end and no empty tail reads back as those fields. */
  lemma LinesOfFields(s: string, parts: seq<string>)
    requires Split(s, '\n') == parts
    requires parts[|parts| - 1] != ""
    requires forall i :: 0 <= i < |parts| ==> parts[i] == [] || parts[i][|parts[i]| - 1] != '\r'
    ensures Lines(s) == parts
  {
    var n := |parts| - 1;
    var front := seq(n, i requires 0 <= i < n => DropCR(parts[i]));
    assert front == parts[..n];
    assert parts == parts[..n] + [parts[n]];
  }

  /** Lines written out with newline separators are read back, one by one. */
  lemma LinesOfJoin(lines: seq<string>)
    requires |lines| >= 1 && lines[|lines| - 1] != ""
    requires forall i :: 0 <= i < |lines| ==> '\n' !in lines[i]
    requires forall i :: 0 <= i < |lines| ==> lines[i] == [] || lines[i][|lines[i]| - 1] != '\r'
    ensures Lines(Join(lines, '\n')) == lines
  {
    SplitJoin(lines, '\n');
    LinesOfFields(Join(lines, '\n'), lines);
  }

  /** np.ceil on a real: the least integer not below x. */
  function Ceil(x: real): (c: int)
    ensures x <= c as real < x + 1.0
  {
    -((-x).Floor)
  }

  /** `os.path.join(dir, name)` for a relative name. */
  function JoinPath(dir: string, name: string): string {
    if name != [] && name[0] == '/' then name
    else if dir == [] || dir[|dir| - 1] == '/' then dir + name
    else dir + "/" + name
  }

  /** The field after the last separator is the separator-free tail, and there are at least two fields. */
  lemma {:induction false} SplitLastField(a: string, sep: char, b: string)
    requires sep !in b
    ensures var parts := Split(a + [sep] + b, sep); |parts| >= 2 && parts[|parts| - 1] == b
    decreases |a|
  {
    var s := a + [sep] + b;
    if a == [] {
      assert s[1..] == b;
      SplitWithoutSep(b, sep);
    } else {
      var t := a[1..] + [sep] + b;
      assert s[1..] == t;
      SplitLastField(a[1..], sep, b);
      var rest := Split(t, sep);
      if s[0] == sep {
        assert Split(s, sep) == [""] + rest;
      } else {
        assert Split(s, sep) == [[s[0]] + rest[0]] + rest[1..];
      }
    }
  }

  /**
   * A relative name without '/' is the last '/'-separated field of the joined
   * path, whatever the directory.
   */
  lemma JoinPathLast(dir: string, name: string)
    requires name != [] && '/' !in name
    ensures var parts := Split(JoinPath(dir, name), '/'); parts[|parts| - 1] == name
    ensures JoinPath(dir, name)[|JoinPath(dir, name)| - 1] != '/'
  {
    assert name[0] in name && name[|name| - 1] in name;
    if dir == [] {
      assert JoinPath(dir, name) == name;
      SplitWithoutSep(name, '/');
    } else if dir[|dir| - 1] == '/' {
      assert dir + name == dir[..|dir| - 1] + ['/'] + name;
      SplitLastField(dir[..|dir| - 1], '/', name);
    } else {
      assert dir + "/" + name == dir + ['/'] + name;
      SplitLastField(dir, '/', name);
    }
  }

  /** n copies of one value; on characters, `str::repeat` of a one-character string. */
  function Repeat<T>(x: T, n: nat): (r: seq<T>)
    ensures |r| == n && forall i :: 0 <= i < n ==> r[i] == x
  {
    seq(n, _ => x)
  }

  lemma RepeatSnoc<T>(x: T, n: nat)
    ensures Repeat(x, n + 1) == Repeat(x, n) + [x]
  {
  }
}
