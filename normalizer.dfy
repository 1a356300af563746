/**
 * The output normaliser of the transpilation script: it takes the raw text of an
 * oracle reply and strips the Markdown code fence around the Rust payload. Four
 * fence conventions are tried in a fixed order; a reply that matches none of
 * them becomes the sentinel "TryAgain", which every retry loop treats as a
 * malformed reply.
 */
module Normalizer {
  import opened Wrappers
  import opened Text

  const TRY_AGAIN: string := "TryAgain"

  /** A fence convention: the text before the payload and the text after it. */
  datatype Fence = Fence(open: string, close: string)

  /** The four conventions, in the order they are tried. */
  const FENCES: seq<Fence> := [
    Fence("```rust\n", "```"),
    Fence("```rust\n", "```\n"),
    Fence("```rust", "```"),
    Fence(" ```rust\n", "```")
  ]

  predicate Matches(s: string, f: Fence) {
    StartsWith(s, f.open) && EndsWith(s, f.close)
  }

  /** Python's `s[a:][:-b]`: empty when s is shorter than a + b. */
  function StripAround(s: string, a: nat, b: nat): (r: string)
    ensures a + b <= |s| ==> r == s[a..|s| - b]
  {
    if a + b <= |s| then s[a..|s| - b] else ""
  }

  /** The index of the first convention the reply matches, if any. */
  function FirstFence(s: string): (k: Option<nat>)
    ensures k.Some? ==> k.value < |FENCES| && Matches(s, FENCES[k.value])
    ensures k.Some? ==> forall j :: 0 <= j < k.value ==> !Matches(s, FENCES[j])
    ensures k.None? ==> forall j :: 0 <= j < |FENCES| ==> !Matches(s, FENCES[j])
  {
    if Matches(s, FENCES[0]) then Some(0)
    else if Matches(s, FENCES[1]) then Some(1)
    else if Matches(s, FENCES[2]) then Some(2)
    else if Matches(s, FENCES[3]) then Some(3)
    else None
  }

  /** In a reply too short for both texts, the closing backtick lies inside the opening text. */
  lemma ClosingInsideOpening(s: string, f: Fence)
    requires Matches(s, f) && |f.close| >= 1 && f.close[0] == '`'
    requires |s| < |f.open| + |f.close|
    ensures |f.open| - |f.close| <= |s| - |f.close| < |f.open|
    ensures f.open[|s| - |f.close|] == '`'
  {
    var i := |s| - |f.close|;
    assert s[i] == s[|s| - |f.close|..][0] == f.close[0];
    assert s[i] == s[..|f.open|][i] == f.open[i];
  }

  /**
   * The opening and closing texts of a matched convention never share a
   * character, so a matched reply is at least as long as both together and
   * splits into opening text, payload and closing text.
   */
  lemma FencesDoNotOverlap(s: string)
    ensures forall k :: 0 <= k < |FENCES| && Matches(s, FENCES[k]) ==>
      |FENCES[k].open| + |FENCES[k].close| <= |s| &&
      s == FENCES[k].open + s[|FENCES[k].open|..|s| - |FENCES[k].close|] + FENCES[k].close
  {
    forall k | 0 <= k < |FENCES| && Matches(s, FENCES[k])
      ensures |FENCES[k].open| + |FENCES[k].close| <= |s|
    {
      if |s| < |FENCES[k].open| + |FENCES[k].close| {
        ClosingInsideOpening(s, FENCES[k]);
        assert false;
      }
    }
    forall k | 0 <= k < |FENCES| && Matches(s, FENCES[k])
      ensures s == FENCES[k].open + s[|FENCES[k].open|..|s| - |FENCES[k].close|] + FENCES[k].close
    {
      var f := FENCES[k];
      assert s == s[..|f.open|] + s[|f.open|..|s| - |f.close|] + s[|s| - |f.close|..];
    }
  }

  /** The conventions from the k-th on, tried in order. */
  function CleanFrom(s: string, k: nat): string
    requires k <= |FENCES|
    decreases |FENCES| - k
  {
    if k == |FENCES| then TRY_AGAIN
    else if Matches(s, FENCES[k]) then StripAround(s, |FENCES[k].open|, |FENCES[k].close|)
    else CleanFrom(s, k + 1)
  }

  /** check_format_and_clean: strip the first convention the reply matches. */
  function CheckFormatAndClean(s: string): string {
    CleanFrom(s, 0)
  }

  /**
   * The result is the sentinel when no convention matches; otherwise it is
   * exactly what lies between the opening and the closing text of the FIRST
   * convention that matches.
   */
  lemma CleanMeaning(s: string)
    ensures FirstFence(s).None? ==> CheckFormatAndClean(s) == TRY_AGAIN
    ensures FirstFence(s).Some? ==>
      var f := FENCES[FirstFence(s).value];
      s == f.open + CheckFormatAndClean(s) + f.close
  {
    FencesDoNotOverlap(s);
    assert CleanFrom(s, 0) == if Matches(s, FENCES[0]) then StripAround(s, 8, 3) else CleanFrom(s, 1);
    assert CleanFrom(s, 1) == if Matches(s, FENCES[1]) then StripAround(s, 8, 4) else CleanFrom(s, 2);
    assert CleanFrom(s, 2) == if Matches(s, FENCES[2]) then StripAround(s, 7, 3) else CleanFrom(s, 3);
    assert CleanFrom(s, 3) == if Matches(s, FENCES[3]) then StripAround(s, 9, 3) else CleanFrom(s, 4);
  }

  /** A reply is usable when normalising it does not give the sentinel. */
  predicate Usable(reply: string) {
    CheckFormatAndClean(reply) != TRY_AGAIN
  }

  /** A reply that starts with neither a backtick nor a space (prose, or nothing) is never usable. */
  lemma UnfencedUnusable(s: string)
    requires s == [] || (s[0] != '`' && s[0] != ' ')
    ensures !Usable(s)
  {
    CleanMeaning(s);
    forall k | 0 <= k < |FENCES|
      ensures !StartsWith(s, FENCES[k].open)
    {
      assert FENCES[k].open[0] == '`' || FENCES[k].open[0] == ' ';
    }
  }

  /** Wrapping any payload in the first convention and normalising gives the payload back. */
  lemma FenceOneRoundTrip(p: string)
    ensures CheckFormatAndClean("```rust\n" + p + "```") == p
  {
    var s := "```rust\n" + p + "```";
    assert StartsWith(s, "```rust\n") && EndsWith(s, "```");
    assert s[8..|s| - 3] == p;
  }

  /** The second convention: a trailing newline after the closing fence. */
  lemma FenceTwoRoundTrip(p: string)
    ensures CheckFormatAndClean("```rust\n" + p + "```\n") == p
  {
    var s := "```rust\n" + p + "```\n";
    assert StartsWith(s, "```rust\n") && EndsWith(s, "```\n");
    assert s[|s| - 1] == '\n';
    assert !EndsWith(s, "```");
    assert s[8..|s| - 4] == p;
  }

  /**
   * The third convention (no newline after the language tag) gives the payload
   * back exactly when the payload does not itself start with a newline: such a
   * reply also matches the first convention, which is tried earlier and strips
   * that newline.
   */
  lemma FenceThreeRoundTrip(p: string)
    ensures CheckFormatAndClean("```rust" + p + "```") == p <==> !StartsWith(p, "\n")
    ensures StartsWith(p, "\n") ==> CheckFormatAndClean("```rust" + p + "```") == p[1..]
  {
    var s := "```rust" + p + "```";
    assert EndsWith(s, "```");
    assert s[|s| - 1] == '`';
    assert !EndsWith(s, "```\n");
    if StartsWith(p, "\n") {
      assert s == "```rust\n" + p[1..] + "```";
      FenceOneRoundTrip(p[1..]);
      assert p[1..] != p by { assert |p[1..]| < |p|; }
    } else {
      assert !StartsWith(s, "```rust\n") by {
        if |p| > 0 { assert s[7] == p[0]; } else { assert s[7] == '`'; }
      }
      assert StartsWith(s, "```rust");
      assert s[7..|s| - 3] == p;
    }
  }

  /** The fourth convention: a space before the opening fence. */
  lemma FenceFourRoundTrip(p: string)
    ensures CheckFormatAndClean(" ```rust\n" + p + "```") == p
  {
    var s := " ```rust\n" + p + "```";
    assert s[0] == ' ';
    assert !StartsWith(s, "```rust\n") && !StartsWith(s, "```rust");
    assert StartsWith(s, " ```rust\n") && EndsWith(s, "```");
    assert s[9..|s| - 3] == p;
  }
}
