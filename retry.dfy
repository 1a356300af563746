/**
 * The three bounded retry loops of the transpilation script: translation
 * (transpilation), compile repair (check_and_fix_compilation) and the final
 * annotation pass (check_pub_no_mangle). An exception raised by a request ends
 * the loop at once and reaches the caller as a Failure.
 */
module Retry {
  import opened Wrappers
  import opened Normalizer
  import opened Session
  import Text

  /** Attempts per request before a loop gives up on sentinel replies. */
  const MAX_TRIES: nat := 5
  /** The repair budget: no new compile round starts once this many fixes were requested. */
  const MAX_FIXES: nat := 20

  /** What check_and_fix_compilation returns, plus the conversation it ends with. */
  datatype Repair = Repair(code: string, fixCount: nat, compiled: bool, messages: seq<Turn>)

  /** What check_pub_no_mangle returns. */
  datatype Annotation = Annotation(code: string, count: nat)

  /** An annotation reply whose payload the compile check accepts. */
  predicate Accepted(tc: Toolchain, reply: string) {
    Usable(reply) && tc.accepts(CheckFormatAndClean(reply))
  }

  /**
   * transpilation: up to five translation requests, each with an empty history.
   * The result is the payload of the first usable reply, or "" when five
   * sentinels came back; it is never the sentinel itself.
   */
  method Transpilation(oracle: Oracle, inputC: string) returns (r: Result<Candidate, string>)
    requires oracle.Valid()
    modifies oracle
    ensures oracle.Valid()
    ensures old(oracle.next) <= oracle.next
    ensures old(oracle.sent) <= oracle.sent
    ensures |old(oracle.sent)| < |oracle.sent| <= |old(oracle.sent)| + MAX_TRIES
    ensures forall i :: |old(oracle.sent)| <= i < |oracle.sent| ==>
      oracle.sent[i] == [Ask(Translate(inputC))]
    ensures forall i :: old(oracle.next) <= i < oracle.next - 1 ==> !Usable(oracle.replies[i])
    ensures r.Success? ==> oracle.next - old(oracle.next) == |oracle.sent| - |old(oracle.sent)|
    ensures r.Success? ==>
      var last := oracle.replies[oracle.next - 1];
      && r.value.messages == [Ask(Translate(inputC)), Reply(last)]
      && if Usable(last) then r.value.code == CheckFormatAndClean(last)
         else oracle.next - old(oracle.next) == MAX_TRIES && r.value.code == ""
    ensures r.Success? ==> r.value.code != TRY_AGAIN
    ensures r.Failure? ==>
      && oracle.next == |oracle.replies|
      && oracle.next - old(oracle.next) < MAX_TRIES
      && r.error == UNAVAILABLE
      && forall i :: old(oracle.next) <= i < oracle.next ==> !Usable(oracle.replies[i])
  {
    var tryCount := 0;
    var output := "";
    var messages: seq<Turn> := [];
    while tryCount < MAX_TRIES
      invariant oracle.Valid()
      invariant 0 <= tryCount <= MAX_TRIES
      invariant oracle.next == old(oracle.next) + tryCount
      invariant oracle.sent == old(oracle.sent) + Text.Repeat([Ask(Translate(inputC))], tryCount)
      invariant forall i :: old(oracle.next) <= i < oracle.next ==> !Usable(oracle.replies[i])
      invariant tryCount > 0 ==>
        output == "" && messages == [Ask(Translate(inputC)), Reply(oracle.replies[oracle.next - 1])]
    {
      var c := TranslateOnce(oracle, inputC);
      Text.RepeatSnoc([Ask(Translate(inputC))], tryCount);
      if c.Failure? {
        return Failure(c.error);
      }
      output, messages := c.value.code, c.value.messages;
      if output != TRY_AGAIN {
        assert Usable(oracle.replies[oracle.next - 1]);
        return Success(Candidate(output, messages));
      }
      output := "";
      tryCount := tryCount + 1;
    }
    assert oracle.next - 1 == old(oracle.next) + (MAX_TRIES - 1);
    return Success(Candidate(output, messages));
  }

  /**
   * One round of compile repair in check_and_fix_compilation: up to five fix
   * requests for the same diagnostic, stopping at the first usable reply. A
   * sentinel reply leaves the conversation as it was, so every request of the
   * round is sent after the same history.
   */
  method RepairRound(oracle: Oracle, err: string, messages: seq<Turn>)
    returns (r: Result<Candidate, string>, requests: nat)
    requires oracle.Valid()
    modifies oracle
    ensures oracle.Valid()
    ensures old(oracle.next) + requests == oracle.next
    ensures old(oracle.sent) <= oracle.sent
    ensures |old(oracle.sent)| < |oracle.sent| <= |old(oracle.sent)| + MAX_TRIES
    ensures forall i :: |old(oracle.sent)| <= i < |oracle.sent| ==>
      oracle.sent[i] == messages + [Ask(FixErrors(err))]
    ensures forall i :: old(oracle.next) <= i < oracle.next - 1 ==> !Usable(oracle.replies[i])
    ensures r.Success? ==> oracle.next - old(oracle.next) == |oracle.sent| - |old(oracle.sent)|
    ensures r.Success? ==>
      var last := oracle.replies[oracle.next - 1];
      if Usable(last) then
        && r.value.code == CheckFormatAndClean(last)
        && r.value.messages == messages + [Ask(FixErrors(err)), Reply(last)]
      else
        && oracle.next - old(oracle.next) == MAX_TRIES
        && r.value.code == ""
        && r.value.messages == messages
    ensures r.Failure? ==> oracle.next == |oracle.replies| && r.error == UNAVAILABLE
  {
    var tryCount := 0;
    var output := "";
    while tryCount < MAX_TRIES
      invariant oracle.Valid()
      invariant 0 <= tryCount <= MAX_TRIES
      invariant oracle.next == old(oracle.next) + tryCount
      invariant oracle.sent == old(oracle.sent) + Text.Repeat(messages + [Ask(FixErrors(err))], tryCount)
      invariant forall i :: old(oracle.next) <= i < oracle.next ==> !Usable(oracle.replies[i])
      invariant output == ""
    {
      var c := FixCompilationErrors(oracle, err, messages);
      Text.RepeatSnoc(messages + [Ask(FixErrors(err))], tryCount);
      if c.Failure? {
        return Failure(c.error), tryCount;
      }
      output := c.value.code;
      if output != TRY_AGAIN {
        return Success(c.value), tryCount + 1;
      }
      output := "";
      tryCount := tryCount + 1;
    }
    return Success(Candidate(output, messages)), tryCount;
  }

  /**
   * check_and_fix_compilation: compile, and on failure ask for up to five fixes
   * of the diagnostic within the running conversation, until a check passes or
   * twenty fixes were requested. A round that starts below the budget can still
   * spend five requests, so the count reaches at most 24; the compile checks
   * never outnumber the fixes before them by more than the first one.
   */
  method CheckAndFixCompilation(oracle: Oracle, tc: Toolchain, code: string, messages: seq<Turn>)
    returns (r: Result<Repair, string>)
    requires oracle.Valid()
    modifies oracle, tc
    ensures oracle.Valid()
    ensures old(oracle.next) <= oracle.next
    ensures old(oracle.sent) <= oracle.sent
    ensures |old(tc.checked)| < |tc.checked| && tc.checked[|old(tc.checked)|] == code
    ensures forall i :: |old(oracle.sent)| <= i < |oracle.sent| ==> messages <= oracle.sent[i]
    ensures forall i :: |old(tc.checked)| <= i < |tc.checked| - 1 ==> !tc.accepts(tc.checked[i])
    ensures r.Success? ==>
      && r.value.fixCount == oracle.next - old(oracle.next) == |oracle.sent| - |old(oracle.sent)|
      && r.value.fixCount <= MAX_FIXES + MAX_TRIES - 1
      && |tc.checked| - |old(tc.checked)| <= MAX_FIXES
      && messages <= r.value.messages
    ensures r.Success? && r.value.compiled ==>
      && r.value.fixCount < MAX_FIXES
      && r.value.code == tc.checked[|tc.checked| - 1]
      && tc.accepts(r.value.code)
    ensures r.Success? && !r.value.compiled ==>
      && MAX_FIXES <= r.value.fixCount
      && !tc.accepts(tc.checked[|tc.checked| - 1])
    ensures r.Success? && !r.value.compiled ==>
      var last := oracle.replies[oracle.next - 1];
      r.value.code == if Usable(last) then CheckFormatAndClean(last) else ""
    ensures tc.accepts(code) ==>
      && r == Success(Repair(code, 0, true, messages))
      && oracle.next == old(oracle.next)
      && |oracle.sent| == |old(oracle.sent)|
    ensures r.Failure? ==> oracle.next == |oracle.replies| && r.error == UNAVAILABLE
  {
    var fixCount := 0;
    var output := code;
    var msgs := messages;
    var res := false;
    ghost var checks := 0;
    while fixCount < MAX_FIXES
      invariant oracle.Valid()
      invariant old(oracle.sent) <= oracle.sent
      invariant fixCount == oracle.next - old(oracle.next) == |oracle.sent| - |old(oracle.sent)|
      invariant fixCount <= MAX_FIXES + MAX_TRIES - 1
      invariant |tc.checked| == |old(tc.checked)| + checks
      invariant checks <= fixCount && checks <= MAX_FIXES
      invariant checks == 0 ==> output == code && fixCount == 0 && msgs == messages
      invariant checks > 0 ==> tc.checked[|old(tc.checked)|] == code
      invariant !res
      invariant forall i :: |old(tc.checked)| <= i < |tc.checked| ==> !tc.accepts(tc.checked[i])
      invariant messages <= msgs
      invariant forall i :: |old(oracle.sent)| <= i < |oracle.sent| ==> messages <= oracle.sent[i]
      invariant fixCount > 0 ==>
        var last := oracle.replies[oracle.next - 1];
        output == if Usable(last) then CheckFormatAndClean(last) else ""
    {
      var ok, err := tc.IsCompilable(output);
      checks := checks + 1;
      res := ok;
      if ok {
        break;
      }
      var c, requests := RepairRound(oracle, err.value, msgs);
      if c.Failure? {
        return Failure(c.error);
      }
      fixCount := fixCount + requests;
      output, msgs := c.value.code, c.value.messages;
    }
    return Success(Repair(output, fixCount, res, msgs));
  }

  /**
   * One attempt of check_pub_no_mangle: an annotation request in a fresh
   * conversation, and a compile check of the payload when the reply is usable.
   */
  method AnnotateAttempt(oracle: Oracle, tc: Toolchain, code: string) returns (r: Result<string, string>, ok: bool)
    requires oracle.Valid()
    modifies oracle, tc
    ensures oracle.Valid()
    ensures oracle.sent == old(oracle.sent) + [[Ask(Annotate(code))]]
    ensures r.Success? <==> old(oracle.next) < |oracle.replies|
    ensures r.Success? ==>
      var reply := oracle.replies[old(oracle.next)];
      && oracle.next == old(oracle.next) + 1
      && r.value == CheckFormatAndClean(reply)
      && ok == Accepted(tc, reply)
      && tc.checked == old(tc.checked) + if Usable(reply) then [r.value] else []
    ensures r.Failure? ==>
      oracle.next == old(oracle.next) && tc.checked == old(tc.checked) && r.error == UNAVAILABLE
  {
    ok := false;
    var c := FixPubNoMangle(oracle, code);
    if c.Failure? {
      return Failure(c.error), false;
    }
    if c.value.code != TRY_AGAIN {
      var err;
      ok, err := tc.IsCompilable(c.value.code);
    }
    r := Success(c.value.code);
  }

  /**
   * check_pub_no_mangle: up to five annotation requests on the same input, each
   * in a fresh conversation, stopping at the first usable reply whose payload
   * compiles. The input comes back unchanged when none does (count five), and
   * also when the accepted payload is empty (count one less than the requests
   * made); otherwise the accepted payload comes back with the number of
   * requests made.
   */
  method CheckPubNoMangle(oracle: Oracle, tc: Toolchain, code: string) returns (r: Result<Annotation, string>)
    requires oracle.Valid()
    modifies oracle, tc
    ensures oracle.Valid()
    ensures old(oracle.next) <= oracle.next
    ensures old(oracle.sent) <= oracle.sent
    ensures |old(oracle.sent)| < |oracle.sent| <= |old(oracle.sent)| + MAX_TRIES
    ensures forall i :: |old(oracle.sent)| <= i < |oracle.sent| ==>
      oracle.sent[i] == [Ask(Annotate(code))]
    ensures |old(tc.checked)| <= |tc.checked| <= |old(tc.checked)| + (oracle.next - old(oracle.next))
    ensures forall i :: old(oracle.next) <= i < oracle.next - 1 ==> !Accepted(tc, oracle.replies[i])
    ensures r.Success? ==> oracle.next - old(oracle.next) == |oracle.sent| - |old(oracle.sent)|
    ensures r.Success? ==>
      var served := oracle.next - old(oracle.next);
      var last := oracle.replies[oracle.next - 1];
      var candidate := CheckFormatAndClean(last);
      if Accepted(tc, last) then
        && |old(tc.checked)| < |tc.checked|
        && tc.checked[|tc.checked| - 1] == candidate
        && r.value == if candidate == "" then Annotation(code, served - 1) else Annotation(candidate, served)
      else
        served == MAX_TRIES && r.value == Annotation(code, MAX_TRIES)
    ensures r.Success? ==> r.value.code == code || (r.value.code != "" && tc.accepts(r.value.code))
    ensures r.Failure? ==> oracle.next == |oracle.replies| && r.error == UNAVAILABLE
  {
    var tryCount := 0;
    var prev := code;
    var output := code;
    while tryCount < MAX_TRIES
      invariant oracle.Valid()
      invariant 0 <= tryCount <= MAX_TRIES
      invariant oracle.next == old(oracle.next) + tryCount
      invariant oracle.sent == old(oracle.sent) + Text.Repeat([Ask(Annotate(code))], tryCount)
      invariant |old(tc.checked)| <= |tc.checked| <= |old(tc.checked)| + tryCount
      invariant forall i :: old(oracle.next) <= i < oracle.next ==> !Accepted(tc, oracle.replies[i])
      invariant tryCount > 0 ==> output == ""
    {
      ghost var checked := tc.checked;
      var c, ok := AnnotateAttempt(oracle, tc, prev);
      Text.RepeatSnoc([Ask(Annotate(code))], tryCount);
      if c.Failure? {
        return Failure(c.error);
      }
      output := c.value;
      if ok {
        assert tc.checked == checked + [output];
        break;
      }
      output := "";
      tryCount := tryCount + 1;
    }
    if output == TRY_AGAIN || output == "" {
      r := Success(Annotation(prev, tryCount));
    } else {
      r := Success(Annotation(output, tryCount + 1));
    }
  }
}
