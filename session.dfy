/**
 * The collaborators of the translate-verify-repair loop and the single
 * exchanges with the oracle built on them (llm_request,
 * transpile_with_chatgpt_web, fix_compilation_errors, fix_pub_no_mangle).
 *
 * The oracle is a scripted sequence of replies served in order; a request made
 * after the script is exhausted raises, as the network call does when the
 * service is unavailable. The compile check is a pair of functions saying
 * which crates build and what the build prints on failure.
 */
module Session {
  import opened Wrappers
  import opened Normalizer

  /** The three kinds of request the script sends, by their payload. */
  datatype Request =
    | Translate(inputC: string)
    | FixErrors(diagnostic: string)
    | Annotate(inputRust: string)

  /**
   * One turn of a conversation: the `{"role": ..., "content": ...}` dictionaries.
   * A user turn is kept as the request whose text it carries (RequestText), an
   * assistant turn as the raw reply.
   */
  datatype Turn =
    | Ask(request: Request)
    | Reply(content: string)

  /** A normalised reply and the conversation the caller keeps afterwards. */
  datatype Candidate = Candidate(code: string, messages: seq<Turn>)

  /** An answered request: the reply text and the two turns llm_request returns. */
  datatype Exchange = Exchange(reply: string, turns: seq<Turn>)

  const TRANSLATE_INSTRUCTIONS: string :=
    "Behave like you are an expert of C and Rust. Behave like you are a translator from C language to Rust language. Can you translate C code given above into Rust code? \n"
    + "Do not explain the code to me! Only return Rust code correspoding to the given C code. "
    + "Follow these intructions strictly in translation: \n"
    + "(1) Do not add any extra error handling, \n"
    + "(2) Do not merge functions, \n"
    + "(3) Do not change variable names, \n"
    + "(4) use no_mangle for each function, \n"
    + "(5) make each function public, \n"
    + "(6) translate the standard C library function calls by placing a decoy function call (leave the decoy function body empty if possible) with the same name, and \n"
    + "(7) Only return a Rust code and nothing else!\n"

  const FIX_COMPILATION_INSTRUCTIONS: string :=
    "When attempted to compile the recently generated rust code, I obtained the compilation errors given above. Fix those errors and only return the modified Rust code. Do not explain the code or changes to me!"

  const PUB_NO_MANGLE_INSTRUCTIONS: string :=
    "Make a pass on the code given above and add #[no_mangle] and pub to each functions if they are missing. Do not change anything else. Only return a Rust code and nothing else!\n"

  /** The message of the exception a request raises when the oracle cannot answer. */
  const UNAVAILABLE: string := "oracle unavailable"

  /** Every request text is the payload between newlines, followed by the instructions. */
  function Prompt(payload: string, instructions: string): string {
    "\n" + payload + "\n" + instructions
  }

  /** The text sent for a request. */
  function RequestText(req: Request): string {
    match req
    case Translate(inputC) => Prompt(inputC, TRANSLATE_INSTRUCTIONS)
    case FixErrors(diagnostic) => Prompt(diagnostic, FIX_COMPILATION_INSTRUCTIONS)
    case Annotate(inputRust) => Prompt(inputRust, PUB_NO_MANGLE_INSTRUCTIONS)
  }

  /** The generation service, replaying a fixed script of replies. */
  class Oracle {
    /** Every reply the service will give, in order. */
    const replies: seq<string>
    /** How many replies have been served. */
    var next: nat
    /** The conversation sent with each request so far, in order. */
    var sent: seq<seq<Turn>>

    ghost predicate Valid()
      reads this
    {
      next <= |replies|
    }

    constructor (replies: seq<string>)
      ensures Valid() && this.replies == replies && next == 0 && sent == []
    {
      this.replies := replies;
      next := 0;
      sent := [];
    }

    /** ollama.chat: send a whole conversation, receive the next reply or raise. */
    method Chat(messages: seq<Turn>) returns (r: Result<string, string>)
      requires Valid()
      modifies this
      ensures Valid()
      ensures sent == old(sent) + [messages]
      ensures old(next) < |replies| ==> next == old(next) + 1 && r == Success(replies[old(next)])
      ensures old(next) == |replies| ==> next == old(next) && r == Failure(UNAVAILABLE)
    {
      sent := sent + [messages];
      if next < |replies| {
        r := Success(replies[next]);
        next := next + 1;
      } else {
        r := Failure(UNAVAILABLE);
      }
    }
  }

  /** The Cargo build behind is_compilable; the crate scaffolding is not modelled. */
  class Toolchain {
    /** Whether a crate whose lib.rs holds this code builds a shared library. */
    const accepts: string -> bool
    /** What the build prints on standard error when it does not. */
    const diagnostic: string -> string
    /** Every candidate handed to the check so far, in order. */
    var checked: seq<string>

    constructor (accepts: string -> bool, diagnostic: string -> string)
      ensures this.accepts == accepts && this.diagnostic == diagnostic && checked == []
    {
      this.accepts := accepts;
      this.diagnostic := diagnostic;
      checked := [];
    }

    /** is_compilable: (True, None) on success, (False, stderr) otherwise. */
    method IsCompilable(code: string) returns (ok: bool, err: Option<string>)
      modifies this
      ensures checked == old(checked) + [code]
      ensures ok == accepts(code)
      ensures ok ==> err == None
      ensures !ok ==> err == Some(diagnostic(code))
    {
      checked := checked + [code];
      ok := accepts(code);
      err := if ok then None else Some(diagnostic(code));
    }
  }

  /**
   * llm_request: the request is sent after the given history, and only the new
   * request turn and the reply are returned, not the whole conversation.
   */
  method LlmRequest(oracle: Oracle, req: Request, messages: seq<Turn>) returns (r: Result<Exchange, string>)
    requires oracle.Valid()
    modifies oracle
    ensures oracle.Valid()
    ensures oracle.sent == old(oracle.sent) + [messages + [Ask(req)]]
    ensures r.Success? <==> old(oracle.next) < |oracle.replies|
    ensures r.Success? ==>
      && oracle.next == old(oracle.next) + 1
      && r.value.reply == oracle.replies[old(oracle.next)]
      && r.value.turns == [Ask(req), Reply(r.value.reply)]
    ensures r.Failure? ==> oracle.next == old(oracle.next) && r.error == UNAVAILABLE
  {
    var current := [Ask(req)];
    var response := oracle.Chat(messages + current);
    match response
    case Success(reply) =>
      r := Success(Exchange(reply, current + [Reply(reply)]));
    case Failure(e) =>
      r := Failure(e);
  }

  /** transpile_with_chatgpt_web: one translation request, with an empty history. */
  method TranslateOnce(oracle: Oracle, inputC: string) returns (r: Result<Candidate, string>)
    requires oracle.Valid()
    modifies oracle
    ensures oracle.Valid()
    ensures oracle.sent == old(oracle.sent) + [[Ask(Translate(inputC))]]
    ensures r.Success? <==> old(oracle.next) < |oracle.replies|
    ensures r.Success? ==>
      var reply := oracle.replies[old(oracle.next)];
      && oracle.next == old(oracle.next) + 1
      && r.value.code == CheckFormatAndClean(reply)
      && r.value.messages == [Ask(Translate(inputC)), Reply(reply)]
    ensures r.Failure? ==> oracle.next == old(oracle.next) && r.error == UNAVAILABLE
  {
    var none: seq<Turn> := [];
    assert none + [Ask(Translate(inputC))] == [Ask(Translate(inputC))];
    var response := LlmRequest(oracle, Translate(inputC), none);
    match response
    case Success(ex) =>
      r := Success(Candidate(CheckFormatAndClean(ex.reply), ex.turns));
    case Failure(e) =>
      r := Failure(e);
  }

  /**
   * fix_compilation_errors: the diagnostic is sent after the running
   * conversation; a usable reply extends it by the request and the reply, a
   * sentinel leaves it as it was.
   */
  method FixCompilationErrors(oracle: Oracle, err: string, messages: seq<Turn>) returns (r: Result<Candidate, string>)
    requires oracle.Valid()
    modifies oracle
    ensures oracle.Valid()
    ensures oracle.sent == old(oracle.sent) + [messages + [Ask(FixErrors(err))]]
    ensures r.Success? <==> old(oracle.next) < |oracle.replies|
    ensures r.Success? ==>
      var reply := oracle.replies[old(oracle.next)];
      && oracle.next == old(oracle.next) + 1
      && r.value.code == CheckFormatAndClean(reply)
      && r.value.messages ==
           if Usable(reply) then messages + [Ask(FixErrors(err)), Reply(reply)]
           else messages
    ensures r.Failure? ==> oracle.next == old(oracle.next) && r.error == UNAVAILABLE
  {
    var response := LlmRequest(oracle, FixErrors(err), messages);
    match response
    case Success(ex) =>
      var code := CheckFormatAndClean(ex.reply);
      if code != TRY_AGAIN {
        r := Success(Candidate(code, messages + ex.turns));
      } else {
        r := Success(Candidate(code, messages));
      }
    case Failure(e) =>
      r := Failure(e);
  }

  /** fix_pub_no_mangle: the annotation request always starts a fresh conversation. */
  method FixPubNoMangle(oracle: Oracle, inputRust: string) returns (r: Result<Candidate, string>)
    requires oracle.Valid()
    modifies oracle
    ensures oracle.Valid()
    ensures oracle.sent == old(oracle.sent) + [[Ask(Annotate(inputRust))]]
    ensures r.Success? <==> old(oracle.next) < |oracle.replies|
    ensures r.Success? ==>
      var reply := oracle.replies[old(oracle.next)];
      && oracle.next == old(oracle.next) + 1
      && r.value.code == CheckFormatAndClean(reply)
      && r.value.messages ==
           if Usable(reply) then [Ask(Annotate(inputRust)), Reply(reply)] else []
    ensures r.Failure? ==> oracle.next == old(oracle.next) && r.error == UNAVAILABLE
  {
    var messages: seq<Turn> := [];
    assert messages + [Ask(Annotate(inputRust))] == [Ask(Annotate(inputRust))];
    var response := LlmRequest(oracle, Annotate(inputRust), messages);
    match response
    case Success(ex) =>
      var code := CheckFormatAndClean(ex.reply);
      if code != TRY_AGAIN {
        r := Success(Candidate(code, messages + ex.turns));
      } else {
        r := Success(Candidate(code, messages));
      }
    case Failure(e) =>
      r := Failure(e);
  }
}
