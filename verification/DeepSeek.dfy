/**
 * One transaction parse by the primary provider (src/ai/deepseekProvider.ts): up to two chat completions,
 * each fetched under the retry driver, and the answer checked before anyone sees it.
 */
module DeepSeek {
  import opened Prelude
  import opened CanonicalJson
  import opened Retry

  datatype Message = System(text: string) | User(text: string) | Assistant(text: string)

  /** A 2xx reply of the service; every part of it may be missing. */
  datatype Response = Response(content: Option<string>, promptTokens: Option<nat>, completionTokens: Option<nat>)

  datatype Error =
    | Http(status: int)
    | Abort        // our own timeout fired
    | Transport    // the connection failed
    | OtherError

  datatype Usage = Usage(prompt: nat, completion: nat)

  datatype Answer = Answer(data: Json, usage: Usage)

  datatype Failure = Vendor(error: Error) | NothingTried | NotValid(message: string)

  /** The service behind each request, and the two checks its content must pass. */
  datatype Provider = Provider(
    api: (seq<Message>, real) -> World<Response, Error>,
    parse: string -> Result<Json, string>,
    schema: Json -> Result<Json, string>,
    budget: Budget)

  datatype Parse = Parse(calls: seq<Run<Response, Error>>, outcome: Result<Answer, Failure>, finishedAt: real)

  predicate IsRetryable(e: Error) {
    match e
    case Http(status) => status == 429 || 500 <= status <= 599
    case Abort => true
    case Transport => true
    case OtherError => false
  }

  /** The service's failures are always error objects. */
  const RULES := Rules(IsRetryable, (e: Error) => false)

  function Or<T>(o: Option<T>, otherwise: T): T { if o.Some? then o.value else otherwise }

  function ContentOf(r: Response): string { Or(r.content, "") }

  function UsageOf(r: Response): Usage { Usage(Or(r.promptTokens, 0), Or(r.completionTokens, 0)) }

  function Plus(a: Usage, b: Usage): Usage { Usage(a.prompt + b.prompt, a.completion + b.completion) }

  function Validate(p: Provider, content: string): Result<Json, string> {
    match p.parse(content)
    case Err(message) => Err("invalid JSON: " + message)
    case Ok(json) => p.schema(json)
  }

  function Fetch(p: Provider, messages: seq<Message>, now: real): Run<Response, Error> {
    WholeRun(p.api(messages, now), p.budget, RULES, now)
  }

  function FailureOf(ending: Ending<Response, Error>): Failure
    requires !ending.Returned?
  {
    if ending.Threw? then Vendor(ending.error) else NothingTried
  }

  /** The request that shows the model its own invalid reply and asks again. */
  function AskAgain(messages: seq<Message>, content: string, complaint: string): seq<Message> {
    messages + [Assistant(content),
      User("That reply did not match the required JSON shape (" + complaint +
        "). Reply again with ONLY a corrected JSON object.")]
  }

  /** The content of a completion, empty when it has none. */
  predicate Says(ending: Ending<Response, Error>, content: string) {
    ending.Returned? && content == if ending.value.content == None then "" else ending.value.content.value
  }

  /** Content that is JSON and conforms to the schema, which makes `data` of it. */
  predicate Conforms(p: Provider, content: string, data: Json) {
    p.parse(content).Ok? && p.schema(p.parse(content).value) == Ok(data)
  }

  /** Content that is no JSON, or JSON that does not conform to the schema. */
  predicate Fails(p: Provider, content: string) {
    p.parse(content).Ok? ==> p.schema(p.parse(content).value).Err?
  }

  /** A call that brought a completion whose content fails. */
  predicate FailsChecks(p: Provider, ending: Ending<Response, Error>) {
    ending.Returned? && Fails(p, if ending.value.content == None then "" else ending.value.content.value)
  }

  /** The messages of a second request: those of the first, the reply to it, and what was wrong with that. */
  predicate ShowsTheReply(p: Provider, messages: seq<Message>, content: string, again: seq<Message>) {
    && |again| == |messages| + 2 && again[..|messages|] == messages && again[|messages|] == Assistant(content)
    && again[|messages| + 1].User?
    && var complaint := if p.parse(content).Err? then "invalid JSON: " + p.parse(content).error
                        else if p.schema(p.parse(content).value).Err? then p.schema(p.parse(content).value).error
                        else "";
       var before := "That reply did not match the required JSON shape (";
       before + complaint <= again[|messages| + 1].text
  }

  /** What comes of a parse whose last call is `last`. */
  ghost predicate Settles(p: Provider, last: Run<Response, Error>, calls: nat, outcome: Result<Answer, Failure>) {
    && (outcome.Ok? <==> last.ending.Returned? && !FailsChecks(p, last.ending))
    && (outcome.Ok? ==> exists content :: Says(last.ending, content) && Conforms(p, content, outcome.value.data))
    && (outcome.Err? && outcome.error.NotValid? <==> calls == 2 && FailsChecks(p, last.ending))
    && (forall e :: outcome == Err(Vendor(e)) <==> last.ending == Threw(e))
  }

  /**
   * Data is returned only if it came from content that is JSON and conforms to the schema; a second completion is asked
   * for exactly when the first came back and fails; the parse fails as invalid exactly when the second fails too, and
   * passes on any other failure.
   */
  function RunChatCompletionAndValidate(p: Provider, messages: seq<Message>, now: real): (parse: Parse)
    ensures 1 <= |parse.calls| <= 2
    ensures |parse.calls| == 2 <==> FailsChecks(p, parse.calls[0].ending)
    ensures Settles(p, parse.calls[|parse.calls| - 1], |parse.calls|, parse.outcome)
    ensures parse.finishedAt == parse.calls[|parse.calls| - 1].finishedAt
  {
    var first := Fetch(p, messages, now);
    CheckIsOfContent(p, first.ending);
    if !first.ending.Returned? then Parse([first], Err(FailureOf(first.ending)), first.finishedAt)
    else
      var reply := first.ending.value;
      var checked := Validate(p, ContentOf(reply));
      if checked.Ok? then Parse([first], Ok(Answer(checked.value, UsageOf(reply))), first.finishedAt)
      else Reformat(p, AskAgain(messages, ContentOf(reply), checked.error), first)
  }

  lemma CheckIsOfContent(p: Provider, ending: Ending<Response, Error>)
    ensures ending.Returned? ==> Says(ending, ContentOf(ending.value))
    ensures FailsChecks(p, ending) <==> ending.Returned? && Validate(p, ContentOf(ending.value)).Err?
    ensures ending.Returned? ==>
      forall data :: Validate(p, ContentOf(ending.value)) == Ok(data) <==> Conforms(p, ContentOf(ending.value), data)
  {
  }

  function Reformat(p: Provider, messages: seq<Message>, first: Run<Response, Error>): (parse: Parse)
    requires first.ending.Returned?
    ensures |parse.calls| == 2 && parse.calls[0] == first && Settles(p, parse.calls[1], 2, parse.outcome)
    ensures parse.calls[1] == Fetch(p, messages, first.finishedAt) && parse.finishedAt == parse.calls[1].finishedAt
  {
    var second := Fetch(p, messages, first.finishedAt);
    CheckIsOfContent(p, second.ending);
    if !second.ending.Returned? then Parse([first, second], Err(FailureOf(second.ending)), second.finishedAt)
    else
      var checked := Validate(p, ContentOf(second.ending.value));
      var usage := Plus(UsageOf(first.ending.value), UsageOf(second.ending.value));
      var outcome := if checked.Ok? then Ok(Answer(checked.value, usage)) else Err(NotValid(checked.error));
      Parse([first, second], outcome, second.finishedAt)
  }

  /** The first request has the messages of the caller; the second, if there is one, shows the first reply too. */
  lemma SecondRequestShowsTheReply(p: Provider, messages: seq<Message>, now: real)
    ensures
      var calls := RunChatCompletionAndValidate(p, messages, now).calls;
      && calls[0] == WholeRun(p.api(messages, now), p.budget, RULES, now)
      && (|calls| == 2 ==>
            exists content, again ::
              && Says(calls[0].ending, content) && ShowsTheReply(p, messages, content, again)
              && calls[1] == WholeRun(p.api(again, calls[0].finishedAt), p.budget, RULES, calls[0].finishedAt))
  {
    var calls := RunChatCompletionAndValidate(p, messages, now).calls;
    if |calls| == 2 {
      CheckIsOfContent(p, calls[0].ending);
      var content := ContentOf(calls[0].ending.value);
      var again := AskAgain(messages, content, Validate(p, content).error);
      ComplaintIsShown(p, messages, content);
      assert calls[1] == Fetch(p, again, calls[0].finishedAt);
    }
  }

  lemma ComplaintIsShown(p: Provider, messages: seq<Message>, content: string)
    requires Fails(p, content) && Validate(p, content).Err?
    ensures ShowsTheReply(p, messages, content, AskAgain(messages, content, Validate(p, content).error))
  {
  }

  /** Every completion received in the attempts of one call. */
  function Completions(tries: seq<Try<Response, Error>>): seq<Response> {
    if tries == [] then []
    else (if tries[0].outcome.Ok? then [tries[0].outcome.value] else []) + Completions(tries[1..])
  }

  function TokensOf(replies: seq<Response>): Usage {
    if replies == [] then Usage(0, 0) else Plus(UsageOf(replies[0]), TokensOf(replies[1..]))
  }

  /** Tokens of every completion received in every attempt of a parse that made one or two calls. */
  function Billed(calls: seq<Run<Response, Error>>): Usage
    requires 1 <= |calls| <= 2
  {
    Plus(TokensOf(Completions(calls[0].tries)),
      if |calls| == 2 then TokensOf(Completions(calls[1].tries)) else Usage(0, 0))
  }

  function Reported(parse: Parse): Usage {
    if parse.outcome.Ok? then parse.outcome.value.usage else Usage(0, 0)
  }

  /** A call holds a completion exactly when it returned one, and then only that one. */
  lemma {:induction false} OneCompletionPerCall(
      tries: seq<Try<Response, Error>>, ending: Ending<Response, Error>, at: real)
    requires LastTryDecides(Run(tries, ending, at), RULES)
    ensures Completions(tries) == if ending.Returned? then [ending.value] else []
    decreases |tries|
  {
    if |tries| > 1 {
      var rest := tries[1..];
      assert rest[|rest| - 1] == tries[|tries| - 1];
      assert forall k :: 0 <= k < |rest| - 1 ==> rest[k] == tries[k + 1];
      OneCompletionPerCall(rest, ending, at);
    } else {
      assert tries[1..] == [];
    }
  }

  lemma BilledByOneCall(p: Provider, messages: seq<Message>, now: real)
    ensures
      var run := Fetch(p, messages, now);
      TokensOf(Completions(run.tries)) == if run.ending.Returned? then UsageOf(run.ending.value) else Usage(0, 0)
  {
    var run := Fetch(p, messages, now);
    TheLastAttemptSpeaks(p.api(messages, now), p.budget, RULES, now);
    if run.tries != [] {
      OneCompletionPerCall(run.tries, run.ending, run.finishedAt);
    }
  }

  predicate Used(ending: Ending<Response, Error>, u: Usage) {
    && ending.Returned?
    && u.prompt == (if ending.value.promptTokens == None then 0 else ending.value.promptTokens.value)
    && u.completion == (if ending.value.completionTokens == None then 0 else ending.value.completionTokens.value)
  }

  /** The usage handed on with an answer is the sum over the completions received, none left out. */
  lemma UsageIsTheSum(p: Provider, messages: seq<Message>, now: real)
    ensures
      var parse := RunChatCompletionAndValidate(p, messages, now);
      parse.outcome.Ok? ==>
        && parse.outcome.value.usage == Billed(parse.calls)
        && (exists u, v ::
              && Used(parse.calls[0].ending, u)
              && (if |parse.calls| == 1 then v == Usage(0, 0) else Used(parse.calls[1].ending, v))
              && parse.outcome.value.usage == Usage(u.prompt + v.prompt, u.completion + v.completion))
  {
    var first := Fetch(p, messages, now);
    BilledByOneCall(p, messages, now);
    if first.ending.Returned? {
      var content := ContentOf(first.ending.value);
      var checked := Validate(p, content);
      assert Used(first.ending, UsageOf(first.ending.value));
      if checked.Err? { UsageOfTwo(p, AskAgain(messages, content, checked.error), first); }
    }
  }

  lemma UsageOfTwo(p: Provider, messages: seq<Message>, first: Run<Response, Error>)
    requires first.ending.Returned? && TokensOf(Completions(first.tries)) == UsageOf(first.ending.value)
    ensures
      var parse := Reformat(p, messages, first);
      parse.outcome.Ok? ==>
        && parse.outcome.value.usage == Billed(parse.calls)
        && (exists u, v ::
              && Used(parse.calls[0].ending, u) && Used(parse.calls[1].ending, v)
              && parse.outcome.value.usage == Usage(u.prompt + v.prompt, u.completion + v.completion))
  {
    BilledByOneCall(p, messages, first.finishedAt);
    assert Used(first.ending, UsageOf(first.ending.value));
    var second := Fetch(p, messages, first.finishedAt);
    if second.ending.Returned? { assert Used(second.ending, UsageOf(second.ending.value)); }
  }

  predicate UsesTokens(reply: Response) { UsageOf(reply) != Usage(0, 0) }

  /** The second call, made when the first one's completion failed its checks. */
  function SecondCall(p: Provider, messages: seq<Message>, first: Run<Response, Error>): Run<Response, Error>
    requires FailsChecks(p, first.ending)
  {
    var content := ContentOf(first.ending.value);
    Fetch(p, AskAgain(messages, content, Validate(p, content).error), first.finishedAt)
  }

  /** Two calls whose completions failed the checks, or brought none the second time, and used tokens in vain. */
  predicate AnsweredInVain(p: Provider, first: Ending<Response, Error>, second: Ending<Response, Error>) {
    && FailsChecks(p, first)
    && (second.Returned? ==> FailsChecks(p, second))
    && (UsesTokens(first.value) || (second.Returned? && UsesTokens(second.value)))
  }

  lemma NothingReported(p: Provider, messages: seq<Message>, first: Run<Response, Error>)
    requires first.ending.Returned?
    ensures
      var parse := Reformat(p, messages, first);
      && parse.calls == [first, Fetch(p, messages, first.finishedAt)]
      && (parse.outcome.Err? ==> Reported(parse) == Usage(0, 0))
      && (parse.outcome.Ok? <==> parse.calls[1].ending.Returned? && !FailsChecks(p, parse.calls[1].ending))
  {
  }

  lemma LostInReformat(p: Provider, messages: seq<Message>, first: Run<Response, Error>)
    requires FailsChecks(p, first.ending) && TokensOf(Completions(first.tries)) == UsageOf(first.ending.value)
    ensures
      var parse := Reformat(p, messages, first);
      Reported(parse) != Billed(parse.calls) <==>
        AnsweredInVain(p, first.ending, Fetch(p, messages, first.finishedAt).ending)
  {
    NothingReported(p, messages, first);
    if Reformat(p, messages, first).outcome.Ok? {
      UsageOfTwo(p, messages, first);
    } else {
      BilledByOneCall(p, messages, first.finishedAt);
      BilledByTwo(first, Fetch(p, messages, first.finishedAt));
    }
  }

  lemma BilledByTwo(first: Run<Response, Error>, second: Run<Response, Error>)
    requires first.ending.Returned? && TokensOf(Completions(first.tries)) == UsageOf(first.ending.value)
    requires TokensOf(Completions(second.tries)) ==
      if second.ending.Returned? then UsageOf(second.ending.value) else Usage(0, 0)
    ensures Billed([first, second]) != Usage(0, 0) <==>
      UsesTokens(first.ending.value) || (second.ending.Returned? && UsesTokens(second.ending.value))
  {
    var a, b := TokensOf(Completions(first.tries)), TokensOf(Completions(second.tries));
    assert Billed([first, second]) == Plus(a, b);
    NoneOfBoth(a, b);
  }

  lemma NoneOfBoth(a: Usage, b: Usage)
    ensures Plus(a, b) == Usage(0, 0) <==> a == Usage(0, 0) && b == Usage(0, 0)
  {
    assert Plus(a, b).prompt == a.prompt + b.prompt && Plus(a, b).completion == a.completion + b.completion;
  }

  /**
   * Tokens go unreported exactly when the service answered the first call with a completion that fails the checks, and
   * the second with none or with another that fails them, and one of those completions used tokens: a failure carries
   * no usage, although the code's comments say that no billable completion goes untracked.
   */
  lemma UsageIsLostExactlyWhen(p: Provider, messages: seq<Message>, now: real)
    ensures
      var parse := RunChatCompletionAndValidate(p, messages, now);
      var first := Fetch(p, messages, now);
      Reported(parse) != Billed(parse.calls) <==>
        FailsChecks(p, first.ending) && AnsweredInVain(p, first.ending, SecondCall(p, messages, first).ending)
  {
    var first := Fetch(p, messages, now);
    BilledByOneCall(p, messages, now);
    if FailsChecks(p, first.ending) {
      var content := ContentOf(first.ending.value);
      LostInReformat(p, AskAgain(messages, content, Validate(p, content).error), first);
    }
  }

  /** A service that keeps giving one invalid reply is billed for it twice, and neither time is reported. */
  lemma TwoInvalidRepliesGoUnreported(p: Provider, messages: seq<Message>, now: real, reply: Response)
    requires p.budget == DEFAULT_BUDGET && FailsChecks(p, Returned(reply))
    requires forall m, t :: p.api(m, t).outcome(0, 8000.0) == Ok(reply)
    ensures
      var parse := RunChatCompletionAndValidate(p, messages, now);
      Reported(parse) == Usage(0, 0) && Billed(parse.calls) == Plus(UsageOf(reply), UsageOf(reply))
  {
    var parse := RunChatCompletionAndValidate(p, messages, now);
    var again := AskAgain(messages, ContentOf(reply), Validate(p, ContentOf(reply)).error);
    var later := Fetch(p, messages, now).finishedAt;
    AnsweredAtOnce(p, messages, now, reply);
    AnsweredAtOnce(p, again, later, reply);
    BilledByOneCall(p, messages, now);
    BilledByOneCall(p, again, later);
  }

  lemma AnsweredAtOnce(p: Provider, messages: seq<Message>, now: real, reply: Response)
    requires p.budget == DEFAULT_BUDGET && p.api(messages, now).outcome(0, 8000.0) == Ok(reply)
    ensures Fetch(p, messages, now).ending == Returned(reply)
  {
    assert Attempted(p.api(messages, now), p.budget, 0, now, now).fuse == 8000.0;
  }

  /** The HTTP requests sent by a parse that made one or two calls. */
  function Requests(calls: seq<Run<Response, Error>>): nat
    requires 1 <= |calls| <= 2
  {
    |calls[0].tries| + if |calls| == 2 then |calls[1].tries| else 0
  }

  /** Two levels of retry: at most twice the attempts and twice the time of the budget. */
  lemma TwiceTheBounds(p: Provider, messages: seq<Message>, now: real, slack: real)
    requires slack >= 0.0 && p.budget.maxAttempts >= 0
    requires p.budget.baseDelayMs >= 0.0 && p.budget.maxDelayMs >= 0.0 && p.budget.totalMs > 0.0
    requires forall m, t :: Punctual(p.api(m, t), slack)
    ensures
      var parse := RunChatCompletionAndValidate(p, messages, now);
      && parse.finishedAt - now <= 2.0 * (p.budget.totalMs + slack)
      && Requests(parse.calls) <= 2 * p.budget.maxAttempts
  {
    var first := Fetch(p, messages, now);
    BoundsOfOneCall(p, messages, now, slack);
    if first.ending.Returned? {
      var content := ContentOf(first.ending.value);
      var checked := Validate(p, content);
      if checked.Err? { BoundsOfOneCall(p, AskAgain(messages, content, checked.error), first.finishedAt, slack); }
    }
  }

  lemma BoundsOfOneCall(p: Provider, messages: seq<Message>, now: real, slack: real)
    requires slack >= 0.0 && p.budget.maxAttempts >= 0
    requires p.budget.baseDelayMs >= 0.0 && p.budget.maxDelayMs >= 0.0 && p.budget.totalMs > 0.0
    requires Punctual(p.api(messages, now), slack)
    ensures
      var run := Fetch(p, messages, now);
      run.finishedAt - now <= p.budget.totalMs + slack && |run.tries| <= p.budget.maxAttempts
  {
    WithinTheBudget(p.api(messages, now), p.budget, RULES, now, slack);
    AttemptsAreCapped(p.api(messages, now), p.budget, RULES, 0, now, now, None);
  }

  /** Too many requests, a failure of the service itself, our own timeout, a lost connection: these may pass. */
  predicate MayPass(e: Error) { e == Abort || e == Transport || (e.Http? && (e.status == 429 || e.status / 100 == 5)) }

  /** A failure that is not worth repeating is the last request of the whole parse, and is what the caller gets. */
  lemma FinalFailuresAreFinal(p: Provider, messages: seq<Message>, now: real, c: nat, k: nat)
    requires
      var calls := RunChatCompletionAndValidate(p, messages, now).calls;
      c < |calls| && k < |calls[c].tries| && calls[c].tries[k].outcome.Err? && !MayPass(calls[c].tries[k].outcome.error)
    ensures
      var parse := RunChatCompletionAndValidate(p, messages, now);
      && c == |parse.calls| - 1 && k == |parse.calls[c].tries| - 1
      && parse.outcome == Err(Vendor(parse.calls[c].tries[k].outcome.error))
  {
    var parse := RunChatCompletionAndValidate(p, messages, now);
    TheLastAttemptSpeaks(p.api(messages, now), p.budget, RULES, now);
    if |parse.calls| == 2 {
      var reply := parse.calls[0].ending.value;
      var again := AskAgain(messages, ContentOf(reply), Validate(p, ContentOf(reply)).error);
      TheLastAttemptSpeaks(p.api(again, parse.calls[0].finishedAt), p.budget, RULES, parse.calls[0].finishedAt);
    }
  }

  /** A failure that may pass is followed by another request while the attempts and the clock allow one. */
  lemma PassingFailuresAreTriedAgain(p: Provider, messages: seq<Message>, now: real, slack: real)
    requires Punctual(p.api(messages, now), slack)
    ensures
      var tries := WholeRun(p.api(messages, now), p.budget, RULES, now).tries; var last := |tries| - 1;
      tries != [] && tries[last].outcome.Err? && MayPass(tries[last].outcome.error) ==>
        || last + 1 >= p.budget.maxAttempts
        || exists wake :: Paused(p.api(messages, now), p.budget, last, tries[last].endedAt, wake)
             && wake >= now + p.budget.totalMs
  {
    var w := p.api(messages, now);
    var tries := WholeRun(w, p.budget, RULES, now).tries;
    GivesUpOnlyWhenItMust(w, p.budget, RULES, 0, now, now, None, slack);
    if tries != [] {
      var last := |tries| - 1;
      assert Paused(w, p.budget, last, tries[last].endedAt,
        tries[last].endedAt + Max(Delay(w, p.budget, last), 0.0) + w.lag(last));
    }
  }

  /** With the budget the provider has unless told otherwise: six requests and forty seconds, but for late timers. */
  lemma DefaultBounds(p: Provider, messages: seq<Message>, now: real, slack: real)
    requires p.budget == DEFAULT_BUDGET && slack >= 0.0 && forall m, t :: Punctual(p.api(m, t), slack)
    ensures
      var parse := RunChatCompletionAndValidate(p, messages, now);
      && parse.finishedAt - now <= 40000.0 + 2.0 * slack && Requests(parse.calls) <= 6
  {
    TwiceTheBounds(p, messages, now, slack);
  }
}
