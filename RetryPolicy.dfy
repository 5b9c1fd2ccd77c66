/** safe_generate_content: call the primary provider at most twice, wait
    with a doubling delay after each quota failure, give up on the first
    other failure, and after a quota failure hand the request once to the
    secondary provider when one is configured.

    The providers are given as data: `primary[k]` is what the k-th call to
    the primary provider does, and the secondary provider is the optional
    `Secondary` of the Requests module. Calls and sleeps are recorded in a
    trace instead of being performed. */
module RetryPolicy {
  import opened Requests
  import opened Classify
  import opened Fallback

  /** How many times the primary provider may be called per request. */
  const Retries: nat := 2

  /** The first backoff delay, in seconds. */
  const InitialDelay: nat := 1

  /** The observable steps of one request. */
  datatype Event = PrimaryCall | Sleep(seconds: nat) | FallbackCall

  /** What one request does: its response text (None when it gives up) and
      the steps it took. */
  datatype Run = Run(response: Option<string>, trace: seq<Event>)

  /** The decision after the primary provider has failed, taken from the
      last error alone: a quota-class error goes to the secondary provider
      when there is one, anything else gives up. */
  function AfterPrimary(lastError: string, trace: seq<Event>, client: Option<Secondary>, content: Content): Run
  {
    if MentionsAny(FallbackKeywords, lastError) then
      match client
      case Some(_) => Run(FallbackAnswer(client, content), trace + [FallbackCall])
      case None => Run(None, trace)
    else Run(None, trace)
  }

  /** The attempts from number `attempt` on, the next backoff being `delay`
      seconds and `trace` the steps taken so far. */
  function Attempts(primary: seq<Outcome>, attempt: nat, delay: nat, trace: seq<Event>,
                    client: Option<Secondary>, content: Content): (r: Run)
    requires attempt < |primary|
    ensures |trace| < |r.trace| && r.trace[..|trace|] == trace
    decreases |primary| - attempt
  {
    var called := trace + [PrimaryCall];
    match primary[attempt]
    case Ok(text) => Run(Some(text), called)
    case Err(message) =>
      if !IsQuotaError(message) then AfterPrimary(message, called, client, content)
      else if attempt + 1 < |primary| then
        Attempts(primary, attempt + 1, 2 * delay, called + [Sleep(delay)], client, content)
      else AfterPrimary(message, called + [Sleep(delay)], client, content)
  }

  /** The whole request: every attempt the loop may make, starting from an
      empty trace and a one-second delay. */
  function Policy(primary: seq<Outcome>, client: Option<Secondary>, content: Content): Run
    requires |primary| == Retries
  {
    Attempts(primary, 0, InitialDelay, [], client, content)
  }

  predicate IsQuotaFailure(outcome: Outcome)
  {
    outcome.Err? && IsQuotaError(outcome.message)
  }

  // ---------------------------------------------------------------------
  // The loop as the source runs it

  /** The retry loop followed by the fallback decision. The trace records
      each primary call, each sleep with its length, and the fallback call. */
  method SafeGenerateContent(content: Content, primary: seq<Outcome>, client: Option<Secondary>)
    returns (response: Option<string>, trace: seq<Event>)
    requires |primary| == Retries
    ensures Run(response, trace) == Policy(primary, client, content)
  {
    var delay := InitialDelay;
    var lastError: Option<string> := None;
    trace := [];
    response := None;
    var attempt := 0;
    while attempt < Retries
      invariant 0 <= attempt <= Retries
      invariant attempt < Retries ==>
        Policy(primary, client, content) == Attempts(primary, attempt, delay, trace, client, content)
      invariant attempt == Retries ==>
        lastError.Some? && Policy(primary, client, content) == AfterPrimary(lastError.value, trace, client, content)
    {
      trace := trace + [PrimaryCall];
      match primary[attempt] {
        case Ok(text) =>
          response := Some(text);
          return;
        case Err(message) =>
          lastError := Some(message);
          if IsQuotaError(message) {
            trace := trace + [Sleep(delay)];
            delay := delay * 2;
          } else {
            assert Policy(primary, client, content) == AfterPrimary(message, trace, client, content);
            break;
          }
      }
      attempt := attempt + 1;
    }
    var errorText := if lastError.Some? then Strings.Lower(lastError.value) else "";
    if Strings.AnyIn(FallbackKeywords, errorText) {
      if client.Some? {
        trace := trace + [FallbackCall];
        var answer := GenerateWithFallback(client, content);
        if answer.Some? {
          response := answer;
          return;
        }
      } else {
        response := None;
        return;
      }
    }
    response := None;
  }

  // ---------------------------------------------------------------------
  // What the policy guarantees

  /** The decision after the primary provider uses the loop's own test:
      the fallback runs exactly for a quota-class last error with a
      secondary provider configured, and adds only the fallback call. */
  lemma AfterPrimaryDecision(lastError: string, trace: seq<Event>, client: Option<Secondary>, content: Content)
    ensures AfterPrimary(lastError, trace, client, content)
      == if IsQuotaError(lastError) && client.Some?
         then Run(FallbackAnswer(client, content), trace + [FallbackCall])
         else Run(None, trace)
  {
    FallbackTestIsLoopTest(lastError);
  }

  /** The two attempts written out one after the other. */
  lemma PolicyUnrolled(primary: seq<Outcome>, client: Option<Secondary>, content: Content)
    requires |primary| == Retries
    ensures Policy(primary, client, content) ==
      match primary[0]
      case Ok(t0) => Run(Some(t0), [PrimaryCall])
      case Err(m0) =>
        if !IsQuotaError(m0) then AfterPrimary(m0, [PrimaryCall], client, content)
        else match primary[1]
          case Ok(t1) => Run(Some(t1), [PrimaryCall, Sleep(1), PrimaryCall])
          case Err(m1) =>
            if !IsQuotaError(m1) then AfterPrimary(m1, [PrimaryCall, Sleep(1), PrimaryCall], client, content)
            else AfterPrimary(m1, [PrimaryCall, Sleep(1), PrimaryCall, Sleep(2)], client, content)
  {
    assert [] + [PrimaryCall] == [PrimaryCall];
    assert [PrimaryCall] + [Sleep(1)] == [PrimaryCall, Sleep(1)];
    assert [PrimaryCall, Sleep(1)] + [PrimaryCall] == [PrimaryCall, Sleep(1), PrimaryCall];
    assert [PrimaryCall, Sleep(1), PrimaryCall] + [Sleep(2)] == [PrimaryCall, Sleep(1), PrimaryCall, Sleep(2)];
    if primary[0].Err? && IsQuotaError(primary[0].message) {
      assert Policy(primary, client, content)
        == Attempts(primary, 1, 2, [PrimaryCall, Sleep(1)], client, content);
    }
  }

  /** PolicyUnrolled with the decision after the primary provider spelt out. */
  lemma Decided(primary: seq<Outcome>, client: Option<Secondary>, content: Content)
    requires |primary| == Retries
    ensures Policy(primary, client, content) ==
      if !IsQuotaFailure(primary[0]) then
        Run(if primary[0].Ok? then Some(primary[0].text) else None, [PrimaryCall])
      else if !IsQuotaFailure(primary[1]) then
        Run(if primary[1].Ok? then Some(primary[1].text) else None, [PrimaryCall, Sleep(1), PrimaryCall])
      else if client.Some? then
        Run(FallbackAnswer(client, content), [PrimaryCall, Sleep(1), PrimaryCall, Sleep(2), FallbackCall])
      else
        Run(None, [PrimaryCall, Sleep(1), PrimaryCall, Sleep(2)])
  {
    PolicyUnrolled(primary, client, content);
    if primary[0].Err? {
      AfterPrimaryDecision(primary[0].message, [PrimaryCall], client, content);
    }
    if primary[1].Err? {
      AfterPrimaryDecision(primary[1].message, [PrimaryCall, Sleep(1), PrimaryCall], client, content);
      AfterPrimaryDecision(primary[1].message, [PrimaryCall, Sleep(1), PrimaryCall, Sleep(2)], client, content);
    }
  }

  /** One attempt seen from outside: the steps it adds are a primary call,
      then a sleep of the current delay exactly when the call failed on
      quota, then the fallback call exactly when that failure was the last
      attempt and a secondary provider is configured. The loop goes on
      exactly after a quota failure that is not the last attempt. */
  lemma {:induction false} AttemptStep(primary: seq<Outcome>, attempt: nat, delay: nat, trace: seq<Event>,
                                       client: Option<Secondary>, content: Content)
    returns (step: seq<Event>, continues: bool)
    requires attempt < |primary|
    ensures step in {[PrimaryCall], [PrimaryCall, Sleep(delay)], [PrimaryCall, Sleep(delay), FallbackCall]}
    ensures (|step| > 1 && step[1] == Sleep(delay)) <==> IsQuotaFailure(primary[attempt])
    ensures FallbackCall in step <==>
      IsQuotaFailure(primary[attempt]) && attempt + 1 == |primary| && client.Some?
    ensures continues <==> IsQuotaFailure(primary[attempt]) && attempt + 1 < |primary|
    ensures continues ==>
      && step == [PrimaryCall, Sleep(delay)] && attempt + 1 < |primary|
      && Attempts(primary, attempt, delay, trace, client, content)
         == Attempts(primary, attempt + 1, 2 * delay, trace + step, client, content)
    ensures !continues ==> Attempts(primary, attempt, delay, trace, client, content).trace == trace + step
  {
    var called := trace + [PrimaryCall];
    continues := false;
    if primary[attempt].Ok? {
      step := [PrimaryCall];
    } else {
      var message := primary[attempt].message;
      var tail := if IsQuotaError(message) then [PrimaryCall, Sleep(delay)] else [PrimaryCall];
      assert trace + tail == if IsQuotaError(message) then called + [Sleep(delay)] else called;
      if IsQuotaError(message) && attempt + 1 < |primary| {
        step, continues := tail, true;
      } else {
        assert Attempts(primary, attempt, delay, trace, client, content)
          == AfterPrimary(message, trace + tail, client, content);
        AfterPrimaryDecision(message, trace + tail, client, content);
        if IsQuotaError(message) && client.Some? {
          step := tail + [FallbackCall];
          assert step == [PrimaryCall, Sleep(delay), FallbackCall];
        } else if IsQuotaError(message) {
          step := tail;
          assert step == [PrimaryCall, Sleep(delay)];
        } else {
          step := tail;
          assert step == [PrimaryCall];
        }
      }
    }
  }

  /** What the remaining attempts add calls the primary provider at least
      once and at most once per remaining attempt, and the fallback at most
      once. */
  lemma {:induction false} AttemptsBounded(primary: seq<Outcome>, attempt: nat, delay: nat, trace: seq<Event>,
                                           client: Option<Secondary>, content: Content)
    requires attempt < |primary|
    ensures var added := Attempts(primary, attempt, delay, trace, client, content).trace[|trace|..];
      1 <= multiset(added)[PrimaryCall] <= |primary| - attempt && multiset(added)[FallbackCall] <= 1
    decreases |primary| - attempt
  {
    var r := Attempts(primary, attempt, delay, trace, client, content);
    var step, continues := AttemptStep(primary, attempt, delay, trace, client, content);
    if continues {
      var next := trace + step;
      AttemptsBounded(primary, attempt + 1, 2 * delay, next, client, content);
      var rest := r.trace[|next|..];
      PrefixSplit(next, r.trace);
      SleepThenRest(trace, rest, r.trace, delay, |primary| - attempt - 1);
    } else {
      StepCounts(step, delay);
      assert r.trace[|trace|..] == step;
    }
  }

  /** Every step shape holds one primary call and at most one fallback call. */
  lemma StepCounts(step: seq<Event>, delay: nat)
    requires step in {[PrimaryCall], [PrimaryCall, Sleep(delay)], [PrimaryCall, Sleep(delay), FallbackCall]}
    ensures multiset(step)[PrimaryCall] == 1 && multiset(step)[FallbackCall] <= 1
  {
  }

  /** A call and a sleep in front of steps with at most `bound` primary calls
      and at most one fallback call. */
  lemma SleepThenRest(trace: seq<Event>, rest: seq<Event>, whole: seq<Event>, delay: nat, bound: nat)
    requires whole == trace + [PrimaryCall, Sleep(delay)] + rest
    requires 1 <= multiset(rest)[PrimaryCall] <= bound && multiset(rest)[FallbackCall] <= 1
    ensures |trace| <= |whole|
    ensures 1 <= multiset(whole[|trace|..])[PrimaryCall] <= bound + 1 && multiset(whole[|trace|..])[FallbackCall] <= 1
  {
    assert whole[|trace|..] == [PrimaryCall, Sleep(delay)] + rest;
  }

  /** A trace that starts with `front` is `front` followed by the rest. */
  lemma PrefixSplit(front: seq<Event>, whole: seq<Event>)
    requires |front| <= |whole| && whole[..|front|] == front
    ensures whole == front + whole[|front|..]
  {
  }

  /** The primary provider is called once or twice, the fallback at most once. */
  lemma CallsBounded(primary: seq<Outcome>, client: Option<Secondary>, content: Content)
    requires |primary| == Retries
    ensures var r := Policy(primary, client, content);
      1 <= multiset(r.trace)[PrimaryCall] <= Retries && multiset(r.trace)[FallbackCall] <= 1
  {
    AttemptsBounded(primary, 0, InitialDelay, [], client, content);
    var r := Policy(primary, client, content);
    assert r.trace[0..] == r.trace;
  }

  /** The complete list of step sequences and when each happens: one call
      when the first call succeeds or fails for another reason than quota;
      a one-second sleep and a second call after a first quota failure; a
      further two-second sleep when the second call is a quota failure too,
      then the fallback call exactly when a secondary provider is configured. */
  lemma TraceShapes(primary: seq<Outcome>, client: Option<Secondary>, content: Content)
    requires |primary| == Retries
    ensures var t := Policy(primary, client, content).trace;
      && (t == [PrimaryCall] <==> !IsQuotaFailure(primary[0]))
      && (t == [PrimaryCall, Sleep(1), PrimaryCall] <==>
            IsQuotaFailure(primary[0]) && !IsQuotaFailure(primary[1]))
      && (t == [PrimaryCall, Sleep(1), PrimaryCall, Sleep(2)] <==>
            IsQuotaFailure(primary[0]) && IsQuotaFailure(primary[1]) && client.None?)
      && (t == [PrimaryCall, Sleep(1), PrimaryCall, Sleep(2), FallbackCall] <==>
            IsQuotaFailure(primary[0]) && IsQuotaFailure(primary[1]) && client.Some?)
  {
    Decided(primary, client, content);
  }

  /** The fallback runs exactly when every primary attempt failed on quota
      and a secondary provider is configured. */
  lemma FallbackOnlyAfterQuota(primary: seq<Outcome>, client: Option<Secondary>, content: Content)
    requires |primary| == Retries
    ensures FallbackCall in Policy(primary, client, content).trace <==>
      IsQuotaFailure(primary[0]) && IsQuotaFailure(primary[1]) && client.Some?
  {
    TraceShapes(primary, client, content);
  }

  /** The response is the text of the first successful primary call, or the
      secondary provider's answer once the fallback ran, or nothing. */
  lemma ResponseSources(primary: seq<Outcome>, client: Option<Secondary>, content: Content)
    requires |primary| == Retries
    ensures var r := Policy(primary, client, content);
      && (primary[0].Ok? ==> r.response == Some(primary[0].text))
      && (IsQuotaFailure(primary[0]) && primary[1].Ok? ==> r.response == Some(primary[1].text))
      && (FallbackCall in r.trace ==> r.response == FallbackAnswer(client, content))
      && (r.response.Some? ==>
            primary[0].Ok? || (IsQuotaFailure(primary[0]) && primary[1].Ok?)
            || (FallbackCall in r.trace && FallbackAnswer(client, content).Some?))
  {
    Decided(primary, client, content);
  }

  /** A first success is returned at once: one primary call, no sleep, no
      fallback. */
  lemma FirstSuccessReturned(primary: seq<Outcome>, client: Option<Secondary>, content: Content, text: string)
    requires |primary| == Retries && primary[0] == Ok(text)
    ensures Policy(primary, client, content) == Run(Some(text), [PrimaryCall])
  {
  }

  /** Any other failure stops at once: one primary call, no sleep, and no
      fallback even when a secondary provider is configured. */
  lemma OtherErrorFailsFast(primary: seq<Outcome>, client: Option<Secondary>, content: Content)
    requires |primary| == Retries && primary[0].Err? && !IsQuotaError(primary[0].message)
    ensures Policy(primary, client, content) == Run(None, [PrimaryCall])
  {
    Decided(primary, client, content);
  }

  /** A quota failure followed by another kind of failure gives up without
      the fallback: the decision looks at the last error only. */
  lemma QuotaThenOtherErrorNoFallback(primary: seq<Outcome>, client: Option<Secondary>, content: Content)
    requires |primary| == Retries && IsQuotaFailure(primary[0])
    requires primary[1].Err? && !IsQuotaError(primary[1].message)
    ensures Policy(primary, client, content) == Run(None, [PrimaryCall, Sleep(1), PrimaryCall])
  {
    Decided(primary, client, content);
  }

  /** Two quota failures without a secondary provider give up after both
      sleeps. */
  lemma QuotaWithoutSecondary(primary: seq<Outcome>, content: Content)
    requires |primary| == Retries && IsQuotaFailure(primary[0]) && IsQuotaFailure(primary[1])
    ensures Policy(primary, None, content) == Run(None, [PrimaryCall, Sleep(1), PrimaryCall, Sleep(2)])
  {
    Decided(primary, None, content);
  }

  /** Two quota failures with a secondary provider: the fallback is asked
      once and its answer, present or not, is the response. */
  lemma QuotaWithSecondary(primary: seq<Outcome>, secondary: Secondary, content: Content)
    requires |primary| == Retries && IsQuotaFailure(primary[0]) && IsQuotaFailure(primary[1])
    ensures Policy(primary, Some(secondary), content)
      == Run(FallbackAnswer(Some(secondary), content),
             [PrimaryCall, Sleep(1), PrimaryCall, Sleep(2), FallbackCall])
  {
    Decided(primary, Some(secondary), content);
  }

  /** Two "429 Too Many Requests" replies and a secondary provider that
      answers "ABC": the response is "ABC", after two primary calls and one
      fallback call. */
  lemma RateLimitedTwiceFallbackAnswers(content: Content, transcribe: Transcriber)
    ensures var secondary := Secondary(transcribe, (prompt: string) => Some("ABC"));
      var primary := [Err("429 Too Many Requests"), Err("429 Too Many Requests")];
      Policy(primary, Some(secondary), content)
      == Run(Some("ABC"), [PrimaryCall, Sleep(1), PrimaryCall, Sleep(2), FallbackCall])
  {
    TooManyRequestsIsQuota();
    var secondary := Secondary(transcribe, (prompt: string) => Some("ABC"));
    QuotaWithSecondary([Err("429 Too Many Requests"), Err("429 Too Many Requests")], secondary, content);
  }

  /** A "404 Not Found" reply is not retried and nothing else is asked. */
  lemma NotFoundFailsFast(second: Outcome, client: Option<Secondary>, content: Content)
    ensures Policy([Err("404 Not Found"), second], client, content) == Run(None, [PrimaryCall])
  {
    NotFoundIsNotQuota();
    OtherErrorFailsFast([Err("404 Not Found"), second], client, content);
  }
}
