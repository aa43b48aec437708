/** The Hy-MT2 engine: a prefix-KV cache in front of an autoregressive translator, with
    progressive output, cancellation, and a one-way fallback from the accelerator to the CPU. */
module HyMt {
  import opened Options
  import opened Outside
  import opened Utf8
  import opened Progressive
  import opened Llama
  import opened Engine

  method LongestCommonPrefix(left: seq<Token>, right: seq<Token>) returns (count: nat)
    ensures count == CommonPrefix(left, right)
  {
    var limit := if |left| < |right| then |left| else |right|;
    count := 0;
    while count < limit && left[count] == right[count]
      invariant count <= limit
      invariant CommonPrefix(left, right) == count + CommonPrefix(left[count..], right[count..])
    {
      assert left[count..][1..] == left[count + 1..] && right[count..][1..] == right[count + 1..];
      count := count + 1;
    }
  }

  class HyMt {
    const config: Config
    const env: Environment

    var context: LlamaContext?
    var opencl: bool
    var lastStats: Stats
    var cachedPromptTokens: seq<Token>
    var cachedConfiguration: seq<Byte>
    var cachedSession: int
    var cachedPositionMax: int
    var cacheValid: bool
    var fallbackCount: nat

    /** A context made for this engine on its backend. */
    ghost predicate Ready()
      reads this`context, this`opencl
    {
      && config.Usable() && context != null
      && context.model == config.model && context.onDevice == opencl && context.batch == config.batch
    }

    ghost predicate CacheCleared()
      reads this`cacheValid, this`cachedPromptTokens, this`cachedConfiguration, this`cachedPositionMax
    {
      !cacheValid && cachedPromptTokens == [] && cachedConfiguration == [] && cachedPositionMax == -1
    }

    /** KV memory starts with the cached prompt and ends at the cached position. */
    ghost predicate CacheAgreesWithMemory()
      reads this`context, this`cachedPromptTokens, this`cachedPositionMax, context
    {
      && context != null
      && cachedPromptTokens != [] && cachedPromptTokens <= context.memory
      && cachedPositionMax == context.PosMax()
    }

    /** What holds between any two requests. */
    ghost predicate Valid()
      reads this`context, this`opencl
      reads this`cacheValid, this`cachedPromptTokens, this`cachedConfiguration, this`cachedPositionMax, context
    {
      (context != null ==> Ready()) && if cacheValid then CacheAgreesWithMemory() else CacheCleared()
    }

    function AsCache(): Cache
      reads this`cacheValid, this`cachedPromptTokens, this`cachedConfiguration, this`cachedSession
    {
      if cacheValid then Warm(cachedPromptTokens, cachedConfiguration, cachedSession) else Cold
    }

    function AsState(): State
      reads this`context, this`opencl, this`fallbackCount, env
      reads this`cacheValid, this`cachedPromptTokens, this`cachedConfiguration, this`cachedSession
    {
      State(env.at, opencl, context != null, fallbackCount, AsCache())
    }

    constructor Unloaded(config: Config, env: Environment)
      ensures this.config == config && this.env == env
      ensures context == null && !opencl && fallbackCount == 0 && CacheCleared()
    {
      this.config, this.env := config, env;
      context, opencl, lastStats := null, false, NO_STATS;
      cachedPromptTokens, cachedConfiguration, cachedSession, cachedPositionMax, cacheValid := [], [], 0, -1, false;
      fallbackCount := 0;
    }

    /** The engine's constructor; null when it throws. */
    static method Load(config: Config, world: World, now: nat) returns (e: HyMt?)
      ensures e != null ==> fresh(e) && fresh(e.env) && fresh(e.context) && e.Valid() && e.config == config
                            && e.env.world == world && e.context.memory == []
      ensures (if e == null then None else Some(e.AsState())) == LoadRun(world, config, Moment(0, 0, 0, 0, now, false))
    {
      var env := new Environment(world, now);
      e := new HyMt.Unloaded(config, env);
      if config.preferOpenCL {
        var found := env.Call();
        if found {
          var probed := env.Call();
          if probed {
            var initialized := e.Initialize(true);
            if initialized { return; }
          }
        }
        e.fallbackCount := e.fallbackCount + 1;
      }
      var ok := e.Initialize(false);
      if !ok { e := null; }
    }

    /** Loads the model and creates the context; false when either throws. */
    method Initialize(device: bool) returns (ok: bool)
      requires context == null
      modifies this, env
      ensures Loading(ok, env.at) == InitializeRun(env.world, config, old(env.at))
      ensures fallbackCount == old(fallbackCount) && lastStats == old(lastStats)
      ensures ok ==> Ready() && fresh(context) && opencl == device && context.memory == [] && context.batches == []
                     && CacheCleared()
      ensures !ok ==> context == null && opencl == old(opencl) && (old(CacheCleared()) ==> CacheCleared())
    {
      if config.batch <= 0 || config.ubatch <= 0 || config.ubatch > config.batch { return false; }
      var modelLoaded := env.Call();
      if !modelLoaded { return false; }
      var contextCreated := env.Call();
      if !contextCreated { return false; }
      context := new LlamaContext(config.model, device, config.batch);
      opencl := device;
      cacheValid, cachedPromptTokens, cachedConfiguration, cachedPositionMax := false, [], [], -1;
      return true;
    }

    /** Decides what of the memory can be kept for `tokens` and forgets the rest.
        The cache fields are cleared until the request succeeds. */
    method PrepareMemory(tokens: seq<Token>, r: Request, configuration: seq<Byte>) returns (reused: nat)
      requires Valid() && Ready() && tokens != []
      modifies this`cachedPromptTokens, this`cachedConfiguration, this`cacheValid, this`cachedPositionMax, context, env
      ensures Prepared(reused, env.at)
              == PrepareRun(env.world, old(AsCache()), r.cached, r.identity.session, configuration, tokens, old(env.at))
      ensures reused < |tokens| && context.memory == tokens[..reused]
      ensures context.batches == old(context.batches) && CacheCleared()
    {
      var cacheIdentityMatches := r.cached && cacheValid && cachedSession == r.identity.session
                                  && cachedConfiguration == configuration && context.PosMax() == cachedPositionMax;
      var reusablePrefix := 0;
      if cacheIdentityMatches {
        reusablePrefix := LongestCommonPrefix(cachedPromptTokens, tokens);
      }
      var keepTokens := if reusablePrefix > 0 then reusablePrefix - 1 else 0;
      if !cacheIdentityMatches {
        context.Clear();
      } else {
        ghost var memory := context.memory;
        assert memory[..keepTokens] == cachedPromptTokens[..reusablePrefix][..keepTokens]
            == tokens[..reusablePrefix][..keepTokens] == tokens[..keepTokens];
        var trimmed := context.SeqRm(env, keepTokens);
        if !trimmed {
          context.Clear();
          reusablePrefix := 0;
        }
      }
      cachedPromptTokens, cachedConfiguration, cacheValid, cachedPositionMax := [], [], false, -1;
      reused := if reusablePrefix > 0 then reusablePrefix - 1 else 0;
    }

    /** Evaluates tokens[reused..] in batches, and nothing else. */
    method Prefill(tokens: seq<Token>, reused: nat) returns (error: Option<Error>)
      requires Ready() && reused < |tokens| <= CONTEXT_TOKENS && context.memory == tokens[..reused]
      modifies context, env
      ensures Prefilled(error, env.at) == PrefillRun(env.world, |tokens| - reused, config.batch, old(env.at))
      ensures error == None ==> context.memory == tokens && context.Fresh()
                                && context.batches == old(context.batches) + Pieces(tokens[reused..], config.batch)
      ensures context.batches <= old(context.batches) + Pieces(tokens[reused..], config.batch)
    {
      hide AfterRead, AfterDecode, DecodeSucceeds, Pieces;
      var offset: nat := reused;
      NoPieces(config.batch);
      while offset < |tokens|
        invariant reused <= offset <= |tokens| && context.memory == tokens[..offset]
        invariant offset > reused ==> context.Fresh()
        invariant PrefillRun(env.world, |tokens| - reused, config.batch, old(env.at))
                  == PrefillRun(env.world, |tokens| - offset, config.batch, env.at)
        invariant context.batches + Pieces(tokens[offset..], config.batch)
                  == old(context.batches) + Pieces(tokens[reused..], config.batch)
        decreases |tokens| - offset
      {
        var stop := env.LoadCancelled();
        if stop { return Some(Cancelled); }
        var end := if config.batch < |tokens| - offset then offset + config.batch else |tokens|;
        var decoded := context.Decode(env, tokens[offset..end]);
        if !decoded { return Some(DecodeFailed); }
        assert tokens[..offset] + tokens[offset..end] == tokens[..end];
        NextPiece(tokens, offset, end, config.batch);
        offset := end;
      }
      assert tokens[..offset] == tokens && tokens[offset..] == [];
      return None;
    }

    /** Appends a piece to the result and offers the result to the callback. */
    method Show(stream: ProgressStream, hasCallback: bool, result: seq<Byte>) returns (threw: bool)
      requires stream.Valid() && lastStats.firstVisibleMs == stream.firstVisibleMs
      modifies stream, env, this`lastStats
      ensures Published(stream.AsStream(), env.at, threw)
              == PublishRun(env.world, hasCallback, old(stream.AsStream()), result, old(env.at))
      ensures !threw ==> stream.Valid() && lastStats.firstVisibleMs == stream.firstVisibleMs
      ensures lastStats == old(lastStats).(outputTokens := old(lastStats.outputTokens) + 1,
                                           firstVisibleMs := lastStats.firstVisibleMs)
    {
      lastStats := lastStats.(outputTokens := lastStats.outputTokens + 1);
      threw := stream.Publish(env, hasCallback, result);
      if !threw {
        lastStats := lastStats.(firstVisibleMs := stream.firstVisibleMs);
      }
    }

    /** Accounts for a finished generation. */
    method Complete(stream: ProgressStream, hasCallback: bool)
      requires stream.Valid() && lastStats.firstVisibleMs == stream.firstVisibleMs && stream.start <= env.at.now
      modifies env, this`lastStats
      ensures env.at == AfterTick(env.world, old(env.at)) && stream.start <= env.at.now
      ensures lastStats == var o := old(lastStats);
                StatsOf(o.inputTokens, o.cacheReusedTokens, o.outputTokens, o.fallbackCount, stream.shown, hasCallback,
                        env.at.now - stream.start)
    {
      var now := env.Now();
      lastStats := lastStats.(completeMs := (now - stream.start) / NS_PER_MS);
      if hasCallback && lastStats.firstVisibleMs == 0 {
        lastStats := lastStats.(firstVisibleMs := lastStats.completeMs);
      }
    }

    /** The generation under way, as a value. */
    function AsRunning(stream: ProgressStream, sampler: SamplerState, result: seq<Byte>): Running
      requires context != null
      reads this`context, context, stream, env
    {
      Running(context.memory, sampler, result, stream.AsStream(), env.at)
    }

    /** What holds between two tokens. */
    ghost predicate Generating(stream: ProgressStream)
      reads this`context, this`opencl, this`lastStats, context, stream, env
    {
      && Ready() && context.Fresh() && stream.Valid()
      && lastStats.firstVisibleMs == stream.firstVisibleMs && stream.start <= env.at.now
    }

    /** Shows a token's piece and evaluates the token. */
    method Advance(token: Token, stream: ProgressStream, hasCallback: bool, result: seq<Byte>)
      returns (grown: seq<Byte>, error: Option<Error>)
      requires Generating(stream) && |context.memory| < CONTEXT_TOKENS && config.model.piece(token).Some?
      modifies context, stream, env, this`lastStats
      ensures grown == result + config.model.piece(token).value
      ensures var p := PublishRun(env.world, hasCallback, old(stream.AsStream()), grown, old(env.at));
        && stream.AsStream() == p.stream
        && env.at == (if p.threw then p.at else AfterDecode(env.world, p.at))
        && error == (if p.threw then Some(CallbackThrew)
                     else if DecodeSucceeds(env.world, p.at) then None else Some(DecodeFailed))
      ensures error == None ==>
        && Generating(stream) && context.memory == old(context.memory) + [token]
        && context.batches == old(context.batches) + [[token]]
      ensures lastStats == old(lastStats).(outputTokens := old(lastStats.outputTokens) + 1,
                                           firstVisibleMs := lastStats.firstVisibleMs)
    {
      hide PublishRun;
      var piece := config.model.piece(token);
      grown := result + piece.value;
      var threw := Show(stream, hasCallback, grown);
      if threw { return grown, Some(CallbackThrew); }
      PublishTakesTime(env.world, hasCallback, old(stream.AsStream()), grown, old(env.at));
      var decoded := context.Decode(env, [token]);
      error := if decoded then None else Some(DecodeFailed);
    }

    /** One pass of the loop: samples, shows and evaluates one token, or ends the attempt. */
    method Sample(stream: ProgressStream, hasCallback: bool, sampler: SamplerState, result: seq<Byte>)
      returns (ended: Option<Outcome>, next: SamplerState, grown: seq<Byte>)
      requires Generating(stream) && |context.memory| < CONTEXT_TOKENS
      modifies context, stream, env, this`lastStats
      ensures match StepRun(env.world, config.model, opencl, hasCallback, old(AsRunning(stream, sampler, result)))
              case Stop(outcome, now) =>
                && ended == Some(outcome) && grown == now.text && stream.AsStream() == now.stream && env.at == now.at
                && (outcome.Ok? ==>
                      && now.kv == context.memory == old(context.memory) && context.batches == old(context.batches)
                      && stream.start <= env.at.now
                      && lastStats == var o := old(lastStats);
                           StatsOf(o.inputTokens, o.cacheReusedTokens, o.outputTokens, o.fallbackCount, stream.shown,
                                   hasCallback, env.at.now - stream.start))
              case Go(now) =>
                && ended == None && Generating(stream) && now == AsRunning(stream, next, grown)
                && |context.memory| == |old(context.memory)| + 1 && old(context.memory) <= context.memory
                && context.batches == old(context.batches) + [context.memory[|old(context.memory)|..]]
                && lastStats == old(lastStats).(outputTokens := old(lastStats.outputTokens) + 1,
                                                firstVisibleMs := lastStats.firstVisibleMs)
    {
      hide PublishRun, StatsOf;
      grown := result;
      var stop := env.LoadCancelled();
      if stop { return Some(Threw(Cancelled)), sampler, grown; }
      var (token, after) := config.model.sample(sampler, context.logits);
      next := after;
      if config.model.isEndOfGeneration(token) {
        Complete(stream, hasCallback);
        return Some(Ok(result)), next, grown;
      }
      if config.model.piece(token).None? { return Some(Threw(InvalidToken)), next, grown; }
      var error;
      grown, error := Advance(token, stream, hasCallback, result);
      ended := match error case None => None case Some(e) => Some(Threw(e));
    }

    /** Samples, publishes and evaluates until the model ends its generation. */
    method GenerateText(tokens: seq<Token>, stream: ProgressStream, hasCallback: bool, maxOutput: nat)
      returns (outcome: Outcome, result: seq<Byte>)
      requires Generating(stream) && |tokens| + maxOutput <= CONTEXT_TOKENS && context.memory == tokens
      requires lastStats.outputTokens == 0
      modifies context, stream, env, this`lastStats
      ensures var g := GenerateRun(env.world, config.model, opencl, hasCallback,
                                   old(AsRunning(stream, config.model.freshSampler, [])), maxOutput);
        && outcome == g.outcome && result == g.now.text && stream.AsStream() == g.now.stream && env.at == g.now.at
        && (outcome.Ok? ==> context.memory == g.now.kv)
      ensures outcome.Ok? ==>
        && tokens <= context.memory && |context.memory| <= CONTEXT_TOKENS
        && context.batches == old(context.batches) + Singles(context.memory[|tokens|..])
        && stream.start <= env.at.now
        && lastStats == var o := old(lastStats);
             StatsOf(o.inputTokens, o.cacheReusedTokens, |context.memory| - |tokens|, o.fallbackCount, stream.shown,
                     hasCallback, env.at.now - stream.start)
    {
      hide StepRun, StatsOf, GenerateRun, Singles;
      NoSingles();
      assert context.memory[|tokens|..] == [];
      var sampler := config.model.freshSampler;
      result := [];
      for i := 0 to maxOutput
        invariant Generating(stream) && tokens <= context.memory && |context.memory| == |tokens| + i
        invariant context.batches == old(context.batches) + Singles(context.memory[|tokens|..])
        invariant lastStats == old(lastStats).(outputTokens := i, firstVisibleMs := lastStats.firstVisibleMs)
        invariant GenerateRun(env.world, config.model, opencl, hasCallback,
                              old(AsRunning(stream, config.model.freshSampler, [])), maxOutput)
                  == GenerateRun(env.world, config.model, opencl, hasCallback,
                                 AsRunning(stream, sampler, result), maxOutput - i)
      {
        ghost var memory := context.memory;
        ghost var before := AsRunning(stream, sampler, result);
        GenerateUnfolds(env.world, config.model, opencl, hasCallback, before, maxOutput - i);
        var ended;
        ended, sampler, result := Sample(stream, hasCallback, sampler, result);
        if ended.Some? { return ended.value, result; }
        SinglesGrow(memory, context.memory, |tokens|);
      }
      GenerateEnds(env.world, config.model, opencl, hasCallback, AsRunning(stream, sampler, result));
      return Threw(OutputTooLong), result;
    }

    /** The state a completed attempt leaves: the memory of everything evaluated for it, its
        statistics, and only the batches of the prompt's new tokens and of the generated ones. */
    ghost predicate Completed(a: Attempt, r: Request, tokens: seq<Token>, before: seq<seq<Token>>)
      reads this`context, this`lastStats, this`fallbackCount, context
    {
      && config.batch > 0 && context != null
      && a.outcome.Ok? && a.reused < |tokens| && context.memory == a.evaluated
      && tokens <= context.memory && |context.memory| <= CONTEXT_TOKENS
      && context.batches == before + Pieces(tokens[a.reused..], config.batch) + Singles(context.memory[|tokens|..])
      && lastStats == StatsOf(|tokens|, a.reused, |context.memory| - |tokens|, fallbackCount, a.shown, r.hasCallback,
                              a.end.now - a.start)
    }

    /** Generates from the evaluated prompt. */
    method Finish(tokens: seq<Token>, reused: nat, start: nat, r: Request) returns (attempt: Attempt)
      requires Ready() && context.Fresh() && context.memory == tokens && |tokens| + MAX_OUTPUT <= CONTEXT_TOKENS
      requires start <= env.at.now
      requires lastStats == NO_STATS.(inputTokens := |tokens|, cacheReusedTokens := reused,
                                      fallbackCount := fallbackCount)
      modifies this`lastStats, context, env
      ensures attempt == FinishRun(env.world, config, opencl, r, tokens, reused, start, old(env.at))
      ensures env.at == attempt.end && attempt.reused == reused
      ensures attempt.outcome.Ok? ==>
        && context.memory == attempt.evaluated && tokens <= context.memory && |context.memory| <= CONTEXT_TOKENS
        && context.batches == old(context.batches) + Singles(context.memory[|tokens|..])
        && lastStats == StatsOf(|tokens|, reused, |context.memory| - |tokens|, fallbackCount, attempt.shown,
                                r.hasCallback, attempt.end.now - attempt.start)
    {
      hide GenerateRun, Singles, StatsOf;
      var stream := new ProgressStream(r.identity, start);
      var outcome, text := GenerateText(tokens, stream, r.hasCallback, MAX_OUTPUT);
      attempt := Attempt(opencl, outcome, stream.shown, start, text, reused,
                         if outcome.Ok? then context.memory else [], env.at);
    }

    /** Prepares the memory, evaluates the prompt and generates. */
    method Evaluate(tokens: seq<Token>, configuration: seq<Byte>, start: nat, r: Request) returns (attempt: Attempt)
      requires Valid() && Ready() && lastStats == NO_STATS && start <= env.at.now
      requires tokens != [] && |tokens| + MAX_OUTPUT <= CONTEXT_TOKENS
      requires config.model.template.Some? && configuration == Configuration(config, r)
      modifies this`cachedPromptTokens, this`cachedConfiguration, this`cacheValid, this`cachedPositionMax
      modifies this`lastStats, context, env
      ensures attempt == EvaluateRun(env.world, config, opencl, old(AsCache()), r, tokens, start, old(env.at))
      ensures CacheCleared() && env.at == attempt.end
      ensures attempt.outcome.Ok? ==> Completed(attempt, r, tokens, old(context.batches))
    {
      hide FinishRun, PrepareRun, PrefillRun, Configuration, Pieces, Singles, StatsOf;
      var reused := PrepareMemory(tokens, r, configuration);
      lastStats := lastStats.(inputTokens := |tokens|, cacheReusedTokens := reused, fallbackCount := fallbackCount);
      ghost var prepared := env.at;
      PrepareTakesNoTime(env.world, old(AsCache()), r, configuration, tokens, old(env.at));
      var error := Prefill(tokens, reused);
      if error.Some? { return Failing(opencl, error.value, start, reused, env.at); }
      PrefillTakesNoTime(env.world, |tokens| - reused, config.batch, prepared);
      attempt := Finish(tokens, reused, start, r);
    }

    /** What a request leaves behind, whatever its outcome. */
    ghost predicate Settled(a: Attempt, r: Request, before: seq<seq<Token>>)
      reads this`context, this`opencl, this`lastStats, this`fallbackCount
      reads this`cacheValid, this`cachedPromptTokens, this`cachedConfiguration, this`cachedPositionMax, context
    {
      && Valid()
      && if a.outcome.Ok? then
           && ChatTokens(config.model, r.prompt).Success?
           && Completed(a, r, ChatTokens(config.model, r.prompt).value, before)
         else CacheCleared() && (context != null ==> context.memory == [])
    }

    /** One attempt at a request. A throw may leave the cache fields and the memory as they were. */
    method Run(r: Request) returns (attempt: Attempt)
      requires Valid() && Ready() && lastStats == NO_STATS
      modifies this`cachedPromptTokens, this`cachedConfiguration, this`cachedSession, this`cacheValid
      modifies this`cachedPositionMax, this`lastStats, context, env
      ensures attempt == AttemptRun(env.world, config, old(AsState()), r) && env.at == attempt.end
      ensures attempt.outcome.Ok? ==>
        AsCache() == CacheAfter(config, r, attempt) && Settled(attempt, r, old(context.batches))
      ensures attempt.outcome.Threw? && old(CacheCleared()) ==> CacheCleared()
    {
      hide EvaluateRun, Configuration, Pieces, Singles, StatsOf;
      var stop := env.LoadCancelled();
      if stop { return Failing(opencl, Cancelled, env.at.now, 0, env.at); }
      var start := env.Now();
      var prepared := ChatTokens(config.model, r.prompt);
      if prepared.Failure? { return Failing(opencl, prepared.error, start, 0, env.at); }
      var tokens := prepared.value;
      var configuration := Configuration(config, r);
      attempt := Evaluate(tokens, configuration, start, r);
      if attempt.outcome.Ok? && r.cached {
        Remember(tokens, configuration, r.identity.session);
      }
    }

    method Remember(tokens: seq<Token>, configuration: seq<Byte>, session: int)
      requires Ready() && tokens != [] && tokens <= context.memory
      modifies this`cachedPromptTokens, this`cachedConfiguration, this`cachedSession, this`cacheValid
      modifies this`cachedPositionMax
      ensures Valid() && AsCache() == Warm(tokens, configuration, session)
    {
      cachedPromptTokens, cachedConfiguration, cachedSession := tokens, configuration, session;
      cachedPositionMax := context.PosMax();
      cacheValid := cachedPositionMax >= 0;
    }

    /** Gives up the accelerator for the rest of the engine's life. */
    method FallbackToCpu() returns (ok: bool)
      requires CacheCleared()
      modifies this, env
      ensures CacheCleared() && Loading(ok, env.at) == InitializeRun(env.world, config, old(env.at))
      ensures if ok then Ready() && fresh(context) && context.memory == [] && context.batches == []
                         && !opencl && fallbackCount == old(fallbackCount) + 1
              else context == null && opencl == old(opencl) && fallbackCount == old(fallbackCount)
    {
      context := null;
      ok := Initialize(false);
      if ok { fallbackCount := fallbackCount + 1; }
    }

    /** The statistics that a completed request reports. */
    ghost predicate Reported(a: Attempt, r: Request)
      reads this`lastStats, this`fallbackCount
    {
      && ChatTokens(config.model, r.prompt).Success?
      && lastStats.inputTokens == |ChatTokens(config.model, r.prompt).value|
      && lastStats.inputTokens + lastStats.outputTokens == |a.evaluated|
      && lastStats.cacheReusedTokens == a.reused && lastStats.fallbackCount == fallbackCount
      && lastStats.completeMs == (a.end.now - a.start) / 1_000_000
      && lastStats.firstVisibleMs == (if a.shown != [] then a.shown[0].progress.elapsedMs
                                      else if r.hasCallback then lastStats.completeMs else 0)
    }

    lemma IsReported(a: Attempt, r: Request, before: seq<seq<Token>>)
      requires Settled(a, r, before) && a.outcome.Ok?
      ensures Reported(a, r)
    {
      hide Pieces, Singles;
    }

    method RecordFallbacks(ghost a: Attempt, ghost r: Request, ghost before: seq<seq<Token>>)
      requires Settled(a, r, before) && a.outcome.Ok?
      modifies this`lastStats
      ensures Settled(a, r, before)
    {
      lastStats := lastStats.(fallbackCount := fallbackCount);
    }

    /** The second attempt, on the CPU. */
    method Restart(ghost first: Attempt, r: Request) returns (second: Attempt)
      requires CacheCleared() && opencl && context != null && config.Usable()
      modifies this, env
      ensures Served(Restarted(first, second), AsState()) == RestartRun(env.world, config, old(AsState()), first, r)
      ensures Settled(second, r, []) && (context == null || fresh(context))
    {
      hide AttemptRun, CacheAfter, Completed;
      var reloaded := FallbackToCpu();
      if !reloaded { return Failing(false, ReloadFailed, env.at.now, 0, env.at); }
      lastStats := NO_STATS;
      second := Run(r);
      if second.outcome.Ok? {
        RecordFallbacks(second, r, []);
      } else {
        FailuresCool(config, r, second);
        cacheValid := false;
        context.Clear();
      }
    }

    /** The handler of a failed attempt: the cache is dropped, and unless the engine is on the CPU or
        the flag is set, a second attempt is made. */
    method Handle(first: Attempt, r: Request) returns (report: Report)
      requires Ready()
      modifies this, context, env
      ensures Served(report, AsState())
              == HandleRun(env.world, config, State(old(env.at), old(opencl), true, old(fallbackCount), Cold), first, r)
      ensures report.first == first && (first.outcome.Threw? ==> Settled(report.Last(), r, []))
      ensures context == null || context == old(context) || fresh(context)
    {
      hide AttemptRun, RestartRun, Completed;
      cacheValid, cachedPromptTokens, cachedConfiguration, cachedPositionMax := false, [], [], -1;
      var giveUp := !opencl;
      if !giveUp { giveUp := env.LoadCancelled(); }
      if giveUp {
        context.Clear();
        return Direct(first);
      }
      var second := Restart(first, r);
      return Restarted(first, second);
    }

    /** One request: an attempt, and after a failure on the accelerator that is not a
        cancellation, a second attempt on the CPU. A reload that throws leaves the engine
        without a context and ends the request with ReloadFailed. */
    method Serve(r: Request) returns (report: Report)
      requires Valid() && context != null
      modifies this, context, env
      ensures Served(report, AsState()) == RequestRun(env.world, config, old(AsState()), r)
      ensures Settled(report.Last(), r, if report.Direct? then old(context.batches) else [])
      ensures report.Outcome().Ok? ==> Reported(report.Last(), r)
      ensures context == null || context == old(context) || fresh(context)
    {
      hide AttemptRun, HandleRun, CacheAfter, Completed, Reported;
      lastStats := NO_STATS;
      var first := Run(r);
      if first.outcome.Ok? {
        RecordFallbacks(first, r, old(context.batches));
        IsReported(first, r, old(context.batches));
        return Direct(first);
      }
      FailuresCool(config, r, first);
      report := Handle(first, r);
      if report.Outcome().Ok? { IsReported(report.Last(), r, []); }
    }
  }

  lemma NoPieces(batch: nat)
    requires batch > 0
    ensures Pieces([], batch) == []
  {
  }

  lemma NextPiece(tokens: seq<Token>, offset: nat, end: nat, batch: nat)
    requires batch > 0 && offset < |tokens| && end == if batch < |tokens| - offset then offset + batch else |tokens|
    ensures Pieces(tokens[offset..], batch) == [tokens[offset..end]] + Pieces(tokens[end..], batch)
  {
    var rest := tokens[offset..];
    if batch < |rest| {
      assert rest[..batch] == tokens[offset..end] && rest[batch..] == tokens[end..];
    } else {
      assert rest == tokens[offset..end] && tokens[end..] == [];
    }
  }

  lemma SinglesGrow(memory: seq<Token>, longer: seq<Token>, from: nat)
    requires from <= |memory| && memory <= longer && |longer| == |memory| + 1
    ensures Singles(longer[from..]) == Singles(memory[from..]) + [longer[|memory|..]]
  {
    var before, after := memory[from..], longer[from..];
    assert after[..|before|] == before && longer[|memory|..] == [after[|before|]];
  }

  lemma PublishTakesTime(w: World, hasCallback: bool, s: Stream, result: seq<Byte>, at: Moment)
    ensures PublishRun(w, hasCallback, s, result, at).at.now >= at.now
  {
  }

  lemma NoSingles()
    ensures Singles([]) == []
  {
  }

  lemma GenerateUnfolds(w: World, m: Model, onDevice: bool, hasCallback: bool, g: Running, budget: nat)
    requires budget > 0
    ensures GenerateRun(w, m, onDevice, hasCallback, g, budget) ==
            match StepRun(w, m, onDevice, hasCallback, g)
            case Stop(outcome, now) => Ended(outcome, now)
            case Go(now) => GenerateRun(w, m, onDevice, hasCallback, now, budget - 1)
  {
  }

  lemma GenerateEnds(w: World, m: Model, onDevice: bool, hasCallback: bool, g: Running)
    ensures GenerateRun(w, m, onDevice, hasCallback, g, 0) == Ended(Threw(OutputTooLong), g)
  {
  }

  lemma FailuresCool(c: Config, r: Request, a: Attempt)
    ensures a.outcome.Threw? ==> CacheAfter(c, r, a) == Cold
  {
  }
}
