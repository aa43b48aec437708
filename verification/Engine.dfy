/** What the Hy-MT2 engine means, on values: the reference translation without cache, batches or
    failures, and what an engine does with a request in a given world. The class in HyMt, with
    its memory and its fields, is proved to do exactly this. */
module Engine {
  import opened Options
  import opened Outside
  import opened Utf8
  import opened CacheKey
  import opened Progressive
  import opened Llama

  const MAX_OUTPUT := 384

  datatype Error =
    | Cancelled | DecodeFailed | CallbackThrew | ReloadFailed                       // from outside
    | MissingTemplate | UnsupportedTemplate | InputTooLong | TokenizationFailed     // decided by the prompt
    | InvalidToken | OutputTooLong                                                  // decided by the generation

  /** Failures the prompt and the model do not decide. */
  predicate FromOutside(e: Error) {
    e == Cancelled || e == DecodeFailed || e == CallbackThrew || e == ReloadFailed
  }

  datatype Outcome = Ok(text: seq<Byte>) | Threw(error: Error)

  datatype Result<T> = Success(value: T) | Failure(error: Error)

  /** A finished generation: its text, and every token that was evaluated for it. */
  datatype Generation = Done(text: seq<Byte>, evaluated: seq<Token>) | Failed(error: Error)

  function ChatTokens(m: Model, prompt: seq<Byte>): Result<seq<Token>> {
    if m.template.None? then Failure(MissingTemplate)
    else
      var chat := m.render(m.template.value, prompt);
      if chat.None? || chat.value == [] then Failure(UnsupportedTemplate)
      else
        var count := m.countTokens(chat.value);
        if count <= 0 || count + MAX_OUTPUT > CONTEXT_TOKENS then Failure(InputTooLong)
        else
          var tokens := m.tokenize(chat.value);
          if |tokens| != count then Failure(TokenizationFailed) else Success(tokens)
  }

  /** Autoregressive generation that recomputes the logits of the whole sequence at every step. */
  function Generate(m: Model, onDevice: bool, kv: seq<Token>, sampler: SamplerState, text: seq<Byte>,
                    budget: nat): Generation
    decreases budget
  {
    if budget == 0 then Failed(OutputTooLong)
    else
      var (token, sampler') := m.sample(sampler, m.logits(onDevice, kv));
      if m.isEndOfGeneration(token) then Done(text, kv)
      else
        match m.piece(token)
        case None => Failed(InvalidToken)
        case Some(piece) => Generate(m, onDevice, kv + [token], sampler', text + piece, budget - 1)
  }

  /** What a translation means: the prompt is evaluated from nothing and a fresh sampler is used. */
  function FullPrefill(m: Model, onDevice: bool, prompt: seq<Byte>): Generation {
    match ChatTokens(m, prompt)
    case Failure(e) => Failed(e)
    case Success(tokens) => Generate(m, onDevice, tokens, m.freshSampler, [], MAX_OUTPUT)
  }

  function OutcomeOf(g: Generation): Outcome {
    match g
    case Done(text, _) => Ok(text)
    case Failed(e) => Threw(e)
  }

  /** The texts the reference passes through, one for each piece. */
  function Texts(m: Model, onDevice: bool, kv: seq<Token>, sampler: SamplerState, text: seq<Byte>,
                 budget: nat): seq<seq<Byte>>
    decreases budget
  {
    if budget == 0 then []
    else
      var (token, sampler') := m.sample(sampler, m.logits(onDevice, kv));
      if m.isEndOfGeneration(token) || m.piece(token).None? then []
      else
        var longer := text + m.piece(token).value;
        [longer] + Texts(m, onDevice, kv + [token], sampler', longer, budget - 1)
  }

  function TextsOf(m: Model, onDevice: bool, prompt: seq<Byte>): seq<seq<Byte>> {
    match ChatTokens(m, prompt)
    case Failure(_) => []
    case Success(tokens) => Texts(m, onDevice, tokens, m.freshSampler, [], MAX_OUTPUT)
  }

  datatype Config = Config(model: Model, path: seq<Byte>, batch: int, ubatch: int, preferOpenCL: bool)
  {
    predicate Usable() {
      0 < ubatch <= batch
    }
  }

  /** A translate call; `cached` tells the two translate paths apart. */
  datatype Request = Request(prompt: seq<Byte>, identity: Metadata, hasCallback: bool, cached: bool)

  datatype Cache = Cold | Warm(tokens: seq<Token>, configuration: seq<Byte>, session: int)

  /** An engine between two requests. */
  datatype State = State(at: Moment, opencl: bool, loaded: bool, fallbackCount: nat, cache: Cache)

  function Configuration(c: Config, r: Request): seq<Byte>
    requires c.model.template.Some?
  {
    Key(c.path, r.identity.scope, c.model.template.value)
  }

  function CommonPrefix(left: seq<Token>, right: seq<Token>): (n: nat)
    ensures n <= |left| && n <= |right| && left[..n] == right[..n]
    ensures n < |left| && n < |right| ==> left[n] != right[n]
  {
    if left == [] || right == [] || left[0] != right[0] then 0
    else
      var n := CommonPrefix(left[1..], right[1..]);
      assert left[..n + 1] == [left[0]] + left[1..][..n] && right[..n + 1] == [right[0]] + right[1..][..n];
      n + 1
  }

  /** The last shared token is evaluated again: sampling needs its logits. */
  function Kept(cached: seq<Token>, tokens: seq<Token>): nat {
    var n := CommonPrefix(cached, tokens);
    if n > 0 then n - 1 else 0
  }

  datatype Prepared = Prepared(reused: nat, at: Moment)

  predicate IdentityMatches(cache: Cache, allowed: bool, session: int, configuration: seq<Byte>) {
    allowed && cache.Warm? && cache.session == session && cache.configuration == configuration
  }

  /** How much of the memory a prompt keeps: the memory is trimmed only for a matching identity. */
  function PrepareRun(w: World, cache: Cache, allowed: bool, session: int, configuration: seq<Byte>,
                      tokens: seq<Token>, at: Moment): Prepared {
    if !IdentityMatches(cache, allowed, session, configuration) then Prepared(0, at)
    else Prepared(if w.refuses(at.trims) then 0 else Kept(cache.tokens, tokens), AfterTrim(at))
  }

  datatype Prefilled = Prefilled(error: Option<Error>, at: Moment)

  function PrefillRun(w: World, rest: nat, batch: nat, at: Moment): Prefilled
    requires batch > 0
    decreases rest
  {
    if rest == 0 then Prefilled(None, at)
    else
      var polled := AfterRead(w, at);
      if polled.cancelled then Prefilled(Some(Cancelled), polled)
      else if !DecodeSucceeds(w, polled) then Prefilled(Some(DecodeFailed), AfterDecode(w, polled))
      else PrefillRun(w, if batch < rest then rest - batch else 0, batch, AfterDecode(w, polled))
  }

  /** A generation under way. */
  datatype Running = Running(kv: seq<Token>, sampler: SamplerState, text: seq<Byte>, stream: Stream, at: Moment)

  datatype Step = Stop(outcome: Outcome, now: Running) | Go(now: Running)

  ghost function StepRun(w: World, m: Model, onDevice: bool, hasCallback: bool, g: Running): Step {
    var polled := AfterRead(w, g.at);
    if polled.cancelled then Stop(Threw(Cancelled), g.(at := polled))
    else
      var (token, sampler) := m.sample(g.sampler, m.logits(onDevice, g.kv));
      if m.isEndOfGeneration(token) then Stop(Ok(g.text), g.(at := AfterTick(w, polled)))
      else if m.piece(token).None? then Stop(Threw(InvalidToken), g.(at := polled))
      else
        var text := g.text + m.piece(token).value;
        var p := PublishRun(w, hasCallback, g.stream, text, polled);
        if p.threw then Stop(Threw(CallbackThrew), g.(text := text, stream := p.stream, at := p.at))
        else if !DecodeSucceeds(w, p.at) then
          Stop(Threw(DecodeFailed), g.(text := text, stream := p.stream, at := AfterDecode(w, p.at)))
        else Go(Running(g.kv + [token], sampler, text, p.stream, AfterDecode(w, p.at)))
  }

  datatype Ended = Ended(outcome: Outcome, now: Running)

  ghost function GenerateRun(w: World, m: Model, onDevice: bool, hasCallback: bool, g: Running, budget: nat): Ended
    decreases budget
  {
    if budget == 0 then Ended(Threw(OutputTooLong), g)
    else
      match StepRun(w, m, onDevice, hasCallback, g)
      case Stop(outcome, now) => Ended(outcome, now)
      case Go(now) => GenerateRun(w, m, onDevice, hasCallback, now, budget - 1)
  }

  /** One pass over a request: its backend, its outcome, the callbacks it made, its text so far,
      the tokens it kept, the tokens in memory after a success, and when it ended. */
  datatype Attempt = Attempt(onDevice: bool, outcome: Outcome, shown: seq<Shown>, start: nat, text: seq<Byte>,
                             reused: nat, evaluated: seq<Token>, end: Moment)

  function Failing(onDevice: bool, error: Error, start: nat, reused: nat, end: Moment): Attempt {
    Attempt(onDevice, Threw(error), [], start, [], reused, [], end)
  }

  /** The start of a generation, with the prompt in memory. */
  function Starting(m: Model, r: Request, tokens: seq<Token>, start: nat, at: Moment): Running {
    Running(tokens, m.freshSampler, [], Opened(r.identity, start), at)
  }

  ghost function FinishRun(w: World, c: Config, onDevice: bool, r: Request, tokens: seq<Token>, reused: nat,
                           start: nat, at: Moment): Attempt
  {
    var g := GenerateRun(w, c.model, onDevice, r.hasCallback, Starting(c.model, r, tokens, start, at), MAX_OUTPUT);
    Attempt(onDevice, g.outcome, g.now.stream.shown, start, g.now.text, reused,
            if g.outcome.Ok? then g.now.kv else [], g.now.at)
  }

  ghost function EvaluateRun(w: World, c: Config, onDevice: bool, cache: Cache, r: Request, tokens: seq<Token>,
                             start: nat, at: Moment): Attempt
    requires c.Usable() && c.model.template.Some?
  {
    var prepared := PrepareRun(w, cache, r.cached, r.identity.session, Configuration(c, r), tokens, at);
    var rest := if prepared.reused < |tokens| then |tokens| - prepared.reused else 0;
    var prefilled := PrefillRun(w, rest, c.batch, prepared.at);
    match prefilled.error
    case Some(error) => Failing(onDevice, error, start, prepared.reused, prefilled.at)
    case None => FinishRun(w, c, onDevice, r, tokens, prepared.reused, start, prefilled.at)
  }

  ghost function AttemptRun(w: World, c: Config, s: State, r: Request): Attempt
    requires c.Usable()
  {
    var polled := AfterRead(w, s.at);
    if polled.cancelled then Failing(s.opencl, Cancelled, s.at.now, 0, polled)
    else
      var started := AfterTick(w, polled);
      match ChatTokens(c.model, r.prompt)
      case Failure(error) => Failing(s.opencl, error, started.now, 0, started)
      case Success(tokens) => EvaluateRun(w, c, s.opencl, s.cache, r, tokens, started.now, started)
  }

  /** One request: a second attempt is made when the first one fails on the accelerator. */
  datatype Report = Direct(first: Attempt) | Restarted(first: Attempt, second: Attempt)
  {
    function Last(): Attempt {
      if Direct? then first else second
    }

    function Outcome(): Outcome {
      Last().outcome
    }

    /** Every callback the caller of the request received. */
    function Observed(): seq<Shown> {
      if Direct? then first.shown else first.shown + second.shown
    }
  }

  datatype Loading = Loading(ok: bool, at: Moment)

  /** Loading the model and creating the context are two calls; bad batch sizes refuse both. */
  function InitializeRun(w: World, c: Config, at: Moment): Loading {
    if !c.Usable() then Loading(false, at)
    else if w.fails(at.calls) then Loading(false, AfterCall(at))
    else Loading(!w.fails(at.calls + 1), AfterCall(AfterCall(at)))
  }

  /** The constructor; None when it throws. Finding the device and probing it are calls too. */
  function LoadRun(w: World, c: Config, at: Moment): Option<State> {
    if !c.preferOpenCL then OnCpu(w, c, at, 0)
    else if w.fails(at.calls) then OnCpu(w, c, AfterCall(at), 1)
    else if w.fails(at.calls + 1) then OnCpu(w, c, AfterCall(AfterCall(at)), 1)
    else
      var loading := InitializeRun(w, c, AfterCall(AfterCall(at)));
      if loading.ok then Some(State(loading.at, true, true, 0, Cold)) else OnCpu(w, c, loading.at, 1)
  }

  function OnCpu(w: World, c: Config, at: Moment, fallbackCount: nat): Option<State> {
    var loading := InitializeRun(w, c, at);
    if loading.ok then Some(State(loading.at, false, true, fallbackCount, Cold)) else None
  }

  /** The cache after an attempt. */
  function CacheAfter(c: Config, r: Request, a: Attempt): Cache {
    if a.outcome.Threw? || !r.cached then Cold
    else
      match ChatTokens(c.model, r.prompt)
      case Failure(_) => Cold
      case Success(tokens) =>
        if c.model.template.None? then Cold else Warm(tokens, Configuration(c, r), r.identity.session)
  }

  datatype Served = Served(report: Report, state: State)

  ghost function RequestRun(w: World, c: Config, s: State, r: Request): Served
    requires c.Usable()
  {
    var first := AttemptRun(w, c, s, r);
    var after := s.(at := first.end, cache := CacheAfter(c, r, first));
    if first.outcome.Ok? then Served(Direct(first), after) else HandleRun(w, c, after, first, r)
  }

  /** What follows a failed attempt. */
  ghost function HandleRun(w: World, c: Config, s: State, first: Attempt, r: Request): Served
    requires c.Usable()
  {
    if !s.opencl then Served(Direct(first), s)
    else
      var handled := AfterRead(w, s.at);
      if handled.cancelled then Served(Direct(first), s.(at := handled))
      else RestartRun(w, c, s.(at := handled), first, r)
  }

  /** The accelerator is given up for good. A reload that throws leaves the engine without a context. */
  ghost function RestartRun(w: World, c: Config, s: State, first: Attempt, r: Request): Served
    requires c.Usable()
  {
    var loading := InitializeRun(w, c, s.at);
    if !loading.ok then
      Served(Restarted(first, Failing(false, ReloadFailed, loading.at.now, 0, loading.at)),
             s.(at := loading.at, loaded := false, cache := Cold))
    else
      var moved := State(loading.at, false, true, s.fallbackCount + 1, Cold);
      var second := AttemptRun(w, c, moved, r);
      Served(Restarted(first, second), moved.(at := second.end, cache := CacheAfter(c, r, second)))
  }

  datatype Stats = Stats(inputTokens: nat, cacheReusedTokens: nat, outputTokens: int, fallbackCount: nat,
                         firstVisibleMs: int, completeMs: int)

  const NO_STATS := Stats(0, 0, 0, 0, 0, 0)

  /** The statistics of a completed attempt. */
  function StatsOf(inputTokens: nat, reused: nat, outputTokens: int, fallbackCount: nat,
                   shown: seq<Shown>, hasCallback: bool, elapsed: int): Stats
  {
    var completeMs := elapsed / NS_PER_MS;
    var firstVisibleMs := if shown != [] then shown[0].progress.elapsedMs else if hasCallback then completeMs else 0;
    Stats(inputTokens, reused, outputTokens, fallbackCount, firstVisibleMs, completeMs)
  }

  /** Only reading the clock takes time. */
  lemma PrepareTakesNoTime(w: World, cache: Cache, r: Request, configuration: seq<Byte>, tokens: seq<Token>, at: Moment)
    ensures PrepareRun(w, cache, r.cached, r.identity.session, configuration, tokens, at).at.now == at.now
  {
  }

  lemma PrefillTakesNoTime(w: World, rest: nat, batch: nat, at: Moment)
    requires batch > 0
    ensures PrefillRun(w, rest, batch, at).at.now == at.now
    decreases rest
  {
  }
}
