/** Every request whose reader can see its text start over does so in some world: the accelerator
    fails right after the preview in question, and everything else goes well. */
module StartingOver {
  import opened Options
  import opened Outside
  import opened Utf8
  import opened Progressive
  import opened Llama
  import opened Engine
  import opened EngineLaws
  import opened Previews

  /** Two worlds that may differ in the calls that fail. */
  ghost predicate SameButFails(v: World, w: World) {
    w.interrupts == v.interrupts && w.refuses == v.refuses && w.elapsed == v.elapsed
  }

  /** Each look at the clock finds the next callback due. */
  ghost predicate Slow(w: World) {
    forall k :: w.elapsed(k) >= CADENCE_NS
  }

  /** The generation after k undisturbed steps. */
  ghost function After(v: World, m: Model, onDevice: bool, g: Running, k: nat): Running
    decreases k
  {
    if k == 0 then g else After(v, m, onDevice, StepRun(v, m, onDevice, true, g).now, k - 1)
  }

  /** An undisturbed step, and the same step in a world where its last call, the decode, fails. */
  lemma QuietStep(v: World, w: World, m: Model, onDevice: bool, g: Running, budget: nat)
    requires budget > 0 && Quiet(v, g.at) && SameButFails(v, w)
    requires Texts(m, onDevice, g.kv, g.sampler, g.text, budget) != []
    ensures var step := StepRun(v, m, onDevice, true, g); var now := step.now;
      && step.Go? && Quiet(v, now.at) && now.at.calls > g.at.calls && g.text <= now.text
      && Texts(m, onDevice, g.kv, g.sampler, g.text, budget)
         == [now.text] + Texts(m, onDevice, now.kv, now.sampler, now.text, budget - 1)
      && (!FailedIn(w, g.at.calls, now.at.calls) ==> StepRun(w, m, onDevice, true, g) == step)
      && (w.fails(now.at.calls - 1) && !FailedIn(w, g.at.calls, now.at.calls - 1) ==>
            StepRun(w, m, onDevice, true, g)
            == Stop(Threw(DecodeFailed), g.(text := now.text, stream := now.stream, at := now.at)))
  {
    hide PublishRun;
    var polled := AfterRead(v, g.at);
    var (token, sampler) := m.sample(g.sampler, m.logits(onDevice, g.kv));
    QuietPublish(v, w, g.stream, g.text + m.piece(token).value, polled);
  }

  lemma QuietPublish(v: World, w: World, s: Stream, text: seq<Byte>, at: Moment)
    requires Quiet(v, at) && SameButFails(v, w)
    ensures var p := PublishRun(v, true, s, text, at);
      && !p.threw && Quiet(v, p.at) && at.calls <= p.at.calls && p.at.polls == at.polls
      && (!FailedIn(w, at.calls, p.at.calls) ==> PublishRun(w, true, s, text, at) == p)
  {
    hide Boundary, Visible;
  }

  lemma {:induction false} CallsGrow(v: World, m: Model, onDevice: bool, g: Running, budget: nat, k: nat)
    requires Quiet(v, g.at) && k <= |Texts(m, onDevice, g.kv, g.sampler, g.text, budget)|
    ensures After(v, m, onDevice, g, k).at.calls >= g.at.calls + k
    decreases k
  {
    hide StepRun;
    if k > 0 {
      QuietStep(v, v, m, onDevice, g, budget);
      CallsGrow(v, m, onDevice, StepRun(v, m, onDevice, true, g).now, budget - 1, k - 1);
    }
  }

  /** If just the decode of piece k fails, the generation ends there, with all its previews so far. */
  lemma {:induction false} FailsAfter(v: World, w: World, m: Model, onDevice: bool, g: Running, budget: nat, k: nat)
    requires Quiet(v, g.at) && SameButFails(v, w) && k < |Texts(m, onDevice, g.kv, g.sampler, g.text, budget)|
    requires forall x :: w.fails(x) <==> x == After(v, m, onDevice, g, k + 1).at.calls - 1
    ensures var e := GenerateRun(w, m, onDevice, true, g, budget); var last := After(v, m, onDevice, g, k + 1);
            e.outcome == Threw(DecodeFailed) && e.now.stream == last.stream && e.now.at == last.at
    decreases k
  {
    hide StepRun;
    QuietStep(v, w, m, onDevice, g, budget);
    var now := StepRun(v, m, onDevice, true, g).now;
    assert After(v, m, onDevice, g, k + 1) == After(v, m, onDevice, now, k);
    if k > 0 {
      CallsGrow(v, m, onDevice, now, budget - 1, k);
      FailsAfter(v, w, m, onDevice, now, budget - 1, k - 1);
    }
  }

  /** Everything the text lets the reader see has been shown. */
  ghost predicate AllShown(s: Stream, text: seq<Byte>) {
    var seen := Visible(text);
    s.lastBytes == |seen| && (seen != [] ==> s.shown != [] && s.shown[|s.shown| - 1].progress.text == seen)
  }

  ghost predicate CaughtUp(g: Running) {
    g.stream.lastAt <= g.at.now && AllShown(g.stream, g.text)
  }

  lemma PublishCatchesUp(w: World, g: Running, piece: seq<Byte>, at: Moment, now: Running)
    requires Slow(w) && Quiet(w, at) && CaughtUp(g) && g.at.now == at.now
    requires var p := PublishRun(w, true, g.stream, g.text + piece, at);
             now.text == g.text + piece && now.stream == p.stream && now.at.now == p.at.now
    ensures CaughtUp(now)
  {
    hide Boundary, Visible;
    VisibleIsMonotone(g.text, piece);
    assert Visible(g.text + piece) <= g.text + piece && |Visible(g.text + piece)| <= Boundary(g.text + piece);
  }

  lemma StepCatchesUp(w: World, m: Model, onDevice: bool, g: Running, budget: nat)
    requires budget > 0 && Slow(w) && Quiet(w, g.at) && CaughtUp(g)
    requires Texts(m, onDevice, g.kv, g.sampler, g.text, budget) != []
    ensures CaughtUp(StepRun(w, m, onDevice, true, g).now)
  {
    hide PublishRun, CaughtUp;
    var polled := AfterRead(w, g.at);
    var (token, sampler) := m.sample(g.sampler, m.logits(onDevice, g.kv));
    QuietPublish(w, w, g.stream, g.text + m.piece(token).value, polled);
    PublishCatchesUp(w, g, m.piece(token).value, polled, StepRun(w, m, onDevice, true, g).now);
  }

  lemma {:induction false} AfterCatchesUp(v: World, m: Model, onDevice: bool, g: Running, budget: nat, k: nat)
    requires Slow(v) && Quiet(v, g.at) && CaughtUp(g)
    requires k < |Texts(m, onDevice, g.kv, g.sampler, g.text, budget)|
    ensures var last := After(v, m, onDevice, g, k + 1);
      && CaughtUp(last) && Quiet(v, last.at)
      && last.text == Texts(m, onDevice, g.kv, g.sampler, g.text, budget)[k]
    decreases k
  {
    hide StepRun, CaughtUp;
    QuietStep(v, v, m, onDevice, g, budget);
    StepCatchesUp(v, m, onDevice, g, budget);
    var now := StepRun(v, m, onDevice, true, g).now;
    assert After(v, m, onDevice, g, k + 1) == After(v, m, onDevice, now, k);
    if k > 0 {
      AfterCatchesUp(v, m, onDevice, now, budget - 1, k - 1);
    }
  }

  /** An undisturbed generation ends with everything shown, and with text that extends all before. */
  lemma {:induction false} QuietEndCatchesUp(w: World, m: Model, onDevice: bool, g: Running, budget: nat)
    requires Slow(w) && Quiet(w, g.at) && CaughtUp(g)
    ensures var now := GenerateRun(w, m, onDevice, true, g, budget).now;
      && AllShown(now.stream, now.text) && g.text <= now.text
      && forall t <- Texts(m, onDevice, g.kv, g.sampler, g.text, budget) :: t <= now.text
    decreases budget
  {
    hide AllShown, StepRun, Texts;
    if budget == 0 {
      NoTexts(m, onDevice, g);
    } else if Texts(m, onDevice, g.kv, g.sampler, g.text, budget) == [] {
      QuietStop(w, m, onDevice, g, budget);
    } else {
      QuietStep(w, w, m, onDevice, g, budget);
      StepCatchesUp(w, m, onDevice, g, budget);
      QuietEndCatchesUp(w, m, onDevice, StepRun(w, m, onDevice, true, g).now, budget - 1);
    }
  }

  lemma NoTexts(m: Model, onDevice: bool, g: Running)
    ensures Texts(m, onDevice, g.kv, g.sampler, g.text, 0) == []
  {
  }

  lemma QuietStop(w: World, m: Model, onDevice: bool, g: Running, budget: nat)
    requires budget > 0 && Quiet(w, g.at) && Texts(m, onDevice, g.kv, g.sampler, g.text, budget) == []
    ensures var step := StepRun(w, m, onDevice, true, g);
            step.Stop? && step.now.text == g.text && step.now.stream == g.stream
  {
    hide PublishRun;
  }

  lemma {:induction false} PrefillAgrees(v: World, w: World, rest: nat, batch: nat, at: Moment)
    requires batch > 0 && Quiet(v, at) && SameButFails(v, w)
    requires !FailedIn(w, at.calls, PrefillRun(v, rest, batch, at).at.calls)
    ensures var p := PrefillRun(v, rest, batch, at);
            p.error.None? && Quiet(v, p.at) && at.calls <= p.at.calls && PrefillRun(w, rest, batch, at) == p
    decreases rest
  {
    if rest > 0 {
      var next := AfterDecode(v, AfterRead(v, at));
      var left := if batch < rest then rest - batch else 0;
      PrefillBlames(v, left, batch, next);
      PrefillAgrees(v, w, left, batch, next);
    }
  }

  function Undisturbed(): World {
    World(k => false, k => false, k => false, k => CADENCE_NS)
  }

  /** The world in which only the call with this number fails. */
  function FailingAt(call: nat): World {
    Undisturbed().(fails := k => k == call)
  }

  /** The start of the generation in an undisturbed attempt. */
  ghost function StartOf(v: World, c: Config, s: State, r: Request, tokens: seq<Token>): Running
    requires c.Usable() && c.model.template.Some?
  {
    var started := AfterTick(v, AfterRead(v, s.at));
    var prepared := PrepareRun(v, s.cache, r.cached, r.identity.session, Configuration(c, r), tokens, started);
    var rest := if prepared.reused < |tokens| then |tokens| - prepared.reused else 0;
    Starting(c.model, r, tokens, started.now, PrefillRun(v, rest, c.batch, prepared.at).at)
  }

  lemma StartIsQuiet(v: World, c: Config, s: State, r: Request, tokens: seq<Token>)
    requires c.Usable() && c.model.template.Some? && Quiet(v, s.at)
    ensures var g := StartOf(v, c, s, r, tokens);
            Quiet(v, g.at) && CaughtUp(g) && s.at.calls <= g.at.calls
  {
    hide PrepareRun, Configuration;
    var started := AfterTick(v, AfterRead(v, s.at));
    PrepareTakesNoTime(v, s.cache, r, Configuration(c, r), tokens, started);
    PrepareIsQuiet(v, s.cache, r, Configuration(c, r), tokens, started);
    var prepared := PrepareRun(v, s.cache, r.cached, r.identity.session, Configuration(c, r), tokens, started);
    var rest := if prepared.reused < |tokens| then |tokens| - prepared.reused else 0;
    PrefillTakesNoTime(v, rest, c.batch, prepared.at);
    PrefillAgrees(v, v, rest, c.batch, prepared.at);
  }

  lemma PrepareIsQuiet(w: World, cache: Cache, r: Request, configuration: seq<Byte>, tokens: seq<Token>, at: Moment)
    ensures var p := PrepareRun(w, cache, r.cached, r.identity.session, configuration, tokens, at);
            p.at.calls == at.calls && p.at.polls == at.polls && p.at.cancelled == at.cancelled
  {
  }

  /** The first attempt in the world where just the decode of piece k fails. */
  lemma FirstFails(c: Config, s: State, r: Request, k: nat) returns (call: nat)
    requires c.Usable() && s.opencl && r.hasCallback && !s.at.cancelled && k < |TextsOf(c.model, true, r.prompt)|
    ensures var a := AttemptRun(FailingAt(call), c, s, r); var seen := Visible(TextsOf(c.model, true, r.prompt)[k]);
      && a.outcome == Threw(DecodeFailed) && Quiet(FailingAt(call), a.end)
      && (seen != [] ==> a.shown != [] && a.shown[|a.shown| - 1].progress.text == seen)
  {
    hide StepRun, Texts, Generate, PrepareRun, Configuration, Visible;
    var tokens := ChatTokens(c.model, r.prompt).value;
    var v := Undisturbed();
    var g := StartOf(v, c, s, r, tokens);
    StartIsQuiet(v, c, s, r, tokens);
    var last := After(v, c.model, true, g, k + 1);
    CallsGrow(v, c.model, true, g, MAX_OUTPUT, k + 1);
    call := last.at.calls - 1;
    var w := FailingAt(call);
    FailsAfter(v, w, c.model, true, g, MAX_OUTPUT, k);
    AfterCatchesUp(v, c.model, true, g, MAX_OUTPUT, k);
    AttemptReaches(v, w, c, s, r, tokens);
  }

  /** An attempt in a world whose failures come later starts generating like an undisturbed one. */
  lemma AttemptReaches(v: World, w: World, c: Config, s: State, r: Request, tokens: seq<Token>)
    requires c.Usable() && ChatTokens(c.model, r.prompt) == Success(tokens) && Quiet(v, s.at) && SameButFails(v, w)
    requires !FailedIn(w, s.at.calls, StartOf(v, c, s, r, tokens).at.calls)
    ensures var g := GenerateRun(w, c.model, s.opencl, r.hasCallback, StartOf(v, c, s, r, tokens), MAX_OUTPUT);
      var a := AttemptRun(w, c, s, r);
      a.outcome == g.outcome && a.shown == g.now.stream.shown && a.text == g.now.text && a.end == g.now.at
  {
    hide GenerateRun, PrepareRun, Configuration;
    var started := AfterTick(v, AfterRead(v, s.at));
    var prepared := PrepareRun(v, s.cache, r.cached, r.identity.session, Configuration(c, r), tokens, started);
    PrepareAgrees(v, w, s.cache, r, Configuration(c, r), tokens, started);
    PrepareIsQuiet(v, s.cache, r, Configuration(c, r), tokens, started);
    var rest := if prepared.reused < |tokens| then |tokens| - prepared.reused else 0;
    PrefillAgrees(v, w, rest, c.batch, prepared.at);
  }

  lemma PrepareAgrees(v: World, w: World, cache: Cache, r: Request, configuration: seq<Byte>, tokens: seq<Token>,
                      at: Moment)
    requires SameButFails(v, w)
    ensures PrepareRun(w, cache, r.cached, r.identity.session, configuration, tokens, at)
            == PrepareRun(v, cache, r.cached, r.identity.session, configuration, tokens, at)
  {
  }

  /** When the clock finds every callback due and nothing goes wrong, everything a result lets the
      reader see has been shown by the time it is returned. */
  lemma EverythingIsShown(w: World, c: Config, s: State, r: Request)
    requires c.Usable() && r.hasCallback && Slow(w) && Quiet(w, s.at)
    ensures var a := AttemptRun(w, c, s, r); var seen := Visible(a.text);
      && (seen != [] ==> a.shown != [] && a.shown[|a.shown| - 1].progress.text == seen)
      && forall t <- TextsOf(c.model, s.opencl, r.prompt) :: t <= a.text
  {
    hide StepRun, Texts, Generate, PrepareRun, Configuration, Visible;
    NothingIsVisible();
    if ChatTokens(c.model, r.prompt).Success? {
      var tokens := ChatTokens(c.model, r.prompt).value;
      StartIsQuiet(w, c, s, r, tokens);
      AttemptReaches(w, w, c, s, r, tokens);
      QuietEndCatchesUp(w, c.model, s.opencl, StartOf(w, c, s, r, tokens), MAX_OUTPUT);
    }
  }

  lemma NothingIsVisible()
    ensures Visible([]) == []
  {
  }

  /** So an attempt on a backend whose text lets the reader see something shows something. */
  lemma SecondShows(w: World, c: Config, s: State, r: Request)
    requires c.Usable() && r.hasCallback && Slow(w) && Quiet(w, s.at)
    ensures Speaks(c.model, s.opencl, r.prompt) ==> AttemptRun(w, c, s, r).shown != []
  {
    hide AttemptRun, TextsOf, Visible;
    EverythingIsShown(w, c, s, r);
    if Speaks(c.model, s.opencl, r.prompt) {
      var text := AttemptRun(w, c, s, r).text;
      var t :| t in TextsOf(c.model, s.opencl, r.prompt) && Visible(t) != [];
      VisibleIsMonotone(t, text[|t|..]);
      assert t + text[|t|..] == text;
    }
  }

  lemma NoChain(r: Request, first: Attempt, second: Attempt, t: seq<Byte>, start: nat)
    requires Chain(first.shown, first.text, r.identity, first.start)
    requires Chain(second.shown, second.text, r.identity, second.start)
    requires first.shown != [] && first.shown[|first.shown| - 1].progress.text == Visible(t)
    requires first.shown[|first.shown| - 1].at <= second.start
    requires second.outcome.Ok? && (second.shown != [] || !(Visible(t) <= second.outcome.text))
    ensures !Chain(first.shown + second.shown, second.outcome.text, r.identity, start)
  {
    hide WellFormed, Visible;
    if second.shown != [] {
      TwoStartsNoChain(first, second, second.outcome.text, r.identity, start);
    } else {
      assert first.shown + second.shown == first.shown;
    }
  }

  /** After a failure on the accelerator and with nothing else going wrong, the reload succeeds. */
  lemma QuietRestart(w: World, c: Config, s: State, r: Request) returns (moved: State)
    requires c.Usable() && s.opencl && AttemptRun(w, c, s, r).outcome.Threw? && Quiet(w, AttemptRun(w, c, s, r).end)
    ensures moved == State(moved.at, false, true, s.fallbackCount + 1, Cold) && Quiet(w, moved.at)
    ensures moved.at.now == AttemptRun(w, c, s, r).end.now
    ensures RequestRun(w, c, s, r).report == Restarted(AttemptRun(w, c, s, r), AttemptRun(w, c, moved, r))
  {
    hide AttemptRun;
    var handled := AfterRead(w, AttemptRun(w, c, s, r).end);
    moved := State(InitializeRun(w, c, handled).at, false, true, s.fallbackCount + 1, Cold);
  }

  /** The second attempt of such a request: it completes, and the previews of both are no chain. */
  lemma SecondBreaks(w: World, c: Config, first: Attempt, moved: State, r: Request, t: seq<Byte>)
    requires c.Usable() && r.hasCallback && Quiet(w, moved.at) && SameButFails(Undisturbed(), w) && !moved.opencl
    requires Chain(first.shown, first.text, r.identity, first.start)
    requires first.shown != [] && first.shown[|first.shown| - 1].progress.text == Visible(t)
    requires first.shown[|first.shown| - 1].at <= moved.at.now
    requires FullPrefill(c.model, false, r.prompt).Done?
    requires Speaks(c.model, false, r.prompt) || !(Visible(t) <= FullPrefill(c.model, false, r.prompt).text)
    ensures var second := AttemptRun(w, c, moved, r);
      && second.outcome.Ok? && (Speaks(c.model, false, r.prompt) ==> second.shown != [])
      && forall start: nat :: !Chain(first.shown + second.shown, second.outcome.text, r.identity, start)
  {
    hide AttemptRun, Visible, FullPrefill, Chain, Speaks;
    AttemptIsReference(w, c, moved, r);
    AttemptShows(w, c, moved, r);
    SecondShows(w, c, moved, r);
    var second := AttemptRun(w, c, moved, r);
    forall start: nat ensures !Chain(first.shown + second.shown, second.outcome.text, r.identity, start) {
      NoChain(r, first, second, t, start);
    }
  }

  /** A request that can start over does so in some world. */
  lemma StartsOver(c: Config, s: State, r: Request) returns (w: World)
    requires c.Usable() && s.loaded && CanStartOver(c, s, r)
    ensures var report := RequestRun(w, c, s, r).report;
      && report.Restarted? && report.Outcome().Ok? && !OneChain(report, r.identity)
      && report.first.shown != [] && (Speaks(c.model, false, r.prompt) ==> report.second.shown != [])
  {
    hide AttemptRun, TextsOf, Visible, FullPrefill, Chain, Speaks, RequestRun;
    var texts := TextsOf(c.model, true, r.prompt);
    var t :| t in texts && Visible(t) != [] &&
         (Speaks(c.model, false, r.prompt) || !(Visible(t) <= FullPrefill(c.model, false, r.prompt).text));
    var k :| 0 <= k < |texts| && texts[k] == t;
    var call := FirstFails(c, s, r, k);
    w := FailingAt(call);
    AttemptShows(w, c, s, r);
    var moved := QuietRestart(w, c, s, r);
    SecondBreaks(w, c, AttemptRun(w, c, s, r), moved, r, t);
  }

  /** Exactly: a completed request's previews are one growing, paced chain of prefixes of its result
      in every world if and only if it cannot start over. */
  lemma OneChainIff(c: Config, s: State, r: Request)
    requires c.Usable() && s.loaded
    ensures (forall w: World :: OneChain(RequestRun(w, c, s, r).report, r.identity)) <==> !CanStartOver(c, s, r)
  {
    hide RequestRun, OneChain, CanStartOver;
    if CanStartOver(c, s, r) {
      var w := StartsOver(c, s, r);
    } else {
      forall w: World ensures OneChain(RequestRun(w, c, s, r).report, r.identity) {
        NeverStartsOver(w, c, s, r);
      }
    }
  }

  const GREETING: seq<Byte> := [0x48, 0x69, 0x20]

  /** A model that answers every prompt with one word and a space. */
  function Greeter(): Model {
    Model(Some([]), (format, prompt) => Some([0x3E] + prompt), chat => 1, chat => [7],
          (onDevice, kv) => if |kv| == 1 then [1.0] else [0.0], [],
          (sampler, logits) => (if logits == [1.0] then 1 else 0, sampler),
          token => token == 0, token => Some(GREETING))
  }

  lemma GreeterSays(onDevice: bool, prompt: seq<Byte>)
    ensures TextsOf(Greeter(), onDevice, prompt) == [GREETING]
    ensures FullPrefill(Greeter(), onDevice, prompt) == Done(GREETING, [7, 1])
  {
    var m, budget: nat := Greeter(), MAX_OUTPUT - 1;
    assert Texts(m, onDevice, [7, 1], [], GREETING, budget) == [];
    assert Generate(m, onDevice, [7, 1], [], GREETING, budget) == Done(GREETING, [7, 1]);
    assert [7] + [1] == [7, 1] && [] + GREETING == GREETING;
  }

  lemma GreetingIsVisible()
    ensures Visible(GREETING) == [0x48, 0x69]
  {
    CharIsWellFormed(GREETING[2..]);
    ConsChar([0x69], GREETING[2..]);
    ConsChar([0x48], [0x69] + GREETING[2..]);
    assert GREETING == [0x48] + ([0x69] + GREETING[2..]) && GREETING[..3] == GREETING;
    assert Boundary(GREETING) == 3;
    assert GREETING[..2] == [0x48, 0x69];
  }

  /** Any such engine on the accelerator, any request for previews, and a world in which the reader
      sees the one word of the answer twice. */
  lemma TheSameWordTwice(c: Config, s: State, r: Request) returns (w: World)
    requires c.Usable() && c.model == Greeter() && s.loaded && s.opencl && !s.at.cancelled && r.hasCallback
    ensures var report := RequestRun(w, c, s, r).report;
      && report.Restarted? && report.Outcome() == Ok(GREETING) && !OneChain(report, r.identity)
      && report.first.shown != [] && report.second.shown != []
  {
    hide AttemptRun, Visible, FullPrefill, TextsOf, RequestRun, Greeter;
    GreeterSays(true, r.prompt);
    GreeterSays(false, r.prompt);
    GreetingIsVisible();
    assert GREETING in TextsOf(c.model, false, r.prompt) && GREETING in TextsOf(c.model, true, r.prompt);
    w := StartsOver(c, s, r);
    RequestIsTruthful(w, c, s, r);
    RequestMoves(w, c, s, r);
  }

  /** What a caller can tell without knowing the model: whatever the model file is, a completed
      request's previews are one chain in every world exactly when the engine is not on the
      accelerator, no previews are asked for, or the request is cancelled already. */
  lemma OneChainForAnyModelIff(c: Config, s: State, r: Request)
    requires c.Usable() && s.loaded
    ensures (forall m: Model, w: World :: OneChain(RequestRun(w, c.(model := m), s, r).report, r.identity))
            <==> !s.opencl || !r.hasCallback || s.at.cancelled
  {
    hide RequestRun, OneChain, Greeter;
    if s.opencl && r.hasCallback && !s.at.cancelled {
      var w := TheSameWordTwice(c.(model := Greeter()), s, r);
    } else {
      forall m: Model, w: World ensures OneChain(RequestRun(w, c.(model := m), s, r).report, r.identity) {
        NeverStartsOver(w, c.(model := m), s, r);
      }
    }
  }

  function GreeterConfig(): (c: Config)
    ensures c.Usable()
  {
    Config(Greeter(), [], 1, 1, true)
  }

  /** A greeter loaded on the accelerator: finding it, probing it, and the two calls of the load. */
  function LoadedGreeter(): State {
    State(Moment(0, 4, 0, 0, 0, false), true, true, 0, Cold)
  }

  /** So it happens to the first request for previews on an engine as the constructor leaves it. */
  lemma NewEngineRepeats(r: Request) returns (w: World)
    requires r.hasCallback
    ensures LoadRun(Undisturbed(), GreeterConfig(), Moment(0, 0, 0, 0, 0, false)) == Some(LoadedGreeter())
    ensures var report := RequestRun(w, GreeterConfig(), LoadedGreeter(), r).report;
      && report.Restarted? && report.Outcome() == Ok(GREETING) && !OneChain(report, r.identity)
      && report.first.shown != [] && report.second.shown != []
  {
    hide RequestRun, OneChain, Greeter;
    w := TheSameWordTwice(GreeterConfig(), LoadedGreeter(), r);
  }
}
