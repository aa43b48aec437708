/** The laws of an engine: what it returns is the reference translation unless something outside
    went wrong, exactly when it starts over, and what it reuses. */
module EngineLaws {
  import opened Options
  import opened Outside
  import opened Utf8
  import opened Progressive
  import opened Llama
  import opened Engine

  function Reference(m: Model, onDevice: bool, prompt: seq<Byte>): Outcome {
    OutcomeOf(FullPrefill(m, onDevice, prompt))
  }

  /** The outcome blames the world. */
  predicate Blames(o: Outcome) {
    o.Threw? && FromOutside(o.error)
  }

  lemma {:induction false} PrefillBlames(w: World, rest: nat, batch: nat, at: Moment)
    requires batch > 0 && !at.cancelled
    ensures var p := PrefillRun(w, rest, batch, at);
      && Later(w, at, p.at) && (p.error.Some? <==> Disturbed(w, at, p.at))
      && (p.error.Some? ==> FromOutside(p.error.value))
    decreases rest
  {
    if rest > 0 {
      var polled := AfterRead(w, at);
      DecodeBlames(w, polled);
      var next := AfterDecode(w, polled);
      assert Later(w, at, polled);
      if !polled.cancelled {
        LaterTransitive(w, at, polled, next);
        DisturbedAfterCalm(w, at, polled, next);
        if DecodeSucceeds(w, polled) {
          var left := if batch < rest then rest - batch else 0;
          PrefillBlames(w, left, batch, next);
          var end := PrefillRun(w, left, batch, next).at;
          LaterTransitive(w, at, next, end);
          DisturbedAfterCalm(w, at, next, end);
        }
      }
    }
  }

  lemma DecodeBlames(w: World, at: Moment)
    ensures Later(w, at, AfterDecode(w, at))
    ensures !DecodeSucceeds(w, at) <==> Disturbed(w, at, AfterDecode(w, at))
  {
  }

  lemma PublishBlames(w: World, hasCallback: bool, s: Stream, text: seq<Byte>, at: Moment)
    requires !at.cancelled
    ensures var p := PublishRun(w, hasCallback, s, text, at);
            Later(w, at, p.at) && (p.threw <==> Disturbed(w, at, p.at))
  {
    hide Boundary, Visible;
  }

  /** One token: it follows the reference, and it blames the world exactly when it should. */
  lemma StepFollows(w: World, m: Model, onDevice: bool, hasCallback: bool, g: Running, budget: nat)
    requires !g.at.cancelled && budget > 0
    ensures var step := StepRun(w, m, onDevice, hasCallback, g);
      var reference := Generate(m, onDevice, g.kv, g.sampler, g.text, budget);
      && Later(w, g.at, step.now.at)
      && match step
         case Stop(outcome, now) =>
           && (Blames(outcome) <==> Disturbed(w, g.at, now.at))
           && (!Blames(outcome) ==> outcome == OutcomeOf(reference))
           && (outcome.Ok? ==> reference == Done(outcome.text, now.kv))
         case Go(now) =>
           && !Disturbed(w, g.at, now.at)
           && reference == Generate(m, onDevice, now.kv, now.sampler, now.text, budget - 1)
  {
    hide PublishRun;
    var polled := AfterRead(w, g.at);
    assert Later(w, g.at, polled);
    if !polled.cancelled {
      var (token, sampler) := m.sample(g.sampler, m.logits(onDevice, g.kv));
      if !m.isEndOfGeneration(token) && m.piece(token).Some? {
        var p := PublishRun(w, hasCallback, g.stream, g.text + m.piece(token).value, polled);
        PublishBlames(w, hasCallback, g.stream, g.text + m.piece(token).value, polled);
        LaterTransitive(w, g.at, polled, p.at);
        DisturbedAfterCalm(w, g.at, polled, p.at);
        if !p.threw {
          var next := AfterDecode(w, p.at);
          DecodeBlames(w, p.at);
          LaterTransitive(w, g.at, p.at, next);
          DisturbedAfterCalm(w, g.at, p.at, next);
        }
      }
    }
  }

  lemma {:induction false} GenerationFollows(w: World, m: Model, onDevice: bool, hasCallback: bool, g: Running,
                                             budget: nat)
    requires !g.at.cancelled
    ensures var e := GenerateRun(w, m, onDevice, hasCallback, g, budget);
      var reference := Generate(m, onDevice, g.kv, g.sampler, g.text, budget);
      && Later(w, g.at, e.now.at)
      && (Blames(e.outcome) <==> Disturbed(w, g.at, e.now.at))
      && (!Blames(e.outcome) ==> e.outcome == OutcomeOf(reference))
      && (e.outcome.Ok? ==> reference == Done(e.outcome.text, e.now.kv))
    decreases budget
  {
    hide StepRun;
    if budget > 0 {
      StepFollows(w, m, onDevice, hasCallback, g, budget);
      var step := StepRun(w, m, onDevice, hasCallback, g);
      if step.Go? {
        GenerationFollows(w, m, onDevice, hasCallback, step.now, budget - 1);
        var end := GenerateRun(w, m, onDevice, hasCallback, step.now, budget - 1).now.at;
        LaterTransitive(w, g.at, step.now.at, end);
        DisturbedAfterCalm(w, g.at, step.now.at, end);
      }
    }
  }

  /** An attempt, cached or not, returns what a full prefill on its backend returns, its own
      errors included, unless a call failed or the flag was found set; then it says so. */
  lemma AttemptIsReference(w: World, c: Config, s: State, r: Request)
    requires c.Usable()
    ensures var a := AttemptRun(w, c, s, r);
      && a.onDevice == s.opencl && Later(w, s.at, a.end)
      && (Blames(a.outcome) <==> Disturbed(w, s.at, a.end))
      && (!Blames(a.outcome) ==> a.outcome == Reference(c.model, s.opencl, r.prompt))
      && (a.outcome.Ok? ==> FullPrefill(c.model, s.opencl, r.prompt) == Done(a.outcome.text, a.evaluated))
  {
    hide EvaluateRun, Generate, Configuration;
    var polled := AfterRead(w, s.at);
    assert Later(w, s.at, polled);
    if !polled.cancelled {
      var started := AfterTick(w, polled);
      assert Later(w, polled, started);
      LaterTransitive(w, s.at, polled, started);
      DisturbedAfterCalm(w, s.at, polled, started);
      var prepared := ChatTokens(c.model, r.prompt);
      if prepared.Success? {
        EvaluationIsReference(w, c, s.opencl, s.cache, r, prepared.value, started.now, started);
        var end := EvaluateRun(w, c, s.opencl, s.cache, r, prepared.value, started.now, started).end;
        LaterTransitive(w, s.at, started, end);
        DisturbedAfterCalm(w, s.at, started, end);
      }
    }
  }

  lemma EvaluationIsReference(w: World, c: Config, onDevice: bool, cache: Cache, r: Request, tokens: seq<Token>,
                              start: nat, at: Moment)
    requires c.Usable() && c.model.template.Some? && !at.cancelled
    ensures var a := EvaluateRun(w, c, onDevice, cache, r, tokens, start, at);
      var reference := Generate(c.model, onDevice, tokens, c.model.freshSampler, [], MAX_OUTPUT);
      && a.onDevice == onDevice && Later(w, at, a.end)
      && (Blames(a.outcome) <==> Disturbed(w, at, a.end))
      && (!Blames(a.outcome) ==> a.outcome == OutcomeOf(reference))
      && (a.outcome.Ok? ==> reference == Done(a.outcome.text, a.evaluated))
  {
    hide GenerateRun, Generate, Configuration, PrefillRun, Kept;
    var prepared := PrepareRun(w, cache, r.cached, r.identity.session, Configuration(c, r), tokens, at);
    assert Later(w, at, prepared.at) && !Disturbed(w, at, prepared.at);
    var rest := if prepared.reused < |tokens| then |tokens| - prepared.reused else 0;
    var p := PrefillRun(w, rest, c.batch, prepared.at);
    PrefillBlames(w, rest, c.batch, prepared.at);
    LaterTransitive(w, at, prepared.at, p.at);
    DisturbedAfterCalm(w, at, prepared.at, p.at);
    if p.error.None? {
      var g := Starting(c.model, r, tokens, start, p.at);
      GenerationFollows(w, c.model, onDevice, r.hasCallback, g, MAX_OUTPUT);
      var end := GenerateRun(w, c.model, onDevice, r.hasCallback, g, MAX_OUTPUT).now.at;
      LaterTransitive(w, at, p.at, end);
      DisturbedAfterCalm(w, at, p.at, end);
    }
  }

  /** A request starts over exactly when its first attempt fails on the accelerator and the flag is
      not set by the time the handler reads it: a cancelled request never costs the accelerator. */
  lemma RestartsIff(w: World, c: Config, s: State, r: Request)
    requires c.Usable()
    ensures var report := RequestRun(w, c, s, r).report;
      && report.first == AttemptRun(w, c, s, r)
      && (report.Restarted? <==>
            && s.opencl && report.first.outcome.Threw?
            && !s.at.cancelled && !InterruptedIn(w, s.at.polls, report.first.end.polls + 1))
  {
    hide AttemptRun, InitializeRun;
    var first := AttemptRun(w, c, s, r);
    AttemptIsReference(w, c, s, r);
    var handled := AfterRead(w, first.end);
    assert Later(w, first.end, handled);
    LaterTransitive(w, s.at, first.end, handled);
  }

  /** Cancelled before the request: one read of the flag, and nothing else happens. */
  lemma CancelledRequest(w: World, c: Config, s: State, r: Request)
    requires c.Usable() && s.at.cancelled
    ensures var served := RequestRun(w, c, s, r);
      && served.report.Direct? && served.report.Outcome() == Threw(Cancelled) && served.report.Observed() == []
      && served.state.opencl == s.opencl && served.state.loaded == s.loaded
      && served.state.fallbackCount == s.fallbackCount && served.state.cache == Cold
      && served.state.at.calls == s.at.calls
  {
  }

  /** The engine after a request: it moves to the CPU when it starts over, and only then; a reload
      that fails leaves it without a context; anything but a cached success leaves the cache cold. */
  lemma RequestMoves(w: World, c: Config, s: State, r: Request)
    requires c.Usable() && s.loaded
    ensures var served := RequestRun(w, c, s, r); var report := served.report; var after := served.state;
      && Later(w, s.at, after.at)
      && report.first.onDevice == s.opencl && (report.Restarted? ==> s.opencl && !report.second.onDevice)
      && (!after.loaded <==> report.Restarted? && report.second.outcome == Threw(ReloadFailed))
      && (!after.loaded ==> report.Outcome() == Threw(ReloadFailed))
      && (after.loaded ==> after.opencl == (s.opencl && report.Direct?))
      && (after.loaded ==> after.fallbackCount == s.fallbackCount + if report.Restarted? then 1 else 0)
      && (!after.loaded ==> after.opencl == s.opencl && after.fallbackCount == s.fallbackCount)
      && (after.cache.Warm? ==> report.Outcome().Ok? && r.cached)
  {
    hide AttemptRun;
    var first := AttemptRun(w, c, s, r);
    AttemptIsReference(w, c, s, r);
    AttemptKeepsContext(w, c, s, r);
    if first.outcome.Threw? && s.opencl {
      var handled := AfterRead(w, first.end);
      assert Later(w, first.end, handled);
      LaterTransitive(w, s.at, first.end, handled);
      if !handled.cancelled {
        var loading := InitializeRun(w, c, handled);
        assert Later(w, handled, loading.at);
        LaterTransitive(w, s.at, handled, loading.at);
        if loading.ok {
          var moved := State(loading.at, false, true, s.fallbackCount + 1, Cold);
          AttemptIsReference(w, c, moved, r);
          AttemptKeepsContext(w, c, moved, r);
          LaterTransitive(w, s.at, loading.at, AttemptRun(w, c, moved, r).end);
        }
      }
    }
  }

  /** Only a restart reloads. */
  lemma AttemptKeepsContext(w: World, c: Config, s: State, r: Request)
    requires c.Usable()
    ensures AttemptRun(w, c, s, r).outcome != Threw(ReloadFailed)
  {
    hide EvaluateRun, Configuration;
    if ChatTokens(c.model, r.prompt).Success? {
      var tokens, started := ChatTokens(c.model, r.prompt).value, AfterTick(w, AfterRead(w, s.at));
      EvaluationKeepsContext(w, c, s.opencl, s.cache, r, tokens, started.now, started);
    }
  }

  lemma EvaluationKeepsContext(w: World, c: Config, onDevice: bool, cache: Cache, r: Request, tokens: seq<Token>,
                               start: nat, at: Moment)
    requires c.Usable() && c.model.template.Some?
    ensures EvaluateRun(w, c, onDevice, cache, r, tokens, start, at).outcome != Threw(ReloadFailed)
  {
    hide GenerateRun, PrefillRun, PrepareRun, Configuration;
    var prepared := PrepareRun(w, cache, r.cached, r.identity.session, Configuration(c, r), tokens, at);
    var rest := if prepared.reused < |tokens| then |tokens| - prepared.reused else 0;
    PrefillNeverReloads(w, rest, c.batch, prepared.at);
    var p := PrefillRun(w, rest, c.batch, prepared.at);
    GenerationNeverReloads(w, c.model, onDevice, r.hasCallback, Starting(c.model, r, tokens, start, p.at), MAX_OUTPUT);
  }

  lemma {:induction false} PrefillNeverReloads(w: World, rest: nat, batch: nat, at: Moment)
    requires batch > 0
    ensures PrefillRun(w, rest, batch, at).error != Some(ReloadFailed)
    decreases rest
  {
    if rest > 0 {
      PrefillNeverReloads(w, if batch < rest then rest - batch else 0, batch, AfterDecode(w, AfterRead(w, at)));
    }
  }

  lemma {:induction false} GenerationNeverReloads(w: World, m: Model, onDevice: bool, hasCallback: bool, g: Running,
                                                  budget: nat)
    ensures GenerateRun(w, m, onDevice, hasCallback, g, budget).outcome != Threw(ReloadFailed)
    decreases budget
  {
    hide PublishRun;
    if budget > 0 {
      var step := StepRun(w, m, onDevice, hasCallback, g);
      if step.Go? {
        GenerationNeverReloads(w, m, onDevice, hasCallback, step.now, budget - 1);
      }
    }
  }

  /** Every request answers for the backend it finished on: a success is the reference's text, and
      an error that does not blame the world is the reference's own. */
  lemma RequestIsTruthful(w: World, c: Config, s: State, r: Request)
    requires c.Usable()
    ensures var report := RequestRun(w, c, s, r).report;
            !Blames(report.Outcome()) ==> report.Outcome() == Reference(c.model, report.Last().onDevice, r.prompt)
  {
    hide AttemptRun, Reference;
    AttemptIsReference(w, c, s, r);
    var first := AttemptRun(w, c, s, r);
    var handled := AfterRead(w, first.end);
    var loading := InitializeRun(w, c, handled);
    AttemptIsReference(w, c, State(loading.at, false, true, s.fallbackCount + 1, Cold), r);
  }

  /** With nothing going wrong outside, a request gives exactly the reference on the backend the
      engine is on; only an error of the reference itself makes it start over, and then it gives
      exactly the reference on the CPU. */
  lemma QuietRequest(w: World, c: Config, s: State, r: Request)
    requires c.Usable() && s.loaded && Quiet(w, s.at)
    ensures var served := RequestRun(w, c, s, r); var reference := Reference(c.model, s.opencl, r.prompt);
      && served.state.loaded && Quiet(w, served.state.at)
      && (served.report.Restarted? <==> s.opencl && reference.Threw?)
      && served.report.Outcome() ==
           if s.opencl && reference.Threw? then Reference(c.model, false, r.prompt) else reference
  {
    hide AttemptRun, Reference;
    AttemptIsReference(w, c, s, r);
    var first := AttemptRun(w, c, s, r);
    var handled := AfterRead(w, first.end);
    var loading := InitializeRun(w, c, handled);
    var moved := State(loading.at, false, true, s.fallbackCount + 1, Cold);
    AttemptIsReference(w, c, moved, r);
  }

  /** A prompt the engine must refuse is treated like an accelerator failure: unless the flag is set
      at the two reads the request makes, the accelerator is given up for good. */
  lemma RefusedPrompt(w: World, c: Config, s: State, r: Request)
    requires c.Usable() && s.loaded && ChatTokens(c.model, r.prompt).Failure?
    ensures var served := RequestRun(w, c, s, r);
      && served.report.Outcome().Threw?
      && (served.report.Restarted? <==>
            s.opencl && !s.at.cancelled && !w.interrupts(s.at.polls) && !w.interrupts(s.at.polls + 1))
      && (served.report.Restarted? && served.state.loaded ==>
            !served.state.opencl && served.state.fallbackCount == s.fallbackCount + 1)
  {
  }

  lemma {:induction false} PrefillLooks(w: World, tokens: seq<Token>, batch: nat, at: Moment)
    requires batch > 0
    ensures var p, batches := PrefillRun(w, |tokens|, batch, at), |Pieces(tokens, batch)|;
            p.error.None? ==> p.at.polls == at.polls + 2 * batches && p.at.calls == at.calls + batches
    decreases |tokens|
  {
    if tokens != [] && DecodeSucceeds(w, AfterRead(w, at)) {
      PrefillLooks(w, if batch < |tokens| then tokens[batch..] else [], batch, AfterDecode(w, AfterRead(w, at)));
    }
  }

  lemma {:induction false} GenerationLooks(w: World, m: Model, onDevice: bool, hasCallback: bool, g: Running,
                                           budget: nat)
    ensures var e := GenerateRun(w, m, onDevice, hasCallback, g, budget);
      e.outcome.Ok? ==>
        && |g.kv| <= |e.now.kv| && |g.stream.shown| <= |e.now.stream.shown|
        && e.now.at.polls == g.at.polls + 2 * (|e.now.kv| - |g.kv|) + 1
        && e.now.at.calls == g.at.calls + (|e.now.kv| - |g.kv|) + (|e.now.stream.shown| - |g.stream.shown|)
    decreases budget
  {
    hide Visible, Boundary;
    if budget > 0 {
      var step := StepRun(w, m, onDevice, hasCallback, g);
      if step.Go? {
        GenerationLooks(w, m, onDevice, hasCallback, step.now, budget - 1);
      }
    }
  }

  /** How often a completed attempt looked for a cancellation: once at its start, before and in the
      evaluation of each batch of new prompt tokens, before and in that of each generated token, and
      once more before the end token. Its calls are those evaluations and its previews. */
  lemma CompletedLooks(w: World, c: Config, s: State, r: Request)
    requires c.Usable() && AttemptRun(w, c, s, r).outcome.Ok?
    ensures ChatTokens(c.model, r.prompt).Success?
    ensures var tokens, a := ChatTokens(c.model, r.prompt).value, AttemptRun(w, c, s, r);
      && a.reused <= |tokens| <= |a.evaluated| && a.start == s.at.now + w.elapsed(s.at.ticks)
      && var batches, generated := |Pieces(tokens[a.reused..], c.batch)|, |a.evaluated| - |tokens|;
      && a.end.polls == s.at.polls + 1 + 2 * batches + 2 * generated + 1
      && a.end.calls == s.at.calls + batches + generated + |a.shown|
  {
    hide GenerateRun, PrefillRun, Configuration, Pieces;
    var tokens := ChatTokens(c.model, r.prompt).value;
    var started := AfterTick(w, AfterRead(w, s.at));
    var prepared := PrepareRun(w, s.cache, r.cached, r.identity.session, Configuration(c, r), tokens, started);
    PrefillLooks(w, tokens[prepared.reused..], c.batch, prepared.at);
    var p := PrefillRun(w, |tokens| - prepared.reused, c.batch, prepared.at);
    GenerationLooks(w, c.model, s.opencl, r.hasCallback, Starting(c.model, r, tokens, started.now, p.at), MAX_OUTPUT);
  }
}
