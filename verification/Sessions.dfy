/** Whole runs of the engine: any sequence of requests, cancellations and resets in any world, and
    the expectations of the native regression program. */
module Sessions {
  import opened Outside
  import opened CacheKey
  import opened Llama
  import opened Engine
  import opened EngineLaws
  import HyMt

  datatype Call = Translate(request: Request) | Cancel | ResetCancellation

  /** A served request of a run. */
  datatype Entry = Entry(request: Request, report: Report)

  datatype Session = Session(log: seq<Entry>, state: State)

  /** Every call is served in turn, until a failed reload has left no context. */
  ghost function SessionRun(w: World, c: Config, s: State, calls: seq<Call>): Session
    requires c.Usable()
    decreases |calls|
  {
    if calls == [] || !s.loaded then Session([], s)
    else
      match calls[0]
      case Cancel => SessionRun(w, c, s.(at := s.at.(cancelled := true)), calls[1..])
      case ResetCancellation => SessionRun(w, c, s.(at := s.at.(cancelled := false)), calls[1..])
      case Translate(r) =>
        var served := RequestRun(w, c, s, r);
        var rest := SessionRun(w, c, served.state, calls[1..]);
        Session([Entry(r, served.report)] + rest.log, rest.state)
  }

  method Serve(e: HyMt.HyMt, calls: seq<Call>) returns (log: seq<Entry>)
    requires e.Valid() && e.context != null
    modifies e, e.context, e.env
    ensures Session(log, e.AsState()) == SessionRun(e.env.world, e.config, old(e.AsState()), calls)
    ensures e.Valid() && (e.context == null || e.context == old(e.context) || fresh(e.context))
  {
    hide RequestRun;
    log := [];
    var next := 0;
    while next < |calls| && e.context != null
      invariant next <= |calls| && e.Valid()
      invariant e.context == null || e.context == old(e.context) || fresh(e.context)
      invariant SessionRun(e.env.world, e.config, old(e.AsState()), calls)
                == var rest := SessionRun(e.env.world, e.config, e.AsState(), calls[next..]);
                   Session(log + rest.log, rest.state)
      decreases |calls| - next
    {
      ghost var rest := calls[next..];
      assert rest[0] == calls[next] && rest[1..] == calls[next + 1..];
      match calls[next] {
      case Cancel => e.env.Cancel();
      case ResetCancellation => e.env.ResetCancellation();
      case Translate(r) =>
        var report := e.Serve(r);
        log := log + [Entry(r, report)];
      }
      next := next + 1;
    }
  }

  /** The requests among the calls. */
  function Requests(calls: seq<Call>): seq<Request> {
    if calls == [] then []
    else if calls[0].Translate? then [calls[0].request] + Requests(calls[1..])
    else Requests(calls[1..])
  }

  function RequestsOf(log: seq<Entry>): (requests: seq<Request>)
    ensures |requests| == |log|
  {
    if log == [] then [] else [log[0].request] + RequestsOf(log[1..])
  }

  predicate ReloadLost(e: Entry) {
    e.report.Outcome() == Threw(ReloadFailed)
  }

  /** How often the log moves the engine to the CPU. */
  function Moves(log: seq<Entry>): nat {
    if log == [] then 0
    else (if log[0].report.Restarted? && !ReloadLost(log[0]) then 1 else 0) + Moves(log[1..])
  }

  /** Every request is answered, in order; or all are up to one whose reload fails, and that one ends the run. */
  ghost predicate Answers(log: seq<Entry>, requests: seq<Request>, loaded: bool) {
    && RequestsOf(log) <= requests
    && (loaded ==> RequestsOf(log) == requests)
    && (!loaded ==> log != [] && ReloadLost(log[|log| - 1]))
    && (forall i :: 0 <= i < |log| && ReloadLost(log[i]) ==> i == |log| - 1 && !loaded)
  }

  lemma {:induction false} EveryRequestIsServed(w: World, c: Config, s: State, calls: seq<Call>)
    requires c.Usable() && s.loaded
    ensures var session := SessionRun(w, c, s, calls);
            Answers(session.log, Requests(calls), session.state.loaded)
    decreases |calls|
  {
    hide RequestRun, Answers;
    if calls == [] {
      NothingToAnswer();
    } else {
      match calls[0]
      case Cancel => EveryRequestIsServed(w, c, s.(at := s.at.(cancelled := true)), calls[1..]);
      case ResetCancellation => EveryRequestIsServed(w, c, s.(at := s.at.(cancelled := false)), calls[1..]);
      case Translate(r) =>
        OnlyReloadsLose(w, c, s, r);
        var served := RequestRun(w, c, s, r);
        var rest := SessionRun(w, c, served.state, calls[1..]);
        if served.state.loaded {
          EveryRequestIsServed(w, c, served.state, calls[1..]);
        }
        AnswersFirst(Entry(r, served.report), rest.log, Requests(calls[1..]), served.state.loaded, rest.state.loaded);
    }
  }

  lemma NothingToAnswer()
    ensures Answers([], [], true)
  {
  }

  lemma AnswersFirst(first: Entry, rest: seq<Entry>, requests: seq<Request>, kept: bool, loaded: bool)
    requires !ReloadLost(first) <==> kept
    requires if kept then Answers(rest, requests, loaded) else rest == [] && !loaded
    ensures Answers([first] + rest, [first.request] + requests, loaded)
  {
    var log := [first] + rest;
    assert log[1..] == rest && RequestsOf(log) == [first.request] + RequestsOf(rest);
  }

  lemma OnlyReloadsLose(w: World, c: Config, s: State, r: Request)
    requires c.Usable() && s.loaded
    ensures var served := RequestRun(w, c, s, r);
            served.state.loaded <==> served.report.Outcome() != Threw(ReloadFailed)
  {
    hide AttemptRun;
    AttemptKeepsContext(w, c, s, r);
    RequestMoves(w, c, s, r);
  }

  /** Every outcome of a run that does not blame the world is the reference's, on the backend it finished on. */
  lemma {:induction false} RunsAreTruthful(w: World, c: Config, s: State, calls: seq<Call>)
    requires c.Usable()
    ensures forall e <- SessionRun(w, c, s, calls).log :: !Blames(e.report.Outcome()) ==>
              e.report.Outcome() == Reference(c.model, e.report.Last().onDevice, e.request.prompt)
    decreases |calls|
  {
    hide RequestRun, Reference;
    if calls != [] && s.loaded {
      match calls[0]
      case Cancel => RunsAreTruthful(w, c, s.(at := s.at.(cancelled := true)), calls[1..]);
      case ResetCancellation => RunsAreTruthful(w, c, s.(at := s.at.(cancelled := false)), calls[1..]);
      case Translate(r) =>
        RequestIsTruthful(w, c, s, r);
        RunsAreTruthful(w, c, RequestRun(w, c, s, r).state, calls[1..]);
    }
  }

  /** Over a whole run, whatever was cached, cancelled or lost in between: any two requests for the
      same prompt that complete on the same backend return the same text, cached or not. */
  lemma SamePromptSameText(w: World, c: Config, s: State, calls: seq<Call>, i: nat, j: nat)
    requires c.Usable()
    requires var log := SessionRun(w, c, s, calls).log;
      && i < |log| && j < |log| && log[i].request.prompt == log[j].request.prompt
      && log[i].report.Outcome().Ok? && log[j].report.Outcome().Ok?
      && log[i].report.Last().onDevice == log[j].report.Last().onDevice
    ensures var log := SessionRun(w, c, s, calls).log; log[i].report.Outcome() == log[j].report.Outcome()
  {
    hide RequestRun, Reference, SessionRun;
    RunsAreTruthful(w, c, s, calls);
    var log := SessionRun(w, c, s, calls).log;
    assert log[i] in log && log[j] in log;
  }

  /** The accelerator is never returned to, and at most one request changes backend. */
  ghost predicate OneWay(log: seq<Entry>) {
    && (forall i, j :: 0 <= i < j < |log| && log[j].report.first.onDevice ==>
          log[i].report.Direct? && log[i].report.first.onDevice)
    && (forall i, j :: 0 <= i < j < |log| && log[i].report.Restarted? ==> log[j].report.Direct?)
  }

  /** The log of an engine that starts on the given backend and ends on another. */
  ghost predicate Between(log: seq<Entry>, before: bool, after: bool) {
    && (log != [] ==> log[0].report.first.onDevice == before)
    && (!before ==> forall e <- log :: e.report.Direct? && !e.report.first.onDevice)
    && (after ==> forall e <- log :: e.report.Direct? && e.report.first.onDevice)
    && (after ==> before)
  }

  /** A run's restarts are one way, and the engine counts them. */
  lemma {:induction false} RunsAreOneWay(w: World, c: Config, s: State, calls: seq<Call>)
    requires c.Usable() && s.loaded
    ensures var session := SessionRun(w, c, s, calls);
      && OneWay(session.log)
      && Between(session.log, s.opencl, session.state.loaded && session.state.opencl)
      && session.state.fallbackCount == s.fallbackCount + Moves(session.log)
      && (session.state.loaded ==> session.state.opencl == (s.opencl && Moves(session.log) == 0))
    decreases |calls|
  {
    hide RequestRun;
    if calls != [] {
      match calls[0]
      case Cancel => RunsAreOneWay(w, c, s.(at := s.at.(cancelled := true)), calls[1..]);
      case ResetCancellation => RunsAreOneWay(w, c, s.(at := s.at.(cancelled := false)), calls[1..]);
      case Translate(r) =>
        RequestMoves(w, c, s, r);
        OnlyReloadsLose(w, c, s, r);
        var served := RequestRun(w, c, s, r);
        if served.state.loaded {
          RunsAreOneWay(w, c, served.state, calls[1..]);
        }
        var first, rest := Entry(r, served.report), SessionRun(w, c, served.state, calls[1..]);
        assert ([first] + rest.log)[1..] == rest.log;
        FirstKeepsOneWay(first, rest.log, s.opencl, rest.state.loaded && rest.state.opencl);
    }
  }

  lemma FirstKeepsOneWay(first: Entry, rest: seq<Entry>, before: bool, after: bool)
    requires first.report.first.onDevice == before && (first.report.Restarted? ==> before)
    requires rest == [] || Between(rest, before && first.report.Direct?, after)
    requires OneWay(rest) && (after ==> before && first.report.Direct?)
    ensures OneWay([first] + rest) && Between([first] + rest, before, after)
  {
    var log := [first] + rest;
    assert forall i :: 1 <= i < |log| ==> log[i] == rest[i - 1] && log[i] in rest;
  }

  predicate NoReset(calls: seq<Call>) {
    forall call <- calls :: !call.ResetCancellation?
  }

  /** A cancellation is sticky: every request after it fails as cancelled, and costs nothing, until a reset. */
  lemma {:induction false} CancelsUntilReset(w: World, c: Config, s: State, calls: seq<Call>)
    requires c.Usable() && s.loaded && NoReset(calls)
    requires s.at.cancelled || (calls != [] && calls[0].Cancel?)
    ensures var session := SessionRun(w, c, s, calls);
      && RequestsOf(session.log) == Requests(calls)
      && (forall e <- session.log :: e.report.Direct? && e.report.Outcome() == Threw(Cancelled))
      && session.state.loaded && session.state.opencl == s.opencl && session.state.fallbackCount == s.fallbackCount
      && (calls != [] ==> session.state.at.cancelled)
      && session.state.at.calls == s.at.calls
    decreases |calls|
  {
    hide RequestRun;
    if calls != [] {
      match calls[0]
      case Cancel => CancelsUntilReset(w, c, s.(at := s.at.(cancelled := true)), calls[1..]);
      case Translate(r) =>
        CancelledRequest(w, c, s, r);
        RequestMoves(w, c, s, r);
        var served := RequestRun(w, c, s, r);
        CancelsUntilReset(w, c, served.state, calls[1..]);
        var rest := SessionRun(w, c, served.state, calls[1..]);
        assert ([Entry(r, served.report)] + rest.log)[1..] == rest.log;
    }
  }

  /** After a reset a request is served again: with nothing going wrong, as if nothing had been cancelled. */
  lemma ResetServes(w: World, c: Config, s: State, r: Request)
    requires c.Usable() && s.loaded && Quiet(w, s.at.(cancelled := false))
    ensures var log := SessionRun(w, c, s, [ResetCancellation, Translate(r)]).log;
      && |log| == 1 && log[0].request == r
      && var reference := Reference(c.model, s.opencl, r.prompt);
         log[0].report.Outcome() ==
           if s.opencl && reference.Threw? then Reference(c.model, false, r.prompt) else reference
  {
    hide RequestRun, Reference;
    var reset := s.(at := s.at.(cancelled := false));
    QuietRequest(w, c, reset, r);
    var calls := [ResetCancellation, Translate(r)];
    assert calls[1..] == [Translate(r)] && calls[1..][1..] == [];
    assert SessionRun(w, c, s, calls) == SessionRun(w, c, reset, [Translate(r)]);
    var served := RequestRun(w, c, reset, r);
    assert SessionRun(w, c, served.state, []) == Session([], served.state);
  }

  /** Exactly one of: on the accelerator, and moved away from it once. */
  ghost predicate Consistent(c: Config, s: State) {
    if c.preferOpenCL then s.fallbackCount + (if s.opencl then 1 else 0) == 1 else s.fallbackCount == 0 && !s.opencl
  }

  /** When construction succeeds, and on which backend: the accelerator is used exactly if it is
      preferred, found, probed and loaded; anything less is counted as a fallback. */
  lemma Constructed(w: World, c: Config, at: Moment)
    ensures !c.Usable() ==> LoadRun(w, c, at).None?
    ensures c.Usable() && !c.preferOpenCL ==> (LoadRun(w, c, at).None? <==> FailedIn(w, at.calls, at.calls + 2))
    ensures c.Usable() && c.preferOpenCL && !FailedIn(w, at.calls, at.calls + 4) ==> LoadRun(w, c, at).Some?
    ensures LoadRun(w, c, at).Some? ==> var s := LoadRun(w, c, at).value;
      && s.loaded && s.cache == Cold && Consistent(c, s) && s.at.cancelled == at.cancelled
      && (s.opencl <==> c.preferOpenCL && !FailedIn(w, at.calls, at.calls + 4))
  {
    var n := at.calls;
    assert FailedIn(w, n, n + 2) <==> w.fails(n) || w.fails(n + 1);
    assert FailedIn(w, n, n + 4) <==> w.fails(n) || w.fails(n + 1) || w.fails(n + 2) || w.fails(n + 3);
  }

  /** A missing, unusable or failing accelerator does not stop construction: after the first of its four
      calls to fail, the engine is loaded on the CPU, unless one of the two calls of that load fails too. */
  lemma ConstructedOnCpu(w: World, c: Config, at: Moment, f: nat)
    requires c.Usable() && c.preferOpenCL && at.calls <= f < at.calls + 4
    requires w.fails(f) && !FailedIn(w, at.calls, f)
    ensures LoadRun(w, c, at).Some? <==> !FailedIn(w, f + 1, f + 3)
    ensures LoadRun(w, c, at).Some? ==> !LoadRun(w, c, at).value.opencl && LoadRun(w, c, at).value.fallbackCount == 1
  {
    assert forall k :: at.calls <= k < f ==> !w.fails(k);
    assert FailedIn(w, f + 1, f + 3) <==> w.fails(f + 1) || w.fails(f + 2);
  }

  lemma {:induction false} RunsStayConsistent(w: World, c: Config, s: State, calls: seq<Call>)
    requires c.Usable() && Consistent(c, s)
    ensures Consistent(c, SessionRun(w, c, s, calls).state)
    decreases |calls|
  {
    hide RequestRun;
    if calls != [] && s.loaded {
      match calls[0]
      case Cancel => RunsStayConsistent(w, c, s.(at := s.at.(cancelled := true)), calls[1..]);
      case ResetCancellation => RunsStayConsistent(w, c, s.(at := s.at.(cancelled := false)), calls[1..]);
      case Translate(r) =>
        RequestMoves(w, c, s, r);
        RunsStayConsistent(w, c, RequestRun(w, c, s, r).state, calls[1..]);
    }
  }

  /** Over an engine's whole life, from its constructor on, it falls back at most once, counts it,
      and has the accelerator exactly when it was preferred and nothing was counted. */
  lemma WholeLife(w: World, c: Config, now: nat, calls: seq<Call>)
    requires LoadRun(w, c, Moment(0, 0, 0, 0, now, false)).Some?
    ensures var s := LoadRun(w, c, Moment(0, 0, 0, 0, now, false)).value;
      && c.Usable()
      && var end := SessionRun(w, c, s, calls).state;
         end.fallbackCount <= 1 && (end.opencl <==> c.preferOpenCL && end.fallbackCount == 0)
  {
    var start := Moment(0, 0, 0, 0, now, false);
    Constructed(w, c, start);
    RunsStayConsistent(w, c, LoadRun(w, c, start).value, calls);
  }

  /** The tokens an attempt keeps in memory: none unless the identity matches and the trim succeeds,
      else the shared prefix but one, and never the whole prompt. */
  lemma ReusesExactly(w: World, c: Config, s: State, r: Request)
    requires c.Usable() && AttemptRun(w, c, s, r).outcome.Ok?
    ensures ChatTokens(c.model, r.prompt).Success?
    ensures var tokens := ChatTokens(c.model, r.prompt).value; var a := AttemptRun(w, c, s, r);
      && a.reused == (if IdentityMatches(s.cache, r.cached, r.identity.session, Configuration(c, r))
                         && !w.refuses(s.at.trims)
                      then Kept(s.cache.tokens, tokens) else 0)
      && a.reused < |tokens|
  {
    hide GenerateRun, PrefillRun, Configuration;
  }

  /** What a request leaves in the cache: its prompt under its identity after a cached success, else nothing. */
  lemma CacheNamesRequest(w: World, c: Config, s: State, r: Request)
    requires c.Usable()
    ensures var served := RequestRun(w, c, s, r);
      if served.report.Outcome().Ok? && r.cached then
        && ChatTokens(c.model, r.prompt).Success?
        && served.state.cache == Warm(ChatTokens(c.model, r.prompt).value, Configuration(c, r), r.identity.session)
      else served.state.cache == Cold
  {
    hide EvaluateRun, Configuration, InitializeRun;
  }

  /** Repeating a request reuses all of its prompt but the last token, and changes nothing it returns. */
  lemma RepeatedRequest(w: World, c: Config, s: State, r: Request, again: Request)
    requires c.Usable() && s.loaded && r.cached && again == r.(hasCallback := again.hasCallback)
    ensures var first := RequestRun(w, c, s, r); var second := RequestRun(w, c, first.state, again).report;
      first.report.Outcome().Ok? && second.Outcome().Ok? && second.Direct? ==>
        && second.Outcome() == first.report.Outcome()
        && second.first.reused ==
             if w.refuses(first.state.at.trims) then 0 else |ChatTokens(c.model, r.prompt).value| - 1
  {
    hide AttemptRun, Reference, RequestRun, Configuration, CommonPrefix;
    var first := RequestRun(w, c, s, r);
    var second := RequestRun(w, c, first.state, again).report;
    if first.report.Outcome().Ok? && second.Outcome().Ok? && second.Direct? {
      RequestMoves(w, c, s, r);
      RequestIsTruthful(w, c, s, r);
      RequestIsTruthful(w, c, first.state, again);
      RequestMoves(w, c, first.state, again);
      CacheNamesRequest(w, c, s, r);
      RestartsIff(w, c, first.state, again);
      ReusesExactly(w, c, first.state, again);
      SamePromptIsWholePrefix(ChatTokens(c.model, r.prompt).value);
      SameConfiguration(c, r, again);
    }
  }

  lemma SameConfiguration(c: Config, r: Request, again: Request)
    requires c.model.template.Some? && r.identity == again.identity
    ensures Configuration(c, r) == Configuration(c, again)
  {
  }

  lemma {:induction false} SamePromptIsWholePrefix(tokens: seq<Token>)
    ensures CommonPrefix(tokens, tokens) == |tokens|
  {
    if tokens != [] {
      SamePromptIsWholePrefix(tokens[1..]);
    }
  }

  /** A request of another session or another cache scope starts cold, even for the same prompt. */
  lemma ChangedIdentity(w: World, c: Config, s: State, r: Request, other: Request)
    requires c.Usable() && s.loaded
    requires r.identity.session != other.identity.session || r.identity.scope != other.identity.scope
    ensures var first := RequestRun(w, c, s, r); var second := RequestRun(w, c, first.state, other).report;
            second.Outcome().Ok? ==> second.Last().reused == 0
  {
    hide AttemptRun, RequestRun, InitializeRun, Kept;
    var first := RequestRun(w, c, s, r);
    CacheNamesRequest(w, c, s, r);
    if c.model.template.Some? {
      var format := c.model.template.value;
      KeyIsInjective(c.path, r.identity.scope, format, c.path, other.identity.scope, format);
    }
    ReusedByLast(w, c, first.state, other);
  }

  /** An uncached request and one that fails leave no cache, so the request after it starts cold. */
  lemma AfterUncachedOrFailed(w: World, c: Config, s: State, r: Request, next: Request)
    requires c.Usable() && s.loaded
    ensures var first := RequestRun(w, c, s, r); var second := RequestRun(w, c, first.state, next).report;
            (!r.cached || first.report.Outcome().Threw?) && second.Outcome().Ok? ==> second.Last().reused == 0
  {
    hide AttemptRun, RequestRun, Kept;
    CacheNamesRequest(w, c, s, r);
    ReusedByLast(w, c, RequestRun(w, c, s, r).state, next);
  }

  /** A second attempt reuses nothing. */
  lemma ReusedByLast(w: World, c: Config, s: State, r: Request)
    requires c.Usable()
    ensures var a := RequestRun(w, c, s, r).report.Last();
      a.outcome.Ok? ==>
        && ChatTokens(c.model, r.prompt).Success?
        && (!IdentityMatches(s.cache, r.cached, r.identity.session, Configuration(c, r)) ==> a.reused == 0)
  {
    hide AttemptRun, Kept, Configuration;
    var first := AttemptRun(w, c, s, r);
    if first.outcome.Ok? { ReusesExactly(w, c, s, r); }
    var loading := InitializeRun(w, c, AfterRead(w, first.end));
    var moved := State(loading.at, false, true, s.fallbackCount + 1, Cold);
    if AttemptRun(w, c, moved, r).outcome.Ok? { ReusesExactly(w, c, moved, r); }
  }
}
