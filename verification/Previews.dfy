/** What the reader of a request's previews sees: within one attempt always a chain of prefixes of
    the reference's running text; over a whole request exactly when it cannot start over after
    something was shown. */
module Previews {
  import opened Outside
  import opened Utf8
  import opened Progressive
  import opened Llama
  import opened Engine
  import opened EngineLaws

  /** Every preview is what some text lets the reader see. */
  ghost predicate FromTexts(shown: seq<Shown>, texts: seq<seq<Byte>>) {
    forall s <- shown :: exists t <- texts :: Visible(t) == s.progress.text
  }

  /** From g to now, a generation passed through `texts` and showed what they let the reader see. */
  ghost predicate Shows(g: Running, now: Running, texts: seq<seq<Byte>>, hasCallback: bool) {
    && Chain(now.stream.shown, now.text, g.stream.request, g.stream.start)
    && (now.stream.shown == [] || now.stream.shown[|now.stream.shown| - 1].at <= now.at.now)
    && (now.text == g.text || now.text in texts) && g.at.now <= now.at.now
    && g.stream.shown <= now.stream.shown
    && FromTexts(now.stream.shown[|g.stream.shown|..], texts)
    && (!hasCallback ==> now.stream.shown == g.stream.shown)
  }

  lemma StepShows(w: World, m: Model, onDevice: bool, hasCallback: bool, g: Running, budget: nat)
    requires Coherent(g.stream, g.text) && g.stream.lastAt <= g.at.now && budget > 0
    ensures var step := StepRun(w, m, onDevice, hasCallback, g); var now := step.now;
      var texts := Texts(m, onDevice, g.kv, g.sampler, g.text, budget);
      && now.stream.request == g.stream.request && now.stream.start == g.stream.start
      && match step
         case Stop(outcome, _) => Shows(g, now, texts, hasCallback) && (outcome.Ok? ==> outcome.text == now.text)
         case Go(_) =>
           && Shows(g, now, [now.text], hasCallback)
           && Coherent(now.stream, now.text) && now.stream.lastAt <= now.at.now
           && texts == [now.text] + Texts(m, onDevice, now.kv, now.sampler, now.text, budget - 1)
  {
    hide PublishRun, Shows, Coherent;
    var polled := AfterRead(w, g.at);
    var step := StepRun(w, m, onDevice, hasCallback, g);
    var (token, sampler) := m.sample(g.sampler, m.logits(onDevice, g.kv));
    var texts := Texts(m, onDevice, g.kv, g.sampler, g.text, budget);
    if polled.cancelled || m.isEndOfGeneration(token) || m.piece(token).None? {
      NothingShows(g, step.now, texts, hasCallback);
    } else {
      var piece := m.piece(token).value;
      assert texts[0] == g.text + piece;
      PublishShows(w, hasCallback, g, piece, polled, step.now, texts);
      PublishShows(w, hasCallback, g, piece, polled, step.now, [g.text + piece]);
    }
  }

  lemma NothingShows(g: Running, now: Running, texts: seq<seq<Byte>>, hasCallback: bool)
    requires Coherent(g.stream, g.text) && g.stream.lastAt <= g.at.now
    requires now.text == g.text && now.stream == g.stream && now.at.now >= g.at.now
    ensures Shows(g, now, texts, hasCallback)
  {
  }

  lemma PublishShows(w: World, hasCallback: bool, g: Running, piece: seq<Byte>, at: Moment, now: Running,
                     texts: seq<seq<Byte>>)
    requires Coherent(g.stream, g.text) && g.stream.lastAt <= g.at.now == at.now
    requires var p := PublishRun(w, hasCallback, g.stream, g.text + piece, at);
             now.text == g.text + piece && now.stream == p.stream && now.at.now == p.at.now
    requires g.text + piece in texts
    ensures var p := PublishRun(w, hasCallback, g.stream, g.text + piece, at);
      && Shows(g, now, texts, hasCallback) && now.stream.lastAt <= now.at.now
      && now.stream.request == g.stream.request && now.stream.start == g.stream.start
      && (!p.threw ==> Coherent(now.stream, now.text))
  {
    hide PublishRun, Chain, FromTexts;
    PublishKeepsChain(w, hasCallback, g.stream, g.text, piece, at);
    PublishAppends(w, hasCallback, g.stream, g.text + piece, at, texts);
  }

  lemma PublishAppends(w: World, hasCallback: bool, s: Stream, text: seq<Byte>, at: Moment, texts: seq<seq<Byte>>)
    requires (s.shown != [] ==> s.shown[|s.shown| - 1].at <= at.now) && text in texts
    ensures var p := PublishRun(w, hasCallback, s, text, at);
      && p.at.now >= at.now
      && (p.stream.shown != [] ==> p.stream.shown[|p.stream.shown| - 1].at <= p.at.now)
      && s.shown <= p.stream.shown && FromTexts(p.stream.shown[|s.shown|..], texts)
      && (!hasCallback ==> p.stream == s)
  {
    hide Boundary, Visible;
    var p := PublishRun(w, hasCallback, s, text, at);
    if p.stream.shown != s.shown {
      assert p.stream.shown[|s.shown|..] == [Preview(s, Visible(text), AfterTick(w, at).now)];
    }
  }

  lemma NothingShown(request: Metadata, start: nat)
    ensures Chain([], [], request, start) && Coherent(Opened(request, start), [])
  {
  }

  lemma {:induction false} GenerationShows(w: World, m: Model, onDevice: bool, hasCallback: bool, g: Running,
                                           budget: nat)
    requires Coherent(g.stream, g.text) && g.stream.lastAt <= g.at.now
    ensures var e := GenerateRun(w, m, onDevice, hasCallback, g, budget);
      && Shows(g, e.now, Texts(m, onDevice, g.kv, g.sampler, g.text, budget), hasCallback)
      && (e.outcome.Ok? ==> e.outcome.text == e.now.text)
    decreases budget
  {
    hide StepRun, Shows, Texts, Coherent;
    if budget == 0 {
      NothingShows(g, g, Texts(m, onDevice, g.kv, g.sampler, g.text, 0), hasCallback);
    } else {
      StepShows(w, m, onDevice, hasCallback, g, budget);
      var step := StepRun(w, m, onDevice, hasCallback, g);
      if step.Go? {
        var now := step.now;
        GenerationShows(w, m, onDevice, hasCallback, now, budget - 1);
        ShowsBoth(g, now, GenerateRun(w, m, onDevice, hasCallback, now, budget - 1).now,
                  Texts(m, onDevice, now.kv, now.sampler, now.text, budget - 1), hasCallback);
      }
    }
  }

  lemma ShowsBoth(a: Running, b: Running, c: Running, rest: seq<seq<Byte>>, hasCallback: bool)
    requires Shows(a, b, [b.text], hasCallback) && Shows(b, c, rest, hasCallback)
    requires b.stream.request == a.stream.request && b.stream.start == a.stream.start
    ensures Shows(a, c, [b.text] + rest, hasCallback)
  {
    hide Chain, FromTexts;
    FromBoth(a.stream.shown, b.stream.shown, c.stream.shown, b.text, rest);
  }

  lemma FromBoth(a: seq<Shown>, b: seq<Shown>, c: seq<Shown>, text: seq<Byte>, rest: seq<seq<Byte>>)
    requires a <= b <= c && FromTexts(b[|a|..], [text]) && FromTexts(c[|b|..], rest)
    ensures FromTexts(c[|a|..], [text] + rest)
  {
    hide Visible;
    var texts := [text] + rest;
    assert c[|a|..] == b[|a|..] + c[|b|..];
    forall s <- b[|a|..] ensures exists t <- texts :: Visible(t) == s.progress.text {
      assert text in texts;
    }
    forall s <- c[|b|..] ensures exists t <- texts :: Visible(t) == s.progress.text {
      var t :| t in rest && Visible(t) == s.progress.text;
      assert t in texts;
    }
  }

  /** The previews of one attempt, completed or not, are a chain of prefixes of what the reference
      on its backend passes through, and of the result if there is one. */
  lemma AttemptShows(w: World, c: Config, s: State, r: Request)
    requires c.Usable()
    ensures var a := AttemptRun(w, c, s, r); var texts := TextsOf(c.model, s.opencl, r.prompt);
      && Chain(a.shown, a.text, r.identity, a.start) && (a.text == [] || a.text in texts)
      && (a.outcome.Ok? ==> a.text == a.outcome.text)
      && FromTexts(a.shown, texts)
      && (!r.hasCallback ==> a.shown == [])
      && s.at.now <= a.start && a.start <= a.end.now
      && (a.shown != [] ==> a.shown[|a.shown| - 1].at <= a.end.now)
  {
    hide Chain, Visible, Generate, Texts, GenerateRun, PrefillRun, PrepareRun, Configuration, Coherent;
    NothingShown(r.identity, s.at.now);
    var polled := AfterRead(w, s.at);
    var started := AfterTick(w, polled);
    NothingShown(r.identity, started.now);
    if !polled.cancelled && ChatTokens(c.model, r.prompt).Success? {
      var tokens := ChatTokens(c.model, r.prompt).value;
      AttemptIsReference(w, c, s, r);
      var prepared := PrepareRun(w, s.cache, r.cached, r.identity.session, Configuration(c, r), tokens, started);
      var rest := if prepared.reused < |tokens| then |tokens| - prepared.reused else 0;
      PrepareTakesNoTime(w, s.cache, r, Configuration(c, r), tokens, started);
      PrefillTakesNoTime(w, rest, c.batch, prepared.at);
      var p := PrefillRun(w, rest, c.batch, prepared.at);
      var g := Starting(c.model, r, tokens, started.now, p.at);
      GenerationShows(w, c.model, s.opencl, r.hasCallback, g, MAX_OUTPUT);
      var shown := GenerateRun(w, c.model, s.opencl, r.hasCallback, g, MAX_OUTPUT).now.stream.shown;
      assert shown[0..] == shown;
    }
  }

  /** The first visible time of a completed attempt is not after its completion, and a preview is
      never visible before 80 ms. */
  lemma FirstVisibleInTime(w: World, c: Config, s: State, r: Request, inputTokens: nat, outputTokens: int)
    requires c.Usable()
    ensures var a := AttemptRun(w, c, s, r);
      var stats := StatsOf(inputTokens, a.reused, outputTokens, s.fallbackCount, a.shown, r.hasCallback,
                           a.end.now - a.start);
      && 0 <= stats.firstVisibleMs <= stats.completeMs
      && (a.shown != [] ==> stats.firstVisibleMs >= 80)
      && (a.shown == [] && r.hasCallback ==> stats.firstVisibleMs == stats.completeMs)
  {
    hide AttemptRun, WellFormed;
    AttemptShows(w, c, s, r);
    var a := AttemptRun(w, c, s, r);
    if a.shown != [] {
      ChainIsChronological(a.shown, a.text, r.identity, a.start);
    }
  }

  /** What is promised of a whole completed request: its previews are one chain, under one start. */
  ghost predicate OneChain(report: Report, identity: Metadata) {
    report.Outcome().Ok? ==> exists start :: Chain(report.Observed(), report.Outcome().text, identity, start)
  }

  /** The reference's running text lets the reader see something on this backend. */
  ghost predicate Speaks(m: Model, onDevice: bool, prompt: seq<Byte>) {
    exists t <- TextsOf(m, onDevice, prompt) :: Visible(t) != []
  }

  /** Whether a failure can make the reader of this request see its text start over: the request may
      fall back, its translation on the CPU exists, and something that can have been shown on the
      accelerator is followed by previews from the CPU, or is no prefix of the CPU's text. */
  ghost predicate CanStartOver(c: Config, s: State, r: Request) {
    && s.opencl && r.hasCallback && !s.at.cancelled
    && FullPrefill(c.model, false, r.prompt).Done?
    && exists t <- TextsOf(c.model, true, r.prompt) :: Visible(t) != [] &&
         (Speaks(c.model, false, r.prompt) || !(Visible(t) <= FullPrefill(c.model, false, r.prompt).text))
  }

  /** Two attempts that both show something never form one chain: their clocks start 80 ms apart. */
  lemma TwoStartsNoChain(first: Attempt, second: Attempt, text: seq<Byte>, identity: Metadata, start: nat)
    requires first.shown != [] && second.shown != []
    requires Chain(first.shown, first.text, identity, first.start)
    requires Chain(second.shown, second.text, identity, second.start)
    requires first.shown[|first.shown| - 1].at <= second.start
    ensures !Chain(first.shown + second.shown, text, identity, start)
  {
    hide WellFormed;
    var all := first.shown + second.shown;
    var a, b := first.shown[0], second.shown[0];
    assert all[0] == a && all[|first.shown|] == b;
    ChainIsChronological(first.shown, first.text, identity, first.start);
    assert Stamped(a, identity, first.start) && Stamped(b, identity, second.start);
    assert Chain(all, text, identity, start) ==>
        Stamped(all[0], identity, start) && Stamped(all[|first.shown|], identity, start);
    SameFloor(a.at, first.start, start);
    SameFloor(b.at, second.start, start);
  }

  lemma SameFloor(at: nat, start: nat, other: nat)
    ensures (at - start) / NS_PER_MS == (at - other) / NS_PER_MS ==>
              start < other + NS_PER_MS && other < start + NS_PER_MS
  {
  }

  /** In no world does a request show more than one chain, unless it can start over. */
  lemma NeverStartsOver(w: World, c: Config, s: State, r: Request)
    requires c.Usable() && s.loaded && !CanStartOver(c, s, r)
    ensures OneChain(RequestRun(w, c, s, r).report, r.identity)
  {
    hide AttemptRun, Chain, TextsOf, FullPrefill, CanStartOver;
    var report := RequestRun(w, c, s, r).report;
    AttemptShows(w, c, s, r);
    RestartsIff(w, c, s, r);
    if report.Direct? {
      assert report.Outcome().Ok? ==> Chain(report.Observed(), report.Outcome().text, r.identity, report.first.start);
    } else {
      var loading := InitializeRun(w, c, AfterRead(w, report.first.end));
      var moved := State(loading.at, false, true, s.fallbackCount + 1, Cold);
      AttemptShows(w, c, moved, r);
      AttemptIsReference(w, c, moved, r);
      if report.Outcome().Ok? {
        OneAttemptShows(c, s, r, report.first, report.second);
      }
    }
  }

  lemma OneAttemptShows(c: Config, s: State, r: Request, first: Attempt, second: Attempt)
    requires s.opencl && !s.at.cancelled && !CanStartOver(c, s, r)
    requires Chain(first.shown, first.text, r.identity, first.start)
    requires FromTexts(first.shown, TextsOf(c.model, true, r.prompt))
    requires Chain(second.shown, second.text, r.identity, second.start)
    requires FromTexts(second.shown, TextsOf(c.model, false, r.prompt))
    requires !r.hasCallback ==> first.shown == []
    requires second.outcome == Ok(second.text) && OutcomeOf(FullPrefill(c.model, false, r.prompt)) == second.outcome
    ensures OneChain(Restarted(first, second), r.identity)
  {
    hide Chain, TextsOf, Visible, FullPrefill;
    var text, report := second.text, Restarted(first, second);
    if first.shown == [] {
      assert report.Observed() == second.shown;
      assert Chain(report.Observed(), text, r.identity, second.start);
    } else {
      ShownSpeaks(first.shown, first.text, r.identity, first.start, TextsOf(c.model, true, r.prompt));
      if second.shown != [] {
        ShownSpeaks(second.shown, second.text, r.identity, second.start, TextsOf(c.model, false, r.prompt));
        assert false;
      }
      assert report.Observed() == first.shown;
      AllPrefixes(first.shown, first.text, text, r.identity, first.start, TextsOf(c.model, true, r.prompt));
      assert Chain(report.Observed(), text, r.identity, first.start);
    }
  }

  lemma ShownSpeaks(shown: seq<Shown>, text: seq<Byte>, identity: Metadata, start: nat, texts: seq<seq<Byte>>)
    requires shown != [] && Chain(shown, text, identity, start) && FromTexts(shown, texts)
    ensures exists t <- texts :: Visible(t) != []
  {
    hide Visible;
    var s := shown[0];
    assert s in shown && s.progress.text != [];
  }

  lemma AllPrefixes(shown: seq<Shown>, text: seq<Byte>, result: seq<Byte>, identity: Metadata, start: nat,
                    texts: seq<seq<Byte>>)
    requires Chain(shown, text, identity, start) && FromTexts(shown, texts)
    requires forall t <- texts :: Visible(t) != [] ==> Visible(t) <= result
    ensures Chain(shown, result, identity, start)
  {
    hide Visible, WellFormed;
    forall i | 0 <= i < |shown| ensures shown[i].progress.text <= result {
      assert shown[i] in shown && shown[i].progress.text != [];
    }
  }
}
