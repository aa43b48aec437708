/** What a translation is, said of the model file alone: a prompt is rendered and tokenised, and
    tokens are drawn one after another, each from the logits of everything before it. Whole
    sequences of draws stand here against the recursion of the reference. */
module Transcripts {
  import opened Outside
  import opened Utf8
  import opened CacheKey
  import opened Llama
  import opened Engine
  import opened EngineLaws

  /** The tokens of a prompt that the engine accepts. */
  ghost predicate IsPrompt(m: Model, prompt: seq<Byte>, tokens: seq<Token>) {
    && m.template.Some?
    && var chat := m.render(m.template.value, prompt);
    && chat.Some? && chat.value != []
    && 0 < m.countTokens(chat.value) <= 2048 - 384
    && tokens == m.tokenize(chat.value) && |tokens| == m.countTokens(chat.value)
  }

  /** Which prompts are refused, and how. */
  lemma PromptErrors(m: Model, prompt: seq<Byte>)
    ensures var result := ChatTokens(m, prompt);
      && (forall tokens :: result == Success(tokens) <==> IsPrompt(m, prompt, tokens))
      && (result == Failure(MissingTemplate) <==> m.template.None?)
      && (m.template.Some? ==>
            var chat := m.render(m.template.value, prompt);
            && (result == Failure(UnsupportedTemplate) <==> chat.None? || chat.value == [])
            && (chat.Some? && chat.value != [] ==>
                  var count := m.countTokens(chat.value);
                  && (result == Failure(InputTooLong) <==> count <= 0 || count > 2048 - 384)
                  && (result == Failure(TokenizationFailed) <==>
                        0 < count <= 2048 - 384 && |m.tokenize(chat.value)| != count)))
  {
  }

  /** What is sampled after the drawn tokens, and the sampler it leaves. */
  function Sampled(m: Model, onDevice: bool, tokens: seq<Token>, sampler: SamplerState, drawn: seq<Token>)
    : (Token, SamplerState)
  {
    m.sample(sampler, m.logits(onDevice, tokens + drawn))
  }

  /** Tokens drawn after a prompt, and the sampler before each of them and after the last. */
  ghost predicate AreDraws(m: Model, onDevice: bool, tokens: seq<Token>, samplers: seq<SamplerState>,
                           drawn: seq<Token>)
  {
    && |samplers| == |drawn| + 1 && samplers[0] == m.freshSampler
    && forall i :: 0 <= i < |drawn| ==>
         && Sampled(m, onDevice, tokens, samplers[i], drawn[..i]) == (drawn[i], samplers[i + 1])
         && !m.isEndOfGeneration(drawn[i]) && m.piece(drawn[i]).Some?
  }

  /** The pieces of some tokens, one after another. */
  function Written(m: Model, drawn: seq<Token>): seq<Byte> {
    if drawn == [] then []
    else
      var before, piece := Written(m, drawn[..|drawn| - 1]), m.piece(drawn[|drawn| - 1]);
      if piece.None? then before else before + piece.value
  }

  /** These draws end in this generation: at the end token, at a token without a piece, or at the limit. */
  ghost predicate EndsIn(m: Model, onDevice: bool, tokens: seq<Token>, samplers: seq<SamplerState>, drawn: seq<Token>,
                         limit: nat, g: Generation)
  {
    && AreDraws(m, onDevice, tokens, samplers, drawn)
    && var next := Sampled(m, onDevice, tokens, samplers[|drawn|], drawn).0;
    match g
    case Done(text, evaluated) =>
      && |drawn| < limit && m.isEndOfGeneration(next)
      && text == Written(m, drawn) && evaluated == tokens + drawn
    case Failed(InvalidToken) => |drawn| < limit && !m.isEndOfGeneration(next) && m.piece(next).None?
    case Failed(OutputTooLong) => |drawn| == limit
    case Failed(_) => false
  }

  lemma OneMoreDraw(m: Model, onDevice: bool, tokens: seq<Token>, samplers: seq<SamplerState>, drawn: seq<Token>)
    requires AreDraws(m, onDevice, tokens, samplers, drawn)
    ensures var (token, sampler) := Sampled(m, onDevice, tokens, samplers[|drawn|], drawn);
      !m.isEndOfGeneration(token) && m.piece(token).Some? ==>
        && AreDraws(m, onDevice, tokens, samplers + [sampler], drawn + [token])
        && Written(m, drawn + [token]) == Written(m, drawn) + m.piece(token).value
  {
    hide Sampled;
    var (token, sampler) := Sampled(m, onDevice, tokens, samplers[|drawn|], drawn);
    var longer := drawn + [token];
    assert longer[..|drawn|] == drawn;
    assert forall i :: 0 <= i < |drawn| ==> longer[..i] == drawn[..i];
  }

  /** The recursion goes through a sequence of draws. */
  lemma {:induction false} GenerateDraws(m: Model, onDevice: bool, tokens: seq<Token>, samplers: seq<SamplerState>,
                                         drawn: seq<Token>, budget: nat)
      returns (samplers': seq<SamplerState>, drawn': seq<Token>)
    requires AreDraws(m, onDevice, tokens, samplers, drawn)
    ensures EndsIn(m, onDevice, tokens, samplers', drawn', |drawn| + budget,
                   Generate(m, onDevice, tokens + drawn, samplers[|drawn|], Written(m, drawn), budget))
    decreases budget
  {
    samplers', drawn' := samplers, drawn;
    if budget > 0 {
      var (token, sampler) := Sampled(m, onDevice, tokens, samplers[|drawn|], drawn);
      if !m.isEndOfGeneration(token) && m.piece(token).Some? {
        OneMoreDraw(m, onDevice, tokens, samplers, drawn);
        hide AreDraws, Written;
        assert tokens + drawn + [token] == tokens + (drawn + [token]);
        samplers', drawn' := GenerateDraws(m, onDevice, tokens, samplers + [sampler], drawn + [token], budget - 1);
      }
    }
  }

  /** Two sequences of draws agree as far as both go. */
  lemma {:induction false} DrawsAgree(m: Model, onDevice: bool, tokens: seq<Token>, a: seq<SamplerState>, x: seq<Token>,
                                      b: seq<SamplerState>, y: seq<Token>, n: nat)
    requires AreDraws(m, onDevice, tokens, a, x) && AreDraws(m, onDevice, tokens, b, y) && n <= |x| && n <= |y|
    ensures x[..n] == y[..n] && a[n] == b[n]
  {
    if n > 0 {
      DrawsAgree(m, onDevice, tokens, a, x, b, y, n - 1);
      assert Sampled(m, onDevice, tokens, a[n - 1], x[..n - 1]) == (x[n - 1], a[n]);
      assert Sampled(m, onDevice, tokens, b[n - 1], y[..n - 1]) == (y[n - 1], b[n]);
      assert x[..n] == x[..n - 1] + [x[n - 1]] && y[..n] == y[..n - 1] + [y[n - 1]];
    }
  }

  lemma NotAnEnd(m: Model, onDevice: bool, tokens: seq<Token>, samplers: seq<SamplerState>, drawn: seq<Token>, n: nat)
    requires AreDraws(m, onDevice, tokens, samplers, drawn) && n < |drawn|
    ensures var token := Sampled(m, onDevice, tokens, samplers[n], drawn[..n]).0;
            !m.isEndOfGeneration(token) && m.piece(token).Some?
  {
    assert Sampled(m, onDevice, tokens, samplers[n], drawn[..n]) == (drawn[n], samplers[n + 1]);
  }

  lemma OneEnd(m: Model, onDevice: bool, tokens: seq<Token>, a: seq<SamplerState>, x: seq<Token>, g: Generation,
               b: seq<SamplerState>, y: seq<Token>, h: Generation, limit: nat)
    requires EndsIn(m, onDevice, tokens, a, x, limit, g) && EndsIn(m, onDevice, tokens, b, y, limit, h)
    requires |x| <= |y|
    ensures g == h
  {
    hide Written, AreDraws, Sampled;
    DrawsAgree(m, onDevice, tokens, a, x, b, y, |x|);
    assert x[..|x|] == x;
    assert y[..|y|] == y;
    if |x| < |y| {
      NotAnEnd(m, onDevice, tokens, b, y, |x|);
      assert false;
    }
  }

  /** The reference is exactly this: some sequence of at most 384 draws from a fresh sampler after the
      prompt's tokens ends in it. */
  lemma ReferenceIff(m: Model, onDevice: bool, prompt: seq<Byte>, tokens: seq<Token>, g: Generation)
    requires IsPrompt(m, prompt, tokens)
    ensures FullPrefill(m, onDevice, prompt) == g
            <==> exists samplers, drawn :: EndsIn(m, onDevice, tokens, samplers, drawn, 384, g)
  {
    hide EndsIn, Generate, IsPrompt, AreDraws;
    PromptErrors(m, prompt);
    NoDraws(m, onDevice, tokens);
    var a, x := GenerateDraws(m, onDevice, tokens, [m.freshSampler], [], 384);
    var reference := FullPrefill(m, onDevice, prompt);
    assert tokens + [] == tokens;
    if exists samplers, drawn :: EndsIn(m, onDevice, tokens, samplers, drawn, 384, g) {
      var b, y :| EndsIn(m, onDevice, tokens, b, y, 384, g);
      if |x| <= |y| {
        OneEnd(m, onDevice, tokens, a, x, reference, b, y, g, 384);
      } else {
        OneEnd(m, onDevice, tokens, b, y, g, a, x, reference, 384);
      }
    }
  }

  lemma NoDraws(m: Model, onDevice: bool, tokens: seq<Token>)
    ensures AreDraws(m, onDevice, tokens, [m.freshSampler], []) && Written(m, []) == []
  {
  }

  /** So a completed attempt accepted this request's prompt, drew its tokens on its backend, evaluated
      the prompt's tokens and those, and returned their pieces. */
  lemma CompletedAttempt(w: World, c: Config, s: State, r: Request)
      returns (tokens: seq<Token>, samplers: seq<SamplerState>, drawn: seq<Token>)
    requires c.Usable() && AttemptRun(w, c, s, r).outcome.Ok?
    ensures IsPrompt(c.model, r.prompt, tokens)
    ensures AreDraws(c.model, s.opencl, tokens, samplers, drawn) && |drawn| < 384
    ensures c.model.isEndOfGeneration(Sampled(c.model, s.opencl, tokens, samplers[|drawn|], drawn).0)
    ensures AttemptRun(w, c, s, r).evaluated == tokens + drawn
    ensures AttemptRun(w, c, s, r).outcome.text == Written(c.model, drawn)
  {
    hide AttemptRun, Generate, IsPrompt, AreDraws;
    AttemptIsReference(w, c, s, r);
    var a := AttemptRun(w, c, s, r);
    PromptErrors(c.model, r.prompt);
    tokens := ChatTokens(c.model, r.prompt).value;
    var g := Done(a.outcome.text, a.evaluated);
    ReferenceIff(c.model, s.opencl, r.prompt, tokens, g);
    samplers, drawn :| EndsIn(c.model, s.opencl, tokens, samplers, drawn, 384, g);
  }

  lemma {:induction false} CommonPrefixIsLongest(left: seq<Token>, right: seq<Token>, n: nat)
    requires n <= |left| && n <= |right| && left[..n] == right[..n]
    ensures n <= CommonPrefix(left, right)
  {
    if n > 0 {
      assert left[0] == left[..n][0] == right[..n][0] == right[0];
      assert left[1..][..n - 1] == left[..n][1..] == right[..n][1..] == right[1..][..n - 1];
      CommonPrefixIsLongest(left[1..], right[1..], n - 1);
    }
  }

  /** With a cache of the same session and configuration and no refused trim, an attempt keeps all that
      the cached prompt and its own share, but for the last shared token. */
  lemma KeepsWhatIsShared(w: World, c: Config, s: State, r: Request)
    requires c.Usable() && AttemptRun(w, c, s, r).outcome.Ok? && c.model.template.Some?
    requires r.cached && s.cache.Warm? && s.cache.session == r.identity.session
    requires s.cache.configuration == Key(c.path, r.identity.scope, c.model.template.value) && !w.refuses(s.at.trims)
    ensures exists tokens :: IsPrompt(c.model, r.prompt, tokens)
                             && Keeps(AttemptRun(w, c, s, r).reused, s.cache.tokens, tokens)
  {
    hide GenerateRun, PrefillRun;
    PromptErrors(c.model, r.prompt);
    var tokens, cached := ChatTokens(c.model, r.prompt).value, s.cache.tokens;
    forall n: nat | n <= |cached| && n <= |tokens| && cached[..n] == tokens[..n]
      ensures n <= CommonPrefix(cached, tokens)
    {
      CommonPrefixIsLongest(cached, tokens, n);
    }
    assert IsPrompt(c.model, r.prompt, tokens) && Keeps(AttemptRun(w, c, s, r).reused, cached, tokens);
  }

  ghost predicate Keeps(reused: nat, cached: seq<Token>, tokens: seq<Token>) {
    && (forall n: nat :: 0 < n <= |cached| && n <= |tokens| && cached[..n] == tokens[..n] ==> reused >= n - 1)
    && (reused > 0 ==> reused < |cached| && reused < |tokens| && cached[..reused + 1] == tokens[..reused + 1])
  }
}
