/** The OPUS decoder: greedy decoding over a merged network whose key/value tensors are fed
    back from step to step, against greedy decoding that recomputes every prefix. */
module Opus {
  import opened Outside

  type Tensor(!new)
  type Hidden(!new)
  type Token = int

  const MAX_STEPS := 256

  /** A logit, or the minus infinity that rules a token out. */
  datatype Score = NegInf | Fin(value: real)

  predicate Less(a: Score, b: Score) {
    match (a, b)
    case (_, NegInf) => false
    case (NegInf, Fin(_)) => true
    case (Fin(x), Fin(y)) => x < y
  }

  datatype Attention = Decoder | Encoder
  datatype Kind = KeyTensor | ValueTensor
  /** The tensors of one decoder layer, as their names spell them out. */
  datatype Slot = Slot(layer: nat, attention: Attention, kind: Kind)

  datatype InputName = EncoderMask | InputIds | EncoderHidden | Past(slot: Slot) | UseCacheBranch
  datatype OutputName = Logits | Present(slot: Slot)

  /** The four tensors of each layer in the order the names are generated. */
  function SlotAt(i: nat): Slot {
    Slot(i / 4, if i % 4 < 2 then Decoder else Encoder, if i % 4 == 0 || i % 4 == 2 then KeyTensor else ValueTensor)
  }

  function Pasts(count: nat): seq<InputName> {
    seq(count, i requires 0 <= i => Past(SlotAt(i)))
  }

  function Presents(count: nat): seq<OutputName> {
    seq(count, i requires 0 <= i => Present(SlotAt(i)))
  }

  function InputNames(layers: nat): seq<InputName> {
    [EncoderMask, InputIds, EncoderHidden] + Pasts(layers * 4) + [UseCacheBranch]
  }

  function OutputNames(layers: nat): seq<OutputName> {
    [Logits] + Presents(layers * 4)
  }

  lemma NoNames()
    ensures Pasts(0) == [] && Presents(0) == []
  {
  }

  lemma NamesExtend(count: nat)
    ensures Pasts(count + 1) == Pasts(count) + [Past(SlotAt(count))]
    ensures Presents(count + 1) == Presents(count) + [Present(SlotAt(count))]
  {
  }

  /** The constructor's name lists, in its own nested order. */
  method Names(layers: nat) returns (inNames: seq<InputName>, outNames: seq<OutputName>)
    ensures inNames == InputNames(layers) && outNames == OutputNames(layers)
  {
    hide Pasts, Presents;
    inNames := [EncoderMask, InputIds, EncoderHidden];
    outNames := [Logits];
    NoNames();
    for layer := 0 to layers
      invariant inNames == [EncoderMask, InputIds, EncoderHidden] + Pasts(layer * 4)
      invariant outNames == [Logits] + Presents(layer * 4)
    {
      for a := 0 to 2
        invariant inNames == [EncoderMask, InputIds, EncoderHidden] + Pasts(layer * 4 + a * 2)
        invariant outNames == [Logits] + Presents(layer * 4 + a * 2)
      {
        for k := 0 to 2
          invariant inNames == [EncoderMask, InputIds, EncoderHidden] + Pasts(layer * 4 + a * 2 + k)
          invariant outNames == [Logits] + Presents(layer * 4 + a * 2 + k)
        {
          var slot := Slot(layer, if a == 0 then Decoder else Encoder, if k == 0 then KeyTensor else ValueTensor);
          NamesExtend(layer * 4 + a * 2 + k);
          assert slot == SlotAt(layer * 4 + a * 2 + k);
          inNames := inNames + [Past(slot)];
          outNames := outNames + [Present(slot)];
        }
      }
    }
    inNames := inNames + [UseCacheBranch];
  }

  /** What the loop relies on: input 3+i and output 1+i carry the same tensor, and its position
      modulo four says whether it belongs to self-attention. */
  lemma NamesLineUp(layers: nat, i: nat)
    requires i < layers * 4
    ensures InputNames(layers)[3 + i] == Past(SlotAt(i)) && OutputNames(layers)[1 + i] == Present(SlotAt(i))
    ensures SlotAt(i).attention == Decoder <==> i % 4 < 2
    ensures |InputNames(layers)| == layers * 4 + 4 && InputNames(layers)[1] == InputIds
    ensures InputNames(layers)[layers * 4 + 3] == UseCacheBranch
  {
  }

  lemma NamesAreDistinct(i: nat, j: nat)
    requires SlotAt(i) == SlotAt(j)
    ensures i == j
  {
  }

  /** The merged network. `logits`, `selfKv` and `crossKv` say what it means on a whole token
      sequence; the `cached` functions are what its cached branch computes from fed-back tensors. */
  datatype Network = Network(
    layers: nat,
    startId: Token, eosId: Token, padId: Token,
    vocabulary: nat,
    logits: (Hidden, seq<Token>) -> seq<real>,
    selfKv: (Slot, Hidden, seq<Token>) -> Tensor,
    crossKv: (Slot, Hidden) -> Tensor,
    cachedLogits: (Hidden, Token, seq<Tensor>) -> seq<real>,
    cachedKv: (Slot, Hidden, Token, seq<Tensor>) -> Tensor)

  /** The fed-back tensors hold the self-attention of `tokens` and the cross-attention of the encoder output. */
  ghost predicate HoldsKv(net: Network, hidden: Hidden, tokens: seq<Token>, past: seq<Tensor>) {
    && |past| == net.layers * 4
    && forall i :: 0 <= i < |past| ==>
         past[i] == if i % 4 < 2 then net.selfKv(SlotAt(i), hidden, tokens) else net.crossKv(SlotAt(i), hidden)
  }

  /** What is assumed of the exported model: its cached branch agrees with its meaning whenever
      it is fed consistent tensors. Nothing is assumed of the cross-attention it then outputs. */
  ghost predicate CachedBranchAgrees(net: Network) {
    forall hidden, tokens, token, past | HoldsKv(net, hidden, tokens, past) ::
      && net.cachedLogits(hidden, token, past) == net.logits(hidden, tokens + [token])
      && forall i :: 0 <= i < |past| && i % 4 < 2 ==>
           net.cachedKv(SlotAt(i), hidden, token, past) == net.selfKv(SlotAt(i), hidden, tokens + [token])
  }

  /** Feed entries are views: the token and the branch flag are read where they live. */
  datatype Value =
    | IntView(ints: array<Token>)
    | FlagView(flags: array<bool>)
    | HiddenValue(hidden: Hidden)
    | KvValue(tensor: Tensor)
    | EmptyKv

  datatype Outcome =
    | Decoded(tokens: seq<Token>) | UnexpectedShape | TokenLimit
    | Cancelled | RunFailed      // from outside

  /** Greedy decoding without any cache. */
  function Greedy(net: Network, hidden: Hidden, tokens: seq<Token>, budget: nat): Outcome
    requires 0 <= net.padId < net.vocabulary && tokens != []
    decreases budget
  {
    if budget == 0 then TokenLimit
    else
      var logits := net.logits(hidden, tokens);
      if |logits| != net.vocabulary then UnexpectedShape
      else
        var token := FirstMax(Masked(logits, net.padId));
        if token == net.eosId then Decoded(tokens[1..])
        else Greedy(net, hidden, tokens + [token], budget - 1)
  }

  datatype Decoding = Decoding(outcome: Outcome, at: Moment)

  /** Greedy decoding in a world that may interrupt it before a step or fail the step's run. */
  function DecodeRun(net: Network, w: World, hidden: Hidden, tokens: seq<Token>, budget: nat, at: Moment): Decoding
    requires 0 <= net.padId < net.vocabulary && tokens != []
    decreases budget
  {
    if budget == 0 then Decoding(TokenLimit, at)
    else
      var polled := AfterRead(w, at);
      if polled.cancelled then Decoding(Cancelled, polled)
      else if w.fails(polled.calls) then Decoding(RunFailed, AfterCall(polled))
      else
        var logits := net.logits(hidden, tokens);
        if |logits| != net.vocabulary then Decoding(UnexpectedShape, AfterCall(polled))
        else
          var token := FirstMax(Masked(logits, net.padId));
          if token == net.eosId then Decoding(Decoded(tokens[1..]), AfterCall(polled))
          else DecodeRun(net, w, hidden, tokens + [token], budget - 1, AfterCall(polled))
  }

  function TranslateRun(net: Network, w: World, hidden: Hidden, at: Moment): Decoding
    requires 0 <= net.padId < net.vocabulary
  {
    var polled := AfterRead(w, at);
    if polled.cancelled then Decoding(Cancelled, polled)
    else DecodeRun(net, w, hidden, [net.startId], MAX_STEPS, polled)
  }

  /** Decoding is exactly greedy unless the flag was found set or a run failed, and then it says so. */
  lemma {:induction false} DecodingIsGreedy(net: Network, w: World, hidden: Hidden, tokens: seq<Token>, budget: nat,
                                            at: Moment)
    requires 0 <= net.padId < net.vocabulary && tokens != [] && !at.cancelled
    ensures var d := DecodeRun(net, w, hidden, tokens, budget, at);
      && Later(w, at, d.at)
      && (d.outcome == Cancelled || d.outcome == RunFailed <==> Disturbed(w, at, d.at))
      && (!Disturbed(w, at, d.at) ==> d.outcome == Greedy(net, hidden, tokens, budget))
    decreases budget
  {
    hide Masked, FirstMax;
    if budget > 0 {
      GreedyUnfolds(net, hidden, tokens, budget);
      var polled := AfterRead(w, at);
      var next := AfterCall(polled);
      assert Later(w, at, polled) && Later(w, at, next);
      var logits := net.logits(hidden, tokens);
      if !polled.cancelled && !w.fails(polled.calls) && |logits| == net.vocabulary
         && FirstMax(Masked(logits, net.padId)) != net.eosId {
        var longer := tokens + [FirstMax(Masked(logits, net.padId))];
        DecodingIsGreedy(net, w, hidden, longer, budget - 1, next);
        var end := DecodeRun(net, w, hidden, longer, budget - 1, next).at;
        LaterTransitive(w, at, next, end);
        DisturbedAfterCalm(w, at, next, end);
      }
    }
  }

  lemma {:induction false} DecodingLooks(net: Network, w: World, hidden: Hidden, tokens: seq<Token>, budget: nat,
                                         at: Moment)
    requires 0 <= net.padId < net.vocabulary && tokens != []
    ensures var d := DecodeRun(net, w, hidden, tokens, budget, at);
      d.outcome.Decoded? ==>
        && |d.outcome.tokens| + 1 >= |tokens|
        && d.at.polls == at.polls + (|d.outcome.tokens| + 1 - |tokens|) + 1
        && d.at.calls == at.calls + (|d.outcome.tokens| + 1 - |tokens|) + 1
    decreases budget
  {
    hide Masked, FirstMax;
    var polled := AfterRead(w, at);
    var logits := net.logits(hidden, tokens);
    if budget > 0 && !polled.cancelled && !w.fails(polled.calls) && |logits| == net.vocabulary
       && FirstMax(Masked(logits, net.padId)) != net.eosId {
      DecodingLooks(net, w, hidden, tokens + [FirstMax(Masked(logits, net.padId))], budget - 1, AfterCall(polled));
    }
  }

  /** A translation looked for a cancellation at its start and before each run, and made one run for
      each token, the end token included. */
  lemma TranslationLooks(net: Network, w: World, hidden: Hidden, at: Moment)
    requires 0 <= net.padId < net.vocabulary && TranslateRun(net, w, hidden, at).outcome.Decoded?
    ensures var d := TranslateRun(net, w, hidden, at); var runs := |d.outcome.tokens| + 1;
            d.at.polls == at.polls + 1 + runs && d.at.calls == at.calls + runs
  {
    hide DecodeRun;
    DecodingLooks(net, w, hidden, [net.startId], MAX_STEPS, AfterRead(w, at));
  }

  lemma TranslationIsGreedy(net: Network, w: World, hidden: Hidden, at: Moment)
    requires 0 <= net.padId < net.vocabulary
    ensures var d := TranslateRun(net, w, hidden, at);
      && Later(w, at, d.at)
      && (d.outcome == Cancelled || d.outcome == RunFailed <==> Disturbed(w, at, d.at))
      && (!Disturbed(w, at, d.at) ==> d.outcome == Greedy(net, hidden, [net.startId], 256))
  {
    hide DecodeRun, Greedy;
    var polled := AfterRead(w, at);
    assert Later(w, at, polled);
    if !polled.cancelled {
      DecodingIsGreedy(net, w, hidden, [net.startId], MAX_STEPS, polled);
      var end := DecodeRun(net, w, hidden, [net.startId], MAX_STEPS, polled).at;
      LaterTransitive(w, at, polled, end);
      DisturbedAfterCalm(w, at, polled, end);
    }
  }

  function Masked(logits: seq<real>, padId: Token): (scores: seq<Score>)
    ensures |scores| == |logits|
  {
    seq(|logits|, i requires 0 <= i < |logits| => if i == padId then NegInf else Fin(logits[i]))
  }

  /** The first position of a greatest score. */
  function FirstMax(scores: seq<Score>): (best: nat)
    requires scores != []
    ensures best < |scores|
    ensures forall i :: 0 <= i < |scores| ==> !Less(scores[best], scores[i])
    ensures forall i :: 0 <= i < best ==> Less(scores[i], scores[best])
  {
    if |scores| == 1 then 0
    else
      var before := FirstMax(scores[..|scores| - 1]);
      if Less(scores[before], scores[|scores| - 1]) then |scores| - 1 else before
  }

  /** The first of the greatest logits with the padding token left aside, as if it had none. */
  ghost predicate IsBest(logits: seq<real>, padId: Token, token: Token) {
    && 0 <= token < |logits| && (token == padId ==> |logits| == 1)
    && (forall i :: 0 <= i < |logits| && i != padId ==> logits[i] <= logits[token])
    && (forall i :: 0 <= i < token && i != padId ==> logits[i] < logits[token])
  }

  lemma BestIff(logits: seq<real>, padId: Token, token: Token)
    requires 0 <= padId < |logits|
    ensures FirstMax(Masked(logits, padId)) == token <==> IsBest(logits, padId, token)
  {
    var scores := Masked(logits, padId);
    var best := FirstMax(scores);
    assert forall i :: 0 <= i < |logits| ==> scores[i] == if i == padId then NegInf else Fin(logits[i]);
    var other := if padId == 0 then 1 else 0;
    assert |logits| > 1 ==> scores[other].Fin?;
    assert forall i :: 0 <= i < |logits| ==> !Less(scores[best], scores[i]);
    assert forall i :: 0 <= i < best ==> Less(scores[i], scores[best]);
  }

  /** Every token is the best one after those before it, and none ends the sequence. */
  ghost predicate AreChosen(net: Network, hidden: Hidden, tokens: seq<Token>) {
    forall i :: 0 <= i < |tokens| ==>
      && |net.logits(hidden, [net.startId] + tokens[..i])| == net.vocabulary && tokens[i] != net.eosId
      && IsBest(net.logits(hidden, [net.startId] + tokens[..i]), net.padId, tokens[i])
  }

  /** These choices end in this outcome. */
  ghost predicate EndsIn(net: Network, hidden: Hidden, tokens: seq<Token>, limit: nat, outcome: Outcome) {
    && AreChosen(net, hidden, tokens)
    && var next := net.logits(hidden, [net.startId] + tokens);
    match outcome
    case Decoded(decoded) =>
      decoded == tokens && |tokens| < limit && |next| == net.vocabulary && IsBest(next, net.padId, net.eosId)
    case UnexpectedShape => |tokens| < limit && |next| != net.vocabulary
    case TokenLimit => |tokens| == limit
    case _ => false
  }

  lemma {:induction false} GreedyChooses(net: Network, hidden: Hidden, tokens: seq<Token>, budget: nat)
      returns (all: seq<Token>)
    requires 0 <= net.padId < net.vocabulary && AreChosen(net, hidden, tokens)
    ensures EndsIn(net, hidden, all, |tokens| + budget, Greedy(net, hidden, [net.startId] + tokens, budget))
    decreases budget
  {
    hide Masked, FirstMax, IsBest;
    all := tokens;
    var logits := net.logits(hidden, [net.startId] + tokens);
    if budget > 0 && |logits| == net.vocabulary {
      var token := FirstMax(Masked(logits, net.padId));
      BestIff(logits, net.padId, token);
      if token != net.eosId {
        var longer := tokens + [token];
        assert longer[..|tokens|] == tokens && forall i :: 0 <= i < |tokens| ==> longer[..i] == tokens[..i];
        assert [net.startId] + tokens + [token] == [net.startId] + longer;
        all := GreedyChooses(net, hidden, longer, budget - 1);
      }
    }
  }

  lemma OneBest(logits: seq<real>, padId: Token, a: Token, b: Token)
    requires 0 <= padId < |logits| && IsBest(logits, padId, a) && IsBest(logits, padId, b)
    ensures a == b
  {
    BestIff(logits, padId, a);
    BestIff(logits, padId, b);
  }

  lemma {:induction false} ChoicesAgree(net: Network, hidden: Hidden, x: seq<Token>, y: seq<Token>, n: nat)
    requires 0 <= net.padId < net.vocabulary && n <= |x| && n <= |y|
    requires AreChosen(net, hidden, x) && AreChosen(net, hidden, y)
    ensures x[..n] == y[..n]
  {
    if n > 0 {
      ChoicesAgree(net, hidden, x, y, n - 1);
      OneBest(net.logits(hidden, [net.startId] + x[..n - 1]), net.padId, x[n - 1], y[n - 1]);
      assert x[..n] == x[..n - 1] + [x[n - 1]] && y[..n] == y[..n - 1] + [y[n - 1]];
    }
  }

  lemma OneEnd(net: Network, hidden: Hidden, x: seq<Token>, a: Outcome, y: seq<Token>, b: Outcome, limit: nat)
    requires 0 <= net.padId < net.vocabulary && |x| <= |y|
    requires EndsIn(net, hidden, x, limit, a) && EndsIn(net, hidden, y, limit, b)
    ensures a == b
  {
    hide IsBest, AreChosen;
    ChoicesAgree(net, hidden, x, y, |x|);
    assert x[..|x|] == x && y[..|y|] == y;
    if |x| < |y| {
      ChosenAt(net, hidden, y, |x|);
      if a.Decoded? {
        OneBest(net.logits(hidden, [net.startId] + x), net.padId, net.eosId, y[|x|]);
      }
      assert false;
    }
  }

  lemma ChosenAt(net: Network, hidden: Hidden, tokens: seq<Token>, n: nat)
    requires AreChosen(net, hidden, tokens) && n < |tokens|
    ensures var logits := net.logits(hidden, [net.startId] + tokens[..n]);
            |logits| == net.vocabulary && tokens[n] != net.eosId && IsBest(logits, net.padId, tokens[n])
  {
  }

  /** Greedy decoding is exactly this: at most 256 tokens, each the best after those before it, until the
      end token is best. The padding token is never among them, unless there is no other. */
  lemma GreedyIff(net: Network, hidden: Hidden, outcome: Outcome)
    requires 0 <= net.padId < net.vocabulary
    ensures Greedy(net, hidden, [net.startId], 256) == outcome
            <==> exists tokens :: EndsIn(net, hidden, tokens, 256, outcome)
    ensures Greedy(net, hidden, [net.startId], 256) == outcome && outcome.Decoded? && net.vocabulary > 1 ==>
              net.padId !in outcome.tokens && |outcome.tokens| < 256
  {
    hide Greedy, AreChosen;
    assert AreChosen(net, hidden, []) by { NothingChosen(net, hidden); }
    assert [net.startId] + [] == [net.startId];
    var x := GreedyChooses(net, hidden, [], 256);
    var greedy := Greedy(net, hidden, [net.startId], 256);
    if net.vocabulary > 1 { NoPadding(net, hidden, x); }
    if exists tokens :: EndsIn(net, hidden, tokens, 256, outcome) {
      var y :| EndsIn(net, hidden, y, 256, outcome);
      if |x| <= |y| {
        OneEnd(net, hidden, x, greedy, y, outcome, 256);
      } else {
        OneEnd(net, hidden, y, outcome, x, greedy, 256);
      }
    }
  }

  lemma NothingChosen(net: Network, hidden: Hidden)
    ensures AreChosen(net, hidden, [])
  {
  }

  lemma NoPadding(net: Network, hidden: Hidden, tokens: seq<Token>)
    requires AreChosen(net, hidden, tokens) && net.vocabulary > 1
    ensures net.padId !in tokens
  {
  }

  method MaxElement(scores: seq<Score>) returns (best: nat)
    requires scores != []
    ensures best == FirstMax(scores)
  {
    best := 0;
    for i := 1 to |scores|
      invariant best < i && best == FirstMax(scores[..i])
    {
      assert scores[..i + 1][..i] == scores[..i];
      if Less(scores[best], scores[i]) { best := i; }
    }
    assert scores[..|scores|] == scores;
  }

  class Session {
    const net: Network
    const env: Environment

    constructor (net: Network, env: Environment)
      ensures this.net == net && this.env == env
    {
      this.net, this.env := net, env;
    }

    /** The feed names every input of the network, in order. */
    ghost predicate WellFed(feed: seq<Value>, hidden: Hidden, token: array<Token>, cached: array<bool>) {
      && |feed| == net.layers * 4 + 4
      && token.Length == 1 && cached.Length == 1
      && feed[1] == IntView(token) && feed[2] == HiddenValue(hidden) && feed[|feed| - 1] == FlagView(cached)
    }

    /** Every key/value input has a tensor. */
    predicate KvFilled(feed: seq<Value>) {
      |feed| == net.layers * 4 + 4 && forall k :: 3 <= k < 3 + net.layers * 4 ==> feed[k].KvValue?
    }

    /** The key/value tensors among the feed. */
    function PastOf(feed: seq<Value>): (past: seq<Tensor>)
      requires KvFilled(feed)
      ensures |past| == net.layers * 4
    {
      seq(net.layers * 4, i requires 0 <= i < net.layers * 4 => feed[3 + i].tensor)
    }

    /** One execution of the merged network: which branch runs, and on which token, is read
        through the feed at the time of the call. The cached branch outputs no cross-attention. */
    method RunDecoder(feed: seq<Value>, hidden: Hidden, token: array<Token>, cached: array<bool>)
      returns (logits: seq<real>, present: seq<Value>)
      requires WellFed(feed, hidden, token, cached)
      requires cached[0] ==> KvFilled(feed)
      ensures |present| == net.layers * 4
      ensures if cached[0] then
                var past := PastOf(feed);
                && logits == net.cachedLogits(hidden, token[0], past)
                && forall i :: 0 <= i < |present| ==>
                     present[i] == if i % 4 < 2 then KvValue(net.cachedKv(SlotAt(i), hidden, token[0], past))
                                   else EmptyKv
              else
                && logits == net.logits(hidden, [token[0]])
                && forall i :: 0 <= i < |present| ==>
                     present[i] == KvValue(if i % 4 < 2 then net.selfKv(SlotAt(i), hidden, [token[0]])
                                           else net.crossKv(SlotAt(i), hidden))
    {
      var input := feed[1].ints[0];
      if feed[|feed| - 1].flags[0] {
        var past := PastOf(feed);
        logits := net.cachedLogits(hidden, input, past);
        present := seq(net.layers * 4, i requires 0 <= i =>
                         if i % 4 < 2 then KvValue(net.cachedKv(SlotAt(i), hidden, input, past)) else EmptyKv);
      } else {
        logits := net.logits(hidden, [input]);
        present := seq(net.layers * 4, i requires 0 <= i =>
                         KvValue(if i % 4 < 2 then net.selfKv(SlotAt(i), hidden, [input])
                                 else net.crossKv(SlotAt(i), hidden)));
      }
    }

    /** Overwrites the feed's tensors with the step's outputs; after the first step only self-attention. */
    method FeedBack(feed: seq<Value>, present: seq<Value>, step: nat) returns (next: seq<Value>)
      requires |feed| == net.layers * 4 + 4 && |present| == net.layers * 4
      ensures |next| == |feed| && next[..3] == feed[..3] && next[|feed| - 1] == feed[|feed| - 1]
      ensures forall k :: 3 <= k < 3 + net.layers * 4 ==>
                next[k] == if step > 0 && (k - 3) % 4 >= 2 then feed[k] else present[k - 3]
    {
      next := feed;
      for i := 0 to net.layers * 4
        invariant |next| == |feed| && next[..3] == feed[..3] && next[|feed| - 1] == feed[|feed| - 1]
        invariant forall k :: 3 <= k < 3 + net.layers * 4 ==>
                    next[k] == if k - 3 >= i || (step > 0 && (k - 3) % 4 >= 2) then feed[k] else present[k - 3]
      {
        if step > 0 && i % 4 >= 2 { continue; }
        next := next[3 + i := present[i]];
      }
    }

    /** A step's outputs: self-attention of every token so far, and cross-attention on the first step only. */
    ghost predicate PresentHolds(present: seq<Value>, hidden: Hidden, tokens: seq<Token>, first: bool) {
      && |present| == net.layers * 4
      && (forall i :: 0 <= i < |present| && i % 4 < 2 ==> present[i] == KvValue(net.selfKv(SlotAt(i), hidden, tokens)))
      && (forall i :: 0 <= i < |present| && i % 4 >= 2 ==>
            present[i] == if first then KvValue(net.crossKv(SlotAt(i), hidden)) else EmptyKv)
    }

    /** The feed before the step for the last of `tokens`. */
    ghost predicate ReadyFor(feed: seq<Value>, hidden: Hidden, tokens: seq<Token>, cached: bool)
      requires tokens != []
    {
      && (cached ==> KvFilled(feed) && HoldsKv(net, hidden, tokens[..|tokens| - 1], PastOf(feed)))
      && (!cached ==> |tokens| == 1)
    }

    /** With consistent tensors fed back, a step computes what a run over the whole sequence would. */
    method Step(feed: seq<Value>, hidden: Hidden, token: array<Token>, cached: array<bool>, ghost tokens: seq<Token>)
      returns (logits: seq<real>, present: seq<Value>)
      requires CachedBranchAgrees(net) && WellFed(feed, hidden, token, cached)
      requires tokens != [] && token[0] == tokens[|tokens| - 1] && ReadyFor(feed, hidden, tokens, cached[0])
      ensures logits == net.logits(hidden, tokens)
      ensures PresentHolds(present, hidden, tokens, !cached[0])
    {
      assert tokens == tokens[..|tokens| - 1] + [token[0]];
      logits, present := RunDecoder(feed, hidden, token, cached);
      if cached[0] {
        assert HoldsKv(net, hidden, tokens[..|tokens| - 1], PastOf(feed));
      } else {
        assert tokens == [token[0]];
      }
    }

    /** Keeping the first step's cross-attention keeps the feed consistent. */
    lemma FeedStaysConsistent(feed: seq<Value>, present: seq<Value>, next: seq<Value>,
                              hidden: Hidden, tokens: seq<Token>, cached: bool)
      requires tokens != [] && ReadyFor(feed, hidden, tokens, cached) && PresentHolds(present, hidden, tokens, !cached)
      requires |feed| == |next| == net.layers * 4 + 4
      requires forall k :: 3 <= k < 3 + net.layers * 4 ==>
                 next[k] == if cached && (k - 3) % 4 >= 2 then feed[k] else present[k - 3]
      ensures KvFilled(next) && HoldsKv(net, hidden, tokens, PastOf(next))
      ensures forall more :: ReadyFor(next, hidden, tokens + [more], true)
    {
    }

    lemma ReadyAtStart(feed: seq<Value>, hidden: Hidden, token: array<Token>, cached: array<bool>)
      requires |feed| == net.layers * 4 + 4 && token.Length == 1 && cached.Length == 1
      requires feed[1] == IntView(token) && feed[2] == HiddenValue(hidden) && feed[|feed| - 1] == FlagView(cached)
      ensures WellFed(feed, hidden, token, cached) && ReadyFor(feed, hidden, [net.startId], false)
    {
    }

    lemma StaysFed(feed: seq<Value>, next: seq<Value>, hidden: Hidden, token: array<Token>, cached: array<bool>)
      requires WellFed(feed, hidden, token, cached) && |next| == |feed|
      requires next[..3] == feed[..3] && next[|feed| - 1] == feed[|feed| - 1]
      ensures WellFed(next, hidden, token, cached)
    {
      assert next[1] == next[..3][1] && next[2] == next[..3][2];
    }

    /** The feed for the first token: empty key/value tensors, and views of the token and the branch flag. */
    method FirstFeed(hidden: Hidden) returns (token: array<Token>, cached: array<bool>, feed: seq<Value>)
      ensures fresh(token) && fresh(cached) && WellFed(feed, hidden, token, cached)
      ensures token[0] == net.startId && !cached[0] && ReadyFor(feed, hidden, [net.startId], false)
    {
      token := new Token[1](_ => net.startId);
      cached := new bool[1](_ => false);
      var mask := new Token[0];
      feed := [IntView(mask), IntView(token), HiddenValue(hidden)]
              + seq(net.layers * 4, i => EmptyKv) + [FlagView(cached)];
      ReadyAtStart(feed, hidden, token, cached);
    }

    /** The feed for the token after `tokens`. */
    method NextFeed(feed: seq<Value>, present: seq<Value>, step: nat,
                    ghost hidden: Hidden, ghost tokens: seq<Token>, token: array<Token>, cached: array<bool>)
      returns (next: seq<Value>)
      requires WellFed(feed, hidden, token, cached) && cached[0] == (step > 0)
      requires tokens != [] && ReadyFor(feed, hidden, tokens, cached[0])
      requires PresentHolds(present, hidden, tokens, !cached[0])
      ensures WellFed(next, hidden, token, cached) && forall more :: ReadyFor(next, hidden, tokens + [more], true)
    {
      hide ReadyFor, KvFilled, HoldsKv, SlotAt;
      next := FeedBack(feed, present, step);
      FeedStaysConsistent(feed, present, next, hidden, tokens, cached[0]);
      StaysFed(feed, next, hidden, token, cached);
    }

    /** The decoding loop. It returns tokens only at the end-of-sequence token. */
    method Translate(hidden: Hidden) returns (outcome: Outcome)
      requires CachedBranchAgrees(net) && 0 <= net.padId < net.vocabulary
      modifies env
      ensures Decoding(outcome, env.at) == TranslateRun(net, env.world, hidden, old(env.at))
    {
      hide SlotAt, HoldsKv, CachedBranchAgrees, PresentHolds, KvFilled, Masked, ReadyFor, WellFed;
      hide DecodeRun, AfterRead, AfterCall;
      var stop := env.LoadCancelled();
      if stop { return Cancelled; }
      ghost var goal := DecodeRun(net, env.world, hidden, [net.startId], MAX_STEPS, env.at);
      var token, cached, feed := FirstFeed(hidden);
      var translated: seq<Token> := [];
      ghost var tokens := [net.startId];
      for step := 0 to MAX_STEPS
        invariant WellFed(feed, hidden, token, cached) && fresh(token) && fresh(cached)
        invariant |translated| == step && cached[0] == (step > 0) && tokens == [net.startId] + translated
        invariant token[0] == tokens[step] && ReadyFor(feed, hidden, tokens, cached[0])
        invariant goal == DecodeRun(net, env.world, hidden, tokens, MAX_STEPS - step, env.at)
      {
        DecodeUnfolds(net, env.world, hidden, tokens, MAX_STEPS - step, env.at);
        stop := env.LoadCancelled();
        if stop { return Cancelled; }
        var ran := env.Call();
        if !ran { return RunFailed; }
        var logits, present := Step(feed, hidden, token, cached, tokens);
        if |logits| != net.vocabulary { return UnexpectedShape; }
        var best := MaxElement(Masked(logits, net.padId));
        if best == net.eosId { return Decoded(translated); }
        feed := NextFeed(feed, present, step, hidden, tokens, token, cached);
        Associates(net.startId, translated, best);
        token[0] := best;
        translated := translated + [best];
        cached[0] := true;
        tokens := tokens + [best];
      }
      DecodeOutOfBudget(net, env.world, hidden, tokens, env.at);
      return TokenLimit;
    }
  }

  lemma Associates(first: Token, middle: seq<Token>, last: Token)
    ensures [first] + middle + [last] == [first] + (middle + [last])
  {
  }

  lemma DecodeUnfolds(net: Network, w: World, hidden: Hidden, tokens: seq<Token>, budget: nat, at: Moment)
    requires 0 <= net.padId < net.vocabulary && tokens != [] && budget > 0
    ensures var logits := net.logits(hidden, tokens); var polled := AfterRead(w, at); var ran := AfterCall(polled);
            DecodeRun(net, w, hidden, tokens, budget, at) ==
            if polled.cancelled then Decoding(Cancelled, polled)
            else if w.fails(polled.calls) then Decoding(RunFailed, ran)
            else if |logits| != net.vocabulary then Decoding(UnexpectedShape, ran)
            else if FirstMax(Masked(logits, net.padId)) == net.eosId then Decoding(Decoded(tokens[1..]), ran)
            else DecodeRun(net, w, hidden, tokens + [FirstMax(Masked(logits, net.padId))], budget - 1, ran)
  {
  }

  lemma DecodeOutOfBudget(net: Network, w: World, hidden: Hidden, tokens: seq<Token>, at: Moment)
    requires 0 <= net.padId < net.vocabulary && tokens != []
    ensures DecodeRun(net, w, hidden, tokens, 0, at) == Decoding(TokenLimit, at)
  {
  }

  lemma GreedyUnfolds(net: Network, hidden: Hidden, tokens: seq<Token>, budget: nat)
    requires 0 <= net.padId < net.vocabulary && tokens != [] && budget > 0
    ensures var logits := net.logits(hidden, tokens);
            Greedy(net, hidden, tokens, budget) ==
            if |logits| != net.vocabulary then UnexpectedShape
            else if FirstMax(Masked(logits, net.padId)) == net.eosId then Decoded(tokens[1..])
            else Greedy(net, hidden, tokens + [FirstMax(Masked(logits, net.padId))], budget - 1)
  {
  }
}
