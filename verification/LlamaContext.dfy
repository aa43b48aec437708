/** The llama context as the engine sees it: KV memory for one sequence of tokens, and the
    logits left behind by the last decode. The network itself is an unknown function. */
module Llama {
  import opened Options
  import opened Outside
  import opened Utf8

  type Token = int
  type Logits = seq<real>
  type SamplerState = seq<int>

  const CONTEXT_TOKENS := 2048

  /** A model file: what it does is a function of its inputs, and logits depend on the backend
      and the token sequence only. `sample` both picks a token and advances the sampler. */
  datatype Model = Model(
    template: Option<seq<Byte>>,
    render: (seq<Byte>, seq<Byte>) -> Option<seq<Byte>>,
    countTokens: seq<Byte> -> int,
    tokenize: seq<Byte> -> seq<Token>,
    logits: (bool, seq<Token>) -> Logits,
    freshSampler: SamplerState,
    sample: (SamplerState, Logits) -> (Token, SamplerState),
    isEndOfGeneration: Token -> bool,
    piece: Token -> Option<seq<Byte>>)

  /** A sequence of tokens in batches: all but the last one full. */
  function Pieces(tokens: seq<Token>, batch: nat): seq<seq<Token>>
    requires batch > 0
  {
    if tokens == [] then []
    else if |tokens| <= batch then [tokens]
    else [tokens[..batch]] + Pieces(tokens[batch..], batch)
  }

  function Flatten(batches: seq<seq<Token>>): seq<Token> {
    if batches == [] then [] else batches[0] + Flatten(batches[1..])
  }

  /** Each token of a sequence in a batch of its own. */
  function Singles(tokens: seq<Token>): seq<seq<Token>> {
    if tokens == [] then [] else Singles(tokens[..|tokens| - 1]) + [[tokens[|tokens| - 1]]]
  }

  /** The batches tile the tokens: none is empty or too long, and only the last may be short. */
  lemma {:induction false} PiecesTile(tokens: seq<Token>, batch: nat)
    requires batch > 0
    ensures var pieces := Pieces(tokens, batch);
      && Flatten(pieces) == tokens
      && (forall i :: 0 <= i < |pieces| ==> 0 < |pieces[i]| <= batch)
      && (forall i :: 0 <= i < |pieces| - 1 ==> |pieces[i]| == batch)
  {
    if |tokens| > batch {
      var head, rest, pieces := tokens[..batch], tokens[batch..], Pieces(tokens, batch);
      PiecesTile(rest, batch);
      assert pieces == [head] + Pieces(rest, batch) && head + rest == tokens;
      hide Pieces;
      assert pieces[1..] == Pieces(rest, batch);
      forall i | 0 <= i < |pieces| ensures 0 < |pieces[i]| <= batch && (i < |pieces| - 1 ==> |pieces[i]| == batch) {
        assert i > 0 ==> pieces[i] == Pieces(rest, batch)[i - 1];
      }
    } else if tokens != [] {
      assert [tokens][1..] == [];
    }
  }

  /** A decode polls the flag while it computes; set, it aborts the computation. */
  predicate DecodeSucceeds(w: World, at: Moment) {
    !AfterRead(w, at).cancelled && !w.fails(at.calls)
  }

  function AfterDecode(w: World, at: Moment): Moment {
    var polled := AfterRead(w, at);
    if polled.cancelled then polled else AfterCall(polled)
  }

  class LlamaContext {
    const model: Model
    const onDevice: bool
    const batch: nat
    var memory: seq<Token>
    var logits: Logits
    /** Every batch evaluated so far. */
    ghost var batches: seq<seq<Token>>

    constructor (model: Model, onDevice: bool, batch: nat)
      ensures this.model == model && this.onDevice == onDevice && this.batch == batch
      ensures memory == [] && batches == []
    {
      this.model, this.onDevice, this.batch := model, onDevice, batch;
      memory, logits, batches := [], model.logits(onDevice, []), [];
    }

    /** The logits at hand are those of the whole memory. */
    ghost predicate Fresh()
      reads this
    {
      logits == model.logits(onDevice, memory)
    }

    /** -1 when the memory is empty. */
    function PosMax(): int
      reads this
    {
      |memory| - 1
    }

    method Clear()
      modifies this
      ensures memory == [] && batches == old(batches)
    {
      memory, logits := [], *;
    }

    /** Drops every position from `first` on, or reports failure and leaves anything behind. */
    method SeqRm(env: Environment, first: nat) returns (ok: bool)
      modifies this, env
      ensures env.at == AfterTrim(old(env.at)) && ok == !env.world.refuses(old(env.at).trims)
      ensures ok ==> memory == if first <= |old(memory)| then old(memory)[..first] else old(memory)
      ensures batches == old(batches)
    {
      ok := env.Trim();
      logits := *;
      if ok {
        memory := if first <= |memory| then memory[..first] else memory;
      } else {
        memory := *;
      }
    }

    /** Evaluates a batch after the tokens in memory. An abort or an error leaves anything behind.
        llama accepts only non-empty batches that fit both the batch size and the window. */
    method Decode(env: Environment, input: seq<Token>) returns (ok: bool)
      requires 0 < |input| <= batch && |memory| + |input| <= CONTEXT_TOKENS
      modifies this, env
      ensures env.at == AfterDecode(env.world, old(env.at)) && ok == DecodeSucceeds(env.world, old(env.at))
      ensures ok ==> memory == old(memory) + input && Fresh() && batches == old(batches) + [input]
      ensures !ok ==> batches == old(batches)
    {
      var aborted := env.LoadCancelled();
      ok := false;
      if !aborted { ok := env.Call(); }
      if ok {
        memory := memory + input;
        logits := model.logits(onDevice, memory);
        batches := batches + [input];
      } else {
        memory, logits := *, *;
      }
    }
  }
}
