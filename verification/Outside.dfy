/** What an engine does not decide: interruptions by another thread, failures of the calls it makes,
    refused trims, and the passing of time. All of it is fixed in advance, as a function of how
    often the engine has looked; a theorem for every world is one for every such schedule. */
module Outside {

  datatype World = World(
    interrupts: nat -> bool,   // the flag is set by another thread before this read of it
    fails: nat -> bool,        // this call out of the engine fails
    refuses: nat -> bool,      // the memory refuses this trim
    elapsed: nat -> nat)       // the nanoseconds that pass before this reading of the clock

  /** How much of the world an engine has met, the clock, and its cancellation flag. */
  datatype Moment = Moment(polls: nat, calls: nat, trims: nat, ticks: nat, now: nat, cancelled: bool)

  function AfterRead(w: World, at: Moment): Moment {
    at.(polls := at.polls + 1, cancelled := at.cancelled || w.interrupts(at.polls))
  }

  function AfterCall(at: Moment): Moment {
    at.(calls := at.calls + 1)
  }

  function AfterTrim(at: Moment): Moment {
    at.(trims := at.trims + 1)
  }

  function AfterTick(w: World, at: Moment): Moment {
    at.(ticks := at.ticks + 1, now := at.now + w.elapsed(at.ticks))
  }

  /** Every look at the world is a new one. */
  lemma LooksAreNew(w: World, at: Moment)
    ensures AfterRead(w, at).polls == at.polls + 1 && AfterCall(at).calls == at.calls + 1
    ensures AfterTrim(at).trims == at.trims + 1 && AfterTick(w, at).ticks == at.ticks + 1
  {
  }

  /** Whether the flag is set by another thread at one of these reads. */
  ghost predicate InterruptedIn(w: World, first: nat, end: nat) {
    exists k :: first <= k < end && w.interrupts(k)
  }

  ghost predicate FailedIn(w: World, first: nat, end: nat) {
    exists k :: first <= k < end && w.fails(k)
  }

  /** b follows a, and nothing cleared the flag in between. */
  ghost predicate Later(w: World, a: Moment, b: Moment) {
    && a.polls <= b.polls && a.calls <= b.calls && a.trims <= b.trims && a.ticks <= b.ticks && a.now <= b.now
    && (b.cancelled <==> a.cancelled || InterruptedIn(w, a.polls, b.polls))
  }

  /** Between a and b a call failed, or the flag was found set. */
  ghost predicate Disturbed(w: World, a: Moment, b: Moment) {
    b.cancelled || FailedIn(w, a.calls, b.calls)
  }

  /** Nothing goes wrong from here on. */
  ghost predicate Quiet(w: World, at: Moment) {
    && !at.cancelled
    && (forall k :: k >= at.polls ==> !w.interrupts(k))
    && (forall k :: k >= at.calls ==> !w.fails(k))
  }

  lemma LaterTransitive(w: World, a: Moment, b: Moment, c: Moment)
    requires Later(w, a, b) && Later(w, b, c)
    ensures Later(w, a, c)
  {
  }

  lemma DisturbedAfterCalm(w: World, a: Moment, b: Moment, c: Moment)
    requires Later(w, a, b) && Later(w, b, c) && !Disturbed(w, a, b)
    ensures Disturbed(w, a, c) <==> Disturbed(w, b, c)
  {
    if FailedIn(w, a.calls, c.calls) {
      var k :| a.calls <= k < c.calls && w.fails(k);
      assert k >= b.calls;
    }
  }

  /** The flag, the clock and the calls of one engine. */
  class Environment {
    const world: World
    var at: Moment

    constructor (world: World, now: nat)
      ensures this.world == world && at == Moment(0, 0, 0, 0, now, false)
    {
      this.world, at := world, Moment(0, 0, 0, 0, now, false);
    }

    method Cancel()
      modifies this
      ensures at == old(at).(cancelled := true)
    {
      at := at.(cancelled := true);
    }

    method ResetCancellation()
      modifies this
      ensures at == old(at).(cancelled := false)
    {
      at := at.(cancelled := false);
    }

    /** Reads the flag. */
    method LoadCancelled() returns (stop: bool)
      modifies this
      ensures at == AfterRead(world, old(at)) && stop == at.cancelled
    {
      at := AfterRead(world, at);
      stop := at.cancelled;
    }

    method Call() returns (ok: bool)
      modifies this
      ensures at == AfterCall(old(at)) && ok == !world.fails(old(at).calls)
    {
      ok := !world.fails(at.calls);
      at := AfterCall(at);
    }

    method Trim() returns (ok: bool)
      modifies this
      ensures at == AfterTrim(old(at)) && ok == !world.refuses(old(at).trims)
    {
      ok := !world.refuses(at.trims);
      at := AfterTrim(at);
    }

    method Now() returns (now: nat)
      modifies this
      ensures at == AfterTick(world, old(at)) && now == at.now
    {
      at := AfterTick(world, at);
      now := at.now;
    }
  }
}
