/** The one-slot correction lane: a recogniser thread offers finished segments, a worker thread
    takes, decodes and publishes them. Every read or write of shared state is a step of its own,
    and a run is any interleaving of the two threads' steps. */
module CorrectionLane {
  import opened Options

  type Sample(!new)

  const CAPACITY := 1

  datatype Job = Job(source: string, samples: seq<Sample>, start: int, end: int)

  datatype Output = Output(source: string, corrected: string, usedCorrection: bool, start: int, end: int)

  /** Where the worker thread is. Jobs are named by their position among the accepted ones. */
  datatype Worker =
    | Loading
    | ReadsClosing                  // about to read whether the lane is closing
    | ReadsQueue                    // it is; about to look whether the queue is empty
    | Polls
    | Decodes(job: nat)
    | CountedFailure(job: nat)      // the error is counted, the fallback output is not there yet
    | Wipes(job: nat)
    | Exited
    | Interrupted

  datatype Lane = Lane(
    worker: Worker,
    queue: seq<nat>,
    closing: bool,
    outputs: seq<Output>,
    decodeErrors: nat,
    zeroed: set<nat>,               // jobs whose copied samples have been overwritten
    finals: nat,                    // non-blank final texts
    dropped: nat,
    accepted: seq<Job>)             // history

  const START := Lane(Loading, [], false, [], 0, {}, 0, 0, [])

  datatype Event =
    | FinalText(source: string, segment: Option<seq<Sample>>, start: int, end: int)
    | Close
    | LoadFinishes
    | ReadClosing
    | ReadQueue
    | PollTimesOut
    | PollTakes
    | PollInterrupted
    | DecodeReturns
    | DecodeThrows
    | AppendFallback
    | Wipe

  /** What the recogniser computes; it may throw instead at any time. */
  type Decoder = seq<Sample> -> string

  predicate Enabled(s: Lane, e: Event) {
    match e
    case FinalText(_, _, _, _) => true
    case Close => true
    case LoadFinishes => s.worker.Loading?
    case ReadClosing => s.worker.ReadsClosing?
    case ReadQueue => s.worker.ReadsQueue?
    case PollTimesOut => s.worker.Polls? && s.queue == []
    case PollTakes => s.worker.Polls? && s.queue != []
    case PollInterrupted => s.worker.Polls?
    case DecodeReturns => s.worker.Decodes? && s.worker.job < |s.accepted|
    case DecodeThrows => s.worker.Decodes?
    case AppendFallback => s.worker.CountedFailure? && s.worker.job < |s.accepted|
    case Wipe => s.worker.Wipes?
  }

  /** The samples the worker finds in a job's buffer. */
  function Buffer(s: Lane, job: nat): seq<Sample>
    requires job < |s.accepted|
  {
    if job in s.zeroed then [] else s.accepted[job].samples
  }

  function Step(decode: Decoder, s: Lane, e: Event): Lane
    requires Enabled(s, e)
  {
    match e
    case FinalText(source, segment, start, end) =>
      if segment == None then s.(finals := s.finals + 1, dropped := s.dropped + 1)
      else Offer(s, Job(source, segment.value, start, end))
    case Close => s.(closing := true)
    case LoadFinishes => s.(worker := ReadsClosing)
    case ReadClosing => s.(worker := if s.closing then ReadsQueue else Polls)
    case ReadQueue => s.(worker := if s.queue == [] then Exited else Polls)
    case PollTimesOut => s.(worker := ReadsClosing)
    case PollTakes => s.(worker := Decodes(s.queue[0]), queue := s.queue[1..])
    case PollInterrupted => s.(worker := Interrupted)
    case DecodeReturns =>
      var id := s.worker.job;
      var job := s.accepted[id];
      s.(worker := Wipes(id),
         outputs := s.outputs + [Output(job.source, decode(Buffer(s, id)), true, job.start, job.end)])
    case DecodeThrows => s.(worker := CountedFailure(s.worker.job), decodeErrors := s.decodeErrors + 1)
    case AppendFallback =>
      var id := s.worker.job;
      var job := s.accepted[id];
      s.(worker := Wipes(id), outputs := s.outputs + [Output(job.source, job.source, false, job.start, job.end)])
    case Wipe => s.(worker := ReadsClosing, zeroed := s.zeroed + {s.worker.job})
  }

  /** The bounded queue takes the job or refuses it at once. */
  function Offer(s: Lane, job: Job): Lane {
    if |s.queue| < CAPACITY then
      s.(finals := s.finals + 1, queue := s.queue + [|s.accepted|], accepted := s.accepted + [job])
    else
      s.(finals := s.finals + 1, dropped := s.dropped + 1)
  }

  function Fallbacks(outputs: seq<Output>): nat {
    if outputs == [] then 0
    else Fallbacks(outputs[..|outputs| - 1]) + if outputs[|outputs| - 1].usedCorrection then 0 else 1
  }

  /** How many jobs the worker holds: none or one. */
  function InFlight(s: Lane): nat {
    if s.worker.Decodes? || s.worker.CountedFailure? then 1 else 0
  }

  /** Accepted jobs are, in order, the answered ones, the one in flight, and the queued one. */
  ghost predicate InOrder(s: Lane) {
    && |s.queue| <= CAPACITY
    && |s.outputs| + InFlight(s) + |s.queue| == |s.accepted|
    && (InFlight(s) == 1 ==> s.worker.job == |s.outputs|)
    && (|s.queue| == 1 ==> s.queue[0] == |s.outputs| + InFlight(s))
  }

  /** An output belongs to its job, and a correction was decoded from the job's own samples. */
  ghost predicate Answers(decode: Decoder, output: Output, job: Job) {
    && output.source == job.source && output.start == job.start && output.end == job.end
    && output.corrected == if output.usedCorrection then decode(job.samples) else job.source
  }

  ghost predicate OutputsAnswer(decode: Decoder, s: Lane) {
    |s.outputs| <= |s.accepted| && forall i :: 0 <= i < |s.outputs| ==> Answers(decode, s.outputs[i], s.accepted[i])
  }

  /** Errors are counted once, just before their output appears. */
  ghost predicate ErrorsCounted(s: Lane) {
    s.decodeErrors == Fallbacks(s.outputs) + if s.worker.CountedFailure? then 1 else 0
  }

  /** Samples are overwritten right after their output, never before. */
  ghost predicate SamplesZeroed(s: Lane) {
    && (s.worker.Wipes? ==> s.worker.job + 1 == |s.outputs|)
    && (forall i :: i in s.zeroed <==> 0 <= i < |s.outputs| && s.worker != Wipes(i))
  }

  /** Every non-blank final was accepted or dropped. */
  ghost predicate FinalsBalance(s: Lane) {
    s.finals == |s.accepted| + s.dropped
  }

  ghost predicate LeavesLoopClosed(s: Lane) {
    s.worker.ReadsQueue? || s.worker.Exited? ==> s.closing
  }

  ghost predicate Valid(decode: Decoder, s: Lane) {
    && InOrder(s) && OutputsAnswer(decode, s) && ErrorsCounted(s)
    && SamplesZeroed(s) && FinalsBalance(s) && LeavesLoopClosed(s)
  }

  lemma StartIsValid(decode: Decoder)
    ensures Valid(decode, START)
  {
  }

  lemma FallbacksAppend(outputs: seq<Output>, next: Output)
    ensures Fallbacks(outputs + [next]) == Fallbacks(outputs) + if next.usedCorrection then 0 else 1
  {
  }

  lemma StepKeepsOrder(decode: Decoder, s: Lane, e: Event)
    requires InOrder(s) && Enabled(s, e)
    ensures InOrder(Step(decode, s, e))
  {
  }

  /** An offered segment is accepted, with all it carries, exactly if no job is queued, whatever the
      worker does and whether or not the lane is closing; it is dropped otherwise, and so is a final
      text without a segment. */
  lemma OfferIsAcceptedIff(decode: Decoder, s: Lane, e: Event)
    requires InOrder(s) && e.FinalText?
    ensures var s' := Step(decode, s, e);
      && s'.finals == s.finals + 1
      && (e.segment.Some? && s.queue == [] ==>
            s'.accepted == s.accepted + [Job(e.source, e.segment.value, e.start, e.end)] && s'.dropped == s.dropped)
      && (e.segment.None? || s.queue != [] ==> s'.accepted == s.accepted && s'.dropped == s.dropped + 1)
      && s'.worker == s.worker && s'.closing == s.closing && s'.outputs == s.outputs
  {
  }

  lemma StepKeepsLoopClosed(decode: Decoder, s: Lane, e: Event)
    requires LeavesLoopClosed(s) && Enabled(s, e)
    ensures LeavesLoopClosed(Step(decode, s, e))
  {
  }

  lemma StepKeepsBalance(decode: Decoder, s: Lane, e: Event)
    requires FinalsBalance(s) && Enabled(s, e)
    ensures FinalsBalance(Step(decode, s, e))
  {
  }

  lemma StepKeepsOutputs(decode: Decoder, s: Lane, e: Event)
    requires InOrder(s) && OutputsAnswer(decode, s) && SamplesZeroed(s) && Enabled(s, e)
    ensures OutputsAnswer(decode, Step(decode, s, e))
  {
  }

  lemma StepKeepsZeroed(decode: Decoder, s: Lane, e: Event)
    requires InOrder(s) && SamplesZeroed(s) && Enabled(s, e)
    ensures SamplesZeroed(Step(decode, s, e))
  {
  }

  lemma StepKeepsErrors(decode: Decoder, s: Lane, e: Event)
    requires ErrorsCounted(s) && Enabled(s, e)
    ensures ErrorsCounted(Step(decode, s, e))
  {
    hide Fallbacks;
    if e.DecodeReturns? || e.AppendFallback? {
      FallbacksAppend(s.outputs, Step(decode, s, e).outputs[|s.outputs|]);
    }
  }

  /** Every step of either thread keeps all of it. */
  lemma StepKeepsValid(decode: Decoder, s: Lane, e: Event)
    requires Valid(decode, s) && Enabled(s, e)
    ensures Valid(decode, Step(decode, s, e))
  {
    hide Step, InOrder, OutputsAnswer, ErrorsCounted, SamplesZeroed, FinalsBalance, LeavesLoopClosed;
    StepKeepsOrder(decode, s, e);
    StepKeepsLoopClosed(decode, s, e);
    StepKeepsBalance(decode, s, e);
    StepKeepsOutputs(decode, s, e);
    StepKeepsZeroed(decode, s, e);
    StepKeepsErrors(decode, s, e);
  }

  ghost predicate IsStep(decode: Decoder, s: Lane, e: Event, s': Lane) {
    Enabled(s, e) && s' == Step(decode, s, e)
  }

  /** A run of the two threads, from start to end, each step enabled. */
  ghost predicate Runs(decode: Decoder, start: Lane, events: seq<Event>, end: Lane) {
    if events == [] then end == start
    else
      var last := |events| - 1;
      exists s :: Runs(decode, start, events[..last], s) && IsStep(decode, s, events[last], end)
  }

  lemma {:induction false} RunsAreValid(decode: Decoder, events: seq<Event>, end: Lane)
    requires Runs(decode, START, events, end)
    ensures Valid(decode, end)
  {
    if events == [] {
      StartIsValid(decode);
    } else {
      var last := |events| - 1;
      var s :| Runs(decode, START, events[..last], s) && IsStep(decode, s, events[last], end);
      RunsAreValid(decode, events[..last], s);
      StepKeepsValid(decode, s, events[last]);
    }
  }

  predicate IsOffer(e: Event) {
    e.FinalText? && e.segment.Some?
  }

  predicate IsLook(e: Event) {
    e.ReadQueue?
  }

  predicate IsTake(e: Event) {
    e.PollTakes?
  }

  /** Every offered segment is followed by an event of this kind. */
  ghost predicate OffersPrecede(events: seq<Event>, kind: Event -> bool) {
    forall j :: 0 <= j < |events| && IsOffer(events[j]) ==> exists x :: j < x < |events| && kind(events[x])
  }

  /** Every offered segment is followed by a look of the worker at the queue. */
  ghost predicate OffersAreSeen(events: seq<Event>) {
    OffersPrecede(events, IsLook)
  }

  /** Every offered segment is followed by a job the worker takes. */
  ghost predicate OffersAreTaken(events: seq<Event>) {
    OffersPrecede(events, IsTake)
  }

  /** No segment is offered once the lane has been told to close. */
  predicate NoOfferAfterClose(events: seq<Event>) {
    forall i, j :: 0 <= i < j < |events| && events[i].Close? ==> !IsOffer(events[j])
  }

  lemma OneOfKind(events: seq<Event>, kind: Event -> bool)
    requires events != [] && kind(events[|events| - 1])
    ensures !IsOffer(events[|events| - 1]) ==> OffersPrecede(events, kind)
  {
    var last := |events| - 1;
    assert forall j :: 0 <= j < last && IsOffer(events[j]) ==> j < last < |events|;
  }

  lemma OneOfAnotherKind(events: seq<Event>, kind: Event -> bool)
    requires events != [] && !kind(events[|events| - 1])
    ensures OffersPrecede(events, kind)
            <==> OffersPrecede(events[..|events| - 1], kind) && !IsOffer(events[|events| - 1])
  {
    var last := |events| - 1;
    var before := events[..last];
    if OffersPrecede(events, kind) {
      forall j | 0 <= j < last && IsOffer(before[j]) ensures exists x :: j < x < last && kind(before[x]) {
        assert IsOffer(events[j]);
        var x :| j < x < |events| && kind(events[x]);
        assert kind(before[x]);
      }
    }
    if OffersPrecede(before, kind) && !IsOffer(events[last]) {
      forall j | 0 <= j < |events| && IsOffer(events[j]) ensures exists x :: j < x < |events| && kind(events[x]) {
        assert IsOffer(before[j]);
        var x :| j < x < last && kind(before[x]);
        assert kind(events[x]);
      }
    }
  }

  /** The worker leaves by finding the queue empty; after that only offers change the queue. */
  lemma ExitStep(decode: Decoder, s: Lane, e: Event)
    requires Enabled(s, e) && Step(decode, s, e).worker.Exited?
    ensures !s.worker.Exited? ==> e.ReadQueue? && Step(decode, s, e).queue == []
    ensures s.worker.Exited? ==> !e.ReadQueue? && (Step(decode, s, e).queue == [] <==> s.queue == [] && !IsOffer(e))
  {
  }

  /** When the worker has left, the queue is empty exactly if no segment was offered since its last look. */
  lemma {:induction false} QueueAfterExit(decode: Decoder, events: seq<Event>, end: Lane)
    requires Runs(decode, START, events, end) && end.worker.Exited?
    ensures end.queue == [] <==> OffersAreSeen(events)
  {
    hide Step, Enabled, OffersPrecede;
    var last := |events| - 1;
    var s :| Runs(decode, START, events[..last], s) && IsStep(decode, s, events[last], end);
    ExitStep(decode, s, events[last]);
    if s.worker.Exited? {
      QueueAfterExit(decode, events[..last], s);
      OneOfAnotherKind(events, IsLook);
    } else {
      OneOfKind(events, IsLook);
    }
  }

  lemma {:induction false} ClosingWasClosed(decode: Decoder, events: seq<Event>, end: Lane)
    requires Runs(decode, START, events, end) && end.closing
    ensures exists i :: 0 <= i < |events| && events[i].Close?
  {
    var last := |events| - 1;
    var s :| Runs(decode, START, events[..last], s) && IsStep(decode, s, events[last], end);
    if s.closing {
      ClosingWasClosed(decode, events[..last], s);
      var i :| 0 <= i < last && events[..last][i].Close?;
      assert events[i].Close?;
    } else {
      assert events[last].Close?;
    }
  }

  /** The worker looks at the queue only after closing, so without late offers it has seen them all. */
  lemma {:induction false} NoLateOffers(decode: Decoder, events: seq<Event>, end: Lane)
    requires Runs(decode, START, events, end) && NoOfferAfterClose(events) && end.worker.Exited?
    ensures OffersAreSeen(events)
  {
    hide Step, Enabled, OffersPrecede;
    var last := |events| - 1;
    var s :| Runs(decode, START, events[..last], s) && IsStep(decode, s, events[last], end);
    ExitStep(decode, s, events[last]);
    if s.worker.Exited? {
      NoLateOffers(decode, events[..last], s);
      OneOfAnotherKind(events, IsLook);
      RunsAreValid(decode, events[..last], s);
      ClosingWasClosed(decode, events[..last], s);
      var i :| 0 <= i < last && events[..last][i].Close?;
      assert events[i].Close?;
    } else {
      OneOfKind(events, IsLook);
    }
  }

  lemma QueueStep(decode: Decoder, s: Lane, e: Event)
    requires InOrder(s) && Enabled(s, e)
    ensures Step(decode, s, e).queue == [] <==> e.PollTakes? || (s.queue == [] && !IsOffer(e))
  {
  }

  /** At any time, the queue is empty exactly if the worker took a job after every offer. */
  lemma {:induction false} QueueEmptyIffTaken(decode: Decoder, events: seq<Event>, end: Lane)
    requires Runs(decode, START, events, end)
    ensures end.queue == [] <==> OffersAreTaken(events)
  {
    if events != [] {
      hide Step, Enabled, OffersPrecede, InOrder;
      var last := |events| - 1;
      var s :| Runs(decode, START, events[..last], s) && IsStep(decode, s, events[last], end);
      RunsAreValid(decode, events[..last], s);
      QueueStep(decode, s, events[last]);
      if events[last].PollTakes? {
        OneOfKind(events, IsTake);
      } else {
        QueueEmptyIffTaken(decode, events[..last], s);
        OneOfAnotherKind(events, IsTake);
      }
    }
  }

  /** What the benchmark reads once the worker has left its loop: every accepted segment has
      exactly one output, in order; the error count is the number of fallbacks; all audio copies
      are overwritten; nothing is unaccounted for. */
  ghost predicate Settled(decode: Decoder, s: Lane) {
    && |s.outputs| == |s.accepted| && s.queue == []
    && (forall i :: 0 <= i < |s.outputs| ==> Answers(decode, s.outputs[i], s.accepted[i]))
    && s.decodeErrors == Fallbacks(s.outputs)
    && (forall i :: 0 <= i < |s.accepted| ==> i in s.zeroed)
    && s.finals == |s.outputs| + s.dropped
  }

  /** The worker has left its loop or was interrupted. */
  predicate IsGone(s: Lane) {
    s.worker.Exited? || s.worker.Interrupted?
  }

  /** A worker that is gone, by leaving its loop or by an interruption, has settled everything exactly
      when it took a job after every offer. */
  lemma SettledIffOffersTaken(decode: Decoder, events: seq<Event>, end: Lane)
    requires Runs(decode, START, events, end) && IsGone(end)
    ensures Settled(decode, end) <==> OffersAreTaken(events)
  {
    RunsAreValid(decode, events, end);
    QueueEmptyIffTaken(decode, events, end);
  }

  /** One that left its loop looked at the queue first, so then it is enough that every segment was
      offered before the worker's last look. */
  lemma SettledIffOffersSeen(decode: Decoder, events: seq<Event>, end: Lane)
    requires Runs(decode, START, events, end) && end.worker.Exited?
    ensures Settled(decode, end) <==> OffersAreSeen(events)
  {
    RunsAreValid(decode, events, end);
    QueueAfterExit(decode, events, end);
  }

  /** The benchmark closes the lane only after the recogniser has finished, so it does settle. */
  lemma ClosedLaneSettles(decode: Decoder, events: seq<Event>, end: Lane)
    requires Runs(decode, START, events, end) && end.worker.Exited? && NoOfferAfterClose(events)
    ensures Settled(decode, end)
  {
    NoLateOffers(decode, events, end);
    SettledIffOffersSeen(decode, events, end);
  }

  lemma Extend(decode: Decoder, events: seq<Event>, s: Lane, e: Event) returns (events': seq<Event>, s': Lane)
    requires Runs(decode, START, events, s) && Enabled(s, e)
    ensures events' == events + [e] && s' == Step(decode, s, e) && Runs(decode, START, events', s')
  {
    events', s' := events + [e], Step(decode, s, e);
    assert events'[..|events|] == events;
  }

  /** A segment offered after the worker has left is accepted and never answered. */
  lemma OfferAfterExitIsStranded(decode: Decoder, late: seq<Sample>) returns (events: seq<Event>, end: Lane)
    ensures Runs(decode, START, events, end) && end.worker.Exited?
    ensures |end.accepted| == 1 && end.outputs == [] && !Settled(decode, end)
  {
    events, end := [], START;
    assert Runs(decode, START, events, end);
    hide Runs;
    events, end := Extend(decode, events, end, LoadFinishes);
    events, end := Extend(decode, events, end, Close);
    events, end := Extend(decode, events, end, ReadClosing);
    events, end := Extend(decode, events, end, ReadQueue);
    events, end := Extend(decode, events, end, FinalText("", Some(late), 0, 0));
  }

  /** An interruption, for which the worker has a handler though nothing in the benchmark sends one,
      can leave a queued segment unanswered and its audio copy intact even if nothing is offered late. */
  lemma InterruptionStrands(decode: Decoder, audio: seq<Sample>) returns (events: seq<Event>, end: Lane)
    ensures Runs(decode, START, events, end) && NoOfferAfterClose(events) && end.worker.Interrupted?
    ensures |end.accepted| == 1 && end.outputs == [] && 0 !in end.zeroed
  {
    events, end := [], START;
    assert Runs(decode, START, events, end);
    hide Runs;
    events, end := Extend(decode, events, end, LoadFinishes);
    events, end := Extend(decode, events, end, ReadClosing);
    events, end := Extend(decode, events, end, FinalText("", Some(audio), 0, 0));
    events, end := Extend(decode, events, end, PollInterrupted);
    assert forall i :: 0 <= i < |events| ==> !events[i].Close?;
  }

  // The drain ends.

  /** An event of the worker thread. */
  predicate IsWorkers(e: Event) {
    !e.FinalText? && !e.Close?
  }

  function WorkersSteps(events: seq<Event>): nat {
    if events == [] then 0
    else WorkersSteps(events[..|events| - 1]) + if IsWorkers(events[|events| - 1]) then 1 else 0
  }

  /** The steps a worker can still take once the lane is closing: six for a queued job, and those
      that bring it from where it is to the end of its loop. */
  function StepsLeft(s: Lane): nat {
    var here := match s.worker
      case Loading => 4
      case ReadsClosing => 3
      case ReadsQueue => 2
      case Polls => if s.queue == [] then 4 else 1
      case Decodes(_) => 6
      case CountedFailure(_) => 5
      case Wipes(_) => 4
      case Exited => 0
      case Interrupted => 0;
    here + if IsGone(s) then 0 else 6 * |s.queue|
  }

  /** The worker always has a next step until it is gone. */
  lemma WorkerCanStep(decode: Decoder, s: Lane) returns (e: Event)
    requires Valid(decode, s) && !IsGone(s)
    ensures IsWorkers(e) && Enabled(s, e) && !e.PollInterrupted?
  {
    match s.worker
    case Loading => e := LoadFinishes;
    case ReadsClosing => e := ReadClosing;
    case ReadsQueue => e := ReadQueue;
    case Polls => e := if s.queue == [] then PollTimesOut else PollTakes;
    case Decodes(_) => e := DecodeReturns;
    case CountedFailure(_) => e := AppendFallback;
    case Wipes(_) => e := Wipe;
  }

  /** Once the lane is closing and nothing more is offered, the worker takes at most `StepsLeft` steps,
      never more than twelve, whatever decodes and polls do, and it has none left only when it is gone. */
  lemma {:induction false} DrainEnds(decode: Decoder, s: Lane, events: seq<Event>, end: Lane)
    requires Valid(decode, s) && s.closing && Runs(decode, s, events, end)
    requires forall e <- events :: !IsOffer(e)
    ensures Valid(decode, end) && end.closing
    ensures WorkersSteps(events) + StepsLeft(end) <= StepsLeft(s) <= 12
    ensures StepsLeft(end) == 0 <==> IsGone(end)
  {
    hide Step, StepsLeft, IsGone, Enabled;
    hide InOrder, OutputsAnswer, ErrorsCounted, SamplesZeroed, FinalsBalance, LeavesLoopClosed;
    if events != [] {
      var last := |events| - 1;
      var t :| Runs(decode, s, events[..last], t) && IsStep(decode, t, events[last], end);
      assert events[last] in events && forall e <- events[..last] :: e in events;
      DrainEnds(decode, s, events[..last], t);
      StepKeepsValid(decode, t, events[last]);
      StepGetsCloser(decode, t, events[last]);
    }
    StepsLeftBounds(s);
    StepsLeftBounds(end);
  }

  lemma StepsLeftBounds(s: Lane)
    requires InOrder(s)
    ensures StepsLeft(s) <= 12 && (StepsLeft(s) == 0 <==> IsGone(s))
  {
  }

  lemma StepGetsCloser(decode: Decoder, s: Lane, e: Event)
    requires InOrder(s) && s.closing && Enabled(s, e) && !IsOffer(e)
    ensures var s' := Step(decode, s, e);
            s'.closing && StepsLeft(s') + (if IsWorkers(e) then 1 else 0) <= StepsLeft(s)
  {
  }
}
