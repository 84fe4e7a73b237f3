/**
 The stream wrapper of the prompt gate (sparkdeck/prompt_gate.py, _PromptStream):
 a producer task that reads ahead by one chunk, and a consumer. Every step is one
 section between awaits; a step that is not enabled changes nothing.
 */
module PromptStream {
  import opened Wrappers
  import opened Seqs
  import opened PyText
  import opened OutputDetector

  /**
   Where the producer task is. `clean` tells that it read its upstream to the end,
   `cancelling` that it was cancelled; a task cancelled before its first turn is done
   without having started. `calledBack` tells that its done callback has run.
   */
  datatype Phase =
    | Unstarted
    | Reading
    | Holding
    | Closing(clean: bool, cancelling: bool)
    | Done(clean: bool, cancelling: bool, started: bool, calledBack: bool)

  /**
   Where the consumer is: outside __anext__, in it with a reader task on the queue, in
   aclose(), behind it, or behind a StopAsyncIteration or the producer's exception.
   */
  datatype Consumer = Idle | Waiting | Leaving | Left | Ended(stopped: bool)

  /**
   `hand` is the chunk that was read and not queued, `taken` the one that the reader
   task dequeued and __anext__ has not returned; `cancelSet` is the cancel event.
   */
  datatype Stream = Stream(rest: seq<string>, hand: seq<string>, queue: seq<string>, taken: seq<string>, delivered: seq<string>,
                           pending: string, phase: Phase, consumer: Consumer, cancelSet: bool)

  datatype Step =
    | Start          // the producer's first turn
    | Read           // the upstream yields a chunk
    | Put            // the queue has room for the chunk in hand
    | EndUpstream    // the upstream is exhausted
    | FailUpstream   // the upstream raises
    | CloseDone      // the upstream's closing has ended, or was interrupted
    | Callback       // the producer's done callback
    | SetCancel      // the cancel event is set
    | Watch          // the watcher task cancels the producer
    | Ask            // __anext__ is called, up to its first await
    | Take           // the reader task dequeues
    | Wake           // __anext__ goes on, its reader or the producer being done
    | Leave          // aclose() is called, or the consumer's task is cancelled
    | Join           // aclose() has joined the producer

  function Fresh(upstream: seq<string>): Stream {
    Stream(upstream, [], [], [], [], "", Unstarted, Idle, false)
  }

  predicate Enabled(s: Stream, step: Step) {
    match step
    case Start => s.phase == Unstarted
    case Read => s.phase == Reading && s.rest != []
    case Put => s.phase == Holding && s.hand != [] && s.queue == []
    case EndUpstream => s.phase == Reading && s.rest == []
    case FailUpstream => s.phase == Reading
    case CloseDone => s.phase.Closing?
    case Callback => s.phase.Done? && !s.phase.calledBack
    case SetCancel => !s.cancelSet
    case Watch => s.cancelSet
    case Ask => s.consumer == Idle
    case Take => s.consumer == Waiting && s.taken == [] && s.queue != []
    case Wake => s.consumer == Waiting && (s.taken != [] || s.phase.Done?)
    case Leave => s.consumer == Idle || s.consumer == Waiting
    case Join => s.consumer == Leaving && s.phase.Done?
  }

  /** _cancel_once: a producer that is done or already being cancelled is left alone. */
  function CancelOnce(phase: Phase): Phase {
    match phase
    case Unstarted => Done(false, true, false, false)
    case Reading => Closing(false, true)
    case Holding => Closing(false, true)
    case Closing(clean, _) => Closing(clean, true)
    case Done(_, _, _, _) => phase
  }

  /**
   What a cancellation makes of the producer: one that is done stays as it is; one that
   had no turn is done, without having started; any other begins to close, or goes on
   closing, and keeps whether it had read its upstream to the end.
   */
  predicate Cancels(before: Phase, after: Phase) {
    match before
    case Done(_, _, _, _) => after == before
    case Unstarted => after.Done? && after.cancelling && !after.started && !after.calledBack && !after.clean
    case Closing(clean, _) => after.Closing? && after.cancelling && after.clean == clean
    case _ => after.Closing? && after.cancelling && !after.clean
  }

  lemma CancelOnceCancels(phase: Phase)
    ensures Cancels(phase, CancelOnce(phase))
  {
  }

  /** The beginning of aclose(). */
  function Close(s: Stream): Stream {
    s.(phase := CancelOnce(s.phase), consumer := Leaving)
  }

  /** The consumer is given the queued chunk. */
  function FromQueue(s: Stream): Stream
    requires s.queue != []
  {
    s.(queue := s.queue[1..], delivered := s.delivered + [s.queue[0]], consumer := Idle)
  }

  /** The iteration ends as its producer did: by exhaustion, or with its exception. */
  predicate Ends(consumer: Consumer, phase: Phase) {
    phase.Done? && !phase.cancelling && consumer.Ended? && (consumer.stopped <==> phase.clean)
  }

  /** `await self.producer` and the end of the iteration; a failure of the producer is raised, its cancellation leads to aclose(). */
  function Finishing(s: Stream): Stream
    requires s.phase.Done?
  {
    if s.phase.cancelling then Close(s) else s.(consumer := Ended(s.phase.clean))
  }

  function OnAsk(s: Stream): Stream {
    if s.cancelSet then Close(s)
    else if s.queue != [] then FromQueue(s)
    else if s.phase.Done? then Finishing(s)
    else s.(consumer := Waiting)
  }

  function OnWake(s: Stream): Stream
    requires Enabled(s, Wake)
  {
    if s.cancelSet then Close(s)
    else if s.taken != [] then s.(taken := s.taken[1..], delivered := s.delivered + [s.taken[0]], consumer := Idle)
    else if s.phase.clean && !s.phase.cancelling && s.queue != [] then FromQueue(s)
    else Finishing(s)
  }

  /** The next state, and whether lease.release() is called. */
  function Next(decode: Decoder, s: Stream, released: bool, step: Step): (Stream, bool) {
    if !Enabled(s, step) then (s, false)
    else
      match step
      case Start => (s.(phase := Reading), false)
      case Read =>
        var fed := if released then (s.pending, false) else Feed(decode, s.pending, s.rest[0]);
        (s.(rest := s.rest[1..], hand := [s.rest[0]], pending := fed.0, phase := Holding), fed.1)
      case Put => (s.(hand := [], queue := s.hand, phase := Reading), false)
      case EndUpstream => (s.(phase := Closing(true, false)), false)
      case FailUpstream => (s.(phase := Closing(false, false)), false)
      case CloseDone => (s.(phase := Done(s.phase.clean, s.phase.cancelling, true, false)), true)
      case Callback => (s.(phase := s.phase.(calledBack := true)), true)
      case SetCancel => (s.(cancelSet := true), false)
      case Watch => (s.(phase := CancelOnce(s.phase)), false)
      case Ask => (OnAsk(s), false)
      case Take => (s.(taken := s.queue, queue := []), false)
      case Wake => (OnWake(s), false)
      case Leave => (Close(s), false)
      case Join => (s.(consumer := Left), true)
  }

  // ----- the wrapper itself -----------------------------------------------------

  class PromptStream {
    const decode: Decoder
    const detector: Detector
    var upstream: seq<string>
    var hand: seq<string>
    var queue: seq<string>
    var taken: seq<string>
    var delivered: seq<string>
    var phase: Phase
    var consumer: Consumer
    var cancelSet: bool

    ghost predicate Valid()
      reads this
    {
      detector.decode == decode
    }

    function State(): Stream
      reads this, detector
    {
      Stream(upstream, hand, queue, taken, delivered, detector.pending, phase, consumer, cancelSet)
    }

    constructor (decode: Decoder, upstream: seq<string>)
      ensures Valid() && fresh(detector) && this.decode == decode && State() == Fresh(upstream)
    {
      this.decode := decode;
      detector := new Detector(decode);
      this.upstream := upstream;
      hand, queue, taken, delivered := [], [], [], [];
      phase, consumer, cancelSet := Unstarted, Idle, false;
    }

    method BeginProducing()
      requires Valid()
      modifies this
      ensures Valid() && (State(), false) == Next(decode, old(State()), false, Start)
    {
      if phase == Unstarted {
        phase := Reading;
      }
    }

    /** One turn of the loop in _produce, up to the put. */
    method ReadChunk(released: bool) returns (release: bool)
      requires Valid() && Enabled(State(), Read)
      modifies this, detector
      ensures Valid() && (State(), release) == Next(decode, old(State()), released, Read)
      ensures hand == [old(upstream)[0]] && upstream == old(upstream)[1..] && phase == Holding
      ensures released ==> !release && detector.pending == old(detector.pending)
    {
      var chunk := upstream[0];
      upstream := upstream[1..];
      hand, phase := [chunk], Holding;
      release := false;
      if !released {
        release := detector.FeedChunk(chunk);
      }
    }

    method PutChunk()
      requires Valid() && Enabled(State(), Put)
      modifies this
      ensures Valid() && (State(), false) == Next(decode, old(State()), false, Put)
      ensures queue == old(hand) && hand == [] && phase == Reading
    {
      queue, hand, phase := hand, [], Reading;
    }

    /** The loop in _produce ends, because the upstream is exhausted or raises. */
    method StopReading(failed: bool)
      requires Valid()
      modifies this
      ensures Valid() && (State(), false) == Next(decode, old(State()), false, if failed then FailUpstream else EndUpstream)
      ensures phase == if old(phase) == Reading && (failed || old(upstream) == []) then Closing(!failed, false) else old(phase)
    {
      if phase == Reading && (failed || upstream == []) {
        phase := Closing(!failed, false);
      }
    }

    /** The end of the finally clause in _produce. */
    method FinishProducing() returns (release: bool)
      requires Valid()
      modifies this
      ensures Valid() && (State(), release) == Next(decode, old(State()), false, CloseDone)
      ensures release <==> old(phase).Closing?
      ensures release ==> phase == Done(old(phase).clean, old(phase).cancelling, true, false)
    {
      release := phase.Closing?;
      if phase.Closing? {
        phase := Done(phase.clean, phase.cancelling, true, false);
      }
    }

    /** _finished */
    method Finished() returns (release: bool)
      requires Valid()
      modifies this
      ensures Valid() && (State(), release) == Next(decode, old(State()), false, Callback)
      ensures release <==> old(phase).Done? && !old(phase).calledBack
      ensures release ==> phase == old(phase).(calledBack := true)
    {
      release := phase.Done? && !phase.calledBack;
      if release {
        phase := phase.(calledBack := true);
      }
    }

    /** __anext__, up to its first await. */
    method AskForChunk() returns (chunk: Option<string>)
      requires Valid() && consumer == Idle
      modifies this
      ensures Valid() && (State(), false) == Next(decode, old(State()), false, Ask)
      ensures delivered == old(delivered) + (if chunk.Some? then [chunk.value] else [])
      ensures chunk.Some? <==> !cancelSet && old(queue) != []
      ensures cancelSet ==> consumer == Leaving && Cancels(old(phase), phase)
      ensures !cancelSet ==> phase == old(phase)
      ensures !cancelSet && old(queue) != [] ==> chunk == Some(old(queue)[0]) && queue == old(queue)[1..] && consumer == Idle
      ensures !cancelSet && old(queue) == [] && phase.Done? ==> Ends(consumer, phase) || (phase.cancelling && consumer == Leaving)
      ensures !cancelSet && old(queue) == [] && !phase.Done? ==> consumer == Waiting
    {
      chunk := None;
      if cancelSet {
        phase, consumer := CancelOnce(phase), Leaving;
      } else if queue != [] {
        chunk := Some(queue[0]);
        queue, delivered := queue[1..], delivered + [queue[0]];
      } else if phase.Done? {
        consumer := if phase.cancelling then Leaving else Ended(phase.clean);
      } else {
        consumer := Waiting;
      }
    }

    /** __anext__ behind asyncio.wait. */
    method WakeUp() returns (chunk: Option<string>)
      requires Valid() && Enabled(State(), Wake)
      modifies this
      ensures Valid() && (State(), false) == Next(decode, old(State()), false, Wake)
      ensures delivered == old(delivered) + (if chunk.Some? then [chunk.value] else [])
      ensures cancelSet ==> chunk == None && consumer == Leaving && Cancels(old(phase), phase)
      ensures !cancelSet && old(taken) != [] ==> chunk == Some(old(taken)[0]) && taken == old(taken)[1..] && consumer == Idle
      ensures !cancelSet && old(taken) == [] && chunk.Some? ==>
                chunk.value in old(queue) && phase.Done? && phase.clean && !phase.cancelling && consumer == Idle
      ensures !cancelSet && chunk == None ==> Ends(consumer, phase) || (phase.Done? && phase.cancelling && consumer == Leaving)
    {
      chunk := None;
      if cancelSet {
        phase, consumer := CancelOnce(phase), Leaving;
      } else if taken != [] {
        chunk := Some(taken[0]);
        taken, delivered, consumer := taken[1..], delivered + [taken[0]], Idle;
      } else if phase.clean && !phase.cancelling && queue != [] {
        chunk := Some(queue[0]);
        queue, delivered, consumer := queue[1..], delivered + [queue[0]], Idle;
      } else {
        consumer := if phase.cancelling then Leaving else Ended(phase.clean);
      }
    }

    /** The beginning of aclose(). */
    method BeginClose()
      requires Valid() && Enabled(State(), Leave)
      modifies this
      ensures Valid() && (State(), false) == Next(decode, old(State()), false, Leave)
      ensures consumer == Leaving && Cancels(old(phase), phase)
    {
      phase, consumer := CancelOnce(phase), Leaving;
    }
  }

  // ----- what every step keeps ----------------------------------------------------

  predicate IsReading(s: Stream) {
    s.phase in {Unstarted, Reading, Holding}
  }

  /** How many chunks of the upstream the producer has read. */
  function Taken(upstream: seq<string>, s: Stream): int {
    |upstream| - |s.rest|
  }

  /** Where a chunk can be between the upstream and the consumer. */
  predicate WellPlaced(s: Stream) {
    && |s.taken| <= 1 && |s.queue| <= 1 && |s.hand| <= 1
    && (s.consumer in {Idle, Ended(true), Ended(false)} ==> s.taken == [])
    && (s.phase in {Unstarted, Reading} ==> s.hand == [])
    && (s.phase == Holding ==> s.hand != [])
    && (s.phase.Closing? || s.phase.Done? ==> s.phase.clean ==> s.hand == [] && s.rest == [])
    && (s.consumer.Ended? || s.consumer == Left ==> s.phase.Done?)
    && (s.consumer == Leaving ==> s.phase.Closing? || s.phase.Done?)
    && (s.consumer == Ended(true) ==> s.phase.clean && s.queue == [])
  }

  /** Nothing is doubled or reordered: what went out, what is on the way and still to come is the upstream. */
  predicate InOrder(upstream: seq<string>, s: Stream) {
    s.delivered + (s.taken + (s.queue + (s.hand + s.rest))) == upstream && WellPlaced(s)
  }

  /** While the producer reads, the lease is out exactly until a chunk completes the first output line. */
  predicate HeldUntilOutput(decode: Decoder, upstream: seq<string>, s: Stream, released: bool) {
    && |s.rest| <= |upstream| && s.rest == upstream[Taken(upstream, s)..]
    && (IsReading(s) ==> (released <==> !QuietUntil(decode, upstream, Taken(upstream, s))))
    && (IsReading(s) && !released ==> s.pending == PendingBefore(decode, upstream, Taken(upstream, s)))
  }

  /** The producer's task, or aclose() on its behalf, has done all that it owes. */
  predicate IsOver(s: Stream) {
    s.consumer == Left || (s.phase.Done? && (s.phase.started || s.phase.calledBack))
  }

  /** Once that is so the lease is back, whether or not the producer ever had a turn. */
  predicate ReleasedWhenOver(s: Stream, released: bool) {
    IsOver(s) ==> released
  }

  /** Nobody has cancelled the producer or the consumer. */
  predicate IsUndisturbed(s: Stream) {
    !s.cancelSet && s.consumer in {Idle, Waiting, Ended(true), Ended(false)}
  }

  /** The producer is cancelled only by the event or by a consumer that leaves. */
  predicate CancelledForAReason(s: Stream) {
    && (IsUndisturbed(s) && s.phase.Closing? ==> !s.phase.cancelling)
    && (IsUndisturbed(s) && s.phase.Done? ==> !s.phase.cancelling && s.phase.started && (s.hand == []))
    && (IsUndisturbed(s) && s.phase.Closing? ==> s.hand == [])
  }

  predicate Sound(decode: Decoder, upstream: seq<string>, s: Stream, released: bool) {
    && InOrder(upstream, s) && HeldUntilOutput(decode, upstream, s, released)
    && ReleasedWhenOver(s, released) && CancelledForAReason(s)
  }

  lemma FreshIsSound(decode: Decoder, upstream: seq<string>)
    ensures Sound(decode, upstream, Fresh(upstream), false)
  {
    assert [] + ([] + ([] + ([] + upstream))) == upstream;
  }

  lemma StepKeepsPlaces(decode: Decoder, s: Stream, released: bool, step: Step)
    requires WellPlaced(s) && CancelledForAReason(s)
    ensures WellPlaced(Next(decode, s, released, step).0) && CancelledForAReason(Next(decode, s, released, step).0)
  {
    hide Feed;
  }

  /** A chunk moves from the front of one place to the empty place before it. */
  lemma MoveUp(before: seq<string>, from: seq<string>, behind: seq<string>)
    requires |from| >= 1
    ensures before + [from[0]] + (from[1..] + behind) == before + (from + behind)
  {
    assert from == [from[0]] + from[1..];
  }

  lemma StepKeepsOrder(decode: Decoder, upstream: seq<string>, s: Stream, released: bool, step: Step)
    requires InOrder(upstream, s) && CancelledForAReason(s)
    ensures InOrder(upstream, Next(decode, s, released, step).0)
    ensures s.delivered <= Next(decode, s, released, step).0.delivered
    ensures s.cancelSet ==> Next(decode, s, released, step).0.delivered == s.delivered
  {
    hide Feed, WellPlaced, CancelledForAReason;
    StepKeepsPlaces(decode, s, released, step);
    if Enabled(s, step) {
      match step {
        case Read => ReadInOrder(s);
        case Put => PutInOrder(s);
        case Take => TakeInOrder(s);
        case Ask =>
          if !s.cancelSet && s.queue != [] {
            QueueInOrder(s);
          }
        case Wake =>
          if !s.cancelSet && s.taken != [] {
            MoveUp(s.delivered, s.taken, s.queue + (s.hand + s.rest));
          } else if !s.cancelSet && s.phase.clean && !s.phase.cancelling && s.queue != [] {
            QueueInOrder(s);
          }
        case _ =>
      }
    }
  }

  lemma ReadInOrder(s: Stream)
    requires WellPlaced(s) && Enabled(s, Read)
    ensures [s.rest[0]] + s.rest[1..] == s.hand + s.rest
  {
    HeadTail(s.rest);
  }

  lemma PutInOrder(s: Stream)
    requires Enabled(s, Put)
    ensures s.hand + ([] + s.rest) == s.queue + (s.hand + s.rest)
  {
    assert [] + s.rest == s.rest;
  }

  lemma TakeInOrder(s: Stream)
    requires Enabled(s, Take)
    ensures s.queue + ([] + (s.hand + s.rest)) == s.taken + (s.queue + (s.hand + s.rest))
  {
    assert [] + (s.hand + s.rest) == s.hand + s.rest;
  }

  lemma QueueInOrder(s: Stream)
    requires WellPlaced(s) && s.queue != [] && (s.consumer == Idle || s.taken == [])
    ensures FromQueue(s).delivered + (s.taken + (FromQueue(s).queue + (s.hand + s.rest)))
         == s.delivered + (s.taken + (s.queue + (s.hand + s.rest)))
  {
    var behind := s.hand + s.rest;
    assert s.taken == [];
    assert [] + (s.queue + behind) == s.queue + behind && [] + (s.queue[1..] + behind) == s.queue[1..] + behind;
    MoveUp(s.delivered, s.queue, behind);
  }

  lemma ReadKeepsLease(decode: Decoder, upstream: seq<string>, s: Stream, released: bool)
    requires HeldUntilOutput(decode, upstream, s, released) && Enabled(s, Read)
    ensures var (t, release) := Next(decode, s, released, Read);
            HeldUntilOutput(decode, upstream, t, released || release)
  {
    hide Feed;
    var n := Taken(upstream, s);
    assert s.rest[0] == upstream[n] && s.rest[1..] == upstream[n + 1..];
    assert QuietUntil(decode, upstream, n + 1) <==> QuietUntil(decode, upstream, n) && !HitsAt(decode, upstream, n);
  }

  lemma OthersKeepReading(decode: Decoder, s: Stream, released: bool, step: Step)
    requires step != Read
    ensures var (t, release) := Next(decode, s, released, step);
            t.rest == s.rest && t.pending == s.pending && (IsReading(t) ==> IsReading(s) && (release ==> s.consumer == Leaving))
  {
    hide Feed;
  }

  lemma StepReleasesWhenOver(decode: Decoder, s: Stream, released: bool, step: Step)
    requires WellPlaced(s) && ReleasedWhenOver(s, released)
    ensures var (t, release) := Next(decode, s, released, step); ReleasedWhenOver(t, released || release)
  {
    hide Feed;
  }

  lemma StepKeepsLease(decode: Decoder, upstream: seq<string>, s: Stream, released: bool, step: Step)
    requires WellPlaced(s) && HeldUntilOutput(decode, upstream, s, released) && ReleasedWhenOver(s, released)
    ensures var (t, release) := Next(decode, s, released, step);
            HeldUntilOutput(decode, upstream, t, released || release) && ReleasedWhenOver(t, released || release)
  {
    hide Next, QuietUntil, PendingBefore, ReleasedWhenOver, Enabled;
    StepReleasesWhenOver(decode, s, released, step);
    if step == Read {
      if Enabled(s, Read) {
        ReadKeepsLease(decode, upstream, s, released);
      } else {
        DisabledDoesNothing(decode, s, released, step);
      }
    } else {
      OthersKeepReading(decode, s, released, step);
    }
  }

  lemma DisabledDoesNothing(decode: Decoder, s: Stream, released: bool, step: Step)
    requires !Enabled(s, step)
    ensures Next(decode, s, released, step) == (s, false)
  {
  }

  /** Every step of producer, consumer and cancellation keeps all of this. */
  lemma StepKeeps(decode: Decoder, upstream: seq<string>, s: Stream, released: bool, step: Step)
    requires Sound(decode, upstream, s, released)
    ensures var (t, release) := Next(decode, s, released, step);
            Sound(decode, upstream, t, released || release)
  {
    hide WellPlaced, HeldUntilOutput, ReleasedWhenOver, CancelledForAReason, Next;
    StepKeepsPlaces(decode, s, released, step);
    StepKeepsOrder(decode, upstream, s, released, step);
    StepKeepsLease(decode, upstream, s, released, step);
  }

  // ----- what cancels, and what releases ---------------------------------------------

  /** The lease is released exactly by the chunk that completes the first output, the end of the closing, the done callback and the end of aclose(). */
  lemma ReleasesIff(decode: Decoder, s: Stream, released: bool, step: Step)
    ensures Next(decode, s, released, step).1 <==>
              && Enabled(s, step)
              && (step in {CloseDone, Callback, Join}
                  || (step == Read && !released && s.rest != [] && HasOutput(decode, s.pending + s.rest[0])))
  {
    hide HasOutput, Behind, Tail, Capped;
  }

  /** The steps that cancel: the watcher's, once the event is set; a consumer that leaves, at any time; and one that asks or goes on with the event set. */
  lemma CancelEffect(decode: Decoder, s: Stream, released: bool, step: Step)
    ensures var t := Next(decode, s, released, step).0;
            && (step == Watch && s.cancelSet ==> t == s.(phase := t.phase) && Cancels(s.phase, t.phase))
            && (step == Leave && s.consumer in {Idle, Waiting} ==>
                  t == s.(phase := t.phase, consumer := Leaving) && Cancels(s.phase, t.phase))
            && (step in {Ask, Wake} && s.cancelSet && Enabled(s, step) ==>
                  t == s.(phase := t.phase, consumer := Leaving) && Cancels(s.phase, t.phase))
            && (step == SetCancel ==> t == s.(cancelSet := true))
            && (step == Join && s.consumer == Leaving && s.phase.Done? ==> t == s.(consumer := Left))
  {
    CancelOnceCancels(s.phase);
  }

  lemma NothingReadNext(decode: Decoder, s: Stream, released: bool, step: Step)
    requires s.phase.Closing? || s.phase.Done?
    ensures var t := Next(decode, s, released, step).0;
            (t.phase.Closing? || t.phase.Done?) && t.rest == s.rest && t.hand == s.hand
  {
    hide Feed;
  }

  /** Once it is closing or done, a producer reads nothing more. */
  lemma {:induction false} NothingReadAfter(decode: Decoder, s: Stream, released: bool, steps: seq<Step>)
    requires s.phase.Closing? || s.phase.Done?
    ensures var t := After(decode, s, released, steps).0;
            (t.phase.Closing? || t.phase.Done?) && t.rest == s.rest && t.hand == s.hand
    decreases |steps|
  {
    hide Next;
    if |steps| > 0 {
      var (t, release) := Next(decode, s, released, steps[0]);
      NothingReadNext(decode, s, released, steps[0]);
      NothingReadAfter(decode, t, released || release, steps[1..]);
    }
  }

  // ----- what the consumer sees -----------------------------------------------------

  /** The chunks that are neither delivered nor still unread. */
  function OnTheWay(s: Stream): seq<string> {
    s.taken + (s.queue + s.hand)
  }

  /**
   The consumer always has a prefix of the upstream, and what it lacks is on the way
   or unread, in this order. Until somebody cancels, an iteration that stops has
   delivered everything, and one that raises the upstream's failure lacks at most a
   queued chunk and what was never read.
   */
  lemma DeliveredIsPrefix(decode: Decoder, upstream: seq<string>, s: Stream, released: bool)
    requires Sound(decode, upstream, s, released)
    ensures s.delivered <= upstream && s.delivered + (OnTheWay(s) + s.rest) == upstream
    ensures s.consumer == Ended(true) ==> s.delivered == upstream
    ensures s.consumer == Ended(false) && IsUndisturbed(s) ==> s.delivered + (s.queue + s.rest) == upstream
  {
    hide HeldUntilOutput, ReleasedWhenOver;
    Assoc(s.taken, s.queue + s.hand, s.rest);
    Assoc(s.queue, s.hand, s.rest);
    if s.consumer == Ended(true) {
      assert s.delivered + ([] + ([] + ([] + []))) == s.delivered;
    } else if s.consumer == Ended(false) && IsUndisturbed(s) {
      assert [] + (s.queue + ([] + s.rest)) == s.queue + s.rest;
    }
  }

  /**
   Once the cancel event is set nothing more is delivered, whatever happens: exactly
   the chunks on the way, one dequeued, one queued and one in hand at most, and the
   unread ones are lost.
   */
  lemma {:induction false} NothingAfterCancel(decode: Decoder, upstream: seq<string>, s: Stream, released: bool, steps: seq<Step>)
    requires Sound(decode, upstream, s, released) && s.cancelSet
    ensures var t := After(decode, s, released, steps).0;
            && t.cancelSet && t.delivered == s.delivered && |OnTheWay(t)| <= 3
            && t.delivered + (OnTheWay(t) + t.rest) == upstream
    decreases |steps|
  {
    hide Sound, Next, OnTheWay;
    if |steps| == 0 {
      DeliveredIsPrefix(decode, upstream, s, released);
      FewOnTheWay(decode, upstream, s, released);
    } else {
      var (t, release) := Next(decode, s, released, steps[0]);
      StepKeeps(decode, upstream, s, released, steps[0]);
      CancelStays(decode, upstream, s, released, steps[0]);
      NothingAfterCancel(decode, upstream, t, released || release, steps[1..]);
    }
  }

  /** The stream after some steps, and whether its lease is released. */
  function After(decode: Decoder, s: Stream, released: bool, steps: seq<Step>): (Stream, bool)
    decreases |steps|
  {
    if |steps| == 0 then (s, released)
    else
      var (t, release) := Next(decode, s, released, steps[0]);
      After(decode, t, released || release, steps[1..])
  }

  lemma FewOnTheWay(decode: Decoder, upstream: seq<string>, s: Stream, released: bool)
    requires Sound(decode, upstream, s, released)
    ensures |OnTheWay(s)| <= 3
  {
    hide HeldUntilOutput;
  }

  lemma CancelStays(decode: Decoder, upstream: seq<string>, s: Stream, released: bool, step: Step)
    requires Sound(decode, upstream, s, released) && s.cancelSet
    ensures Next(decode, s, released, step).0.cancelSet && Next(decode, s, released, step).0.delivered == s.delivered
  {
    hide Feed, HeldUntilOutput, InOrder;
  }

  lemma AfterFirst(decode: Decoder, s: Stream, released: bool, step: Step, more: seq<Step>)
    ensures var (t, release) := Next(decode, s, released, step);
            After(decode, s, released, [step] + more) == After(decode, t, released || release, more)
  {
    hide Next;
    assert ([step] + more)[1..] == more;
  }

  /** A queued chunk can be lost that way: the event is set before the consumer asks for it. */
  lemma QueuedChunkIsLost(decode: Decoder, a: string, b: string)
    ensures var t := After(decode, Fresh([a, b]), false, [Start] + ([Read] + ([Put] + ([SetCancel] + ([Ask] + []))))).0;
            t.consumer == Leaving && t.delivered == [] && t.queue == [a] && t.rest == [b]
  {
    hide Feed, After;
    var s := Fresh([a, b]);
    AfterFirst(decode, s, false, Start, [Read] + ([Put] + ([SetCancel] + ([Ask] + []))));
    var s1 := Next(decode, s, false, Start).0;
    AfterFirst(decode, s1, false, Read, [Put] + ([SetCancel] + ([Ask] + [])));
    var (s2, released) := Next(decode, s1, false, Read);
    assert s2.rest == [b] && s2.hand == [a] && s2.phase == Holding;
    AfterFirst(decode, s2, released, Put, [SetCancel] + ([Ask] + []));
    var s3 := Next(decode, s2, released, Put).0;
    AfterFirst(decode, s3, released, SetCancel, [Ask] + []);
    var s4 := Next(decode, s3, released, SetCancel).0;
    AfterFirst(decode, s4, released, Ask, []);
    AfterNothing(decode, Next(decode, s4, released, Ask).0, released);
  }

  lemma AfterNothing(decode: Decoder, s: Stream, released: bool)
    ensures After(decode, s, released, []) == (s, released)
  {
  }

  // ----- progress ---------------------------------------------------------------------

  /** Nobody has anything left to do. */
  predicate AtEnd(s: Stream) {
    s.consumer in {Left, Ended(true), Ended(false)} && s.phase.Done? && s.phase.calledBack
  }

  function PhaseWork(phase: Phase): nat {
    match phase
    case Unstarted => 4
    case Reading => 3
    case Holding => 3
    case Closing(_, _) => 2
    case Done(_, _, _, calledBack) => if calledBack then 0 else 1
  }

  function ConsumerWork(consumer: Consumer): nat {
    match consumer
    case Idle => 3
    case Waiting => 2
    case Leaving => 1
    case Left => 0
    case Ended(_) => 0
  }

  function Work(s: Stream): nat {
    5 * |s.rest| + 4 * |s.hand| + 3 * |s.queue| + 2 * |s.taken| + PhaseWork(s.phase) + ConsumerWork(s.consumer)
  }

  /** A step that brings the stream nearer to its end, if the consumer keeps asking or leaves. */
  function Forward(s: Stream): Step {
    if s.phase.Done? && !s.phase.calledBack then Callback
    else match s.consumer
      case Idle => Ask
      case Leaving => if s.phase.Closing? then CloseDone else Join
      case Waiting =>
        if s.taken != [] || s.phase.Done? then Wake
        else if s.queue != [] then Take
        else (match s.phase
              case Unstarted => Start
              case Reading => if s.rest != [] then Read else EndUpstream
              case Holding => Put
              case _ => CloseDone)
      case _ => Callback
  }

  lemma ConsumerForward(decode: Decoder, s: Stream, released: bool)
    requires WellPlaced(s) && (s.consumer == Idle || s.consumer == Leaving) && !(s.phase.Done? && !s.phase.calledBack)
    ensures Enabled(s, Forward(s)) && Work(Next(decode, s, released, Forward(s)).0) < Work(s)
  {
    hide Feed;
  }

  lemma WaitingForward(decode: Decoder, s: Stream, released: bool)
    requires WellPlaced(s) && s.consumer == Waiting && (s.taken != [] || s.queue != [] || s.phase.Done?)
    requires !(s.phase.Done? && !s.phase.calledBack)
    ensures Enabled(s, Forward(s)) && Work(Next(decode, s, released, Forward(s)).0) < Work(s)
  {
    hide Feed;
  }

  lemma ProducerForward(decode: Decoder, s: Stream, released: bool)
    requires WellPlaced(s) && s.consumer == Waiting && s.taken == [] && s.queue == [] && !s.phase.Done?
    ensures Enabled(s, Forward(s)) && Work(Next(decode, s, released, Forward(s)).0) < Work(s)
  {
    hide Feed;
  }

  /** A stream that is not at its end always has an enabled step that brings it nearer: it never deadlocks, cancelled or not. */
  lemma NeverStuck(decode: Decoder, upstream: seq<string>, s: Stream, released: bool)
    requires Sound(decode, upstream, s, released) && !AtEnd(s)
    ensures Enabled(s, Forward(s)) && Work(Next(decode, s, released, Forward(s)).0) < Work(s)
  {
    hide Feed, HeldUntilOutput, WellPlaced;
    OverMeansDone(s);
    if s.phase.Done? && !s.phase.calledBack {
      assert Next(decode, s, released, Callback).0 == s.(phase := s.phase.(calledBack := true));
    } else if s.consumer == Idle || s.consumer == Leaving {
      ConsumerForward(decode, s, released);
    } else if s.consumer == Waiting {
      if s.taken != [] || s.queue != [] || s.phase.Done? {
        WaitingForward(decode, s, released);
      } else {
        ProducerForward(decode, s, released);
      }
    }
  }

  lemma OverMeansDone(s: Stream)
    requires WellPlaced(s)
    ensures s.consumer == Left || s.consumer.Ended? ==> s.phase.Done?
  {
  }
}
