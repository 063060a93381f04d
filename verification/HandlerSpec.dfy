/** The outbound half of a connection handler (handler.rs) as functions: one pass of
    the take-and-replace loop, a whole poll, and runs of stimuli. The substream's
    answers are an arbitrary function, so every theorem is about every sink. */
module HandlerSpec {
  import opened Types

  datatype Outbound =
    | SubstreamRequested
    | WaitingOutput
    | PendingSend(message: Rpc)
    | PendingFlush
    | Closing
    | Poisoned

  datatype KeepAlive = Yes | No

  // Answers of poll_ready, poll_flush and poll_close, and of start_send.
  datatype PollReply = Ready | NotReady | Broken
  datatype SendReply = Taken | Oversized | Refused
  datatype Replies = Replies(poll: PollReply, send: SendReply)

  // What the substream answers in the n-th pass of the loop.
  type Sink = nat -> Replies

  datatype Handler = Handler(outbound: Option<Outbound>, inbound: bool, keepAlive: KeepAlive, queue: seq<Rpc>)

  datatype Fate = Sent(message: Rpc) | TooLarge(message: Rpc) | Lost(message: Rpc)

  datatype Event = Pending | Close | OutboundSubstreamRequest | Panic

  datatype Pass = Again(handler: Handler, fates: seq<Fate>) | Done(handler: Handler, fates: seq<Fate>, event: Event)

  datatype Turn = Turn(handler: Handler, fates: seq<Fate>, event: Event, passes: nat)

  function Start(temporary: bool): Handler {
    Handler(None, false, if temporary then No else Yes, [])
  }

  // Connections kept only for a shuffle reply accept nothing else.
  predicate Admits(h: Handler, message: Rpc) {
    h.keepAlive == Yes || message.ShuffleReply?
  }

  function Accept(h: Handler, message: Rpc): Handler {
    if Admits(h, message) then h.(queue := h.queue + [message]) else h
  }

  function Negotiate(h: Handler): Handler {
    h.(outbound := Some(WaitingOutput))
  }

  function OnePass(h: Handler, r: Replies): Pass {
    match h.outbound
    case None =>
      Done(h.(outbound := Some(SubstreamRequested)), [], OutboundSubstreamRequest)
    case Some(SubstreamRequested) =>
      Done(h, [], Pending)
    case Some(WaitingOutput) =>
      if h.queue == [] then Done(h, [], Pending)
      else Again(h.(outbound := Some(PendingSend(h.queue[0])), queue := h.queue[1..]), [])
    case Some(PendingSend(m)) =>
      (match r.poll
       case Ready =>
         (match r.send
          case Taken => Again(h.(outbound := Some(PendingFlush)), [Sent(m)])
          case Oversized => Again(h.(outbound := Some(WaitingOutput)), [TooLarge(m)])
          case Refused => Done(h.(outbound := Some(Poisoned)), [Lost(m)], Close))
       case NotReady => Done(h.(keepAlive := Yes), [], Pending)
       case Broken => Done(h.(outbound := Some(Poisoned)), [Lost(m)], Close))
    case Some(PendingFlush) =>
      (match r.poll
       case Ready => Again(h.(outbound := Some(WaitingOutput)), [])
       case NotReady => Done(h.(keepAlive := Yes), [], Pending)
       case Broken => Done(h.(outbound := Some(Poisoned)), [], Close))
    case Some(Closing) =>
      (match r.poll
       case Ready => Done(h.(outbound := None, keepAlive := if h.inbound then h.keepAlive else No), [], Pending)
       case NotReady => Done(h.(keepAlive := No), [], Pending)
       case Broken => Done(h.(outbound := Some(Poisoned)), [], Close))
    case Some(Poisoned) =>
      Done(h, [], Panic)
  }

  function Rank(h: Handler): nat {
    match h.outbound
    case Some(PendingSend(_)) => 2
    case Some(PendingFlush) => 1
    case _ => 0
  }

  function Polled(h: Handler, sink: Sink, n: nat): Turn
    decreases |h.queue|, Rank(h)
  {
    match OnePass(h, sink(n))
    case Done(h', fates, event) => Turn(h', fates, event, 1)
    case Again(h', fates) =>
      var rest := Polled(h', sink, n + 1);
      Turn(rest.handler, fates + rest.fates, rest.event, rest.passes + 1)
  }

  // -- One poll ------------------------------------------------------------------------

  function Messages(fates: seq<Fate>): seq<Rpc> {
    seq(|fates|, i requires 0 <= i < |fates| => fates[i].message)
  }

  // The message being sent, then those waiting.
  function Carried(h: Handler): seq<Rpc> {
    (if h.outbound.Some? && h.outbound.value.PendingSend? then [h.outbound.value.message] else []) + h.queue
  }

  predicate Poison(h: Handler) {
    h.outbound == Some(Poisoned)
  }

  lemma PassConserves(h: Handler, r: Replies)
    ensures var pass := OnePass(h, r); Carried(h) == Messages(pass.fates) + Carried(pass.handler)
  {
    var pass := OnePass(h, r);
    if h.outbound.Some? && h.outbound.value.PendingSend? && pass.handler.outbound != h.outbound {
      assert Messages(pass.fates) == [h.outbound.value.message];
    } else {
      assert Messages(pass.fates) == [];
    }
  }

  // What is left of a poll after one pass.
  lemma Continues(h: Handler, sink: Sink, n: nat, sofar: seq<Fate>)
    ensures var pass, whole := OnePass(h, sink(n)), Polled(h, sink, n);
      && whole.event == (if pass.Done? then pass.event else Polled(pass.handler, sink, n + 1).event)
      && whole.handler == (if pass.Done? then pass.handler else Polled(pass.handler, sink, n + 1).handler)
      && sofar + whole.fates ==
         (sofar + pass.fates) + if pass.Done? then [] else Polled(pass.handler, sink, n + 1).fates
  {}

  // Nothing overtakes, nothing vanishes unaccounted for.
  lemma {:induction false} PollConserves(h: Handler, sink: Sink, n: nat)
    ensures var t := Polled(h, sink, n); Carried(h) == Messages(t.fates) + Carried(t.handler)
    decreases |h.queue|, Rank(h)
  {
    var pass := OnePass(h, sink(n));
    PassConserves(h, sink(n));
    if pass.Again? {
      PollConserves(pass.handler, sink, n + 1);
      hide OnePass, Carried;
      var rest := Polled(pass.handler, sink, n + 1);
      assert Messages(pass.fates + rest.fates) == Messages(pass.fates) + Messages(rest.fates);
    }
  }

  // Poison is left behind exactly when the poll asks for the connection to be closed;
  // a message is lost only then, and at most the one being sent.
  lemma {:induction false} PoisonMeansClosed(h: Handler, sink: Sink, n: nat)
    requires !Poison(h) && h.outbound != Some(Closing)
    ensures var t := Polled(h, sink, n);
      && (Poison(t.handler) <==> t.event == Close) && t.event != Panic
      && t.handler.outbound != Some(Closing) && t.handler.outbound != None
      && (t.event != Close ==> forall f :: f in t.fates ==> !f.Lost?)
      && (forall i :: 0 <= i < |t.fates| - 1 ==> !t.fates[i].Lost?)
    decreases |h.queue|, Rank(h)
  {
    var pass := OnePass(h, sink(n));
    if pass.Again? {
      PoisonMeansClosed(pass.handler, sink, n + 1);
    }
  }

  // A pending poll has sent all it could: idle with nothing queued, waiting for the
  // substream to open, or held up by it.
  lemma {:induction false} PendingMeansStuck(h: Handler, sink: Sink, n: nat)
    requires Polled(h, sink, n).event == Pending && h.outbound != Some(Closing)
    ensures var after := Polled(h, sink, n).handler;
      || (after.outbound == Some(WaitingOutput) && after.queue == [])
      || (after == h && h.outbound == Some(SubstreamRequested))
      || (after.outbound.Some? && (after.outbound.value.PendingSend? || after.outbound.value.PendingFlush?)
          && after.keepAlive == Yes)
    decreases |h.queue|, Rank(h)
  {
    var pass := OnePass(h, sink(n));
    if pass.Again? {
      PendingMeansStuck(pass.handler, sink, n + 1);
    }
  }

  // Three passes a message, and at most three for the one in hand.
  lemma {:induction false} PollIsShort(h: Handler, sink: Sink, n: nat)
    ensures 1 <= Polled(h, sink, n).passes <= 3 * |h.queue| + Rank(h) + 1
    decreases |h.queue|, Rank(h)
  {
    var pass := OnePass(h, sink(n));
    if pass.Again? {
      PollIsShort(pass.handler, sink, n + 1);
    }
  }

  ghost predicate Obliging(sink: Sink) {
    forall n :: sink(n).poll == Ready && sink(n).send != Refused
  }

  // A substream that keeps up empties the queue in one poll.
  lemma {:induction false} ObligingSinkDrains(h: Handler, sink: Sink, n: nat)
    requires Obliging(sink)
    requires h.outbound.Some? && (h.outbound.value.WaitingOutput? || Rank(h) > 0)
    ensures var t := Polled(h, sink, n);
      && t.event == Pending && t.handler == h.(outbound := Some(WaitingOutput), queue := [])
      && Messages(t.fates) == Carried(h)
    decreases |h.queue|, Rank(h)
  {
    PollConserves(h, sink, n);
    var pass := OnePass(h, sink(n));
    if pass.Again? {
      ObligingSinkDrains(pass.handler, sink, n + 1);
    }
  }

  // -- Flushing --------------------------------------------------------------------------

  // The k-th pass of a poll, if it gets that far.
  ghost function PassAt(h: Handler, sink: Sink, n: nat, k: nat): Option<Pass>
    decreases k
  {
    var pass := OnePass(h, sink(n));
    if k == 0 then Some(pass)
    else if pass.Done? then None
    else PassAt(pass.handler, sink, n + 1, k - 1)
  }

  // The substream takes a message in that pass, or finds it too large.
  ghost predicate Takes(h: Handler, sink: Sink, n: nat, k: nat) {
    PassAt(h, sink, n, k).Some? && exists m :: Sent(m) in PassAt(h, sink, n, k).value.fates
  }

  ghost predicate FindsTooLarge(h: Handler, sink: Sink, n: nat, k: nat) {
    PassAt(h, sink, n, k).Some? && exists m :: TooLarge(m) in PassAt(h, sink, n, k).value.fates
  }

  // Once a message is taken the substream's next answer decides: held up, the poll ends
  // waiting for the flush and keeps the connection alive; broken, it asks for a close;
  // only when flushed does it go on.
  lemma {:induction false} FlushDecides(h: Handler, sink: Sink, n: nat, k: nat)
    requires Takes(h, sink, n, k)
    ensures var t, answer := Polled(h, sink, n), sink(n + k + 1).poll;
      && (answer == NotReady ==>
            && t.event == Pending && t.passes == k + 2
            && t.handler.outbound == Some(PendingFlush) && t.handler.keepAlive == Yes)
      && (answer == Broken ==> t.event == Close && t.passes == k + 2)
      && (answer == Ready ==> t.passes > k + 2 && PassAt(h, sink, n, k + 2).Some?)
    decreases k
  {
    var pass := OnePass(h, sink(n));
    if k == 0 {
      assert pass.Again? && pass.handler.outbound == Some(PendingFlush);
      var flush := OnePass(pass.handler, sink(n + 1));
      assert PassAt(h, sink, n, 2) == PassAt(pass.handler, sink, n + 1, 1);
      assert flush.Again? ==> PassAt(pass.handler, sink, n + 1, 1) == PassAt(flush.handler, sink, n + 2, 0);
      if flush.Again? {
        PollIsShort(flush.handler, sink, n + 2);
      }
    } else {
      FlushDecides(pass.handler, sink, n + 1, k - 1);
      assert PassAt(h, sink, n, k + 2) == PassAt(pass.handler, sink, n + 1, k + 1);
    }
  }

  // A flush held up in one poll is what the next begins with.
  lemma FlushResumes(h: Handler, sink: Sink, n: nat)
    requires h.outbound == Some(PendingFlush)
    ensures var t, answer, flushed := Polled(h, sink, n), sink(n).poll, h.(outbound := Some(WaitingOutput));
      && (answer == NotReady ==> t == Turn(h.(keepAlive := Yes), [], Pending, 1))
      && (answer == Broken ==> t.event == Close && t.fates == [])
      && (answer == Ready ==>
            && t.event == Polled(flushed, sink, n + 1).event && t.fates == Polled(flushed, sink, n + 1).fates
            && t.handler == Polled(flushed, sink, n + 1).handler)
  {
    Continues(h, sink, n, []);
  }

  lemma {:induction false} PassesReached(h: Handler, sink: Sink, n: nat, k: nat)
    ensures PassAt(h, sink, n, k).Some? <==> k < Polled(h, sink, n).passes
    decreases k
  {
    var pass := OnePass(h, sink(n));
    if pass.Again? {
      if k > 0 {
        PassesReached(pass.handler, sink, n + 1, k - 1);
      }
    }
  }

  // Hence nothing is taken on top of an unflushed message, and a poll that ends idle
  // has flushed all it sent.
  lemma NothingUnflushed(h: Handler, sink: Sink, n: nat, k: nat)
    requires Takes(h, sink, n, k)
    requires || Polled(h, sink, n).handler.outbound == Some(WaitingOutput)
             || (exists j :: j > k && Takes(h, sink, n, j))
    ensures sink(n + k + 1).poll == Ready
  {
    FlushDecides(h, sink, n, k);
    if sink(n + k + 1).poll != Ready {
      if j :| j > k && Takes(h, sink, n, j) {
        PassesReached(h, sink, n, j);
        assert j == k + 1;
        TakesOnlyWhenSending(h, sink, n, k);
      }
      hide Takes;
      if Polled(h, sink, n).handler.outbound == Some(WaitingOutput) {
        BrokenPoisons(h, sink, n);
      }
    }
  }

  // The pass after one that took a message takes none.
  lemma {:induction false} TakesOnlyWhenSending(h: Handler, sink: Sink, n: nat, k: nat)
    requires Takes(h, sink, n, k)
    ensures !Takes(h, sink, n, k + 1)
    decreases k
  {
    var pass := OnePass(h, sink(n));
    assert PassAt(h, sink, n, k + 1) == PassAt(pass.handler, sink, n + 1, k);
    if k > 0 {
      TakesOnlyWhenSending(pass.handler, sink, n + 1, k - 1);
    }
  }

  lemma {:induction false} BrokenPoisons(h: Handler, sink: Sink, n: nat)
    ensures Polled(h, sink, n).event == Close ==> Poison(Polled(h, sink, n).handler)
    decreases |h.queue|, Rank(h)
  {
    var pass := OnePass(h, sink(n));
    if pass.Again? {
      BrokenPoisons(pass.handler, sink, n + 1);
    }
  }

  lemma {:induction false} SameAnswers(h: Handler, sink: Sink, other: Sink, n: nat)
    requires forall i: nat :: i >= n ==> sink(i) == other(i)
    ensures Polled(h, sink, n) == Polled(h, other, n)
    decreases |h.queue|, Rank(h)
  {
    var pass := OnePass(h, sink(n));
    if pass.Again? {
      SameAnswers(pass.handler, sink, other, n + 1);
    }
  }

  // A message found too large leaves nothing to flush: the next answer is not asked for.
  lemma {:induction false} TooLargeNeedsNoFlush(h: Handler, sink: Sink, other: Sink, n: nat, k: nat)
    requires FindsTooLarge(h, sink, n, k) && forall i: nat :: i >= n && i != n + k + 1 ==> sink(i) == other(i)
    ensures Polled(h, sink, n) == Polled(h, other, n)
    decreases k
  {
    var pass := OnePass(h, sink(n));
    if k == 0 {
      var next := OnePass(pass.handler, sink(n + 1));
      assert next == OnePass(pass.handler, other(n + 1));
      if next.Again? {
        SameAnswers(next.handler, sink, other, n + 2);
      }
    } else {
      TooLargeNeedsNoFlush(pass.handler, sink, other, n + 1, k - 1);
    }
  }

  // Negotiating at any time loses a message exactly when one was being sent.
  lemma NegotiationLoses(h: Handler)
    ensures Carried(Negotiate(h)) == Carried(h) <==> !(h.outbound.Some? && h.outbound.value.PendingSend?)
  {
    assert |Carried(Negotiate(h))| == |h.queue|;
  }

  // -- Runs ------------------------------------------------------------------------------

  datatype Stimulus =
    | Inject(message: Rpc)
    | Negotiated
    | DialFailed
    | InboundOpened
    | InboundClosed
    | Poll(sink: Sink)

  // The inbound half closing stops the keep-alive if no outbound half was ever asked for.
  function React(h: Handler, s: Stimulus): Turn {
    match s
    case Inject(m) => Turn(Accept(h, m), [], Pending, 0)
    case Negotiated => Turn(Negotiate(h), if Rank(h) == 2 then [Lost(h.outbound.value.message)] else [], Pending, 0)
    case DialFailed => Turn(h, [], Pending, 0)
    case InboundOpened => Turn(h.(inbound := true), [], Pending, 0)
    case InboundClosed =>
      Turn(h.(inbound := false, keepAlive := if h.outbound.None? then No else h.keepAlive), [], Pending, 0)
    case Poll(sink) => Polled(h, sink, 0)
  }

  ghost function Run(h: Handler, steps: seq<Stimulus>): Handler {
    if steps == [] then h else React(Run(h, steps[..|steps| - 1]), steps[|steps| - 1]).handler
  }

  ghost function Last(h: Handler, steps: seq<Stimulus>): Turn
    requires steps != []
  {
    React(Run(h, steps[..|steps| - 1]), steps[|steps| - 1])
  }

  ghost function Fates(h: Handler, steps: seq<Stimulus>): seq<Fate> {
    if steps == [] then [] else Fates(h, steps[..|steps| - 1]) + Last(h, steps).fates
  }

  ghost function Accepted(h: Handler, steps: seq<Stimulus>): seq<Rpc> {
    if steps == [] then []
    else
      var init, last := steps[..|steps| - 1], steps[|steps| - 1];
      Accepted(h, init) + if last.Inject? && Admits(Run(h, init), last.message) then [last.message] else []
  }

  // In every run whatsoever, what was accepted is what met a fate, in order, then what
  // is being sent, then the queue.
  lemma {:induction false} Conservation(h: Handler, steps: seq<Stimulus>)
    ensures Carried(h) + Accepted(h, steps) == Messages(Fates(h, steps)) + Carried(Run(h, steps))
  {
    if steps != [] {
      var init, last := steps[..|steps| - 1], steps[|steps| - 1];
      Conservation(h, init);
      var before, t := Run(h, init), Last(h, steps);
      StepConserves(before, last);
      assert Messages(Fates(h, init) + t.fates) == Messages(Fates(h, init)) + Messages(t.fates);
      var taken := if last.Inject? && Admits(before, last.message) then [last.message] else [];
      assert Carried(h) + Accepted(h, steps) == (Carried(h) + Accepted(h, init)) + taken;
      assert Messages(Fates(h, init)) + (Carried(before) + taken) == Messages(Fates(h, init)) + Carried(before) + taken;
    }
  }

  lemma StepConserves(h: Handler, s: Stimulus)
    ensures var t := React(h, s);
      Carried(h) + (if s.Inject? && Admits(h, s.message) then [s.message] else [])
      == Messages(t.fates) + Carried(t.handler)
  {
    if s.Poll? {
      PollConserves(h, s.sink, 0);
    }
  }

  // No poll asked for the connection to be closed.
  ghost predicate Open(h: Handler, steps: seq<Stimulus>) {
    steps != [] ==> Open(h, steps[..|steps| - 1]) && Last(h, steps).event != Close
  }

  // Negotiation never completed while a message was being sent; it cannot when it
  // completes only what was requested.
  ghost predicate Settled(h: Handler, steps: seq<Stimulus>) {
    steps != [] ==>
      var init := steps[..|steps| - 1];
      Settled(h, init) && (steps[|steps| - 1].Negotiated? ==> Rank(Run(h, init)) != 2)
  }

  // Until a close is asked for, no poll panics, and every message accepted has been
  // handed to the substream or dropped as too large, in order, but for those still
  // held: exactly when negotiation never completed over a message being sent.
  lemma {:induction false} FifoDelivery(temporary: bool, steps: seq<Stimulus>)
    requires Open(Start(temporary), steps)
    ensures var h := Start(temporary);
      && Accepted(h, steps) == Messages(Fates(h, steps)) + Carried(Run(h, steps))
      && ((forall f :: f in Fates(h, steps) ==> f.Sent? || f.TooLarge?) <==> Settled(h, steps))
      && !Poison(Run(h, steps)) && Run(h, steps).outbound != Some(Closing)
      && (steps != [] ==> Last(h, steps).event != Panic)
  {
    var h := Start(temporary);
    Conservation(h, steps);
    assert Carried(h) == [];
    if steps != [] {
      var init, last := steps[..|steps| - 1], steps[|steps| - 1];
      FifoDelivery(temporary, init);
      if last.Poll? {
        PoisonMeansClosed(Run(h, init), last.sink, 0);
      } else if last.Negotiated? && Rank(Run(h, init)) == 2 {
        assert Last(h, steps).fates[0].Lost? && Last(h, steps).fates[0] in Fates(h, steps);
      }
    }
  }

  // -- Temporary connections ---------------------------------------------------------------

  ghost predicate Stalled(h: Handler, steps: seq<Stimulus>) {
    steps != [] &&
    (|| Stalled(h, steps[..|steps| - 1])
     || (steps[|steps| - 1].Poll? && Last(h, steps).event == Pending && Rank(Last(h, steps).handler) > 0))
  }

  lemma {:induction false} PollKeepsAlive(h: Handler, sink: Sink, n: nat)
    requires h.outbound != Some(Closing)
    ensures var t := Polled(h, sink, n);
      t.handler.keepAlive == if t.event == Pending && Rank(t.handler) > 0 then Yes else h.keepAlive
    decreases |h.queue|, Rank(h)
  {
    var pass := OnePass(h, sink(n));
    if pass.Again? {
      PollKeepsAlive(pass.handler, sink, n + 1);
    }
  }

  // The outbound half was never asked for.
  ghost predicate Unasked(steps: seq<Stimulus>) {
    forall s :: s in steps ==> !s.Poll? && !s.Negotiated?
  }

  // The inbound half closed before that.
  ghost predicate ClosedEarly(steps: seq<Stimulus>) {
    steps != [] &&
    var init := steps[..|steps| - 1];
    ClosedEarly(init) || (steps[|steps| - 1].InboundClosed? && Unasked(init))
  }

  // A connection is kept alive exactly when it was opened as an ordinary one whose inbound
  // half did not close before the outbound half was asked for, or a poll was held up:
  // being held up turns any connection into an ordinary one for good.
  lemma {:induction false} KeepAliveIff(temporary: bool, steps: seq<Stimulus>)
    ensures var h := Start(temporary);
      && (Run(h, steps).keepAlive == Yes <==> (!temporary && !ClosedEarly(steps)) || Stalled(h, steps))
      && (Run(h, steps).outbound == None <==> Unasked(steps))
      && Run(h, steps).outbound != Some(Closing)
      && (Stalled(h, steps) ==> !Unasked(steps))
  {
    if steps != [] {
      var h, init, last := Start(temporary), steps[..|steps| - 1], steps[|steps| - 1];
      assert steps == init + [last];
      KeepAliveIff(temporary, init);
      var before := Run(h, init);
      if last.Poll? {
        PollKeepsAlive(before, last.sink, 0);
        if Poison(before) {
          assert Polled(before, last.sink, 0).event == Panic;
        } else {
          PoisonMeansClosed(before, last.sink, 0);
        }
      }
    }
  }

  // So a connection opened for a shuffle reply takes other messages exactly when a poll
  // was held up before.
  lemma TemporaryOpensWhenStalled(steps: seq<Stimulus>, message: Rpc)
    requires !message.ShuffleReply?
    ensures Admits(Run(Start(true), steps), message) <==> Stalled(Start(true), steps)
    ensures Run(Start(true), steps).outbound != Some(Closing)
    ensures Stalled(Start(true), steps) ==> Run(Start(true), steps).outbound != None
  {
    KeepAliveIff(true, steps);
  }
}
