/** The outbound half of the EpisubHandler object of handler.rs, proved against
    HandlerSpec. */
module EpisubHandlers {
  import opened Types
  import opened HandlerSpec

  class EpisubHandler {
    var outboundSubstream: Option<Outbound>
    var hasInbound: bool
    var keepAlive: KeepAlive
    var outboundQueue: seq<Rpc>

    ghost function Model(): Handler
      reads this
    {
      Handler(outboundSubstream, hasInbound, keepAlive, outboundQueue)
    }

    constructor (temporary: bool)
      ensures Model() == Start(temporary)
    {
      outboundSubstream, hasInbound, outboundQueue := None, false, [];
      keepAlive := if temporary then No else Yes;
    }

    method InjectFullyNegotiatedInbound()
      modifies this`hasInbound
      ensures Model() == React(old(Model()), InboundOpened).handler
    {
      hasInbound := true;
    }

    method InjectFullyNegotiatedOutbound()
      modifies this`outboundSubstream
      ensures Model() == Negotiate(old(Model()))
    {
      outboundSubstream := Some(WaitingOutput);
    }

    method InjectEvent(event: Rpc)
      modifies this`outboundQueue
      ensures Model() == Accept(old(Model()), event)
    {
      if keepAlive != Yes {
        if event.ShuffleReply? {
          outboundQueue := outboundQueue + [event];
        }
      } else {
        outboundQueue := outboundQueue + [event];
      }
    }

    method ProcessOutboundPoll(sink: Sink) returns (event: Event, ghost fates: seq<Fate>)
      modifies this`outboundSubstream, this`keepAlive, this`outboundQueue
      ensures var t := Polled(old(Model()), sink, 0);
        Model() == t.handler && fates == t.fates && event == t.event
    {
      hide Polled;
      ghost var whole := Polled(Model(), sink, 0);
      var n := 0;
      fates := [];
      while true
        invariant var rest := Polled(Model(), sink, n);
          whole.handler == rest.handler && whole.fates == fates + rest.fates && whole.event == rest.event
        decreases |outboundQueue|, Rank(Model())
      {
        Continues(Model(), sink, n, fates);
        var taken := outboundSubstream;
        outboundSubstream := Some(Poisoned);
        var replies := sink(n);
        n := n + 1;
        match taken {
          case Some(WaitingOutput) =>
            if outboundQueue != [] {
              var message := outboundQueue[0];
              outboundQueue := outboundQueue[1..];
              outboundSubstream := Some(PendingSend(message));
            } else {
              outboundSubstream := Some(WaitingOutput);
              return Pending, fates;
            }
          case Some(PendingSend(message)) =>
            match replies.poll {
              case Ready =>
                match replies.send {
                  case Taken =>
                    outboundSubstream := Some(PendingFlush);
                    fates := fates + [Sent(message)];
                  case Oversized =>
                    outboundSubstream := Some(WaitingOutput);
                    fates := fates + [TooLarge(message)];
                  case Refused =>
                    return Close, fates + [Lost(message)];
                }
              case Broken =>
                return Close, fates + [Lost(message)];
              case NotReady =>
                keepAlive := Yes;
                outboundSubstream := Some(PendingSend(message));
                return Pending, fates;
            }
          case Some(PendingFlush) =>
            match replies.poll {
              case Ready =>
                outboundSubstream := Some(WaitingOutput);
              case Broken =>
                return Close, fates;
              case NotReady =>
                keepAlive := Yes;
                outboundSubstream := Some(PendingFlush);
                return Pending, fates;
            }
          case Some(Closing) =>
            match replies.poll {
              case Ready =>
                outboundSubstream := None;
                if !hasInbound {
                  keepAlive := No;
                }
                return Pending, fates;
              case Broken =>
                return Close, fates;
              case NotReady =>
                keepAlive := No;
                outboundSubstream := Some(Closing);
                return Pending, fates;
            }
          case Some(SubstreamRequested) =>
            outboundSubstream := Some(SubstreamRequested);
            return Pending, fates;
          case Some(Poisoned) =>
            return Panic, fates;
          case None =>
            outboundSubstream := Some(SubstreamRequested);
            return OutboundSubstreamRequest, fates;
        }
      }
    }
  }
}
