/** The Node proxy: what the browser sends before the upstream socket opens is kept and flushed in order. */
module NodeProxy {

  type Message = string

  /** readyState of a `ws` socket; it only ever moves forward. */
  datatype Ready = CONNECTING | OPEN | CLOSING | CLOSED

  /** The variables of one client's handlers, the two sockets, and (history) what came in on either side. */
  datatype Proxy = Proxy(
    upstreamReady: bool, clientBuffer: seq<Message>,
    upstream: Ready, client: Ready,
    sentUp: seq<Message>, sentDown: seq<Message>,
    fromClient: seq<Message>, fromUpstream: seq<Message>)

  const START := Proxy(false, [], CONNECTING, OPEN, [], [], [], [])

  datatype Event =
    | UpstreamOpens
    | UpstreamMessage(m: Message)
    | UpstreamClosing          // a close handshake begins, no event yet
    | UpstreamCloses
    | ClientMessage(m: Message)
    | ClientClosing
    | ClientCloses

  /** close() on an open socket starts its close handshake. */
  function CloseIfOpen(r: Ready): Ready { if r == OPEN then CLOSING else r }

  function Closing(r: Ready): Ready { if r == CLOSED then CLOSED else CLOSING }

  /** One event; a socket that has left CONNECTING does not open. */
  function On(p: Proxy, e: Event): Proxy {
    match e
    case UpstreamOpens =>
      if p.upstream != CONNECTING then p
      else p.(upstream := OPEN, upstreamReady := true, sentUp := p.sentUp + p.clientBuffer, clientBuffer := [])
    case UpstreamMessage(m) =>
      p.(fromUpstream := p.fromUpstream + [m], sentDown := if p.client == OPEN then p.sentDown + [m] else p.sentDown)
    case UpstreamClosing => p.(upstream := Closing(p.upstream))
    case UpstreamCloses => p.(upstream := CLOSED, client := CloseIfOpen(p.client))
    case ClientMessage(m) =>
      if p.upstreamReady && p.upstream == OPEN then p.(fromClient := p.fromClient + [m], sentUp := p.sentUp + [m])
      else p.(fromClient := p.fromClient + [m], clientBuffer := p.clientBuffer + [m])
    case ClientClosing => p.(client := Closing(p.client))
    case ClientCloses => p.(client := CLOSED, upstream := CloseIfOpen(p.upstream))
  }

  function Run(events: seq<Event>): Proxy {
    if events == [] then START else On(Run(events[..|events| - 1]), events[|events| - 1])
  }

  /** The handlers of handleClient over their captured variables. */
  class Handler {
    var upstreamReady: bool
    var clientBuffer: seq<Message>
    var upstream: Ready
    var client: Ready
    var sentUp: seq<Message>
    var sentDown: seq<Message>
    ghost var fromClient: seq<Message>
    ghost var fromUpstream: seq<Message>

    ghost function View(): Proxy
      reads this
    {
      Proxy(upstreamReady, clientBuffer, upstream, client, sentUp, sentDown, fromClient, fromUpstream)
    }

    /** Nothing lost, nothing out of order. */
    ghost predicate Valid()
      reads this
    {
      Conserved(View())
    }

    constructor ()
      ensures Valid() && View() == START
    {
      upstreamReady, clientBuffer, upstream, client := false, [], CONNECTING, OPEN;
      sentUp, sentDown, fromClient, fromUpstream := [], [], [], [];
    }

    method OnUpstreamOpen()
      requires Valid() && upstream == CONNECTING
      modifies this
      ensures Valid() && View() == On(old(View()), UpstreamOpens)
      ensures sentUp == fromClient && fromClient == old(fromClient)
    {
      upstream := OPEN;
      upstreamReady := true;
      for i := 0 to |clientBuffer|
        modifies this`sentUp
        invariant sentUp == old(sentUp) + clientBuffer[..i]
      {
        sentUp := sentUp + [clientBuffer[i]];
      }
      clientBuffer := [];
    }

    method OnUpstreamMessage(m: Message)
      requires Valid()
      modifies this
      ensures Valid() && View() == On(old(View()), UpstreamMessage(m))
      ensures fromUpstream == old(fromUpstream) + [m] && client == old(client)
      ensures sentDown == if client == OPEN then fromUpstream else old(sentDown)
    {
      fromUpstream := fromUpstream + [m];
      if client == OPEN {
        sentDown := sentDown + [m];
      }
    }

    method OnUpstreamClose()
      requires Valid()
      modifies this
      ensures Valid() && View() == On(old(View()), UpstreamCloses)
      ensures upstream == CLOSED && client == if old(client) == OPEN then CLOSING else old(client)
    {
      upstream := CLOSED;
      if client == OPEN {
        client := CLOSING;
      }
    }

    method OnClientMessage(m: Message)
      requires Valid()
      modifies this
      ensures Valid() && View() == On(old(View()), ClientMessage(m))
      ensures fromClient == old(fromClient) + [m] && upstream == old(upstream)
      ensures sentUp == if upstream == OPEN then fromClient else old(sentUp)
    {
      fromClient := fromClient + [m];
      if upstreamReady && upstream == OPEN {
        sentUp := sentUp + [m];
      } else {
        clientBuffer := clientBuffer + [m];
      }
    }

    method OnClientClose()
      requires Valid()
      modifies this
      ensures Valid() && View() == On(old(View()), ClientCloses)
      ensures client == CLOSED && upstream == if old(upstream) == OPEN then CLOSING else old(upstream)
    {
      client := CLOSED;
      if upstream == OPEN {
        upstream := CLOSING;
      }
    }
  }

  predicate Conserved(p: Proxy) {
    && p.fromClient == p.sentUp + p.clientBuffer
    && (p.upstream == CONNECTING ==> !p.upstreamReady && p.sentUp == [])
    && (p.upstream == OPEN ==> p.upstreamReady && p.clientBuffer == [])
    && p.sentDown <= p.fromUpstream
    && (p.client == OPEN ==> p.sentDown == p.fromUpstream)
    && p.client != CONNECTING
  }

  lemma ConservedAfter(p: Proxy, e: Event)
    requires Conserved(p)
    ensures Conserved(On(p, e))
  {
  }

  /**
   In every state what the browser sent is what went upstream followed by what is
   still buffered, in order; and the browser got a prefix of what upstream sent.
   */
  lemma {:induction false} AlwaysConserved(events: seq<Event>)
    ensures Conserved(Run(events))
  {
    if events != [] {
      AlwaysConserved(events[..|events| - 1]);
      ConservedAfter(Run(events[..|events| - 1]), events[|events| - 1]);
    }
  }

  predicate NeverOpensAgain(r: Ready) { r == CLOSING || r == CLOSED }

  lemma RunSnoc(events: seq<Event>, e: Event)
    ensures Run(events + [e]) == On(Run(events), e)
  {
    assert (events + [e])[..|events|] == events;
  }

  lemma BufferedAfter(p: Proxy, e: Event)
    requires NeverOpensAgain(p.upstream)
    ensures NeverOpensAgain(On(p, e).upstream) && On(p, e).sentUp == p.sentUp && p.clientBuffer <= On(p, e).clientBuffer
  {
  }

  /** After the upstream socket has left OPEN nothing goes upstream: the buffer only grows. */
  lemma {:induction false} BufferedForGood(events: seq<Event>, more: seq<Event>)
    requires NeverOpensAgain(Run(events).upstream)
    ensures NeverOpensAgain(Run(events + more).upstream)
    ensures Run(events + more).sentUp == Run(events).sentUp
    ensures Run(events).clientBuffer <= Run(events + more).clientBuffer
  {
    if more == [] {
      assert events + more == events;
    } else {
      var init := more[..|more| - 1];
      BufferedForGood(events, init);
      RunSnoc(events + init, more[|more| - 1]);
      BufferedAfter(Run(events + init), more[|more| - 1]);
      assert events + more == events + init + [more[|more| - 1]];
    }
  }

  /** When upstream has closed, the client is closed too and stays so, whatever follows. */
  lemma {:induction false} ClientFollowsUpstream(events: seq<Event>, more: seq<Event>)
    ensures Run(events + [UpstreamCloses] + more).client == CLOSING || Run(events + [UpstreamCloses] + more).client == CLOSED
    ensures Run(events + [UpstreamCloses] + more).upstream == CLOSED
  {
    var closed := events + [UpstreamCloses];
    if more == [] {
      assert closed + more == closed;
      RunSnoc(events, UpstreamCloses);
      AlwaysConserved(events);
    } else {
      var init, e := more[..|more| - 1], more[|more| - 1];
      ClientFollowsUpstream(events, init);
      RunSnoc(closed + init, e);
      assert closed + more == closed + init + [e];
    }
  }

  lemma GoneAfter(p: Proxy, e: Event)
    requires Conserved(p) && p.client != OPEN
    ensures On(p, e).client != OPEN && On(p, e).sentDown == p.sentDown
  {
  }

  /** Once the client is not open any more nothing is sent to it. */
  lemma {:induction false} NothingForTheGone(events: seq<Event>, more: seq<Event>)
    requires Run(events).client != OPEN
    ensures Run(events + more).client != OPEN && Run(events + more).sentDown == Run(events).sentDown
  {
    if more == [] {
      assert events + more == events;
    } else {
      var init, e := more[..|more| - 1], more[|more| - 1];
      NothingForTheGone(events, init);
      hide Conserved, On;
      RunSnoc(events + init, e);
      AlwaysConserved(events + init);
      GoneAfter(Run(events + init), e);
      assert events + more == events + init + [e];
    }
  }

  predicate EndsUpstream(e: Event) { e.UpstreamClosing? || e.UpstreamCloses? || e.ClientCloses? }

  /** What a client said before it left an upstream that was still connecting is sent once that opens, and upstream stays open. */
  lemma {:induction false} OpensAndStaysOpen(events: seq<Event>, more: seq<Event>)
    requires Run(events).upstream == CONNECTING
    requires forall i :: 0 <= i < |more| ==> !EndsUpstream(more[i])
    ensures Run(events + [ClientCloses] + [UpstreamOpens] + more).upstream == OPEN
    ensures Run(events).fromClient <= Run(events + [ClientCloses] + [UpstreamOpens] + more).sentUp
  {
    var left := events + [ClientCloses];
    RunSnoc(events, ClientCloses);
    RunSnoc(left, UpstreamOpens);
    AlwaysConserved(events);
    if more == [] {
      assert left + [UpstreamOpens] + more == left + [UpstreamOpens];
    } else {
      var init, e := more[..|more| - 1], more[|more| - 1];
      OpensAndStaysOpen(events, init);
      RunSnoc(left + [UpstreamOpens] + init, e);
      AlwaysConserved(left + [UpstreamOpens] + init);
      assert left + [UpstreamOpens] + more == left + [UpstreamOpens] + init + [e];
      SentStays(Run(left + [UpstreamOpens] + init), e);
    }
  }

  lemma SentStays(p: Proxy, e: Event)
    ensures p.sentUp <= On(p, e).sentUp
  {
  }

  /** A client that leaves an open proxy takes upstream down; one that leaves while upstream connects does not, for good. */
  lemma WhoeverLeaves(events: seq<Event>, more: seq<Event>)
    requires forall i :: 0 <= i < |more| ==> !EndsUpstream(more[i])
    requires Run(events).upstream == OPEN || Run(events).upstream == CONNECTING
    ensures Run(events + [ClientCloses] + [UpstreamOpens] + more).upstream == OPEN <==> Run(events).upstream == CONNECTING
  {
    if Run(events).upstream == CONNECTING {
      OpensAndStaysOpen(events, more);
    } else {
      RunSnoc(events, ClientCloses);
      RunSnoc(events + [ClientCloses], UpstreamOpens);
      BufferedForGood(events + [ClientCloses] + [UpstreamOpens], more);
    }
  }
}
