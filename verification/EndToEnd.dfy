/**
  Client, JSON codecs, the two directions of the connection and the server, run together. The
  streams are first-in first-out; writes may fail and leave nothing, the whole message or torn
  bytes behind; any read, hook or decoding step may fail.
 */
module EndToEnd {
  import opened Basics
  import opened JsonCodec
  import Calls
  import Client = JsonClient
  import Server = ServerConn

  datatype State = State(
    client: Client.State, requests: seq<Item<WireRequest>>,
    server: Server.State, responses: seq<Item<WireResponse>>)

  const INITIAL: State := State(Client.INITIAL, [], Server.INITIAL, [])

  datatype Event =
    | ClientStep(c: Client.Event)
    | SendRequest(failure: Option<Error>, written: seq<Item<WireRequest>>)
    | ReceiveResponse
    | ServerStep(s: Server.Event)
    | ReceiveRequest
    | SendResponse(i: nat, put: seq<Item<WireResponse>>)

  /** What a write of `message` may leave on the stream. */
  predicate MayPut<T(==)>(put: seq<Item<T>>, message: T) {
    put == [] || put == [Whole(message)] || put == [Torn]
  }

  function RequestEvent(x: State): Server.Event
    requires x.requests != []
  {
    match x.requests[0]
    case Whole(m) => Server.HeaderOk(m)
    case Torn => Server.HeaderErr
  }

  ghost predicate Enabled(x: State, e: Event) {
    match e
    case ClientStep(c) => !c.Encode? && !c.Receive? && Client.Enabled(x.client, c)
    case SendRequest(failure, written) =>
      && Client.Enabled(x.client, Client.Encode(failure))
      && MayPut(written, Client.Outgoing(x.client.core))
      && (failure.None? ==> written == [Whole(Client.Outgoing(x.client.core))])
    case ReceiveResponse => x.responses != [] && Client.Enabled(x.client, Client.Receive(x.responses[0]))
    case ServerStep(s) => !s.HeaderOk? && !s.Respond? && Server.Enabled(x.server, s)
    case ReceiveRequest => x.requests != [] && Server.Enabled(x.server, RequestEvent(x))
    case SendResponse(i, put) =>
      && Server.Enabled(x.server, Server.Respond(i))
      && (match Server.ResponseTo(x.server, i) case None => put == [] case Some(m) => MayPut(put, m))
  }

  ghost function Next(services: Server.Services, x: State, e: Event): State
    requires Enabled(x, e)
  {
    match e
    case ClientStep(c) => x.(client := Client.Next(x.client, c))
    case SendRequest(failure, written) =>
      x.(client := Client.Next(x.client, Client.Encode(failure)), requests := x.requests + written)
    case ReceiveResponse =>
      x.(client := Client.Next(x.client, Client.Receive(x.responses[0])), responses := x.responses[1..])
    case ServerStep(s) => x.(server := Server.Next(services, x.server, s))
    case ReceiveRequest =>
      x.(server := Server.Next(services, x.server, RequestEvent(x)), requests := x.requests[1..])
    case SendResponse(i, put) =>
      x.(server := Server.Next(services, x.server, Server.Respond(i)), responses := x.responses + put)
  }

  ghost predicate Run(services: Server.Services, x: State, events: seq<Event>)
    decreases |events|
  {
    events == [] || (Enabled(x, events[0]) && Run(services, Next(services, x, events[0]), events[1..]))
  }

  ghost function After(services: Server.Services, x: State, events: seq<Event>): State
    requires Run(services, x, events)
    decreases |events|
  {
    if events == [] then x else After(services, Next(services, x, events[0]), events[1..])
  }

  ghost predicate Reachable(services: Server.Services, x: State) {
    exists events :: Run(services, INITIAL, events) && x == After(services, INITIAL, events)
  }

  // ------------------------------------------------------------------ the invariant

  /** Sequence number `n` was issued for a call, and `name` and `params` are what that call asked for. */
  ghost predicate Asks(c: Calls.State, n: nat, name: string, params: Option<Json>) {
    && n < |c.issued| && c.issued[n] < |c.calls|
    && name == c.calls[c.issued[n]].serviceMethod
    && params == Some(c.calls[c.issued[n]].args)
  }

  predicate HasNumber(id: Option<RawId>, n: nat) {
    id == Some(Number(n))
  }

  function NumberIn(id: Option<RawId>): nat {
    match id case Some(Number(n)) => n case _ => 0
  }

  ghost predicate GenuineRequest(c: Calls.State, m: WireRequest) {
    HasNumber(m.id, NumberIn(m.id)) && Asks(c, NumberIn(m.id), m.name, m.params)
  }

  ghost predicate GenuineHeader(c: Calls.State, h: Server.Header) {
    HasNumber(h.id, NumberIn(h.id)) && Asks(c, NumberIn(h.id), h.name, h.params)
  }

  /** The response says what the method of request `i` returned, or why request `i` was refused. */
  ghost predicate Says(s: Server.State, i: nat, m: WireResponse) {
    && i < |s.headers| && m.id == s.headers[i].id
    && (|| (i in s.returned
            && m == EncodeResponse(m.id, s.returned[i].text,
                                   if s.returned[i].text != "" then Server.INVALID_REQUEST else s.returned[i].reply))
        || (i in s.refused && s.refused[i] != "" && m == EncodeResponse(m.id, s.refused[i], Server.INVALID_REQUEST)))
  }

  ghost predicate GenuineResponse(s: Server.State, m: WireResponse) {
    exists i: nat :: Says(s, i, m)
  }

  /** The outcome was produced by request `i`: its method returned it, or it is why `i` was refused. */
  ghost predicate Produced(s: Server.State, i: nat, o: Calls.Outcome) {
    && i < |s.headers|
    && (match o
        case Reply(v) => v != Null && i in s.returned && s.returned[i] == Server.Return(v, "")
        case ServerFault(text) =>
          text != "" && ((i in s.returned && s.returned[i].text == text) || (i in s.refused && s.refused[i] == text))
        case Failed(_) => true)
  }

  /** Call `k` got an outcome that was produced for it: by the request that carries its number. */
  ghost predicate Correlated(x: State, k: nat, o: Calls.Outcome) {
    exists i: nat, n: nat ::
      Produced(x.server, i, o) && HasNumber(x.server.headers[i].id, n) && Issued(x.client.core, n, k)
  }

  ghost predicate Issued(c: Calls.State, n: nat, k: nat) {
    n < |c.issued| && c.issued[n] == k
  }

  predicate FromServer(o: Calls.Outcome) {
    !o.Failed?
  }

  ghost predicate ClientFits(c: Calls.State) {
    && (forall j :: 0 <= j < |c.issued| ==> c.issued[j] < |c.calls|)
    && (c.sender.Locked? ==> c.sender.call < |c.calls|)
    && (forall k :: k in c.waiting ==> k < |c.calls|)
    && (c.sender.Writing? || c.sender.Aborting? ==> Issued(c, c.sender.number, c.sender.call))
    && ((c.receiver.Taken? || c.receiver.Reading?) && c.receiver.call.Some? ==>
          Issued(c, c.receiver.header.number, c.receiver.call.value))
  }

  ghost predicate Genuine(x: State) {
    && (forall j :: 0 <= j < |x.requests| && x.requests[j].Whole? ==>
          GenuineRequest(x.client.core, x.requests[j].message))
    && (forall i :: 0 <= i < |x.server.headers| ==> GenuineHeader(x.client.core, x.server.headers[i]))
    && (forall j :: 0 <= j < |x.responses| && x.responses[j].Whole? ==>
          GenuineResponse(x.server, x.responses[j].message))
    && (Client.InHand(x.client.core.receiver) ==> GenuineResponse(x.server, x.client.response))
  }

  ghost predicate AllCorrelated(x: State) {
    forall j :: 0 <= j < |x.client.core.log| && FromServer(x.client.core.log[j].outcome) ==>
      Correlated(x, x.client.core.log[j].call, x.client.core.log[j].outcome)
  }

  /** Requests arrive in the order of their numbers, and each number is sent once. */
  ghost predicate Ordered(x: State) {
    var c, r, h := x.client.core, x.requests, x.server.headers;
    && (forall i, j :: 0 <= i < j < |h| ==> NumberIn(h[i].id) < NumberIn(h[j].id))
    && (forall i, j :: 0 <= i < |h| && 0 <= j < |r| && r[j].Whole? ==> NumberIn(h[i].id) < NumberIn(r[j].message.id))
    && (forall i, j :: 0 <= i < j < |r| && r[i].Whole? && r[j].Whole? ==>
          NumberIn(r[i].message.id) < NumberIn(r[j].message.id))
    && (forall i :: 0 <= i < |h| ==> i <= NumberIn(h[i].id))
    && (c.sender.Writing? ==>
          && c.sender.number == |c.issued| - 1
          && (forall i :: 0 <= i < |h| ==> NumberIn(h[i].id) < c.sender.number)
          && (forall j :: 0 <= j < |r| && r[j].Whole? ==> NumberIn(r[j].message.id) < c.sender.number))
  }

  ghost predicate Inv(x: State) {
    && Client.Inv(x.client)
    && Server.Inv(x.server)
    && (|x.client.core.issued| <= TWO_TO_THE_64 ==>
          ClientFits(x.client.core) && Genuine(x) && Ordered(x) && AllCorrelated(x))
  }

  // ------------------------------------------------------------------ histories only grow

  ghost predicate ClientGrows(c: Calls.State, c': Calls.State) {
    c.calls <= c'.calls && c.issued <= c'.issued
  }

  ghost predicate ServerGrows(s: Server.State, s': Server.State) {
    && s.headers <= s'.headers
    && (forall i :: i in s.returned ==> i in s'.returned && s'.returned[i] == s.returned[i])
    && (forall i :: i in s.refused ==> i in s'.refused && s'.refused[i] == s.refused[i])
  }

  lemma CoreGrows(c: Calls.State, e: Calls.Event)
    requires Calls.Enabled(c, e)
    ensures ClientGrows(c, Calls.Next(c, e))
  {
  }

  lemma ConnGrows(services: Server.Services, s: Server.State, e: Server.Event)
    requires Server.Inv(s) && Server.Enabled(s, e)
    ensures ServerGrows(s, Server.Next(services, s, e))
  {
    hide Server.Conserved, Server.ReaderFits, Server.Remembers, Server.Numbered, Server.Truthful, Server.Judge;
  }

  lemma Grows(services: Server.Services, x: State, e: Event)
    requires Inv(x) && Enabled(x, e)
    ensures var x' := Next(services, x, e);
            ClientGrows(x.client.core, x'.client.core) && ServerGrows(x.server, x'.server)
  {
    hide Client.Inv, Server.Inv, ClientFits, Ordered, AllCorrelated, Genuine, Calls.Next;
    match e
    case ClientStep(c) =>
      if Client.CoreEvent(x.client, c).Some? { CoreGrows(x.client.core, Client.CoreEvent(x.client, c).value); }
    case SendRequest(failure, _) => CoreGrows(x.client.core, Calls.WriteDone(failure));
    case ReceiveResponse => CoreGrows(x.client.core, Client.CoreEvent(x.client, Client.Receive(x.responses[0])).value);
    case ServerStep(s) => ConnGrows(services, x.server, s);
    case ReceiveRequest => ConnGrows(services, x.server, RequestEvent(x));
    case SendResponse(i, _) => ConnGrows(services, x.server, Server.Respond(i));
  }

  lemma ResponseStaysGenuine(s: Server.State, s': Server.State, m: WireResponse)
    requires ServerGrows(s, s') && GenuineResponse(s, m)
    ensures GenuineResponse(s', m)
  {
    var i: nat :| Says(s, i, m);
    assert Says(s', i, m);
  }

  lemma StaysCorrelated(x: State, x': State, k: nat, o: Calls.Outcome)
    requires ClientGrows(x.client.core, x'.client.core) && ServerGrows(x.server, x'.server)
    requires Correlated(x, k, o)
    ensures Correlated(x', k, o)
  {
    var i: nat, n: nat :|
      Produced(x.server, i, o) && HasNumber(x.server.headers[i].id, n) && Issued(x.client.core, n, k);
    assert Produced(x'.server, i, o) && HasNumber(x'.server.headers[i].id, n) && Issued(x'.client.core, n, k);
  }

  // ------------------------------------------------------------------ the client's own steps

  lemma CoreFits(c: Calls.State, e: Calls.Event)
    requires Calls.Inv(c) && Calls.Enabled(c, e) && ClientFits(c)
    requires |Calls.Next(c, e).issued| <= TWO_TO_THE_64
    ensures ClientFits(Calls.Next(c, e))
  {
    hide Calls.Conserved, Calls.Owned, Calls.Drained;
  }

  lemma ClientFitsKept(services: Server.Services, x: State, e: Event)
    requires Inv(x) && Enabled(x, e) && ClientFits(x.client.core)
    requires |Next(services, x, e).client.core.issued| <= TWO_TO_THE_64
    ensures ClientFits(Next(services, x, e).client.core)
  {
    hide Server.Inv, ClientFits, Ordered, AllCorrelated, Genuine, Calls.Next, Calls.Inv;
    match e
    case ClientStep(c) =>
      if Client.CoreEvent(x.client, c).Some? { CoreFits(x.client.core, Client.CoreEvent(x.client, c).value); }
    case SendRequest(failure, _) => CoreFits(x.client.core, Calls.WriteDone(failure));
    case ReceiveResponse => CoreFits(x.client.core, Client.CoreEvent(x.client, Client.Receive(x.responses[0])).value);
    case _ =>
  }

  // ------------------------------------------------------------------ messages stay genuine

  /** How a step moves requests: nothing, one write, or one read. */
  ghost predicate RequestsFlow(x: State, x': State, e: Event) {
    && (if e.SendRequest? then
          && x.client.core.sender.Writing? && MayPut(e.written, Client.Outgoing(x.client.core))
          && x'.requests == x.requests + e.written
        else if e.ReceiveRequest? then x.requests != [] && x'.requests == x.requests[1..]
        else x'.requests == x.requests)
    && (if e.ReceiveRequest? && x.requests[0].Whole? then
          exists h: Server.Header :: x'.server.headers == x.server.headers + [h] && Copies(h, x.requests[0].message)
        else x'.server.headers == x.server.headers)
  }

  predicate Copies(h: Server.Header, m: WireRequest) {
    h.id == m.id && h.name == m.name && h.params == m.params
  }

  lemma RequestsFlowOf(services: Server.Services, x: State, e: Event)
    requires Enabled(x, e)
    ensures RequestsFlow(x, Next(services, x, e), e)
  {
    if e.ReceiveRequest? && x.requests[0].Whole? {
      var s' := Server.OnHeader(x.server, x.requests[0].message);
      assert s'.headers == x.server.headers + [s'.headers[|x.server.headers|]];
    }
  }

  /** How a step moves the receiver: the response in hand is the old one, or the next on the stream. */
  ghost predicate ResponsesFlow(x: State, x': State, e: Event) {
    && (if e.SendResponse? then
          && Server.Enabled(x.server, Server.Respond(e.i))
          && (forall m :: Whole(m) in e.put ==> Server.ResponseTo(x.server, e.i) == Some(m))
          && x'.responses == x.responses + e.put
        else if e.ReceiveResponse? then x.responses != [] && x'.responses == x.responses[1..]
        else x'.responses == x.responses)
    && (Client.InHand(x'.client.core.receiver) ==>
          if e.ReceiveResponse? then x.responses[0] == Whole(x'.client.response)
          else Client.InHand(x.client.core.receiver) && x'.client.response == x.client.response)
  }

  lemma ResponsesFlowOf(services: Server.Services, x: State, e: Event)
    requires Enabled(x, e)
    ensures ResponsesFlow(x, Next(services, x, e), e)
  {
  }

  lemma ResponsesKept(x: State, x': State, e: Event)
    requires Inv(x) && |x.client.core.issued| <= TWO_TO_THE_64
    requires ResponsesFlow(x, x', e) && ServerGrows(x.server, x'.server)
    ensures forall j :: 0 <= j < |x'.responses| && x'.responses[j].Whole? ==>
              GenuineResponse(x'.server, x'.responses[j].message)
    ensures Client.InHand(x'.client.core.receiver) ==> GenuineResponse(x'.server, x'.client.response)
  {
    hide Client.Inv, Server.Inv, Says, ClientFits, Ordered, AllCorrelated, ServerGrows;
    forall j | 0 <= j < |x'.responses| && x'.responses[j].Whole?
      ensures GenuineResponse(x'.server, x'.responses[j].message)
    {
      var m := x'.responses[j].message;
      if e.SendResponse? && j >= |x.responses| {
        assert e.put[j - |x.responses|] == Whole(m);
        AnswerIsGenuine(x, e.i, m);
      } else {
        assert x'.responses[j] == x.responses[if e.ReceiveResponse? then j + 1 else j];
      }
      ResponseStaysGenuine(x.server, x'.server, m);
    }
    if Client.InHand(x'.client.core.receiver) {
      ResponseStaysGenuine(x.server, x'.server, x'.client.response);
    }
  }

  lemma RequestsKept(x: State, x': State, e: Event)
    requires Genuine(x) && ClientFits(x.client.core)
    requires RequestsFlow(x, x', e) && ClientGrows(x.client.core, x'.client.core)
    ensures forall j :: 0 <= j < |x'.requests| && x'.requests[j].Whole? ==>
              GenuineRequest(x'.client.core, x'.requests[j].message)
    ensures forall i :: 0 <= i < |x'.server.headers| ==> GenuineHeader(x'.client.core, x'.server.headers[i])
  {
    var c, c' := x.client.core, x'.client.core;
    forall j | 0 <= j < |x'.requests| && x'.requests[j].Whole? ensures GenuineRequest(c', x'.requests[j].message) {
      if !(e.SendRequest? && j >= |x.requests|) {
        assert x'.requests[j] == x.requests[if e.ReceiveRequest? then j + 1 else j];
        assert GenuineRequest(c, x'.requests[j].message);
      }
    }
    forall i | 0 <= i < |x'.server.headers| ensures GenuineHeader(c', x'.server.headers[i]) {
      if i < |x.server.headers| {
        assert GenuineHeader(c, x.server.headers[i]);
      } else {
        assert GenuineRequest(c, x.requests[0].message);
      }
    }
  }

  lemma HeadersBounded(x: State)
    requires Inv(x) && |x.client.core.issued| <= TWO_TO_THE_64
    ensures |x.server.headers| <= |x.client.core.issued|
  {
    if x.server.headers != [] {
      var last := |x.server.headers| - 1;
      assert GenuineHeader(x.client.core, x.server.headers[last]);
    }
  }

  lemma AnswerIsGenuine(x: State, i: nat, m: WireResponse)
    requires Inv(x) && |x.client.core.issued| <= TWO_TO_THE_64
    requires Server.Enabled(x.server, Server.Respond(i)) && Server.ResponseTo(x.server, i) == Some(m)
    ensures GenuineResponse(x.server, m)
  {
    HeadersBounded(x);
    Server.RespondRemembers(x.server, i);
    assert Says(x.server, i, m);
  }

  /** A write in progress is the latest registration, and stays in progress until it is encoded. */
  ghost predicate SenderFlow(c: Calls.State, c': Calls.State, encoded: bool) {
    c'.sender.Writing? ==>
      || (c'.sender.number == |c.issued| && |c'.issued| == |c.issued| + 1)
      || (c'.sender == c.sender && c'.issued == c.issued && !encoded)
  }

  lemma CoreSenderFlow(c: Calls.State, e: Calls.Event)
    requires Calls.Numbered(c) && Calls.Enabled(c, e) && |Calls.Next(c, e).issued| <= TWO_TO_THE_64
    ensures SenderFlow(c, Calls.Next(c, e), e.WriteDone?)
  {
  }

  lemma SenderFlowOf(services: Server.Services, x: State, e: Event)
    requires Inv(x) && Enabled(x, e) && |Next(services, x, e).client.core.issued| <= TWO_TO_THE_64
    ensures SenderFlow(x.client.core, Next(services, x, e).client.core, e.SendRequest?)
  {
    match e
    case ClientStep(c) =>
      if Client.CoreEvent(x.client, c).Some? { CoreSenderFlow(x.client.core, Client.CoreEvent(x.client, c).value); }
    case SendRequest(failure, _) => CoreSenderFlow(x.client.core, Calls.WriteDone(failure));
    case ReceiveResponse =>
      CoreSenderFlow(x.client.core, Client.CoreEvent(x.client, Client.Receive(x.responses[0])).value);
    case _ =>
  }

  lemma OrderedAfterSend(x: State, x': State, e: Event)
    requires Ordered(x) && RequestsFlow(x, x', e) && e.SendRequest? && !x'.client.core.sender.Writing?
    ensures Ordered(x')
  {
    assert forall j :: 0 <= j < |x.requests| ==> x'.requests[j] == x.requests[j];
  }

  lemma OrderedAfterReceive(x: State, x': State, e: Event)
    requires Ordered(x) && RequestsFlow(x, x', e) && e.ReceiveRequest?
    requires x'.client == x.client
    ensures Ordered(x')
  {
    var r, h, r' := x.requests, x.server.headers, x'.requests;
    assert forall j :: 0 <= j < |r'| ==> r'[j] == r[j + 1];
    assert r[0].Whole? && h != [] ==> NumberIn(h[|h| - 1].id) < NumberIn(r[0].message.id);
  }

  lemma OrderedKept(x: State, x': State, e: Event)
    requires Genuine(x) && Ordered(x) && RequestsFlow(x, x', e)
    requires SenderFlow(x.client.core, x'.client.core, e.SendRequest?)
    requires e.SendRequest? ==> !x'.client.core.sender.Writing?
    requires e.ReceiveRequest? ==> x'.client == x.client
    ensures Ordered(x')
  {
    if e.SendRequest? {
      OrderedAfterSend(x, x', e);
    } else if e.ReceiveRequest? {
      OrderedAfterReceive(x, x', e);
    } else {
      var c, r, h := x.client.core, x.requests, x.server.headers;
      assert forall i :: 0 <= i < |h| ==> GenuineHeader(c, h[i]);
      assert forall j :: 0 <= j < |r| && r[j].Whole? ==> GenuineRequest(c, r[j].message);
    }
  }

  // ------------------------------------------------------------------ outcomes stay correlated

  /** The reply that `receive` is about to hand over was produced for the call that it holds. */
  lemma HandOverCorrelated(x: State, failure: Option<Error>)
    requires Inv(x) && |x.client.core.issued| <= TWO_TO_THE_64
    requires x.client.core.receiver.Reading? && x.client.core.receiver.call.Some?
    ensures var r := x.client.core.receiver;
            var o := Calls.OutcomeOf(r.header, Client.BodyOf(x.client, failure));
            FromServer(o) ==> Correlated(x, r.call.value, o)
  {
    var r, m := x.client.core.receiver, x.client.response;
    var o := Calls.OutcomeOf(r.header, Client.BodyOf(x.client, failure));
    var i: nat :| Says(x.server, i, m);
    assert GenuineHeader(x.client.core, x.server.headers[i]);
    var n := r.header.number;
    assert HasNumber(x.server.headers[i].id, n) && Issued(x.client.core, n, r.call.value);
    if FromServer(o) {
      assert Produced(x.server, i, o);
    }
  }

  /** Every completion that is new after a client step was made by the client itself or handed over. */
  lemma NewCompletions(c: Calls.State, e: Calls.Event)
    requires Calls.Enabled(c, e)
    ensures var log' := Calls.Next(c, e).log;
            && c.log <= log'
            && (forall j :: |c.log| <= j < |log'| && FromServer(log'[j].outcome) ==>
                  e.Finish? && c.receiver.call == Some(log'[j].call)
                  && log'[j].outcome == Calls.OutcomeOf(c.receiver.header, e.body))
  {
    if e.Terminate? {
      Calls.DrainedAt(e.order, c.table.pending, Calls.FinalError(c.receiver.error, c.table.closing));
    }
  }

  lemma CorrelatedKept(services: Server.Services, x: State, e: Event)
    requires Inv(x) && Enabled(x, e) && |Next(services, x, e).client.core.issued| <= TWO_TO_THE_64
    ensures AllCorrelated(Next(services, x, e))
  {
    hide Client.Inv, Server.Inv, ClientFits, Ordered, Genuine, Calls.Next;
    var x' := Next(services, x, e);
    Grows(services, x, e);
    var c, log, log' := x.client.core, x.client.core.log, x'.client.core.log;
    var step :=
      match e
      case ClientStep(c) => Client.CoreEvent(x.client, c)
      case SendRequest(failure, _) => Some(Calls.WriteDone(failure))
      case ReceiveResponse => Client.CoreEvent(x.client, Client.Receive(x.responses[0]))
      case _ => None;
    assert x'.client.core == if step.Some? then Calls.Next(c, step.value) else c;
    if step.Some? {
      NewCompletions(c, step.value);
    }
    forall j | 0 <= j < |log'| && FromServer(log'[j].outcome) ensures Correlated(x', log'[j].call, log'[j].outcome) {
      if j >= |log| {
        HandOverCorrelated(x, e.c.failure);
      }
      StaysCorrelated(x, x', log'[j].call, log'[j].outcome);
    }
  }

  lemma ComponentsKept(services: Server.Services, x: State, e: Event)
    requires Client.Inv(x.client) && Server.Inv(x.server) && Enabled(x, e)
    ensures Client.Inv(Next(services, x, e).client) && Server.Inv(Next(services, x, e).server)
  {
    hide Client.Inv, Server.Inv;
    match e
    case ClientStep(c) => Client.StepKeeps(x.client, c);
    case SendRequest(failure, _) => Client.StepKeeps(x.client, Client.Encode(failure));
    case ReceiveResponse => Client.StepKeeps(x.client, Client.Receive(x.responses[0]));
    case ServerStep(s) => Server.StepKeeps(services, x.server, s);
    case ReceiveRequest => Server.StepKeeps(services, x.server, RequestEvent(x));
    case SendResponse(i, _) => Server.StepKeeps(services, x.server, Server.Respond(i));
  }

  lemma StepKeeps(services: Server.Services, x: State, e: Event)
    requires Inv(x) && Enabled(x, e)
    ensures Inv(Next(services, x, e))
  {
    hide Client.Inv, Server.Inv, ClientFits, Ordered, AllCorrelated, ClientGrows, ServerGrows;
    hide RequestsFlow, ResponsesFlow, SenderFlow;
    var x' := Next(services, x, e);
    Grows(services, x, e);
    ComponentsKept(services, x, e);
    if |x'.client.core.issued| <= TWO_TO_THE_64 {
      RequestsFlowOf(services, x, e);
      ResponsesFlowOf(services, x, e);
      SenderFlowOf(services, x, e);
      ClientFitsKept(services, x, e);
      RequestsKept(x, x', e);
      ResponsesKept(x, x', e);
      OrderedKept(x, x', e);
      CorrelatedKept(services, x, e);
    }
  }

  lemma {:induction false} RunKeeps(services: Server.Services, x: State, events: seq<Event>)
    requires Inv(x) && Run(services, x, events)
    ensures Inv(After(services, x, events))
    decreases |events|
  {
    hide Inv, Next, Enabled;
    if events != [] {
      StepKeeps(services, x, events[0]);
      RunKeeps(services, Next(services, x, events[0]), events[1..]);
    }
  }

  lemma InitialInv()
    ensures Inv(INITIAL)
  {
    Calls.InitialInv();
    hide Calls.Inv;
  }

  lemma ReachableInv(services: Server.Services, x: State)
    requires Reachable(services, x)
    ensures Inv(x)
  {
    var events :| Run(services, INITIAL, events) && x == After(services, INITIAL, events);
    InitialInv();
    RunKeeps(services, INITIAL, events);
  }

  // ------------------------------------------------------------------ the main results

  /**
    End-to-end correlation. In every interleaving, a call that completes with a reply holds the
    non-null reply that its own method computed, without error, for its own arguments; and a call
    that completes with a server error holds the text that its own method returned or for which
    its own request was refused.
   */
  lemma EndToEndCorrelation(services: Server.Services, x: State, j: nat) returns (i: nat)
    requires Reachable(services, x) && |x.client.core.issued| <= TWO_TO_THE_64
    requires j < |x.client.core.log| && FromServer(x.client.core.log[j].outcome)
    ensures var k, o := x.client.core.log[j].call, x.client.core.log[j].outcome;
            && k < |x.client.core.calls| && i < |x.server.headers|
            && x.server.headers[i].name == x.client.core.calls[k].serviceMethod
            && x.server.headers[i].params == Some(x.client.core.calls[k].args)
            && HasNumber(x.server.headers[i].id, NumberIn(x.server.headers[i].id))
            && Issued(x.client.core, NumberIn(x.server.headers[i].id), k)
            && Produced(x.server, i, o)
  {
    ReachableInv(services, x);
    var k, o := x.client.core.log[j].call, x.client.core.log[j].outcome;
    assert Correlated(x, k, o);
    var i0: nat, n: nat :|
      Produced(x.server, i0, o) && HasNumber(x.server.headers[i0].id, n) && Issued(x.client.core, n, k);
    i := i0;
    assert GenuineHeader(x.client.core, x.server.headers[i]);
  }

  /** No call is executed twice: two requests that the server read carry different numbers. */
  lemma ReadAtMostOnce(services: Server.Services, x: State, i: nat, j: nat)
    requires Reachable(services, x) && |x.client.core.issued| <= TWO_TO_THE_64
    requires i < |x.server.headers| && j < |x.server.headers|
    ensures x.server.headers[i].id == x.server.headers[j].id <==> i == j
  {
    ReachableInv(services, x);
    assert GenuineHeader(x.client.core, x.server.headers[i]) && GenuineHeader(x.client.core, x.server.headers[j]);
  }

  /** The server's share of a run of the whole is a run of its own. */
  lemma {:induction false} ServerRefines(services: Server.Services, x: State, events: seq<Event>)
    requires Server.Reachable(services, x.server) && Run(services, x, events)
    ensures Server.Reachable(services, After(services, x, events).server)
    decreases |events|
  {
    if events != [] {
      hide Server.Reachable, Server.Next, Client.Next, Client.Enabled, Server.Enabled;
      match events[0] {
        case ServerStep(s) => Server.Extended(services, x.server, s);
        case ReceiveRequest => Server.Extended(services, x.server, RequestEvent(x));
        case SendResponse(i, _) => Server.Extended(services, x.server, Server.Respond(i));
        case _ =>
      }
      ServerRefines(services, Next(services, x, events[0]), events[1..]);
    }
  }

  lemma ServerReachable(services: Server.Services, x: State)
    requires Reachable(services, x)
    ensures Server.Reachable(services, x.server)
  {
    var events :| Run(services, INITIAL, events) && x == After(services, INITIAL, events);
    Server.InitialReachable(services);
    ServerRefines(services, INITIAL, events);
  }

  /**
    A call for something that is not registered never gets a reply. What the server answers says
    what is wrong with the name that this very call asked for.
   */
  lemma UnservedAnswer(services: Server.Services, x: State, j: nat)
    requires Reachable(services, x) && |x.client.core.issued| <= TWO_TO_THE_64
    requires j < |x.client.core.log| && FromServer(x.client.core.log[j].outcome)
    ensures x.client.core.log[j].call < |x.client.core.calls|
    ensures var name := x.client.core.calls[x.client.core.log[j].call].serviceMethod;
            '.' !in name ==>
              x.client.core.log[j].outcome == Calls.ServerFault("service/method request invalid: " + name)
    ensures var name := x.client.core.calls[x.client.core.log[j].call].serviceMethod;
            forall service: string, entry: string :: name == service + "." + entry && '.' !in entry ==>
              && (service !in services ==>
                    x.client.core.log[j].outcome == Calls.ServerFault("can't find service " + name))
              && (service in services && entry !in services[service] ==>
                    x.client.core.log[j].outcome == Calls.ServerFault("can't find method " + name))
  {
    hide Reachable, Produced, Server.Reachable, Server.Judged, Server.Judge, Server.Serves;
    var i := EndToEndCorrelation(services, x, j);
    ServerReachable(services, x);
    Server.ReachableJudged(services, x.server);
    var h, o := x.server.headers[i], x.client.core.log[j].outcome;
    if '.' !in h.name {
      Server.UnroutableRefused(services, h, None, None, None);
      assert !Server.Serves(services, h.name);
      OnlyRefused(services, x.server, i, o);
      Unroutable(services, h, o.text);
    }
    forall service: string, entry: string | h.name == service + "." + entry && '.' !in entry
      ensures service !in services ==> o == Calls.ServerFault("can't find service " + h.name)
      ensures service in services && entry !in services[service] ==>
                o == Calls.ServerFault("can't find method " + h.name)
    {
      Server.VerdictOf(services, h, service, entry, None, None, None);
      if !Server.Serves(services, h.name) {
        OnlyRefused(services, x.server, i, o);
        Unknown(services, h, service, entry, o.text);
      }
    }
  }

  /** What is not served was refused. */
  lemma OnlyRefused(services: Server.Services, s: Server.State, i: nat, o: Calls.Outcome)
    requires Server.Judged(services, s) && Produced(s, i, o) && FromServer(o)
    requires !Server.Serves(services, s.headers[i].name)
    ensures o.ServerFault? && Server.RefusedFor(services, s.headers[i], o.text)
  {
    hide Server.Serves, Server.RefusedFor;
  }

  lemma Unroutable(services: Server.Services, h: Server.Header, text: string)
    requires Server.RefusedFor(services, h, text) && '.' !in h.name
    ensures text == "service/method request invalid: " + h.name
  {
    var pre, body, post :| Server.Judge(services, h, pre, body, post) == Server.Refuse(text);
    Server.UnroutableRefused(services, h, pre, body, post);
  }

  lemma Unknown(services: Server.Services, h: Server.Header, service: string, entry: string, text: string)
    requires Server.RefusedFor(services, h, text) && h.name == service + "." + entry && '.' !in entry
    ensures service !in services ==> text == "can't find service " + h.name
    ensures service in services && entry !in services[service] ==> text == "can't find method " + h.name
  {
    var pre, body, post :| Server.Judge(services, h, pre, body, post) == Server.Refuse(text);
    Server.VerdictOf(services, h, service, entry, pre, body, post);
  }

  // ------------------------------------------------------------------ and it does happen

  lemma Extended(services: Server.Services, x: State, e: Event) returns (x': State)
    requires Reachable(services, x) && Enabled(x, e)
    ensures x' == Next(services, x, e) && Reachable(services, x')
  {
    x' := Next(services, x, e);
    var events :| Run(services, INITIAL, events) && x == After(services, INITIAL, events);
    Appended(services, INITIAL, events, e);
  }

  lemma {:induction false} Appended(services: Server.Services, x: State, events: seq<Event>, e: Event)
    requires Run(services, x, events) && Enabled(After(services, x, events), e)
    ensures Run(services, x, events + [e])
    ensures After(services, x, events + [e]) == Next(services, After(services, x, events), e)
    decreases |events|
  {
    hide Next, Enabled;
    if events == [] {
      assert (events + [e])[1..] == [];
    } else {
      assert (events + [e])[1..] == events[1..] + [e];
      Appended(services, Next(services, x, events[0]), events[1..], e);
    }
  }

  function Registered(r: Calls.Request): Calls.State {
    Calls.INITIAL.(table := Calls.Table(1, map[0 := 0], false, false), calls := [r], issued := [0])
  }

  lemma Registering(services: Server.Services, r: Calls.Request) returns (x: State)
    ensures Reachable(services, x)
    ensures x == INITIAL.(client := Client.INITIAL.(core := Registered(r).(sender := Calls.Writing(0, 0))))
  {
    assert Reachable(services, INITIAL) by {
      assert Run(services, INITIAL, []) && After(services, INITIAL, []) == INITIAL;
    }
    hide Reachable;
    x := Extended(services, INITIAL, ClientStep(Client.Plain(Calls.Invoke(r))));
    var invoked := Calls.INITIAL.(calls := [r], waiting := {0});
    assert x == INITIAL.(client := Client.INITIAL.(core := invoked));
    x := Acquiring(services, x, r);
  }

  lemma Acquiring(services: Server.Services, x: State, r: Calls.Request) returns (y: State)
    requires Reachable(services, x)
    requires x == INITIAL.(client := Client.INITIAL.(core := Calls.INITIAL.(calls := [r], waiting := {0})))
    ensures Reachable(services, y)
    ensures y == INITIAL.(client := Client.INITIAL.(core := Registered(r).(sender := Calls.Writing(0, 0))))
  {
    hide Reachable;
    y := Extended(services, x, ClientStep(Client.Plain(Calls.Acquire(0))));
    assert y.client.core == Calls.INITIAL.(calls := [r], sender := Calls.Locked(0));
    y := Extended(services, y, ClientStep(Client.Plain(Calls.Register)));
  }

  /** The request half of a call: it is registered, written and on its way. */
  lemma RequestHalf(services: Server.Services, r: Calls.Request) returns (x: State)
    ensures Reachable(services, x)
    ensures var m := WireRequest(r.serviceMethod, Some(r.args), Some(Number(0)));
            && x.requests == [Whole(m)] && x.responses == [] && x.server == Server.INITIAL
            && x.client.core == Registered(r) && x.client.index == map[0 := r.serviceMethod] && !x.client.noted
  {
    x := Registering(services, r);
    hide Reachable;
    x := Extended(services, x, ClientStep(Client.Note));
    x := Extended(services, x, SendRequest(None, [Whole(Client.Outgoing(x.client.core))]));
  }

  /** The server half: the request is read, served and answered. */
  lemma ServerHalf(services: Server.Services, x: State, r: Calls.Request, v: Json, text: string) returns (y: State)
    requires Reachable(services, x) && Server.Serves(services, r.serviceMethod)
    requires x.requests == [Whole(WireRequest(r.serviceMethod, Some(r.args), Some(Number(0))))]
    requires x.responses == [] && x.server == Server.INITIAL
    ensures Reachable(services, y) && y.client == x.client
    ensures y.responses == [Whole(EncodeResponse(Some(Number(0)), text, v))]
  {
    hide Reachable;
    y := Started(services, x, r);
    y := Extended(services, y, ServerStep(Server.MethodReturns(0, v, text)));
    assert Server.ResponseTo(y.server, 0) == Some(EncodeResponse(Some(Number(0)), text, v));
    y := Extended(services, y, SendResponse(0, [Whole(EncodeResponse(Some(Number(0)), text, v))]));
  }

  lemma Arrived(services: Server.Services, x: State, r: Calls.Request) returns (y: State)
    requires Reachable(services, x)
    requires x.requests == [Whole(WireRequest(r.serviceMethod, Some(r.args), Some(Number(0))))]
    requires x.server == Server.INITIAL
    ensures Reachable(services, y) && y.client == x.client && y.responses == x.responses
    ensures y.server.headers == [Server.Header(1, r.serviceMethod, Some(Number(0)), Some(r.args))]
    ensures y.server.index.pending == map[1 := Some(Number(0))]
    ensures y.server.tasks == map[] && y.server.reader.Dispatching?
  {
    hide Reachable;
    y := Extended(services, x, ReceiveRequest);
  }

  lemma Started(services: Server.Services, x: State, r: Calls.Request) returns (y: State)
    requires Reachable(services, x) && Server.Serves(services, r.serviceMethod)
    requires x.requests == [Whole(WireRequest(r.serviceMethod, Some(r.args), Some(Number(0))))]
    requires x.server == Server.INITIAL
    ensures Reachable(services, y) && y.client == x.client && y.responses == x.responses
    ensures |y.server.headers| == 1 && y.server.headers[0].number == 1
    ensures y.server.index.pending == map[1 := Some(Number(0))] && y.server.tasks == map[0 := Server.Running(r.args)]
  {
    hide Reachable;
    y := Arrived(services, x, r);
    Server.JudgeFacts(services, y.server.headers[0], None, None, None);
    y := Extended(services, y, ServerStep(Server.Dispatch(None, None, None)));
  }

  /** The server half of a request that is refused. */
  lemma RefusedHalf(services: Server.Services, x: State, r: Calls.Request, text: string) returns (y: State)
    requires Reachable(services, x)
    requires x.requests == [Whole(WireRequest(r.serviceMethod, Some(r.args), Some(Number(0))))]
    requires x.responses == [] && x.server == Server.INITIAL
    requires Server.Judge(services, Server.Header(1, r.serviceMethod, Some(Number(0)), Some(r.args)), None, None, None)
             == Server.Refuse(text)
    ensures Reachable(services, y) && y.client == x.client
    ensures text != "" && y.responses == [Whole(EncodeResponse(Some(Number(0)), text, Server.INVALID_REQUEST))]
  {
    hide Reachable;
    y := Arrived(services, x, r);
    Server.JudgeFacts(services, y.server.headers[0], None, None, None);
    y := Extended(services, y, ServerStep(Server.Dispatch(None, None, None)));
    var m := EncodeResponse(Some(Number(0)), text, Server.INVALID_REQUEST);
    assert Server.ResponseTo(y.server, 0) == Some(m);
    y := Extended(services, y, SendResponse(0, [Whole(m)]));
  }

  /** The response half: the header is read and its call is taken. */
  lemma ResponseHalf(services: Server.Services, x: State, r: Calls.Request, v: Json, text: string) returns (y: State)
    requires Reachable(services, x) && (v != Null || text != "")
    requires x.responses == [Whole(EncodeResponse(Some(Number(0)), text, v))]
    requires x.client.core == Registered(r) && x.client.index == map[0 := r.serviceMethod]
    ensures Reachable(services, y)
    ensures y.client.core.calls == [r] && y.client.core.log == []
    ensures text == "" ==> y.client.response.result == v
    ensures y.client.core.receiver == Calls.Taken(Calls.Header(0, r.serviceMethod, text), Some(0))
  {
    hide Reachable;
    y := Extended(services, x, ReceiveResponse);
    assert y.client.core.receiver == Calls.GotHeader(Calls.Header(0, r.serviceMethod, text));
    y := Extended(services, y, ClientStep(Client.Plain(Calls.Take)));
  }

  lemma FinishHalf(services: Server.Services, x: State, r: Calls.Request, v: Json, text: string) returns (y: State)
    requires Reachable(services, x)
    requires x.client.core.calls == [r] && x.client.core.log == []
    requires text == "" ==> x.client.response.result == v
    requires x.client.core.receiver == Calls.Taken(Calls.Header(0, r.serviceMethod, text), Some(0))
    ensures Reachable(services, y)
    ensures y.client.core.calls == [r]
    ensures y.client.core.log == [Calls.Completion(0, if text == "" then Calls.Reply(v) else Calls.ServerFault(text))]
  {
    hide Reachable;
    y := Extended(services, x, ClientStep(Client.Plain(Calls.PreRead(None))));
    assert y.client.core.receiver == Calls.Reading(Calls.Header(0, r.serviceMethod, text), Some(0));
    y := Extended(services, y, ClientStep(Client.ReadBody(None, None)));
  }

  /**
    For every registered method, every argument and everything that the method may return, but null
    without an error, there is a run in which the call completes with just that: the results above
    are not about runs that cannot happen.
   */
  lemma CallsComplete(services: Server.Services, r: Calls.Request, v: Json, text: string) returns (x: State)
    requires Server.Serves(services, r.serviceMethod) && (v != Null || text != "")
    ensures Reachable(services, x)
    ensures x.client.core.calls == [r]
    ensures x.client.core.log == [Calls.Completion(0, if text == "" then Calls.Reply(v) else Calls.ServerFault(text))]
  {
    x := RequestHalf(services, r);
    x := ServerHalf(services, x, r, v, text);
    x := ResponseHalf(services, x, r, v, text);
    x := FinishHalf(services, x, r, v, text);
  }

  /** For everything that is not registered there is a run in which the call completes with a server error. */
  lemma CallsRefused(services: Server.Services, r: Calls.Request) returns (x: State)
    requires !Server.Serves(services, r.serviceMethod)
    ensures Reachable(services, x)
    ensures x.client.core.calls == [r] && |x.client.core.log| == 1 && x.client.core.log[0].call == 0
    ensures x.client.core.log[0].outcome.ServerFault? && x.client.core.log[0].outcome.text != ""
  {
    var h := Server.Header(1, r.serviceMethod, Some(Number(0)), Some(r.args));
    Server.JudgeFacts(services, h, None, None, None);
    var text := Server.Judge(services, h, None, None, None).text;
    hide Server.Judge, Server.Serves;
    x := RequestHalf(services, r);
    x := RefusedHalf(services, x, r, text);
    x := ResponseHalf(services, x, r, Server.INVALID_REQUEST, text);
    x := FinishHalf(services, x, r, Server.INVALID_REQUEST, text);
  }
}
