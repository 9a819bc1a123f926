/**
  What a system at rest looks like. In a run without failures, when nothing is left to do but to
  make new calls or to close the client, every call has completed: no request or response is stuck
  anywhere between client, streams and server.
 */
module Quiescence {
  import opened Basics
  import opened JsonCodec
  import Calls
  import Client = JsonClient
  import Server = ServerConn
  import E = EndToEnd

  /** A method that returns no error returns something: a null reply ends the receive loop. */
  predicate Presentable(reply: Json, text: string) {
    reply != Null || text != ""
  }

  /** Steps in which no write, header read or client hook fails. Requests may be refused, bodies may not decode. */
  predicate Smooth(e: E.Event) {
    match e
    case ClientStep(c) =>
      && !c.ReadFails?
      && (c.ReadBody? ==> c.post.None?)
      && (c.Plain? && c.event.PreRead? ==> c.event.failure.None?)
    case SendRequest(failure, _) => failure.None?
    case ReceiveResponse => true
    case ServerStep(s) => !s.HeaderErr? && (s.MethodReturns? ==> Presentable(s.reply, s.text))
    case ReceiveRequest => true
    case SendResponse(_, put) => put != [] && put[0].Whole?
  }

  /** Steps that only a user takes. */
  predicate ByUser(e: E.Event) {
    e.ClientStep? && e.c.Plain? && (e.c.event.Invoke? || e.c.event.UserClose?)
  }

  ghost predicate Quiet(x: E.State) {
    forall e :: E.Enabled(x, e) && Smooth(e) ==> ByUser(e)
  }

  // ------------------------------------------------------------------ the client

  /** The outcome came from the server, though its body may not have decoded. */
  predicate Delivered(o: Calls.Outcome) {
    E.FromServer(o) || (o.Failed? && o.error.Other? && "reading body " <= o.error.text)
  }

  ghost predicate Healthy(c: Calls.State) {
    && !c.receiver.Broken? && !c.receiver.Returned? && !c.sender.Aborting? && c.dropped == {}
    && (!c.table.closing ==> forall j :: 0 <= j < |c.log| ==> Delivered(c.log[j].outcome))
  }

  predicate SmoothCore(c: Calls.State, e: Calls.Event) {
    match e
    case WriteDone(failure) => failure.None?
    case HeaderErr(_) => false
    case PreRead(failure) => failure.None?
    case Finish(body, post) =>
      c.receiver.Reading? && Calls.StopError(c.receiver.call.Some?, c.receiver.header, body, post).None?
    case _ => true
  }

  lemma HealthyStep(c: Calls.State, e: Calls.Event)
    requires Calls.Inv(c) && Healthy(c) && Calls.Enabled(c, e) && SmoothCore(c, e)
    ensures Healthy(Calls.Next(c, e))
  {
    hide Calls.Conserved, Calls.Numbered;
  }

  /** The entries of `pending` stay, go when they are taken, and come with a write in progress. */
  lemma PendingFlow(c: Calls.State, e: Calls.Event, s: nat)
    requires Healthy(c) && Calls.Enabled(c, e) && s in Calls.Next(c, e).table.pending
    ensures s in c.table.pending || Calls.Next(c, e).sender == Calls.Writing(c.sender.call, s)
    ensures c.sender.Writing? && !e.WriteDone? ==> Calls.Next(c, e).sender == c.sender
    ensures c.receiver.GotHeader? && c.receiver.header.number == s ==> Calls.Next(c, e).receiver == c.receiver
  {
  }

  // ------------------------------------------------------------------ where a pending call is

  ghost predicate InRequests(r: seq<Item<WireRequest>>, n: nat) {
    exists j :: 0 <= j < |r| && r[j].Whole? && E.HasNumber(r[j].message.id, n)
  }

  ghost predicate InServer(s: Server.State, n: nat) {
    exists i: nat :: i < |s.headers| && Server.Open(s, i) && E.HasNumber(s.headers[i].id, n)
  }

  ghost predicate InResponses(r: seq<Item<WireResponse>>, n: nat) {
    exists j :: 0 <= j < |r| && r[j].Whole? && E.HasNumber(r[j].message.id, n)
  }

  ghost predicate AtClient(c: Calls.State, n: nat) {
    (c.sender.Writing? && c.sender.number == n) || (c.receiver.GotHeader? && c.receiver.header.number == n)
  }

  /** A pending call is being written, on its way, with the server, on its way back, or about to be taken. */
  ghost predicate Located(x: E.State, n: nat) {
    AtClient(x.client.core, n) || InRequests(x.requests, n) || InServer(x.server, n) || InResponses(x.responses, n)
  }

  ghost predicate Serving(s: Server.State) {
    && !s.reader.Waiting? && !s.reader.Closed?
    && (forall i :: i in s.returned ==> Presentable(s.returned[i].reply, s.returned[i].text))
  }

  ghost predicate Flowing(x: E.State) {
    && Healthy(x.client.core) && Serving(x.server)
    && (forall j :: 0 <= j < |x.requests| ==> x.requests[j].Whole?)
    && (forall j :: 0 <= j < |x.responses| ==> x.responses[j].Whole?)
    && (forall n :: n in x.client.core.table.pending ==> Located(x, n))
  }

  // ------------------------------------------------------------------ each step keeps it

  lemma ServingStep(services: Server.Services, s: Server.State, e: Server.Event)
    requires Serving(s) && Server.Enabled(s, e) && !e.HeaderErr?
    requires e.MethodReturns? ==> Presentable(e.reply, e.text)
    ensures Serving(Server.Next(services, s, e))
  {
    hide Server.Judge;
  }

  /** A request leaves the server only when its response is written. */
  lemma StaysInServer(services: Server.Services, s: Server.State, e: Server.Event, n: nat)
    requires Server.Inv(s) && Server.Enabled(s, e) && InServer(s, n)
    ensures InServer(Server.Next(services, s, e), n)
            || (e.Respond? && E.HasNumber(s.headers[e.i].id, n))
  {
    hide Server.Remembers, Server.Numbered, Server.Truthful, Server.Conserved, Server.Faithful;
    var s' := Server.Next(services, s, e);
    var i: nat :| i < |s.headers| && Server.Open(s, i) && E.HasNumber(s.headers[i].id, n);
    if !(e.Respond? && e.i == i) {
      StaysOpen(services, s, e, i);
      assert Server.Open(s', i) && E.HasNumber(s'.headers[i].id, n);
    }
  }

  lemma StaysOpen(services: Server.Services, s: Server.State, e: Server.Event, i: nat)
    requires Server.ReaderFits(s) && Server.Enabled(s, e) && i < |s.headers| && Server.Open(s, i)
    requires !(e.Respond? && e.i == i)
    ensures var s' := Server.Next(services, s, e);
            i < |s'.headers| && s'.headers[i] == s.headers[i] && Server.Open(s', i)
  {
    hide Server.Judge;
  }

  /** The client's own steps. */
  lemma ClientFlows(x: E.State, core': Calls.State, e: Calls.Event, n: nat)
    requires Flowing(x) && Calls.Enabled(x.client.core, e) && core' == Calls.Next(x.client.core, e)
    requires !e.WriteDone? && n in core'.table.pending
    ensures AtClient(core', n) || InRequests(x.requests, n) || InServer(x.server, n) || InResponses(x.responses, n)
  {
    hide Calls.Next, InRequests, InServer, InResponses;
    PendingFlow(x.client.core, e, n);
    if n in x.client.core.table.pending {
      assert Located(x, n);
    }
  }

  lemma SentIsOnItsWay(x: E.State, put: seq<Item<WireRequest>>, n: nat)
    requires Flowing(x) && E.Enabled(x, E.SendRequest(None, put)) && n in x.client.core.table.pending
    ensures var c := Client.Next(x.client, Client.Encode(None)).core;
            AtClient(c, n) || InRequests(x.requests + put, n) || InServer(x.server, n) || InResponses(x.responses, n)
  {
    hide InServer, InResponses;
    assert Located(x, n);
    var r := x.requests + put;
    if x.client.core.sender.number == n {
      assert r[|x.requests|].Whole? && E.HasNumber(r[|x.requests|].message.id, n);
    } else if InRequests(x.requests, n) {
      var j :| 0 <= j < |x.requests| && x.requests[j].Whole? && E.HasNumber(x.requests[j].message.id, n);
      assert r[j] == x.requests[j];
    }
  }

  lemma ReadIsInServer(services: Server.Services, x: E.State, n: nat)
    requires Flowing(x) && Server.Inv(x.server) && E.Enabled(x, E.ReceiveRequest) && InRequests(x.requests, n)
    ensures InRequests(x.requests[1..], n)
            || InServer(Server.Next(services, x.server, E.RequestEvent(x)), n)
  {
    var j :| 0 <= j < |x.requests| && x.requests[j].Whole? && E.HasNumber(x.requests[j].message.id, n);
    if j > 0 {
      assert x.requests[1..][j - 1] == x.requests[j];
    } else {
      var s' := Server.Next(services, x.server, E.RequestEvent(x));
      var i := |x.server.headers|;
      assert Server.Open(s', i) && E.HasNumber(s'.headers[i].id, n);
    }
  }

  lemma AnsweredIsOnItsWay(x: E.State, i: nat, put: seq<Item<WireResponse>>, n: nat)
    requires E.Inv(x) && |x.client.core.issued| <= TWO_TO_THE_64
    requires E.Enabled(x, E.SendResponse(i, put)) && put != [] && put[0].Whole?
    ensures E.HasNumber(x.server.headers[i].id, n) ==> InResponses(x.responses + put, n)
    ensures InResponses(x.responses, n) ==> InResponses(x.responses + put, n)
    ensures |put| == 1
  {
    E.HeadersBounded(x);
    Server.RespondRemembers(x.server, i);
    hide E.Inv, Server.Inv;
    var r := x.responses + put;
    if E.HasNumber(x.server.headers[i].id, n) {
      assert r[|x.responses|] == put[0];
      assert r[|x.responses|].Whole? && E.HasNumber(r[|x.responses|].message.id, n);
    }
    if j :| 0 <= j < |x.responses| && x.responses[j].Whole? && E.HasNumber(x.responses[j].message.id, n) {
      assert r[j] == x.responses[j];
    }
  }

  /** The next response is well formed: its number is one that was issued and it holds a reply or an error. */
  lemma NextResponse(x: E.State)
    requires E.Inv(x) && |x.client.core.issued| <= TWO_TO_THE_64 && Flowing(x) && x.responses != []
    ensures var m := x.responses[0].message;
            && E.HasNumber(m.id, E.NumberIn(m.id)) && E.NumberIn(m.id) < TWO_TO_THE_64 && ErrorOf(m).Some?
            && ReadItem(x.client.index, x.responses[0]).1.Good?
            && ReadItem(x.client.index, x.responses[0]).1.header.number == E.NumberIn(m.id)
  {
    hide Client.Inv, Server.Inv;
    var m := x.responses[0].message;
    assert E.GenuineResponse(x.server, m);
    var i: nat :| E.Says(x.server, i, m);
    assert E.GenuineHeader(x.client.core, x.server.headers[i]);
  }

  lemma ReceivedIsAtClient(x: E.State, n: nat)
    requires E.Inv(x) && |x.client.core.issued| <= TWO_TO_THE_64 && Flowing(x) && E.Enabled(x, E.ReceiveResponse)
    requires n in x.client.core.table.pending
    ensures var c := Client.Next(x.client, Client.Receive(x.responses[0])).core;
            AtClient(c, n) || InRequests(x.requests, n) || InServer(x.server, n) || InResponses(x.responses[1..], n)
  {
    hide E.Inv, InRequests, InServer, ReadItem;
    NextResponse(x);
    assert Located(x, n);
    if InResponses(x.responses, n) {
      var j :| 0 <= j < |x.responses| && x.responses[j].Whole? && E.HasNumber(x.responses[j].message.id, n);
      if j > 0 {
        assert x.responses[1..][j - 1] == x.responses[j];
      }
    }
  }

  lemma ClientHealthy(x: E.State, c: Client.Event)
    requires E.Inv(x) && Flowing(x) && E.Enabled(x, E.ClientStep(c)) && Smooth(E.ClientStep(c))
    ensures Healthy(Client.Next(x.client, c).core)
  {
    var e := Client.CoreEvent(x.client, c);
    if e.Some? {
      assert SmoothCore(x.client.core, e.value);
      HealthyStep(x.client.core, e.value);
    }
  }

  lemma ClientStepFlows(x: E.State, c: Client.Event)
    requires E.Inv(x) && Flowing(x) && E.Enabled(x, E.ClientStep(c)) && Smooth(E.ClientStep(c))
    ensures Flowing(x.(client := Client.Next(x.client, c)))
  {
    ClientHealthy(x, c);
    hide E.Inv, Healthy, Serving, InRequests, InServer, InResponses, Calls.Next;
    var x' := x.(client := Client.Next(x.client, c));
    forall n | n in x'.client.core.table.pending ensures Located(x', n) {
      if Client.CoreEvent(x.client, c).Some? {
        ClientFlows(x, x'.client.core, Client.CoreEvent(x.client, c).value, n);
      } else {
        assert Located(x, n);
      }
    }
  }

  lemma SendFlows(x: E.State, put: seq<Item<WireRequest>>)
    requires E.Inv(x) && Flowing(x) && E.Enabled(x, E.SendRequest(None, put))
    ensures Flowing(x.(client := Client.Next(x.client, Client.Encode(None)), requests := x.requests + put))
  {
    HealthyStep(x.client.core, Calls.WriteDone(None));
    hide E.Inv, Healthy, Serving, InRequests, InServer, InResponses;
    var x' := x.(client := Client.Next(x.client, Client.Encode(None)), requests := x.requests + put);
    forall n | n in x'.client.core.table.pending ensures Located(x', n) {
      SentIsOnItsWay(x, put, n);
    }
  }

  lemma ReceiveFlows(x: E.State)
    requires E.Inv(x) && |x.client.core.issued| <= TWO_TO_THE_64 && Flowing(x) && E.Enabled(x, E.ReceiveResponse)
    ensures Flowing(x.(client := Client.Next(x.client, Client.Receive(x.responses[0])), responses := x.responses[1..]))
  {
    hide InRequests, InServer, InResponses, ReadItem;
    NextResponse(x);
    HealthyStep(x.client.core, Client.CoreEvent(x.client, Client.Receive(x.responses[0])).value);
    hide E.Inv, Healthy, Serving;
    var x' := x.(client := Client.Next(x.client, Client.Receive(x.responses[0])), responses := x.responses[1..]);
    forall n | n in x'.client.core.table.pending ensures Located(x', n) {
      ReceivedIsAtClient(x, n);
    }
  }

  /** Steps of the server. */
  lemma ServerFlows(services: Server.Services, x: E.State, e: E.Event)
    requires E.Inv(x) && |x.client.core.issued| <= TWO_TO_THE_64 && Flowing(x) && E.Enabled(x, e) && Smooth(e)
    requires e.ServerStep? || e.ReceiveRequest? || e.SendResponse?
    ensures Flowing(E.Next(services, x, e))
  {
    hide Healthy, InRequests, InServer, InResponses, Server.Next, Server.Inv, Client.Inv, Server.Enabled;
    var x' := E.Next(services, x, e);
    var step := match e
                case ServerStep(s) => s
                case ReceiveRequest => E.RequestEvent(x)
                case SendResponse(i, _) => Server.Respond(i);
    ServingStep(services, x.server, step);
    if e.SendResponse? {
      AnsweredIsOnItsWay(x, e.i, e.put, 0);
    }
    hide Serving;
    forall n | n in x'.client.core.table.pending ensures Located(x', n) {
      assert Located(x, n);
      if e.SendResponse? {
        AnsweredIsOnItsWay(x, e.i, e.put, n);
      }
      if InServer(x.server, n) {
        StaysInServer(services, x.server, step, n);
      }
      if e.ReceiveRequest? && InRequests(x.requests, n) {
        ReadIsInServer(services, x, n);
      }
    }
  }

  lemma StepFlows(services: Server.Services, x: E.State, e: E.Event)
    requires E.Inv(x) && |x.client.core.issued| <= TWO_TO_THE_64 && Flowing(x) && E.Enabled(x, e) && Smooth(e)
    ensures Flowing(E.Next(services, x, e))
  {
    match e
    case ClientStep(c) => ClientStepFlows(x, c);
    case SendRequest(_, put) => SendFlows(x, put);
    case ReceiveResponse => ReceiveFlows(x);
    case _ => ServerFlows(services, x, e);
  }

  lemma {:induction false} RunFlows(services: Server.Services, x: E.State, events: seq<E.Event>)
    requires E.Inv(x) && Flowing(x) && E.Run(services, x, events)
    requires forall i :: 0 <= i < |events| ==> Smooth(events[i])
    requires |E.After(services, x, events).client.core.issued| <= TWO_TO_THE_64
    ensures Flowing(E.After(services, x, events)) && E.Inv(E.After(services, x, events))
    decreases |events|
  {
    hide E.Inv, Flowing, E.Next, E.Enabled, Smooth;
    if events != [] {
      IssuedGrows(services, x, events);
      E.StepKeeps(services, x, events[0]);
      assert Smooth(events[0]);
      StepFlows(services, x, events[0]);
      RunFlows(services, E.Next(services, x, events[0]), events[1..]);
    }
  }

  lemma {:induction false} IssuedGrows(services: Server.Services, x: E.State, events: seq<E.Event>)
    requires E.Inv(x) && E.Run(services, x, events)
    ensures |x.client.core.issued| <= |E.After(services, x, events).client.core.issued|
    decreases |events|
  {
    hide E.Inv, E.Next, E.Enabled;
    if events != [] {
      E.Grows(services, x, events[0]);
      E.StepKeeps(services, x, events[0]);
      IssuedGrows(services, E.Next(services, x, events[0]), events[1..]);
    }
  }

  // ------------------------------------------------------------------ at rest

  lemma SenderAtWork(x: E.State)
    requires E.Inv(x) && Flowing(x) && (!x.client.core.sender.Idle? || x.client.core.waiting != {})
    ensures !Quiet(x)
  {
    hide E.Inv, Serving, Located, Calls.Next;
    var c := x.client.core;
    if c.sender.Idle? {
      var k :| k in c.waiting;
      assert E.Enabled(x, E.ClientStep(Client.Plain(Calls.Acquire(k))));
    } else if c.sender.Locked? {
      assert E.Enabled(x, E.ClientStep(Client.Plain(Calls.Register)));
    } else if x.client.noted {
      assert E.Enabled(x, E.SendRequest(None, [Whole(Client.Outgoing(c))]));
    } else {
      assert E.Enabled(x, E.ClientStep(Client.Note));
    }
  }

  lemma ReceiverAtWork(x: E.State)
    requires Flowing(x) && (!x.client.core.receiver.Top? || x.responses != [])
    ensures !Quiet(x)
  {
    hide Serving, Located, ReadItem;
    match x.client.core.receiver
    case Top => assert E.Enabled(x, E.ReceiveResponse);
    case GotHeader(_) => assert E.Enabled(x, E.ClientStep(Client.Plain(Calls.Take)));
    case Taken(_, _) => assert E.Enabled(x, E.ClientStep(Client.Plain(Calls.PreRead(None))));
    case Reading(_, _) => assert E.Enabled(x, E.ClientStep(Client.ReadBody(None, None)));
  }

  /** A response that is due can be written. */
  lemma AnswerIsReady(x: E.State, i: nat)
    requires E.Inv(x) && |x.client.core.issued| <= TWO_TO_THE_64
    requires i in x.server.tasks && x.server.tasks[i].Replying?
    ensures Server.Enabled(x.server, Server.Respond(i)) && Server.ResponseTo(x.server, i).Some?
  {
    E.HeadersBounded(x);
    assert Server.Faithful(x.server);
    Server.RespondRemembers(x.server, i);
  }

  lemma WorkerAtWork(x: E.State, i: nat)
    requires i in x.server.tasks
    requires x.server.tasks[i].Replying? ==>
               Server.Enabled(x.server, Server.Respond(i)) && Server.ResponseTo(x.server, i).Some?
    ensures !Quiet(x)
  {
    hide Server.ResponseTo;
    if x.server.tasks[i].Running? {
      assert E.Enabled(x, E.ServerStep(Server.MethodReturns(i, Data(""), "")));
    } else {
      assert E.Enabled(x, E.SendResponse(i, [Whole(Server.ResponseTo(x.server, i).value)]));
    }
  }

  lemma ReaderAtWork(x: E.State)
    requires Server.ReaderFits(x.server) && Flowing(x) && x.server.tasks == map[]
    requires !x.server.reader.Top? || x.requests != []
    ensures !Quiet(x)
  {
    hide Healthy, Located;
    if x.server.reader.Top? {
      assert E.Enabled(x, E.ReceiveRequest);
    } else {
      assert x.server.reader.Dispatching?;
      assert E.Enabled(x, E.ServerStep(Server.Dispatch(None, None, None)));
    }
  }

  ghost predicate AtRest(x: E.State) {
    && x.client.core.sender.Idle? && x.client.core.waiting == {} && x.client.core.receiver.Top?
    && x.server.tasks == map[] && x.server.reader.Top? && x.requests == [] && x.responses == []
  }

  lemma QuietIsAtRest(x: E.State)
    requires E.Inv(x) && |x.client.core.issued| <= TWO_TO_THE_64 && Flowing(x) && Quiet(x)
    ensures AtRest(x)
  {
    assert Server.ReaderFits(x.server);
    hide E.Inv, Flowing, Quiet, Server.ReaderFits;
    if !x.client.core.sender.Idle? || x.client.core.waiting != {} {
      SenderAtWork(x);
    }
    if !x.client.core.receiver.Top? || x.responses != [] {
      ReceiverAtWork(x);
    }
    if i :| i in x.server.tasks {
      if x.server.tasks[i].Replying? {
        AnswerIsReady(x, i);
      }
      WorkerAtWork(x, i);
    }
    assert x.server.tasks == map[];
    if !x.server.reader.Top? || x.requests != [] {
      ReaderAtWork(x);
    }
  }

  /** The other way round: a system at rest is quiet, so rest is all that quiet means. */
  lemma RestIsQuiet(x: E.State)
    requires Client.Inv(x.client) && AtRest(x)
    ensures Quiet(x)
  {
    hide Calls.Inv, Client.Agrees, Client.Heard;
    forall e | E.Enabled(x, e) && Smooth(e) ensures ByUser(e) {
    }
  }

  lemma NothingPending(x: E.State)
    requires Flowing(x) && AtRest(x)
    ensures x.client.core.table.pending == map[]
  {
    assert forall n :: n in x.client.core.table.pending ==> Located(x, n);
    hide Flowing;
    assert forall n :: !Located(x, n);
  }

  /**
    At rest, after any run without failures, every call has completed exactly once; if the client
    was not closed, with what the server sent for it. Nothing is left pending, on the streams or
    with the server.
   */
  lemma QuietMeansDone(services: Server.Services, events: seq<E.Event>, k: nat)
    requires E.Run(services, E.INITIAL, events) && forall i :: 0 <= i < |events| ==> Smooth(events[i])
    requires var x := E.After(services, E.INITIAL, events);
             Quiet(x) && |x.client.core.issued| <= TWO_TO_THE_64 && k < |x.client.core.calls|
    ensures var x := E.After(services, E.INITIAL, events);
            && Calls.Completions(x.client.core.log, k) == 1
            && (!x.client.core.table.closing ==>
                  forall j :: 0 <= j < |x.client.core.log| ==> Delivered(x.client.core.log[j].outcome))
            && x.client.core.table.pending == map[] && x.server.tasks == map[]
            && x.requests == [] && x.responses == []
  {
    hide E.Run, E.After, E.Inv, Smooth, Quiet, Located, Serving;
    var x := E.After(services, E.INITIAL, events);
    E.InitialInv();
    InitialFlows();
    RunFlows(services, E.INITIAL, events);
    QuietIsAtRest(x);
    NothingPending(x);
    AllDone(x, k);
  }

  lemma InitialFlows()
    ensures Flowing(E.INITIAL)
  {
  }

  lemma AllDone(x: E.State, k: nat)
    requires E.Inv(x) && |x.client.core.issued| <= TWO_TO_THE_64 && Healthy(x.client.core) && k < |x.client.core.calls|
    requires AtRest(x) && x.client.core.table.pending == map[]
    ensures Calls.Completions(x.client.core.log, k) == 1
  {
    assert Calls.Places(x.client.core, k) == 1;
  }
}
