/**
  A whole client: `Client`, `Call` and JSON codec objects on the heap, driven by any schedule of the
  steps of its goroutines. The objects go through the states of the machine in `JsonClient`, and
  what a caller sees in its Call object is what the machine logged for it.
 */
module ClientHost {
  import opened Basics
  import opened JsonCodec
  import opened Client
  import Calls
  import Json = JsonClient

  // ------------------------------------------------------------------ what the log means for a caller

  /** What the caller of `k` sees when `done` has run as logged. */
  function SeenAfter(capacity: nat, log: seq<Calls.Completion>, k: nat): Seen {
    if log == [] then UNSEEN
    else
      var s, x := SeenAfter(capacity, log[..|log| - 1], k), log[|log| - 1];
      if x.call == k then Signalled(s, capacity, x.outcome) else s
  }

  lemma SeenAppend(capacity: nat, log: seq<Calls.Completion>, x: Calls.Completion, k: nat)
    ensures SeenAfter(capacity, log + [x], k)
            == if x.call == k then Signalled(SeenAfter(capacity, log, k), capacity, x.outcome)
               else SeenAfter(capacity, log, k)
  {
    assert (log + [x])[..|log|] == log;
  }

  /** A call that completed once shows that outcome and has one value in its channel; none was discarded. */
  lemma {:induction false} SeenOnce(capacity: nat, log: seq<Calls.Completion>, k: nat)
    requires capacity >= 1 && Calls.Completions(log, k) <= 1
    ensures Calls.Completions(log, k) == 0 ==> SeenAfter(capacity, log, k) == UNSEEN
    ensures SeenAfter(capacity, log, k).discarded == 0
    ensures SeenAfter(capacity, log, k).queued == Calls.Completions(log, k)
    ensures forall i :: 0 <= i < |log| && log[i].call == k ==>
              SeenAfter(capacity, log, k) == Filled(UNSEEN, log[i].outcome).(queued := 1)
  {
    if log != [] {
      var front := log[..|log| - 1];
      SeenOnce(capacity, front, k);
      if log[|log| - 1].call == k {
        forall i | 0 <= i < |front| ensures front[i].call != k {
          NoneLogged(front, k, i);
        }
      }
    }
  }

  lemma {:induction false} NoneLogged(log: seq<Calls.Completion>, k: nat, i: nat)
    requires Calls.Completions(log, k) == 0 && i < |log|
    ensures log[i].call != k
  {
    if i < |log| - 1 {
      NoneLogged(log[..|log| - 1], k, i);
    }
  }

  /** Draining signals the calls that it passes, each once, and no other. */
  lemma {:induction false} SeenDrained(
    capacity: nat, log: seq<Calls.Completion>, order: seq<nat>, pending: map<nat, nat>, error: Error, k: nat)
    requires forall i :: 0 <= i < |order| ==> order[i] in pending
    requires forall i, j :: 0 <= i < j < |order| ==> order[i] != order[j]
    requires Calls.Injective(pending)
    ensures SeenAfter(capacity, log + Calls.Drained(order, pending, error), k)
            == if Calls.Passes(order, pending, k)
               then Signalled(SeenAfter(capacity, log, k), capacity, Calls.Failed(error))
               else SeenAfter(capacity, log, k)
  {
    if order == [] {
      assert log + [] == log;
    } else {
      hide Calls.Passes, Calls.Injective, SeenAfter, Signalled;
      var n := |order| - 1;
      var front, x := order[..n], Calls.Completion(pending[order[n]], Calls.Failed(error));
      var drained := Calls.Drained(front, pending, error);
      SeenDrained(capacity, log, front, pending, error, k);
      Calls.PassesLast(order, pending, k);
      SeenAppend(capacity, log + drained, x, k);
      assert log + (drained + [x]) == (log + drained) + [x];
    }
  }

  // ------------------------------------------------------------------ objects and machine

  /** `call` is the object of the call that the machine names `k`. */
  ghost predicate Names(calls: seq<Call>, k: nat, call: Call) {
    k < |calls| && calls[k] == call
  }

  ghost predicate TableFits(calls: seq<Call>, t: Calls.Table<Call>, u: Calls.Table<nat>) {
    && t.number == u.number && t.closing == u.closing && t.shutdown == u.shutdown
    && t.pending.Keys == u.pending.Keys
    && (forall s :: s in t.pending ==> Names(calls, u.pending[s], t.pending[s]))
  }

  ghost predicate SenderFits(calls: seq<Call>, a: Calls.Sender<Call>, b: Calls.Sender<nat>) {
    match a
    case Idle => b.Idle?
    case Locked(call) => b.Locked? && Names(calls, b.call, call)
    case Writing(call, n) => b.Writing? && b.number == n && Names(calls, b.call, call)
    case Aborting(call, n, x) => b.Aborting? && b.number == n && b.error == x && Names(calls, b.call, call)
  }

  ghost predicate InHandFits(calls: seq<Call>, a: Option<Call>, b: Option<nat>) {
    match a
    case None => b.None?
    case Some(call) => b.Some? && Names(calls, b.value, call)
  }

  ghost predicate ReceiverFits(calls: seq<Call>, a: Calls.Receiver<Call>, b: Calls.Receiver<nat>) {
    match a
    case Top => b.Top?
    case GotHeader(h) => b == Calls.GotHeader(h)
    case Taken(h, call) => b.Taken? && b.header == h && InHandFits(calls, call, b.call)
    case Reading(h, call) => b.Reading? && b.header == h && InHandFits(calls, call, b.call)
    case Broken(x, cause) => b == Calls.Broken(x, cause)
    case Returned(cause) => b == Calls.Returned(cause)
  }

  ghost predicate CallsFit(calls: seq<Call>, requests: seq<Calls.Request>) {
    && |calls| == |requests|
    && (forall k :: 0 <= k < |calls| ==>
          calls[k].capacity >= 1 && Calls.Request(calls[k].serviceMethod, calls[k].args) == requests[k])
    && (forall k, k' :: 0 <= k < k' < |calls| ==> calls[k] != calls[k'])
  }

  ghost predicate Shown(calls: seq<Call>, log: seq<Calls.Completion>)
    reads calls
  {
    forall k :: 0 <= k < |calls| ==> calls[k].Look() == SeenAfter(calls[k].capacity, log, k)
  }

  /** The same, of what the objects looked like at some time. */
  ghost predicate Showed(calls: seq<Call>, looks: seq<Seen>, log: seq<Calls.Completion>) {
    && |looks| == |calls|
    && (forall k :: 0 <= k < |calls| ==> looks[k] == SeenAfter(calls[k].capacity, log, k))
  }

  ghost function Looks(calls: seq<Call>): (looks: seq<Seen>)
    reads calls
    ensures |looks| == |calls| && forall k :: 0 <= k < |calls| ==> looks[k] == calls[k].Look()
  {
    if calls == [] then [] else Looks(calls[..|calls| - 1]) + [calls[|calls| - 1].Look()]
  }

  lemma LooksShow(calls: seq<Call>, log: seq<Calls.Completion>)
    requires Shown(calls, log)
    ensures Showed(calls, Looks(calls), log)
  {
  }

  lemma ShownSame(calls: seq<Call>, looks: seq<Seen>, log: seq<Calls.Completion>)
    requires Showed(calls, looks, log)
    requires forall k :: 0 <= k < |calls| ==> calls[k].Look() == looks[k]
    ensures Shown(calls, log)
  {
  }

  lemma ShownMore(calls: seq<Call>, call: Call, log: seq<Calls.Completion>)
    requires Shown(calls, log) && call.Look() == SeenAfter(call.capacity, log, |calls|)
    ensures Shown(calls + [call], log)
  {
  }

  /** One call was signalled, as logged. */
  lemma ShownNext(calls: seq<Call>, looks: seq<Seen>, log: seq<Calls.Completion>, x: Calls.Completion)
    requires x.call < |calls| && Showed(calls, looks, log)
    requires calls[x.call].Look() == Signalled(looks[x.call], calls[x.call].capacity, x.outcome)
    requires forall k :: 0 <= k < |calls| && k != x.call ==> calls[k].Look() == looks[k]
    ensures Shown(calls, log + [x])
  {
    forall k | 0 <= k < |calls| ensures calls[k].Look() == SeenAfter(calls[k].capacity, log + [x], k) {
      SeenAppend(calls[k].capacity, log, x, k);
    }
  }

  /** The calls that were pending were signalled, as the drain loop logs them. */
  lemma ShownDrained(calls: seq<Call>, looks: seq<Seen>, c: Calls.State, order: seq<nat>)
    requires Calls.Injective(c.table.pending) && Calls.Enabled(c, Calls.Terminate(order))
    requires Showed(calls, looks, c.log)
    requires forall k :: 0 <= k < |calls| ==>
               calls[k].Look() == if Calls.Pends(c.table.pending, k)
                                  then Signalled(looks[k], calls[k].capacity,
                                                 Calls.Failed(Calls.FinalError(c.receiver.error, c.table.closing)))
                                  else looks[k]
    ensures Shown(calls, Calls.OnTerminate(c, order).log)
  {
    var error := Calls.FinalError(c.receiver.error, c.table.closing);
    forall k | 0 <= k < |calls|
      ensures calls[k].Look() == SeenAfter(calls[k].capacity, Calls.OnTerminate(c, order).log, k)
    {
      SeenDrained(calls[k].capacity, c.log, order, c.table.pending, error, k);
      Calls.PassesAll(order, c.table.pending, k);
    }
  }

  lemma NotYetLogged(j: Json.State, capacity: nat)
    requires Json.Reachable(j) && capacity >= 1
    ensures SeenAfter(capacity, j.core.log, |j.core.calls|) == UNSEEN
  {
    Json.ReachableInv(j);
    assert Calls.Places(j.core, |j.core.calls|) == 0;
    SeenOnce(capacity, j.core.log, |j.core.calls|);
  }

  lemma WaitingIsACall(j: Json.State, k: nat)
    requires Json.Reachable(j) && k in j.core.waiting
    ensures k < |j.core.calls|
  {
    Json.ReachableInv(j);
    assert Calls.Places(j.core, k) >= 1;
  }

  lemma LockedIsNotPending(j: Json.State)
    requires Json.Reachable(j) && j.core.sender.Locked? && !Calls.Refuses(j.core.table)
    ensures forall s :: s in j.core.table.pending ==> j.core.table.pending[s] != j.core.sender.call
  {
    Json.ReachableInv(j);
    forall s | s in j.core.table.pending ensures j.core.table.pending[s] != j.core.sender.call {
      assert Calls.Pends(j.core.table.pending, j.core.table.pending[s]);
      assert Calls.Places(j.core, j.core.sender.call) <= 1;
    }
  }

  /** The objects and local variables of the client are those of a state of the machine. */
  ghost predicate Fits(calls: seq<Call>, t: Calls.Table<Call>, sender: Calls.Sender<Call>,
                       receiver: Calls.Receiver<Call>, c: Calls.State) {
    && CallsFit(calls, c.calls) && TableFits(calls, t, c.table)
    && SenderFits(calls, sender, c.sender) && ReceiverFits(calls, receiver, c.receiver)
  }

  // ------------------------------------------------------------------ each step on values

  /** Steps of the client proper leave the codec alone. */
  ghost predicate SameCodec(j: Json.State, j': Json.State) {
    j'.index == j.index && j'.response == j.response
  }

  lemma InvokeStep(calls: seq<Call>, t: Calls.Table<Call>, sender: Calls.Sender<Call>,
                   receiver: Calls.Receiver<Call>, j: Json.State, r: Calls.Request, call: Call)
    requires Fits(calls, t, sender, receiver, j.core)
    requires call !in calls && call.capacity >= 1 && Calls.Request(call.serviceMethod, call.args) == r
    ensures |calls| == |j.core.calls|
    ensures var j' := Json.Next(j, Json.Plain(Calls.Invoke(r)));
            && Fits(calls + [call], t, sender, receiver, j'.core)
            && SameCodec(j, j') && j'.core.receiver == j.core.receiver && j'.noted == j.noted
            && j'.core.log == j.core.log && j'.core.waiting == j.core.waiting + {|calls|}
  {
  }

  lemma AcquireStep(calls: seq<Call>, t: Calls.Table<Call>, sender: Calls.Sender<Call>,
                    receiver: Calls.Receiver<Call>, j: Json.State, k: nat)
    requires Json.Reachable(j) && Fits(calls, t, sender, receiver, j.core) && sender.Idle? && k in j.core.waiting
    ensures k < |calls| && Json.Enabled(j, Json.Plain(Calls.Acquire(k)))
    ensures var j' := Json.Next(j, Json.Plain(Calls.Acquire(k)));
            && Fits(calls, t, Calls.Locked(calls[k]), receiver, j'.core)
            && SameCodec(j, j') && j'.core.receiver == j.core.receiver && j'.noted == j.noted
            && j'.core.log == j.core.log && j'.core.waiting == j.core.waiting - {k}
  {
    WaitingIsACall(j, k);
  }

  lemma RegisterStep(calls: seq<Call>, t: Calls.Table<Call>, sender: Calls.Sender<Call>,
                     receiver: Calls.Receiver<Call>, j: Json.State)
    requires Json.Reachable(j) && Fits(calls, t, sender, receiver, j.core) && sender.Locked?
    ensures Json.Enabled(j, Json.Plain(Calls.Register))
    ensures j.core.sender.Locked? && Names(calls, j.core.sender.call, sender.call)
    ensures Calls.Refuses(t) || forall s :: s in t.pending ==> t.pending[s] != sender.call
    ensures var j' := Json.Next(j, Json.Plain(Calls.Register));
            && SameCodec(j, j') && j'.core.receiver == j.core.receiver && j'.core.waiting == j.core.waiting && !j'.noted
            && (if Calls.Refuses(t) then
                  && Fits(calls, t, Calls.Idle, receiver, j'.core)
                  && j'.core.log == j.core.log + [Calls.Completion(j.core.sender.call, Calls.Failed(Shutdown))]
                else
                  && Fits(calls, Calls.Registered(t, sender.call), Calls.Writing(sender.call, t.number),
                          receiver, j'.core)
                  && j'.core.log == j.core.log)
  {
    if !Calls.Refuses(t) {
      LockedIsNotPending(j);
    }
  }

  lemma WriteStep(calls: seq<Call>, t: Calls.Table<Call>, sender: Calls.Sender<Call>,
                  receiver: Calls.Receiver<Call>, j: Json.State, failure: Option<Error>)
    requires Json.Reachable(j) && Fits(calls, t, sender, receiver, j.core) && j.noted
    ensures Json.Enabled(j, Json.Encode(failure)) && sender.Writing? && j.core.sender.Writing?
    ensures Json.Outgoing(j.core) == EncodeRequest(sender.number, sender.call.serviceMethod, sender.call.args)
    ensures var j' := Json.Next(j, Json.Encode(failure));
            var sender' := match failure
                           case None => Calls.Idle
                           case Some(x) => Calls.Aborting(sender.call, sender.number, x);
            && Fits(calls, t, sender', receiver, j'.core)
            && SameCodec(j, j') && j'.core.receiver == j.core.receiver && !j'.noted
            && j'.core.log == j.core.log && j'.core.waiting == j.core.waiting
  {
    Json.ReachableInv(j);
    hide Calls.Inv;
  }

  lemma AbortStep(calls: seq<Call>, t: Calls.Table<Call>, sender: Calls.Sender<Call>,
                  receiver: Calls.Receiver<Call>, j: Json.State)
    requires Fits(calls, t, sender, receiver, j.core) && sender.Aborting?
    ensures Json.Enabled(j, Json.Plain(Calls.Abort))
    ensures InHandFits(calls, Calls.Lookup(t, sender.number), Calls.Lookup(j.core.table, sender.number))
    ensures var j' := Json.Next(j, Json.Plain(Calls.Abort));
            && Fits(calls, Calls.Removed(t, sender.number), Calls.Idle, receiver, j'.core)
            && SameCodec(j, j') && j'.core.receiver == j.core.receiver && j'.noted == j.noted
            && j'.core.waiting == j.core.waiting
            && j'.core.log == match Calls.Lookup(j.core.table, sender.number)
                              case None => j.core.log
                              case Some(k) => j.core.log + [Calls.Completion(k, Calls.Failed(sender.error))]
  {
  }

  lemma ReadStep(calls: seq<Call>, t: Calls.Table<Call>, sender: Calls.Sender<Call>,
                 receiver: Calls.Receiver<Call>, j: Json.State, item: Item<WireResponse>)
    requires Fits(calls, t, sender, receiver, j.core) && receiver.Top?
    ensures Json.Enabled(j, Json.Receive(item))
    ensures var j' := Json.Next(j, Json.Receive(item));
            var (index, result) := ReadItem(j.index, item);
            var receiver' := match result
                             case Good(h) => Calls.GotHeader(h)
                             case Bad(x) => Calls.Broken(x, Calls.HeaderFailed);
            && Fits(calls, t, sender, receiver', j'.core)
            && j'.index == index && (Json.InHand(j'.core.receiver) ==> item == Whole(j'.response))
            && j'.noted == j.noted && j'.core.log == j.core.log && j'.core.waiting == j.core.waiting
  {
    hide ReadHeader;
  }

  lemma FailStep(calls: seq<Call>, t: Calls.Table<Call>, sender: Calls.Sender<Call>,
                 receiver: Calls.Receiver<Call>, j: Json.State, error: Error)
    requires Fits(calls, t, sender, receiver, j.core) && receiver.Top?
    ensures Json.Enabled(j, Json.ReadFails(error))
    ensures var j' := Json.Next(j, Json.ReadFails(error));
            && Fits(calls, t, sender, Calls.Broken(error, Calls.HeaderFailed), j'.core)
            && SameCodec(j, j') && j'.noted == j.noted && !Json.InHand(j'.core.receiver)
            && j'.core.log == j.core.log && j'.core.waiting == j.core.waiting
  {
  }

  lemma TakeStep(calls: seq<Call>, t: Calls.Table<Call>, sender: Calls.Sender<Call>,
                 receiver: Calls.Receiver<Call>, j: Json.State)
    requires Fits(calls, t, sender, receiver, j.core) && receiver.GotHeader?
    ensures Json.Enabled(j, Json.Plain(Calls.Take)) && Json.InHand(j.core.receiver)
    ensures var j' := Json.Next(j, Json.Plain(Calls.Take));
            var n := receiver.header.number;
            && Fits(calls, Calls.Removed(t, n), sender, Calls.Taken(receiver.header, Calls.Lookup(t, n)), j'.core)
            && SameCodec(j, j') && j'.noted == j.noted
            && j'.core.log == j.core.log && j'.core.waiting == j.core.waiting
  {
  }

  lemma PreReadStep(calls: seq<Call>, t: Calls.Table<Call>, sender: Calls.Sender<Call>,
                    receiver: Calls.Receiver<Call>, j: Json.State, failure: Option<Error>)
    requires Fits(calls, t, sender, receiver, j.core) && receiver.Taken?
    ensures Json.Enabled(j, Json.Plain(Calls.PreRead(failure))) && Json.InHand(j.core.receiver)
    ensures var j' := Json.Next(j, Json.Plain(Calls.PreRead(failure)));
            var receiver' := match failure
                             case None => Calls.Reading(receiver.header, receiver.call)
                             case Some(x) => Calls.Broken(x, Calls.PreReadFailed);
            && Fits(calls, t, sender, receiver', j'.core)
            && SameCodec(j, j') && j'.noted == j.noted
            && j'.core.log == j.core.log && j'.core.waiting == j.core.waiting
  {
  }

  /** The body is read only for a call that wants it, and then the response is free of errors. */
  lemma BodyStep(calls: seq<Call>, t: Calls.Table<Call>, sender: Calls.Sender<Call>,
                 receiver: Calls.Receiver<Call>, j: Json.State, failure: Option<Error>)
    requires Json.Reachable(j) && Fits(calls, t, sender, receiver, j.core) && receiver.Reading?
    ensures j.core.receiver.Reading? && InHandFits(calls, receiver.call, j.core.receiver.call)
    ensures if receiver.call.Some? && receiver.header.error == "" then
              && ErrorOf(j.response) == Some("")
              && Json.BodyOf(j, failure)
                 == match failure case None => Calls.BodyOk(j.response.result) case Some(x) => Calls.BodyErr(x)
            else Json.BodyOf(j, failure) == Calls.BodyOk(Null)
  {
    Json.ReachableInv(j);
    hide Calls.Inv;
  }

  function CauseOf(found: bool, header: Calls.Header): Calls.Cause {
    if !found || header.error != "" then Calls.BodyFailed else Calls.PostReadFailed
  }

  lemma FinishStep(calls: seq<Call>, t: Calls.Table<Call>, sender: Calls.Sender<Call>,
                   receiver: Calls.Receiver<Call>, j: Json.State, failure: Option<Error>, post: Option<Error>)
    requires Fits(calls, t, sender, receiver, j.core) && receiver.Reading? && j.core.receiver.Reading?
    ensures Json.Enabled(j, Json.ReadBody(failure, post))
    ensures var j' := Json.Next(j, Json.ReadBody(failure, post));
            var h, body, found := receiver.header, Json.BodyOf(j, failure), receiver.call.Some?;
            && Fits(calls, t, sender, Calls.Resume(Calls.StopError(found, h, body, post), CauseOf(found, h)), j'.core)
            && SameCodec(j, j') && j'.noted == j.noted && !Json.InHand(j'.core.receiver)
            && j'.core.waiting == j.core.waiting
            && j'.core.log == match j.core.receiver.call
                              case None => j.core.log
                              case Some(k) => j.core.log + [Calls.Completion(k, Calls.OutcomeOf(h, body))]
  {
    hide Json.BodyOf, Calls.StopError, Calls.OutcomeOf;
  }

  lemma TerminateStep(calls: seq<Call>, t: Calls.Table<Call>, sender: Calls.Sender<Call>,
                      receiver: Calls.Receiver<Call>, j: Json.State, order: seq<nat>)
    requires Fits(calls, t, sender, receiver, j.core)
    requires receiver.Broken? && sender.Idle? && Calls.Enumerates(order, t.pending)
    ensures Json.Enabled(j, Json.Plain(Calls.Terminate(order))) && Calls.Enabled(j.core, Calls.Terminate(order))
    ensures var j' := Json.Next(j, Json.Plain(Calls.Terminate(order)));
            && Fits(calls, t.(shutdown := true), sender, Calls.Returned(receiver.cause), j'.core)
            && SameCodec(j, j') && j'.noted == j.noted && !Json.InHand(j'.core.receiver)
            && j'.core.log == Calls.OnTerminate(j.core, order).log && j'.core.waiting == j.core.waiting
    ensures j.core.receiver.error == receiver.error && j.core.table.closing == t.closing
    ensures CallsFit(calls, j.core.calls) && TableFits(calls, t, j.core.table)
  {
    hide Calls.Drained;
  }

  /** A call is pending in the machine exactly when its object is pending in the client. */
  lemma PendingObjects(calls: seq<Call>, t: Calls.Table<Call>, u: Calls.Table<nat>,
                       requests: seq<Calls.Request>, k: nat)
    requires CallsFit(calls, requests) && TableFits(calls, t, u) && k < |calls|
    ensures Calls.Pends(u.pending, k) <==> exists s :: s in t.pending && t.pending[s] == calls[k]
  {
    if s :| s in u.pending && u.pending[s] == k {
      assert Names(calls, u.pending[s], t.pending[s]);
    }
    if s :| s in t.pending && t.pending[s] == calls[k] {
      assert Names(calls, u.pending[s], t.pending[s]);
    }
  }

  lemma Distinct(calls: seq<Call>, t: Calls.Table<Call>, sender: Calls.Sender<Call>,
                 receiver: Calls.Receiver<Call>, c: Calls.State, k: nat)
    requires Fits(calls, t, sender, receiver, c) && k < |calls|
    ensures forall k' :: 0 <= k' < |calls| && k' != k ==> calls[k'] != calls[k]
  {
  }

  // ------------------------------------------------------------------ the steps on the heap

  /** A scheduler's choice. `Go` is given a channel; the machine's own Invoke stands for a nil one. */
  datatype Action = Go(request: Calls.Request, capacity: nat) | Do(event: Json.Event)

  /** The capacity of the channel that `Go` makes when it is given none. */
  const DEFAULT_CAPACITY: nat := 10

  function EventOf(a: Action): Json.Event {
    match a
    case Go(r, _) => Json.Plain(Calls.Invoke(r))
    case Do(e) => e
  }

  /** `Go` panics on an unbuffered channel before anything happens. */
  predicate Possible(j: Json.State, a: Action) {
    !(a.Go? && a.capacity == 0) && Json.Enabled(j, EventOf(a))
  }

  /** One step of the machine, and the request that it hands to the encoder. */
  function Effect(j: Json.State, a: Action): (Json.State, seq<WireRequest>) {
    if !Possible(j, a) then (j, [])
    else (Json.Next(j, EventOf(a)), if EventOf(a).Encode? then [Json.Outgoing(j.core)] else [])
  }

  function Effects(j: Json.State, schedule: seq<Action>): (Json.State, seq<WireRequest>) {
    if schedule == [] then (j, [])
    else
      var (j1, sent1) := Effects(j, schedule[..|schedule| - 1]);
      var (j2, sent2) := Effect(j1, schedule[|schedule| - 1]);
      (j2, sent1 + sent2)
  }

  /**
    The objects, and the local variables of the goroutines: the calls made so far, those waiting for
    `reqMutex`, and where the sender that holds it and the receive loop are. `j` is the state of the
    machine that they are in.
   */
  class Host {
    const client: Client
    const codec: JsonClientCodec
    var calls: seq<Call>
    var waiting: set<nat>
    var sender: Calls.Sender<Call>
    var receiver: Calls.Receiver<Call>
    var noted: bool
    ghost var j: Json.State

    ghost predicate CodecFits()
      reads this, client, codec
    {
      && codec.index == j.index
      && (Json.InHand(j.core.receiver) ==> codec.response == j.response)
      && (sender.Writing? ==>
            client.requestNumber == sender.number && client.requestMethod == sender.call.serviceMethod)
    }

    ghost predicate Valid()
      reads this, client, codec, calls
    {
      && Json.Reachable(j) && client.Valid()
      && Fits(calls, client.View(), sender, receiver, j.core)
      && Shown(calls, j.core.log)
      && waiting == j.core.waiting && noted == j.noted
      && CodecFits()
    }

    constructor ()
      ensures Valid() && j == Json.INITIAL && calls == [] && fresh(client) && fresh(codec)
    {
      client := new Client();
      codec := new JsonClientCodec();
      calls, waiting, sender, receiver, noted := [], {}, Calls.Idle, Calls.Top, false;
      j := Json.INITIAL;
      new;
      assert Json.Run(Json.INITIAL, []) && Json.After(Json.INITIAL, []) == Json.INITIAL;
    }

    /** `Go` makes a call, which starts waiting for `reqMutex`. */
    method Invoke(r: Calls.Request, capacity: nat)
      requires Valid() && capacity >= 1
      modifies this`calls, this`waiting, this`j
      ensures Valid() && Json.Enabled(old(j), Json.Plain(Calls.Invoke(r)))
      ensures j == Json.Next(old(j), Json.Plain(Calls.Invoke(r)))
      ensures |calls| == |old(calls)| + 1 && calls[|old(calls)|].capacity == capacity
      ensures forall i :: 0 <= i < |calls| ==> calls[i] in old(calls) || fresh(calls[i])
    {
      hide Json.Reachable, Json.Next, Fits, Shown, Showed, Looks, SeenAfter, Calls.Enumerates;
      NotYetLogged(j, capacity);
      Json.Extended(j, Json.Plain(Calls.Invoke(r)));
      ghost var looks, log, before := Looks(calls), j.core.log, calls;
      LooksShow(calls, log);
      var call := new Call(r.serviceMethod, r.args, capacity);
      InvokeStep(calls, client.View(), sender, receiver, j, r, call);
      j := Json.Next(j, Json.Plain(Calls.Invoke(r)));
      waiting := waiting + {|calls|};
      calls := calls + [call];
      ShownSame(before, looks, log);
      ShownMore(before, call, log);
    }

    /** A sender gets `reqMutex`. */
    method Acquire(k: nat)
      requires Valid() && sender.Idle? && k in waiting
      modifies this`waiting, this`sender, this`j
      ensures Valid() && Json.Enabled(old(j), Json.Plain(Calls.Acquire(k)))
      ensures j == Json.Next(old(j), Json.Plain(Calls.Acquire(k)))
    {
      hide Json.Reachable, Json.Next, Json.Enabled, Fits, Shown;
      AcquireStep(calls, client.View(), sender, receiver, j, k);
      Json.Extended(j, Json.Plain(Calls.Acquire(k)));
      j := Json.Next(j, Json.Plain(Calls.Acquire(k)));
      waiting := waiting - {k};
      sender := Calls.Locked(calls[k]);
    }

    /** The locked section of `send`. */
    method Register()
      requires Valid() && sender.Locked?
      modifies this`sender, this`noted, this`j, client, calls
      ensures Valid() && Json.Enabled(old(j), Json.Plain(Calls.Register))
      ensures j == Json.Next(old(j), Json.Plain(Calls.Register))
    {
      hide Json.Reachable, Json.Next, Json.Enabled, Fits, Shown, Showed, Looks, Calls.Registered;
      RegisterStep(calls, client.View(), sender, receiver, j);
      Json.Extended(j, Json.Plain(Calls.Register));
      ghost var log, k, looks := j.core.log, j.core.sender.call, Looks(calls);
      LooksShow(calls, log);
      Distinct(calls, client.View(), sender, receiver, j.core, k);
      var call := sender.call;
      j := Json.Next(j, Json.Plain(Calls.Register));
      var slot := client.Register(call);
      noted := false;
      if slot.Some? {
        ShownSame(calls, looks, log);
        sender := Calls.Writing(call, slot.value);
      } else {
        ShownNext(calls, looks, log, Calls.Completion(k, Calls.Failed(Shutdown)));
        sender := Calls.Idle;
      }
    }

    /** The locked section of WriteRequest. */
    method Note()
      requires Valid() && sender.Writing? && !noted
      modifies this`noted, this`j, codec`index
      ensures Valid() && Json.Enabled(old(j), Json.Note) && j == Json.Next(old(j), Json.Note)
    {
      Json.Extended(j, Json.Note);
      hide Json.Reachable, Shown;
      j := Json.Next(j, Json.Note);
      codec.Note(client.requestNumber, client.requestMethod);
      noted := true;
    }

    /** The rest of WriteRequest: the message is made from the request header that `send` filled in. */
    method Write(failure: Option<Error>) returns (message: WireRequest)
      requires Valid() && noted
      modifies this`sender, this`noted, this`j
      ensures Valid() && Json.Enabled(old(j), Json.Encode(failure)) && j == Json.Next(old(j), Json.Encode(failure))
      ensures old(j).core.sender.Writing? && message == Json.Outgoing(old(j).core)
    {
      hide Json.Reachable, Json.Next, Json.Enabled, Fits, Shown;
      WriteStep(calls, client.View(), sender, receiver, j, failure);
      Json.Extended(j, Json.Encode(failure));
      message := EncodeRequest(client.requestNumber, client.requestMethod, sender.call.args);
      j := Json.Next(j, Json.Encode(failure));
      match failure {
        case None => sender := Calls.Idle;
        case Some(x) => sender := Calls.Aborting(sender.call, sender.number, x);
      }
      noted := false;
    }

    /** What `send` does once WriteRequest has failed. The receiver may have taken the call first. */
    method Abort()
      requires Valid() && sender.Aborting?
      modifies this`sender, this`j, client`pending, calls
      ensures Valid() && Json.Enabled(old(j), Json.Plain(Calls.Abort))
      ensures j == Json.Next(old(j), Json.Plain(Calls.Abort))
    {
      hide Json.Reachable, Json.Next, Json.Enabled, Fits, Shown, Showed, Looks, Calls.Lookup, Calls.Removed;
      AbortStep(calls, client.View(), sender, receiver, j);
      Json.Extended(j, Json.Plain(Calls.Abort));
      ghost var c, looks := j.core, Looks(calls);
      ghost var k := Calls.Lookup(c.table, sender.number);
      LooksShow(calls, c.log);
      if k.Some? {
        Distinct(calls, client.View(), sender, receiver, c, k.value);
      }
      j := Json.Next(j, Json.Plain(Calls.Abort));
      var call := client.Take(sender.number);
      if call.Some? {
        call.value.Fail(Local(sender.error));
        ShownNext(calls, looks, c.log, Calls.Completion(k.value, Calls.Failed(sender.error)));
      } else {
        ShownSame(calls, looks, c.log);
      }
      sender := Calls.Idle;
    }

    method Close()
      requires Valid()
      modifies this`j, client`closing
      ensures Valid() && Json.Enabled(old(j), Json.Plain(Calls.UserClose))
      ensures j == Json.Next(old(j), Json.Plain(Calls.UserClose))
    {
      Json.Extended(j, Json.Plain(Calls.UserClose));
      hide Json.Reachable, Shown;
      j := Json.Next(j, Json.Plain(Calls.UserClose));
      var first := client.Close();
    }

    /** ReadResponseHeader, on a message from the stream. */
    method ReadHeader(item: Item<WireResponse>)
      requires Valid() && receiver.Top?
      modifies this`receiver, this`j, codec
      ensures Valid() && Json.Enabled(old(j), Json.Receive(item)) && j == Json.Next(old(j), Json.Receive(item))
    {
      hide Json.Reachable, Json.Next, Json.Enabled, Fits, Shown, ReadItem;
      ReadStep(calls, client.View(), sender, receiver, j, item);
      Json.Extended(j, Json.Receive(item));
      j := Json.Next(j, Json.Receive(item));
      var result := codec.ReadResponseHeader(item);
      match result {
        case Good(h) => receiver := Calls.GotHeader(h);
        case Bad(x) => receiver := Calls.Broken(x, Calls.HeaderFailed);
      }
    }

    /** The stream ends or breaks under ReadResponseHeader. */
    method FailHeader(error: Error)
      requires Valid() && receiver.Top?
      modifies this`receiver, this`j
      ensures Valid() && Json.Enabled(old(j), Json.ReadFails(error)) && j == Json.Next(old(j), Json.ReadFails(error))
      ensures receiver == Calls.Broken(error, Calls.HeaderFailed)
    {
      hide Json.Reachable, Json.Next, Json.Enabled, Fits, Shown;
      FailStep(calls, client.View(), sender, receiver, j, error);
      Json.Extended(j, Json.ReadFails(error));
      j := Json.Next(j, Json.ReadFails(error));
      receiver := Calls.Broken(error, Calls.HeaderFailed);
    }

    /** The locked section of `receive`. */
    method Take()
      requires Valid() && receiver.GotHeader?
      modifies this`receiver, this`j, client`pending
      ensures Valid() && Json.Enabled(old(j), Json.Plain(Calls.Take))
      ensures j == Json.Next(old(j), Json.Plain(Calls.Take))
    {
      hide Json.Reachable, Json.Next, Json.Enabled, Fits, Shown, Calls.Lookup, Calls.Removed;
      TakeStep(calls, client.View(), sender, receiver, j);
      Json.Extended(j, Json.Plain(Calls.Take));
      j := Json.Next(j, Json.Plain(Calls.Take));
      var call := client.Take(receiver.header.number);
      receiver := Calls.Taken(receiver.header, call);
    }

    method PreRead(failure: Option<Error>)
      requires Valid() && receiver.Taken?
      modifies this`receiver, this`j
      ensures Valid() && Json.Enabled(old(j), Json.Plain(Calls.PreRead(failure)))
      ensures j == Json.Next(old(j), Json.Plain(Calls.PreRead(failure)))
    {
      hide Json.Reachable, Json.Next, Json.Enabled, Fits, Shown;
      PreReadStep(calls, client.View(), sender, receiver, j, failure);
      Json.Extended(j, Json.Plain(Calls.PreRead(failure)));
      j := Json.Next(j, Json.Plain(Calls.PreRead(failure)));
      match failure {
        case None => receiver := Calls.Reading(receiver.header, receiver.call);
        case Some(x) => receiver := Calls.Broken(x, Calls.PreReadFailed);
      }
    }

    /** ReadResponseBody: a call without a reply coming does not decode one. */
    method ReadBody(failure: Option<Error>) returns (body: Calls.Body)
      requires Valid() && receiver.Reading?
      ensures j.core.receiver.Reading? && body == Json.BodyOf(j, failure)
      ensures InHandFits(calls, receiver.call, j.core.receiver.call)
    {
      hide Json.Reachable, Json.BodyOf, Fits, Shown;
      BodyStep(calls, client.View(), sender, receiver, j, failure);
      if receiver.call.Some? && receiver.header.error == "" {
        body := codec.ReadResponseBody(failure);
      } else {
        body := Calls.BodyOk(Null);
      }
    }

    /** The `switch` of `receive`. */
    method Finish(failure: Option<Error>, post: Option<Error>)
      requires Valid() && receiver.Reading?
      modifies this`receiver, this`j, calls
      ensures Valid() && Json.Enabled(old(j), Json.ReadBody(failure, post))
      ensures j == Json.Next(old(j), Json.ReadBody(failure, post))
    {
      hide Json.Reachable, Json.Next, Json.Enabled, Json.BodyOf, Calls.StopError, Calls.OutcomeOf;
      hide Fits, Shown, Showed, Looks;
      var header, call := receiver.header, receiver.call;
      var body := ReadBody(failure);
      FinishStep(calls, client.View(), sender, receiver, j, failure, post);
      Json.Extended(j, Json.ReadBody(failure, post));
      ghost var c, looks := j.core, Looks(calls);
      LooksShow(calls, c.log);
      if call.Some? {
        Distinct(calls, client.View(), sender, receiver, c, c.receiver.call.value);
      }
      j := Json.Next(j, Json.ReadBody(failure, post));
      var stop := client.Finish(header, call, body, post);
      if call.Some? {
        ShownNext(calls, looks, c.log, Calls.Completion(c.receiver.call.value, Calls.OutcomeOf(header, body)));
      } else {
        ShownSame(calls, looks, c.log);
      }
      receiver := Calls.Resume(stop, CauseOf(call.Some?, header));
    }

    /** The end of `receive`. */
    method Terminate(order: seq<nat>)
      requires Valid() && receiver.Broken? && sender.Idle? && Calls.Enumerates(order, client.pending)
      modifies this`receiver, this`j, client`shutdown, calls
      ensures Valid() && Json.Enabled(old(j), Json.Plain(Calls.Terminate(order)))
      ensures j == Json.Next(old(j), Json.Plain(Calls.Terminate(order)))
      ensures receiver == Calls.Returned(old(receiver).cause)
    {
      hide Json.Reachable, Json.Next, Json.Enabled, Calls.Enabled, Calls.OnTerminate, Calls.FinalError;
      hide Fits, Shown, Showed, Looks;
      TerminateStep(calls, client.View(), sender, receiver, j, order);
      Json.Extended(j, Json.Plain(Calls.Terminate(order)));
      Json.ReachableInv(j);
      ghost var c, looks := j.core, Looks(calls);
      LooksShow(calls, c.log);
      j := Json.Next(j, Json.Plain(Calls.Terminate(order)));
      Drain(c, looks, order, receiver.error);
      receiver := Calls.Returned(receiver.cause);
    }

    method Drain(ghost c: Calls.State, ghost looks: seq<Seen>, order: seq<nat>, error: Error)
      requires client.Valid() && CallsFit(calls, c.calls) && TableFits(calls, client.View(), c.table)
      requires Calls.Injective(c.table.pending) && Calls.Enabled(c, Calls.Terminate(order))
      requires looks == Looks(calls) && Showed(calls, looks, c.log) && c.receiver.error == error
      modifies client`shutdown, calls
      ensures client.Valid() && client.View() == old(client.View()).(shutdown := true)
      ensures Shown(calls, Calls.OnTerminate(c, order).log)
    {
      hide Shown, Showed, Looks, Calls.OnTerminate;
      forall s | s in client.pending ensures client.pending[s] in calls {
        assert Names(calls, c.table.pending[s], client.pending[s]);
      }
      client.Terminate(order, error);
      forall k | 0 <= k < |calls|
        ensures calls[k].Look() == if Calls.Pends(c.table.pending, k)
                                   then Signalled(looks[k], calls[k].capacity,
                                                  Calls.Failed(Calls.FinalError(error, c.table.closing)))
                                   else looks[k]
      {
        PendingObjects(calls, old(client.View()), c.table, c.calls, k);
      }
      ShownDrained(calls, looks, c, order);
    }
  }

  // ------------------------------------------------------------------ whole runs

  /**
    Any schedule of calls, sends, writes, responses, failures and Close on the objects. They go
    through the states of the machine and write the requests that it writes; so no run of `done`
    ever takes the discard branch, and each call shows exactly the outcome that was logged for it.
   */
  method Drive(host: Host, schedule: seq<Action>) returns (sent: seq<WireRequest>)
    requires host.Valid()
    modifies host, host.client, host.codec, host.calls
    ensures host.Valid() && (host.j, sent) == Effects(old(host.j), schedule)
    ensures forall k: nat :: k < |host.calls| ==>
              && host.calls[k].discarded == 0
              && host.calls[k].queued == Calls.Completions(host.j.core.log, k) <= 1
              && (host.calls[k].queued == 0 ==> host.calls[k].Look() == UNSEEN)
    ensures forall i :: 0 <= i < |host.j.core.log| ==>
              && host.j.core.log[i].call < |host.calls|
              && Shows(host.calls[host.j.core.log[i].call], host.j.core.log[i].outcome)
  {
    hide Json.Reachable, Effect, Fits, Shown;
    sent := [];
    for n := 0 to |schedule|
      invariant host.Valid() && (host.j, sent) == Effects(old(host.j), schedule[..n])
      invariant forall i :: 0 <= i < |host.calls| ==> host.calls[i] in old(host.calls) || fresh(host.calls[i])
    {
      assert schedule[..n + 1][..n] == schedule[..n];
      var more := Step(host, schedule[n]);
      sent := sent + more;
    }
    assert schedule[..|schedule|] == schedule;
    forall k: nat | k < |host.calls|
      ensures host.calls[k].discarded == 0
              && host.calls[k].queued == Calls.Completions(host.j.core.log, k) <= 1
              && (host.calls[k].queued == 0 ==> host.calls[k].Look() == UNSEEN)
    {
      NeverDiscards(host, k);
    }
    forall i | 0 <= i < |host.j.core.log|
      ensures host.j.core.log[i].call < |host.calls|
              && Shows(host.calls[host.j.core.log[i].call], host.j.core.log[i].outcome)
    {
      OutcomeShown(host, i);
    }
  }

  /** `done` never discards, and the channel of a call holds one value exactly when it has completed. */
  lemma NeverDiscards(host: Host, k: nat)
    requires host.Valid() && k < |host.calls|
    ensures host.calls[k].discarded == 0
    ensures host.calls[k].queued == Calls.Completions(host.j.core.log, k) <= 1
    ensures host.calls[k].queued == 0 ==> host.calls[k].Look() == UNSEEN
  {
    Json.ReachableInv(host.j);
    Calls.OncePerPlace(host.j.core, k);
    SeenOnce(host.calls[k].capacity, host.j.core.log, k);
  }

  /** What a caller finds in a call that completed with outcome `o`: the reply, or the error, and one signal. */
  ghost predicate Shows(call: Call, o: Calls.Outcome)
    reads call
  {
    && call.queued == 1 && call.discarded == 0
    && (match o
        case Reply(v) => call.error == None && call.reply == Some(v)
        case ServerFault(text) => call.error == Some(FromServer(text)) && call.reply == None
        case Failed(x) => call.error == Some(Local(x)) && call.reply == None)
  }

  /** A completed call shows the outcome that was logged for it, and no other. */
  lemma OutcomeShown(host: Host, i: nat)
    requires host.Valid() && i < |host.j.core.log|
    ensures var x := host.j.core.log[i];
            x.call < |host.calls| && Shows(host.calls[x.call], x.outcome)
  {
    var x := host.j.core.log[i];
    Json.ReachableInv(host.j);
    Logged(host.j.core.log, i);
    assert Calls.Places(host.j.core, x.call) >= 1;
    Calls.OncePerPlace(host.j.core, x.call);
    SeenOnce(host.calls[x.call].capacity, host.j.core.log, x.call);
    assert host.calls[x.call].Look() == Filled(UNSEEN, x.outcome).(queued := 1);
  }

  /** What a pending call is told when a header read fails with `error`. */
  function LastWord(error: Error, closing: bool): Calls.Outcome {
    Calls.Failed(if error != EOF then error else if closing then Shutdown else UnexpectedEOF)
  }

  /**
    The server hangs up or the stream breaks: the header read fails and the client terminates. Every
    call that was pending shows the error; for an EOF, ErrShutdown if the user had closed the
    client and an unexpected EOF if not.
   */
  method HangUp(host: Host, error: Error, order: seq<nat>)
    requires host.Valid() && host.receiver.Top? && host.sender.Idle?
    requires Calls.Enumerates(order, host.client.pending)
    modifies host, host.client, host.codec, host.calls
    ensures host.Valid() && host.receiver == Calls.Returned(Calls.HeaderFailed)
    ensures forall s :: s in old(host.client.pending) ==>
              Shows(old(host.client.pending[s]), LastWord(error, old(host.client.closing)))
  {
    ghost var pending, closing, j := host.client.pending, host.client.closing, host.j;
    PendingNamed(host);
    hide Host.Valid, Json.Next, Json.Enabled;
    SamePlaces(host);
    SameOrders(order, host.client.pending, host.j.core.table.pending);
    host.FailHeader(error);
    host.Terminate(order);
    forall s | s in pending ensures Shows(pending[s], LastWord(error, closing)) {
      var i := HungUp(j, error, order, s);
      OutcomeShown(host, i);
    }
  }

  lemma PendingNamed(host: Host)
    requires host.Valid()
    ensures host.client.closing == host.j.core.table.closing
    ensures host.client.pending.Keys == host.j.core.table.pending.Keys
    ensures forall s :: s in host.client.pending ==>
              Names(host.calls, host.j.core.table.pending[s], host.client.pending[s])
  {
  }

  /** What the machine logs for the call pending under `s` when the stream ends. */
  lemma HungUp(j: Json.State, error: Error, order: seq<nat>, s: nat) returns (i: nat)
    requires j.core.receiver.Top? && j.core.sender.Idle? && Calls.Enumerates(order, j.core.table.pending)
    requires s in j.core.table.pending
    ensures Json.Enabled(j, Json.ReadFails(error))
    ensures var j1 := Json.Next(j, Json.ReadFails(error));
            && Json.Enabled(j1, Json.Plain(Calls.Terminate(order)))
            && var log := Json.Next(j1, Json.Plain(Calls.Terminate(order))).core.log;
               && i < |log| && log[i].call == j.core.table.pending[s]
               && log[i].outcome == LastWord(error, j.core.table.closing)
  {
    var c := Json.Next(j, Json.ReadFails(error)).core;
    var k := j.core.table.pending[s];
    assert Calls.Pends(c.table.pending, k);
    Calls.DrainedOutcomes(c, order, k);
    i :| |c.log| <= i < |Calls.OnTerminate(c, order).log| && Calls.OnTerminate(c, order).log[i].call == k;
  }

  lemma {:induction false} Logged(log: seq<Calls.Completion>, i: nat)
    requires i < |log|
    ensures Calls.Completions(log, log[i].call) >= 1
  {
    if i < |log| - 1 {
      Logged(log[..|log| - 1], i);
    }
  }

  /** What a scheduler may ask for, by the objects. */
  predicate CanDo(host: Host, e: Json.Event)
    reads host, host.client
  {
    match e
    case Plain(Invoke(_)) => true
    case Plain(Acquire(k)) => host.sender.Idle? && k in host.waiting
    case Plain(Register) => host.sender.Locked?
    case Plain(Abort) => host.sender.Aborting?
    case Plain(UserClose) => true
    case Plain(Take) => host.receiver.GotHeader?
    case Plain(PreRead(_)) => host.receiver.Taken?
    case Plain(Terminate(order)) =>
      host.receiver.Broken? && host.sender.Idle? && Calls.Enumerates(order, host.client.pending)
    case Plain(_) => false
    case Note => host.sender.Writing? && !host.noted
    case Encode(_) => host.noted
    case Receive(_) => host.receiver.Top?
    case ReadFails(_) => host.receiver.Top?
    case ReadBody(_, _) => host.receiver.Reading?
  }

  /** A goroutine is where the machine says it is. */
  lemma SamePlaces(host: Host)
    requires host.Valid()
    ensures var sender, c := host.sender, host.j.core;
            && (sender.Idle? <==> c.sender.Idle?) && (sender.Locked? <==> c.sender.Locked?)
            && (sender.Writing? <==> c.sender.Writing?) && (sender.Aborting? <==> c.sender.Aborting?)
    ensures var receiver, c := host.receiver, host.j.core;
            && (receiver.Top? <==> c.receiver.Top?) && (receiver.GotHeader? <==> c.receiver.GotHeader?)
            && (receiver.Taken? <==> c.receiver.Taken?) && (receiver.Reading? <==> c.receiver.Reading?)
            && (receiver.Broken? <==> c.receiver.Broken?)
    ensures host.client.pending.Keys == host.j.core.table.pending.Keys
    ensures host.waiting == host.j.core.waiting && host.noted == host.j.noted
    ensures host.noted ==> host.sender.Writing?
  {
    Json.ReachableInv(host.j);
    hide Calls.Inv;
  }

  lemma SameOrders<A, B>(order: seq<nat>, p: map<nat, A>, q: map<nat, B>)
    requires p.Keys == q.Keys
    ensures Calls.Enumerates(order, p) <==> Calls.Enumerates(order, q)
  {
    assert forall s :: s in p <==> s in p.Keys;
    assert forall s :: s in q <==> s in q.Keys;
  }

  /** The objects allow what the machine allows. */
  lemma CanDoIff(host: Host, e: Json.Event)
    requires host.Valid()
    ensures CanDo(host, e) <==> Json.Enabled(host.j, e)
    ensures e.Encode? && CanDo(host, e) ==> host.j.core.sender.Writing?
  {
    hide Host.Valid, ReadItem, Json.BodyOf, Calls.Enumerates;
    SamePlaces(host);
    if e.Plain? && e.event.Terminate? {
      SameOrders(e.event.order, host.client.pending, host.j.core.table.pending);
    }
  }

  method Step(host: Host, a: Action) returns (sent: seq<WireRequest>)
    requires host.Valid()
    modifies host, host.client, host.codec, host.calls
    ensures host.Valid() && (host.j, sent) == Effect(old(host.j), a)
    ensures |host.calls| > |old(host.calls)| ==>
              host.calls[|old(host.calls)|].capacity == if a.Go? then a.capacity else 10
    ensures forall i :: 0 <= i < |host.calls| ==> host.calls[i] in old(host.calls) || fresh(host.calls[i])
  {
    hide Host.Valid, Json.Next, Json.Enabled;
    var e := EventOf(a);
    CanDoIff(host, e);
    sent := [];
    if (a.Go? && a.capacity == 0) || !CanDo(host, e) {
      return;
    }
    match e {
      case Plain(Invoke(r)) => host.Invoke(r, if a.Go? then a.capacity else DEFAULT_CAPACITY);
      case Plain(_) => PlainStep(host, e.event);
      case Encode(failure) =>
        var message := host.Write(failure);
        sent := [message];
      case _ => CodecStep(host, e);
    }
  }

  /** Steps that do not go through the codec. */
  method PlainStep(host: Host, e: Calls.Event)
    requires host.Valid() && CanDo(host, Json.Plain(e)) && !e.Invoke?
    modifies host, host.client, host.calls
    ensures host.Valid() && host.calls == old(host.calls)
    ensures Json.Enabled(old(host.j), Json.Plain(e)) && host.j == Json.Next(old(host.j), Json.Plain(e))
  {
    hide Host.Valid, Json.Next, Json.Enabled;
    match e {
      case Acquire(k) => host.Acquire(k);
      case Register => host.Register();
      case Abort => host.Abort();
      case UserClose => host.Close();
      case Take => host.Take();
      case PreRead(failure) => host.PreRead(failure);
      case Terminate(order) => host.Terminate(order);
    }
  }

  method CodecStep(host: Host, e: Json.Event)
    requires host.Valid() && CanDo(host, e) && !e.Plain? && !e.Encode?
    modifies host, host.codec, host.calls
    ensures host.Valid() && host.calls == old(host.calls)
    ensures Json.Enabled(old(host.j), e) && host.j == Json.Next(old(host.j), e)
  {
    hide Host.Valid, Json.Next, Json.Enabled;
    match e {
      case Note => host.Note();
      case Receive(item) => host.ReadHeader(item);
      case ReadFails(x) => host.FailHeader(x);
      case ReadBody(failure, post) => host.Finish(failure, post);
    }
  }
}
