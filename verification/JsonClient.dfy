/**
  The client running over its JSON codec: two tables keyed by the same sequence numbers, the
  client's `pending` and the codec's index of method names, updated under different locks.
  The stream of responses is still arbitrary.
 */
module JsonClient {
  import opened Basics
  import opened JsonCodec
  import Calls

  /** `noted`: the write in progress has entered its method in the index. `response`: the last one read. */
  datatype State = State(core: Calls.State, index: map<nat, string>, noted: bool, response: WireResponse)

  const INITIAL: State := State(Calls.INITIAL, map[], false, NO_RESPONSE)

  datatype Event =
    | Plain(event: Calls.Event)
    | Note
    | Encode(failure: Option<Error>)
    | Receive(item: Item<WireResponse>)
    | ReadFails(error: Error)
    | ReadBody(failure: Option<Error>, post: Option<Error>)

  predicate UsesCodec(e: Calls.Event) {
    e.WriteDone? || e.HeaderOk? || e.HeaderErr? || e.Finish?
  }

  /** The codec reads a body only for a call that is waiting for a reply; `ReadResponseBody(nil)` succeeds. */
  function BodyOf(j: State, failure: Option<Error>): Calls.Body
    requires j.core.receiver.Reading?
  {
    if j.core.receiver.call.None? || j.core.receiver.header.error != "" then Calls.BodyOk(Null)
    else
      match failure
      case None => Calls.BodyOk(j.response.result)
      case Some(x) => Calls.BodyErr(x)
  }

  /** The step of the client proper that an event amounts to. */
  function CoreEvent(j: State, e: Event): Option<Calls.Event>
    requires e.ReadBody? ==> j.core.receiver.Reading?
  {
    match e
    case Plain(x) => Some(x)
    case Note => None
    case Encode(failure) => Some(Calls.WriteDone(failure))
    case Receive(item) =>
      (match ReadItem(j.index, item).1
       case Good(h) => Some(Calls.HeaderOk(h))
       case Bad(x) => Some(Calls.HeaderErr(x)))
    case ReadFails(x) => Some(Calls.HeaderErr(x))
    case ReadBody(failure, post) => Some(Calls.Finish(BodyOf(j, failure), post))
  }

  predicate Enabled(j: State, e: Event) {
    && (e.Plain? ==> !UsesCodec(e.event))
    && (e.Note? ==> j.core.sender.Writing? && !j.noted)
    && (e.Encode? ==> j.noted)
    && (e.ReadBody? ==> j.core.receiver.Reading?)
    && (CoreEvent(j, e).Some? ==> Calls.Enabled(j.core, CoreEvent(j, e).value))
  }

  /** The call that a sender is writing, and the message that it writes. */
  function Calling(c: Calls.State): Calls.Request
    requires c.sender.Writing?
  {
    if c.sender.call < |c.calls| then c.calls[c.sender.call] else Calls.Request("", Null)
  }

  function Outgoing(c: Calls.State): WireRequest
    requires c.sender.Writing?
  {
    EncodeRequest(c.sender.number, Calling(c).serviceMethod, Calling(c).args)
  }

  function Next(j: State, e: Event): State
    requires Enabled(j, e)
  {
    var core := match CoreEvent(j, e) case None => j.core case Some(x) => Calls.Next(j.core, x);
    match e
    case Plain(x) => j.(core := core, noted := j.noted && !x.Register?)
    case Note => j.(index := j.index[j.core.sender.number := Calling(j.core).serviceMethod], noted := true)
    case Encode(_) => j.(core := core, noted := false)
    case Receive(Whole(m)) => j.(core := core, index := ReadHeader(j.index, m).0, response := m)
    case _ => j.(core := core)
  }

  ghost predicate Run(j: State, events: seq<Event>)
    decreases |events|
  {
    events == [] || (Enabled(j, events[0]) && Run(Next(j, events[0]), events[1..]))
  }

  ghost function After(j: State, events: seq<Event>): State
    requires Run(j, events)
    decreases |events|
  {
    if events == [] then j else After(Next(j, events[0]), events[1..])
  }

  ghost predicate Reachable(j: State) {
    exists events :: Run(INITIAL, events) && j == After(INITIAL, events)
  }

  // ------------------------------------------------------------------ the invariant

  ghost predicate Live(c: Calls.State) {
    !c.receiver.Broken? && !c.receiver.Returned?
  }

  /** The entry of the codec index for `s` is what the call pending under `s` asked for. */
  ghost predicate Matches(j: State, s: nat)
    requires s in j.core.table.pending
  {
    var k := j.core.table.pending[s];
    k < |j.core.calls| && s in j.index && j.index[s] == j.core.calls[k].serviceMethod
  }

  /** The two windows in which the tables may differ on `s`. */
  ghost predicate InFlux(j: State, s: nat) {
    || (j.core.sender.Writing? && j.core.sender.number == s && !j.noted)
    || (j.core.receiver.GotHeader? && j.core.receiver.header.number == s)
  }

  ghost predicate Agrees(j: State) {
    Live(j.core) ==> forall s :: s in j.core.table.pending ==> Matches(j, s) || InFlux(j, s)
  }

  predicate InHand(r: Calls.Receiver<nat>) {
    r.GotHeader? || r.Taken? || r.Reading?
  }

  /** The header in hand is that of the message in hand. */
  ghost predicate Heard(j: State) {
    InHand(j.core.receiver) ==>
      && ResponseNumber(j.response.id) == Some(j.core.receiver.header.number)
      && ErrorOf(j.response) == Some(j.core.receiver.header.error)
  }

  ghost predicate Inv(j: State) {
    && Calls.Inv(j.core)
    && Agrees(j)
    && Heard(j)
    && (j.noted ==> j.core.sender.Writing?)
  }

  lemma PendingIsACall(c: Calls.State, s: nat)
    requires Calls.Inv(c) && !c.receiver.Returned? && s in c.table.pending
    ensures c.table.pending[s] < |c.calls|
  {
    assert Calls.Pends(c.table.pending, c.table.pending[s]);
    assert Calls.Places(c, c.table.pending[s]) >= 1;
  }

  lemma CoreKeeps(j: State, e: Event)
    requires Inv(j) && Enabled(j, e)
    ensures Calls.Inv(Next(j, e).core)
  {
    if CoreEvent(j, e).Some? {
      Calls.StepKeeps(j.core, CoreEvent(j, e).value);
    }
  }

  /** Steps of the client proper: the index stands still, and a slot goes only once its header is in hand. */
  lemma PlainAgrees(j: State, e: Calls.Event)
    requires Inv(j) && Enabled(j, Plain(e))
    ensures Agrees(Next(j, Plain(e)))
  {
    hide Calls.Conserved;
    var j' := Next(j, Plain(e));
    if Live(j'.core) {
      forall s | s in j'.core.table.pending ensures Matches(j', s) || InFlux(j', s) {
        if s in j.core.table.pending {
          PendingIsACall(j.core, s);
        }
      }
    }
  }

  /** Steps that go through the codec. */
  lemma CodecAgrees(j: State, e: Event)
    requires Inv(j) && Enabled(j, e) && !e.Plain?
    ensures Agrees(Next(j, e))
  {
    hide Calls.Conserved;
    var j' := Next(j, e);
    if Live(j'.core) {
      forall s | s in j'.core.table.pending ensures Matches(j', s) || InFlux(j', s) {
        PendingIsACall(j.core, s);
      }
    }
  }

  lemma HeardKept(j: State, e: Event)
    requires Inv(j) && Enabled(j, e)
    ensures Heard(Next(j, e)) && (Next(j, e).noted ==> Next(j, e).core.sender.Writing?)
  {
    hide Calls.Inv, Agrees;
  }

  lemma StepKeeps(j: State, e: Event)
    requires Inv(j) && Enabled(j, e)
    ensures Inv(Next(j, e))
  {
    hide Calls.Inv, Agrees, Heard, Next, Enabled;
    CoreKeeps(j, e);
    HeardKept(j, e);
    if e.Plain? {
      PlainAgrees(j, e.event);
    } else {
      CodecAgrees(j, e);
    }
  }

  lemma {:induction false} RunKeeps(j: State, events: seq<Event>)
    requires Inv(j) && Run(j, events)
    ensures Inv(After(j, events))
    decreases |events|
  {
    hide Inv, Next, Enabled;
    if events != [] {
      StepKeeps(j, events[0]);
      RunKeeps(Next(j, events[0]), events[1..]);
    }
  }

  lemma ReachableInv(j: State)
    requires Reachable(j)
    ensures Inv(j)
  {
    var events :| Run(INITIAL, events) && j == After(INITIAL, events);
    Calls.InitialInv();
    RunKeeps(INITIAL, events);
  }

  lemma Extended(j: State, e: Event)
    requires Reachable(j) && Enabled(j, e)
    ensures Reachable(Next(j, e))
  {
    var events :| Run(INITIAL, events) && j == After(INITIAL, events);
    Appended(INITIAL, events, e);
  }

  lemma {:induction false} Appended(j: State, events: seq<Event>, e: Event)
    requires Run(j, events) && Enabled(After(j, events), e)
    ensures Run(j, events + [e]) && After(j, events + [e]) == Next(After(j, events), e)
    decreases |events|
  {
    hide Next, Enabled;
    if events == [] {
      assert (events + [e])[1..] == [];
    } else {
      assert (events + [e])[1..] == events[1..] + [e];
      Appended(Next(j, events[0]), events[1..], e);
    }
  }

  // ------------------------------------------------------------------ what follows

  /**
    Between two iterations of a live receive loop, with no write in progress, the codec knows the
    method of every pending call, whatever was received and however many writes have failed.
   */
  lemma TwoIndexAgreement(j: State, s: nat)
    requires Reachable(j)
    requires j.core.receiver.Top? && !j.core.sender.Writing?
    requires s in j.core.table.pending
    ensures j.core.table.pending[s] < |j.core.calls|
    ensures s in j.index && j.index[s] == j.core.calls[j.core.table.pending[s]].serviceMethod
  {
    ReachableInv(j);
    assert Matches(j, s) || InFlux(j, s);
  }

  /** The receive loop never dereferences a nil Result: it decodes a body only when there is one. */
  lemma NeverNilResult(j: State, failure: Option<Error>)
    requires Reachable(j)
    requires j.core.receiver.Reading? && j.core.receiver.call.Some? && j.core.receiver.header.error == ""
    ensures j.response.result != Null
    ensures failure.None? ==> BodyOf(j, failure) == Calls.BodyOk(j.response.result)
  {
    ReachableInv(j);
  }

  /** Running over the JSON codec adds no behaviour: the client proper makes one of its own runs. */
  lemma {:induction false} Refines(j: State, events: seq<Event>)
    requires Calls.Reachable(j.core) && Run(j, events)
    ensures Calls.Reachable(After(j, events).core)
    decreases |events|
  {
    if events != [] {
      var e := events[0];
      if CoreEvent(j, e).Some? {
        var c' := Calls.Extended(j.core, CoreEvent(j, e).value);
      }
      Refines(Next(j, e), events[1..]);
    }
  }

  /**
    A response to a pending call names that call's method and leads to that call: the header that
    the hooks see and the call that is taken belong together.
   */
  lemma HeaderNamesCall(j: State, s: nat, m: WireResponse)
    requires Reachable(j) && j.core.receiver.Top? && !j.core.sender.Writing?
    requires s in j.core.table.pending && s < TWO_TO_THE_64 && m.id == Some(Number(s))
    requires ReadHeader(j.index, m).1.Good?
    ensures Enabled(j, Receive(Whole(m))) && j.core.table.pending[s] < |j.core.calls|
    ensures var j1, k := Next(j, Receive(Whole(m))), j.core.table.pending[s];
            && Enabled(j1, Plain(Calls.Take))
            && var taken := Next(j1, Plain(Calls.Take)).core.receiver;
               && taken.Taken? && taken.call == Some(k)
               && taken.header.number == s && taken.header.serviceMethod == j.core.calls[k].serviceMethod
  {
    TwoIndexAgreement(j, s);
    AnyResponse(j.index, m);
    assert Carries(m, s);
    hide Reachable;
  }

  /**
    A write that fails is reported to the call that was being written, unless the receiver has
    already taken that call.
   */
  lemma WriteFailureReported(j: State, x: Error)
    requires Reachable(j) && j.core.sender.Writing? && j.noted
    ensures Enabled(j, Encode(Some(x)))
    ensures var j1 := Next(j, Encode(Some(x)));
            && Enabled(j1, Plain(Calls.Abort))
            && var c, c2, n := j.core, Next(j1, Plain(Calls.Abort)).core, j.core.sender.number;
               && c2.sender.Idle? && n !in c2.table.pending
               && c2.log == c.log + (if n in c.table.pending
                                     then [Calls.Completion(c.sender.call, Calls.Failed(x))] else [])
  {
    ReachableInv(j);
    hide Calls.Conserved, Agrees, Heard;
  }

  /** A call that waits for a reply gets the result of its response, or the reason why it did not decode. */
  lemma ReplyDelivered(j: State, failure: Option<Error>, post: Option<Error>)
    requires j.core.receiver.Reading? && j.core.receiver.call.Some? && j.core.receiver.header.error == ""
    ensures Enabled(j, ReadBody(failure, post))
    ensures Next(j, ReadBody(failure, post)).core.log
            == j.core.log + [Calls.Completion(
                 j.core.receiver.call.value,
                 match failure
                 case None => Calls.Reply(j.response.result)
                 case Some(x) => Calls.Failed(Other("reading body " + Calls.TextOf(x))))]
  {
    Calls.FinishFacts(j.core, BodyOf(j, failure), post);
  }
}
