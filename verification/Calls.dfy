/**
  The client's pending-call protocol (client.go).

  Goroutines are cut into atomic steps at lock boundaries: a section that runs under `mutex`
  is one step, and `reqMutex` is the `sender` field, which holds whichever goroutine owns it.
  Responses are arbitrary, so the results below hold against any server.
 */
module Calls {
  import opened Basics

  /** What the caller asked for. A call is named by its index in `State.calls`. */
  datatype Request = Request(serviceMethod: string, args: Json)

  /** A decoded response header. */
  datatype Header = Header(number: nat, serviceMethod: string, error: string)

  datatype Body = BodyOk(value: Json) | BodyErr(error: Error)

  /** What `call.Error` and `call.Reply` hold when `done` runs. */
  datatype Outcome = Reply(value: Json) | ServerFault(text: string) | Failed(error: Error)

  datatype Completion = Completion(call: nat, outcome: Outcome)

  // ------------------------------------------------------------------ the state under `mutex`

  /** The fields of `Client` that `mutex` protects; `C` identifies a call. */
  datatype Table<C> = Table(number: nat, pending: map<nat, C>, closing: bool, shutdown: bool)

  const EMPTY_TABLE: Table<nat> := Table(0, map[], false, false)

  predicate Refuses<C>(t: Table<C>) {
    t.shutdown || t.closing
  }

  function Registered<C>(t: Table<C>, call: C): Table<C> {
    t.(number := (t.number + 1) % TWO_TO_THE_64, pending := t.pending[t.number := call])
  }

  function Lookup<C>(t: Table<C>, number: nat): Option<C> {
    if number in t.pending then Some(t.pending[number]) else None
  }

  function Removed<C>(t: Table<C>, number: nat): Table<C> {
    t.(pending := t.pending - {number})
  }

  /** The error given to the calls still pending when the receive loop has ended. */
  function FinalError(error: Error, closing: bool): Error {
    if error == EOF then (if closing then Shutdown else UnexpectedEOF) else error
  }

  // ------------------------------------------------------------------ the transition system

  /** The owner of `reqMutex`, and where in `send` it is. */
  datatype Sender<+C> =
    | Idle
    | Locked(call: C)
    | Writing(call: C, number: nat)
    | Aborting(call: C, number: nat, error: Error)

  datatype Cause = HeaderFailed | PreReadFailed | BodyFailed | PostReadFailed

  /** Where the receive goroutine is. */
  datatype Receiver<+C> =
    | Top
    | GotHeader(header: Header)
    | Taken(header: Header, call: Option<C>)
    | Reading(header: Header, call: Option<C>)
    | Broken(error: Error, cause: Cause)
    | Returned(cause: Cause)

  datatype Read = HeaderRead(ok: bool) | BodyRead(ok: bool)

  /**
    `calls`, `issued`, `log`, `dropped`, `overwritten` and `readLog` are histories: every call
    given to `send`, the calls in registration order, every run of `done`, the calls in hand when
    `PreReadResponse` failed, the calls whose slot was reused after `seq` wrapped around, and the
    codec reads of the receive loop.
   */
  datatype State = State(
    table: Table<nat>, sender: Sender<nat>, waiting: set<nat>, receiver: Receiver<nat>,
    calls: seq<Request>, issued: seq<nat>, log: seq<Completion>,
    dropped: set<nat>, overwritten: set<nat>, readLog: seq<Read>)

  const INITIAL: State := State(EMPTY_TABLE, Idle, {}, Top, [], [], [], {}, {}, [])

  datatype Event =
    | Invoke(request: Request)
    | Acquire(call: nat)
    | Register
    | WriteDone(failure: Option<Error>)
    | Abort
    | UserClose
    | HeaderOk(header: Header)
    | HeaderErr(error: Error)
    | Take
    | PreRead(failure: Option<Error>)
    | Finish(body: Body, post: Option<Error>)
    | Terminate(order: seq<nat>)

  /** `order` lists the keys of `pending`, each once: Go leaves the order of a map range open. */
  predicate Enumerates<C>(order: seq<nat>, pending: map<nat, C>) {
    && (forall i :: 0 <= i < |order| ==> order[i] in pending)
    && (forall s :: s in pending ==> s in order)
    && (forall i, j :: 0 <= i < j < |order| ==> order[i] != order[j])
  }

  predicate Enabled(c: State, e: Event) {
    match e
    case Invoke(_) => true
    case Acquire(k) => c.sender.Idle? && k in c.waiting
    case Register => c.sender.Locked?
    case WriteDone(_) => c.sender.Writing?
    case Abort => c.sender.Aborting?
    case UserClose => true
    case HeaderOk(_) => c.receiver.Top?
    case HeaderErr(_) => c.receiver.Top?
    case Take => c.receiver.GotHeader?
    case PreRead(_) => c.receiver.Taken?
    case Finish(_, _) => c.receiver.Reading?
    case Terminate(order) => c.receiver.Broken? && c.sender.Idle? && Enumerates(order, c.table.pending)
  }

  function Complete(c: State, call: nat, outcome: Outcome): State {
    c.(log := c.log + [Completion(call, outcome)])
  }

  function OnRegister(c: State): State
    requires c.sender.Locked?
  {
    var k := c.sender.call;
    if Refuses(c.table) then
      Complete(c, k, Failed(Shutdown)).(sender := Idle)
    else
      c.(table := Registered(c.table, k),
         sender := Writing(k, c.table.number),
         issued := c.issued + [k],
         overwritten := c.overwritten +
           (if c.table.number in c.table.pending then {c.table.pending[c.table.number]} else {}))
  }

  function OnAbort(c: State): State
    requires c.sender.Aborting?
  {
    var s := c.sender.number;
    var c' := c.(table := Removed(c.table, s), sender := Idle);
    match Lookup(c.table, s)
    case None => c'
    case Some(k) => Complete(c', k, Failed(c.sender.error))
  }

  function OnPreRead(c: State, error: Option<Error>): State
    requires c.receiver.Taken?
  {
    var call := c.receiver.call;
    match error
    case None => c.(receiver := Reading(c.receiver.header, call))
    case Some(x) =>
      c.(receiver := Broken(x, PreReadFailed),
         dropped := c.dropped + (if call.Some? then {call.value} else {}))
  }

  function Resume<C>(error: Option<Error>, cause: Cause): Receiver<C> {
    match error
    case None => Top
    case Some(x) => Broken(x, cause)
  }

  /** `err.Error()`. */
  function TextOf(error: Error): string {
    match error
    case EOF => "EOF"
    case UnexpectedEOF => "unexpected EOF"
    case Shutdown => "connection is shut down"
    case Other(text) => text
  }

  function ReadingError(prefix: string, error: Error): Error {
    Other(prefix + TextOf(error))
  }

  /** What the call holds when `receive` hands it over. */
  function OutcomeOf(header: Header, body: Body): Outcome {
    if header.error != "" then ServerFault(header.error)
    else
      match body
      case BodyOk(v) => Reply(v)
      case BodyErr(x) => Failed(ReadingError("reading body ", x))
  }

  /**
    The loop variable `err` after the `switch`. In the last case the body error is overwritten by
    the result of PostReadResponse.
   */
  function StopError(found: bool, header: Header, body: Body, post: Option<Error>): Option<Error> {
    if !found || header.error != "" then
      if body.BodyErr? then Some(ReadingError("reading error body: ", body.error)) else None
    else
      if post.Some? then Some(ReadingError("execute client PostReadResponse error:", post.value)) else None
  }

  /** The `switch` of `receive`: body read, hook and `done`. */
  function OnFinish(c: State, body: Body, post: Option<Error>): State
    requires c.receiver.Reading?
  {
    var h, call := c.receiver.header, c.receiver.call;
    var cause := if call.None? || h.error != "" then BodyFailed else PostReadFailed;
    var c' := c.(readLog := c.readLog + [BodyRead(body.BodyOk?)],
                 receiver := Resume(StopError(call.Some?, h, body, post), cause));
    if call.None? then c' else Complete(c', call.value, OutcomeOf(h, body))
  }

  function Drained(order: seq<nat>, pending: map<nat, nat>, error: Error): seq<Completion>
    requires forall i :: 0 <= i < |order| ==> order[i] in pending
  {
    if order == [] then []
    else Drained(order[..|order| - 1], pending, error)
         + [Completion(pending[order[|order| - 1]], Failed(error))]
  }

  function OnTerminate(c: State, order: seq<nat>): State
    requires c.receiver.Broken?
    requires forall i :: 0 <= i < |order| ==> order[i] in c.table.pending
  {
    c.(table := c.table.(shutdown := true),
       receiver := Returned(c.receiver.cause),
       log := c.log + Drained(order, c.table.pending, FinalError(c.receiver.error, c.table.closing)))
  }

  function Next(c: State, e: Event): State
    requires Enabled(c, e)
  {
    match e
    case Invoke(r) => c.(calls := c.calls + [r], waiting := c.waiting + {|c.calls|})
    case Acquire(k) => c.(waiting := c.waiting - {k}, sender := Locked(k))
    case Register => OnRegister(c)
    case WriteDone(x) =>
      c.(sender := match x case None => Idle case Some(x) => Aborting(c.sender.call, c.sender.number, x))
    case Abort => OnAbort(c)
    case UserClose => c.(table := c.table.(closing := true))
    case HeaderOk(h) => c.(receiver := GotHeader(h), readLog := c.readLog + [HeaderRead(true)])
    case HeaderErr(x) => c.(receiver := Broken(x, HeaderFailed), readLog := c.readLog + [HeaderRead(false)])
    case Take =>
      var s := c.receiver.header.number;
      c.(table := Removed(c.table, s), receiver := Taken(c.receiver.header, Lookup(c.table, s)))
    case PreRead(x) => OnPreRead(c, x)
    case Finish(body, post) => OnFinish(c, body, post)
    case Terminate(order) => OnTerminate(c, order)
  }

  /** `events` can happen one after the other from `c`; `After` is the state they lead to. */
  ghost predicate Run(c: State, events: seq<Event>)
    decreases |events|
  {
    events == [] || (Enabled(c, events[0]) && Run(Next(c, events[0]), events[1..]))
  }

  ghost function After(c: State, events: seq<Event>): State
    requires Run(c, events)
    decreases |events|
  {
    if events == [] then c else After(Next(c, events[0]), events[1..])
  }

  // ------------------------------------------------------------------ the invariant

  /** How often `done` has run for call `k`. */
  function Completions(log: seq<Completion>, k: nat): nat {
    if log == [] then 0
    else Completions(log[..|log| - 1], k) + One(log[|log| - 1].call == k)
  }

  ghost predicate Pends(pending: map<nat, nat>, k: nat) {
    exists s :: s in pending && pending[s] == k
  }

  predicate HeldByReceiver(r: Receiver<nat>, k: nat) {
    (r.Taken? || r.Reading?) && r.call == Some(k)
  }

  /** The number of places where call `k` is: conservation says that it is always 1. */
  ghost function Places(c: State, k: nat): nat {
    One(k in c.waiting)
    + One(c.sender == Locked(k))
    + One(!c.receiver.Returned? && Pends(c.table.pending, k))
    + One(HeldByReceiver(c.receiver, k))
    + Completions(c.log, k)
    + One(k in c.dropped)
    + One(k in c.overwritten)
  }

  ghost predicate Injective(pending: map<nat, nat>) {
    forall s, s' :: s in pending && s' in pending && pending[s] == pending[s'] ==> s == s'
  }

  ghost predicate Conserved(c: State) {
    forall k: nat {:trigger Places(c, k)} :: Places(c, k) == One(k < |c.calls|)
  }

  ghost predicate Owned(c: State) {
    && Injective(c.table.pending)
    && (c.table.shutdown <==> c.receiver.Returned?)
    && (c.sender.Writing? || c.sender.Aborting? ==>
          && !c.receiver.Returned?
          && (c.sender.number in c.table.pending ==> c.table.pending[c.sender.number] == c.sender.call))
    && |c.dropped| <= 1
    && (c.dropped != {} ==>
          c.receiver == Returned(PreReadFailed) || (c.receiver.Broken? && c.receiver.cause == PreReadFailed))
  }

  /** Sequence numbers are registration indices for as long as they have not wrapped around. */
  ghost predicate Numbered(c: State) {
    && c.table.number == |c.issued| % TWO_TO_THE_64
    && (|c.issued| <= TWO_TO_THE_64 ==>
          && c.overwritten == {}
          && (forall s :: s in c.table.pending ==> s < |c.issued| && c.issued[s] == c.table.pending[s]))
  }

  ghost predicate Inv(c: State) {
    Conserved(c) && Owned(c) && Numbered(c)
  }

  lemma CompletionsAppend(log: seq<Completion>, x: Completion, k: nat)
    ensures Completions(log + [x], k) == Completions(log, k) + One(x.call == k)
  {
    assert (log + [x])[..|log|] == log;
  }

  lemma {:induction false} CompletionsConcat(a: seq<Completion>, b: seq<Completion>, k: nat)
    ensures Completions(a + b, k) == Completions(a, k) + Completions(b, k)
  {
    if b == [] {
      assert a + b == a;
    } else {
      assert (a + b)[..|a + b| - 1] == a + b[..|b| - 1];
      CompletionsConcat(a, b[..|b| - 1], k);
    }
  }

  ghost predicate Passes(order: seq<nat>, pending: map<nat, nat>, k: nat) {
    exists s :: s in order && s in pending && pending[s] == k
  }

  /** The last entry is passed once: the calls before it are different ones. */
  lemma PassesLast(order: seq<nat>, pending: map<nat, nat>, k: nat)
    requires order != [] && Injective(pending) && order[|order| - 1] in pending
    requires forall i, j :: 0 <= i < j < |order| ==> order[i] != order[j]
    ensures var front, last := order[..|order| - 1], pending[order[|order| - 1]];
            One(Passes(order, pending, k)) == One(Passes(front, pending, k)) + One(last == k)
  {
    var n := |order| - 1;
    assert order == order[..n] + [order[n]];
    assert order[n] !in order[..n];
    assert pending[order[n]] == k ==> order[n] in order;
  }

  /** Draining completes exactly the calls it passes, each once. */
  lemma {:induction false} DrainedCounts(order: seq<nat>, pending: map<nat, nat>, error: Error, k: nat)
    requires forall i :: 0 <= i < |order| ==> order[i] in pending
    requires forall i, j :: 0 <= i < j < |order| ==> order[i] != order[j]
    requires Injective(pending)
    ensures Completions(Drained(order, pending, error), k) == One(Passes(order, pending, k))
  {
    if order != [] {
      hide Passes, Injective;
      var n := |order| - 1;
      var front := order[..n];
      DrainedCounts(front, pending, error, k);
      PassesLast(order, pending, k);
      CompletionsAppend(Drained(front, pending, error), Completion(pending[order[n]], Failed(error)), k);
    }
  }

  lemma DrainedAll(order: seq<nat>, pending: map<nat, nat>, error: Error, k: nat)
    requires Enumerates(order, pending) && Injective(pending)
    ensures Completions(Drained(order, pending, error), k) == One(Pends(pending, k))
  {
    DrainedCounts(order, pending, error, k);
    PassesAll(order, pending, k);
  }

  lemma PassesAll(order: seq<nat>, pending: map<nat, nat>, k: nat)
    requires Enumerates(order, pending)
    ensures Passes(order, pending, k) <==> Pends(pending, k)
  {
  }

  // ------------------------------------------------------------------ every step keeps it

  lemma RefusalKeeps(c: State)
    requires Inv(c) && c.sender.Locked? && Refuses(c.table)
    ensures Inv(OnRegister(c))
  {
    var c', k := OnRegister(c), c.sender.call;
    forall j: nat ensures Places(c', j) == One(j < |c'.calls|) {
      assert Places(c, j) == One(j < |c.calls|);
      CompletionsAppend(c.log, Completion(k, Failed(Shutdown)), j);
    }
  }

  lemma RegistrationConserves(c: State)
    requires Inv(c) && c.sender.Locked? && !Refuses(c.table)
    ensures Conserved(OnRegister(c)) && !Pends(c.table.pending, c.sender.call)
  {
    var c', k := OnRegister(c), c.sender.call;
    var p := c.table.pending;
    assert Places(c, k) == One(k < |c.calls|);
    assert !Pends(p, k);
    forall j: nat ensures Places(c', j) == One(j < |c'.calls|) {
      assert Places(c, j) == One(j < |c.calls|);
      PendsAfterRegister(c.table, k, j);
      assert c.table.number in p ==> Pends(p, p[c.table.number]);
    }
  }

  lemma RegisterKeeps(c: State)
    requires Inv(c) && c.sender.Locked?
    ensures Inv(OnRegister(c))
  {
    if Refuses(c.table) {
      RefusalKeeps(c);
    } else {
      RegistrationConserves(c);
      RegistrationOwned(c);
      RegistrationNumbered(c);
      hide Conserved, Owned, Numbered;
    }
  }

  lemma RegistrationOwned(c: State)
    requires Owned(c) && c.sender.Locked? && !Refuses(c.table) && !Pends(c.table.pending, c.sender.call)
    ensures Owned(OnRegister(c))
  {
    assert forall s :: s in c.table.pending ==> c.table.pending[s] != c.sender.call;
  }

  lemma RegistrationNumbered(c: State)
    requires Numbered(c) && c.sender.Locked? && !Refuses(c.table)
    ensures Numbered(OnRegister(c))
  {
  }

  lemma PendsAfterRegister(t: Table<nat>, k: nat, j: nat)
    requires Injective(t.pending) && !Pends(t.pending, k)
    ensures Pends(Registered(t, k).pending, j)
            <==> j == k || (Pends(t.pending, j) && !(t.number in t.pending && t.pending[t.number] == j))
  {
    var p, p' := t.pending, Registered(t, k).pending;
    if j == k {
      assert p'[t.number] == k;
    } else if s :| s in p && p[s] == j && s != t.number {
      assert p'[s] == j;
    }
    if j != k && Pends(p', j) {
      var s :| s in p' && p'[s] == j;
      assert s in p && p[s] == j;
    }
  }

  lemma PendsAfterRemove(t: Table<nat>, s: nat, j: nat)
    requires Injective(t.pending)
    ensures Pends(Removed(t, s).pending, j) <==> Pends(t.pending, j) && Lookup(t, s) != Some(j)
    ensures Injective(Removed(t, s).pending)
  {
    var p, p' := t.pending, Removed(t, s).pending;
    if x :| x in p && p[x] == j && x != s {
      assert p'[x] == j;
    }
    if x :| x in p' && p'[x] == j {
      assert p[x] == j;
    }
  }

  lemma AbortKeeps(c: State)
    requires Inv(c) && c.sender.Aborting?
    ensures Inv(OnAbort(c))
  {
    var c', s := OnAbort(c), c.sender.number;
    forall j: nat ensures Places(c', j) == One(j < |c'.calls|) {
      assert Places(c, j) == One(j < |c.calls|);
      PendsAfterRemove(c.table, s, j);
      if s in c.table.pending {
        CompletionsAppend(c.log, Completion(c.table.pending[s], Failed(c.sender.error)), j);
        assert Pends(c.table.pending, c.table.pending[s]);
      }
    }
  }

  lemma TakeKeeps(c: State)
    requires Inv(c) && c.receiver.GotHeader?
    ensures Inv(Next(c, Take))
  {
    var c', s := Next(c, Take), c.receiver.header.number;
    PendsAfterRemove(c.table, s, 0);
    forall j: nat ensures Places(c', j) == One(j < |c'.calls|) {
      assert Places(c, j) == One(j < |c.calls|);
      PendsAfterRemove(c.table, s, j);
      if s in c.table.pending {
        assert Pends(c.table.pending, c.table.pending[s]);
      }
    }
  }

  lemma PreReadKeeps(c: State, error: Option<Error>)
    requires Inv(c) && c.receiver.Taken?
    ensures Inv(OnPreRead(c, error))
  {
    var c' := OnPreRead(c, error);
    forall j: nat ensures Places(c', j) == One(j < |c'.calls|) {
      assert Places(c, j) == One(j < |c.calls|);
    }
  }

  /** The receiver hands over the call it holds, and goes on without it. */
  lemma HandOverKeeps(c: State, c': State, x: Completion)
    requires Inv(c) && c.receiver.Reading? && c.receiver.call == Some(x.call)
    requires c'.receiver.Top? || (c'.receiver.Broken? && c'.receiver.cause != PreReadFailed)
    requires c' == c.(log := c.log + [x], receiver := c'.receiver, readLog := c'.readLog)
    ensures Inv(c')
  {
    HandOverConserves(c, c', x);
    hide Conserved;
  }

  lemma HandOverConserves(c: State, c': State, x: Completion)
    requires Conserved(c) && c.receiver.Reading? && c.receiver.call == Some(x.call)
    requires c'.receiver.Top? || c'.receiver.Broken?
    requires c' == c.(log := c.log + [x], receiver := c'.receiver, readLog := c'.readLog)
    ensures Conserved(c')
  {
    hide Completions;
    forall j: nat ensures Places(c', j) == One(j < |c'.calls|) {
      assert Places(c, j) == One(j < |c.calls|);
      CompletionsAppend(c.log, x, j);
    }
  }

  lemma FinishKeeps(c: State, body: Body, post: Option<Error>)
    requires Inv(c) && c.receiver.Reading?
    ensures Inv(OnFinish(c, body, post))
  {
    var c' := OnFinish(c, body, post);
    if c.receiver.call.Some? {
      HandOverKeeps(c, c', c'.log[|c.log|]);
    } else {
      forall j: nat ensures Places(c', j) == One(j < |c'.calls|) {
        assert Places(c, j) == One(j < |c.calls|);
      }
    }
  }

  lemma TerminateKeeps(c: State, order: seq<nat>)
    requires Inv(c) && Enabled(c, Terminate(order))
    ensures Inv(Next(c, Terminate(order)))
  {
    var c' := Next(c, Terminate(order));
    var error := FinalError(c.receiver.error, c.table.closing);
    forall j: nat ensures Places(c', j) == One(j < |c'.calls|) {
      assert Places(c, j) == One(j < |c.calls|);
      DrainedAll(order, c.table.pending, error, j);
      CompletionsConcat(c.log, Drained(order, c.table.pending, error), j);
    }
  }

  lemma OtherKeeps(c: State, e: Event)
    requires Inv(c) && Enabled(c, e)
    requires e.Invoke? || e.Acquire? || e.WriteDone? || e.UserClose? || e.HeaderOk? || e.HeaderErr?
    ensures Inv(Next(c, e))
  {
    var c' := Next(c, e);
    forall j: nat ensures Places(c', j) == One(j < |c'.calls|) {
      assert Places(c, j) == One(j < |c.calls|);
    }
  }

  /** Every atomic step of `send`, `receive` and `Close` keeps the invariant. */
  lemma StepKeeps(c: State, e: Event)
    requires Inv(c) && Enabled(c, e)
    ensures Inv(Next(c, e))
  {
    match e
    case Register => RegisterKeeps(c);
    case Abort => AbortKeeps(c);
    case Take => TakeKeeps(c);
    case PreRead(x) => PreReadKeeps(c, x);
    case Finish(body, post) => FinishKeeps(c, body, post);
    case Terminate(order) => TerminateKeeps(c, order);
    case _ => OtherKeeps(c, e);
  }

  lemma {:induction false} RunKeeps(c: State, events: seq<Event>)
    requires Inv(c) && Run(c, events)
    ensures Inv(After(c, events))
    decreases |events|
  {
    hide Inv, Next, Enabled;
    if events != [] {
      StepKeeps(c, events[0]);
      RunKeeps(Next(c, events[0]), events[1..]);
    }
  }

  lemma InitialInv()
    ensures Inv(INITIAL)
  {
    forall j: nat ensures Places(INITIAL, j) == One(j < |INITIAL.calls|) {
    }
  }

  // ------------------------------------------------------------------ what a caller may rely on

  ghost predicate Reachable(c: State) {
    exists events :: Run(INITIAL, events) && c == After(INITIAL, events)
  }

  lemma ReachableInv(c: State)
    requires Reachable(c)
    ensures Inv(c)
  {
    var events :| Run(INITIAL, events) && c == After(INITIAL, events);
    InitialInv();
    RunKeeps(INITIAL, events);
  }

  /** Whatever the interleaving and the responses, `done` runs at most once per call. */
  lemma AtMostOnce(c: State, k: nat)
    requires Reachable(c)
    ensures Completions(c.log, k) <= 1
  {
    ReachableInv(c);
    OncePerPlace(c, k);
  }

  lemma OncePerPlace(c: State, k: nat)
    requires Inv(c)
    ensures Completions(c.log, k) <= 1
  {
    assert Places(c, k) <= 1;
  }

  /**
    When a step runs `done` for a call, it runs it once and for the first time. What this means for
    the Done channel is stated of the objects, in module `ClientHost`.
   */
  lemma DoneForTheFirstTime(c: State, e: Event, k: nat)
    requires Reachable(c) && Enabled(c, e)
    requires Completions(Next(c, e).log, k) != Completions(c.log, k)
    ensures Completions(c.log, k) == 0 && Completions(Next(c, e).log, k) == 1
  {
    hide Inv, Next, Enabled, Reachable;
    ReachableInv(c);
    StepKeeps(c, e);
    OncePerPlace(c, k);
    OncePerPlace(Next(c, e), k);
    LogGrows(c, e, k);
  }

  lemma LogGrows(c: State, e: Event, k: nat)
    requires Enabled(c, e)
    ensures Completions(c.log, k) <= Completions(Next(c, e).log, k)
  {
    var log' := Next(c, e).log;
    assert log' == c.log + log'[|c.log|..];
    CompletionsConcat(c.log, log'[|c.log|..], k);
  }

  /**
    Once `receive` has returned and no `send` is running, every call ever given to `send` has
    completed exactly once, unless it was in the hands of the one iteration whose
    `PreReadResponse` failed or its slot was reused after 2^64 registrations.
   */
  lemma NoLostCall(c: State, k: nat)
    requires Reachable(c)
    requires c.receiver.Returned? && c.sender.Idle? && c.waiting == {}
    requires k < |c.calls|
    ensures Completions(c.log, k) == 1 <==> k !in c.dropped && k !in c.overwritten
    ensures |c.dropped| <= 1
    ensures c.dropped != {} ==> c.receiver == Returned(PreReadFailed)
    ensures |c.issued| <= TWO_TO_THE_64 ==> c.overwritten == {}
  {
    ReachableInv(c);
    assert Places(c, k) == 1;
  }

  /**
    Once the user has closed the client or `receive` has returned, no sequence number is ever issued
    again, and every send that gets the lock ends in ErrShutdown without registering.
   */
  lemma {:induction false} ClosedForGood(c: State, events: seq<Event>)
    requires Refuses(c.table) && Run(c, events)
    ensures After(c, events).issued == c.issued && Refuses(After(c, events).table)
    ensures c.sender.Locked? ==>
              && OnRegister(c).log == c.log + [Completion(c.sender.call, Failed(Shutdown))]
              && OnRegister(c).table == c.table
    decreases |events|
  {
    if events != [] {
      ClosedForGood(Next(c, events[0]), events[1..]);
    }
  }

  /**
    What the calls that are drained see: ErrShutdown when the stream ended after the user closed the
    client, an unexpected EOF when it ended otherwise, and the error itself when it broke.
   */
  lemma DrainedOutcomes(c: State, order: seq<nat>, k: nat)
    requires Enabled(c, Terminate(order)) && Pends(c.table.pending, k)
    ensures exists j :: |c.log| <= j < |OnTerminate(c, order).log| && OnTerminate(c, order).log[j].call == k
    ensures forall j :: |c.log| <= j < |OnTerminate(c, order).log| ==>
              OnTerminate(c, order).log[j].outcome
              == Failed(if c.receiver.error != EOF then c.receiver.error
                        else if c.table.closing then Shutdown
                        else UnexpectedEOF)
  {
    hide Drained;
    var error := FinalError(c.receiver.error, c.table.closing);
    var s :| s in c.table.pending && c.table.pending[s] == k;
    var i :| 0 <= i < |order| && order[i] == s;
    DrainedAt(order, c.table.pending, error);
    var log' := OnTerminate(c, order).log;
    assert log'[|c.log| + i].call == k;
    forall j | |c.log| <= j < |log'| ensures log'[j].outcome == Failed(error) {
      assert log'[j] == Drained(order, c.table.pending, error)[j - |c.log|];
    }
  }

  /**
    One iteration of `receive` from the body read on. The call, if there is one, gets the server's
    error, the reply, or the reason why the body was not read. The loop goes on after a body error
    of a reply; it stops on a body error of anything else, and when PostReadResponse fails.
   */
  lemma FinishFacts(c: State, body: Body, post: Option<Error>)
    requires c.receiver.Reading?
    ensures var c', call, text := OnFinish(c, body, post), c.receiver.call, c.receiver.header.error;
            c'.log == c.log + if call.None? then []
                              else [Completion(call.value,
                                               if text != "" then ServerFault(text)
                                               else if body.BodyOk? then Reply(body.value)
                                               else Failed(Other("reading body " + TextOf(body.error))))]
    ensures c.receiver.call.None? || c.receiver.header.error != "" ==>
              OnFinish(c, body, post).receiver
              == if body.BodyOk? then Top
                 else Broken(Other("reading error body: " + TextOf(body.error)), BodyFailed)
    ensures c.receiver.call.Some? && c.receiver.header.error == "" ==>
              OnFinish(c, body, post).receiver
              == if post.None? then Top
                 else Broken(Other("execute client PostReadResponse error:" + TextOf(post.value)), PostReadFailed)
  {
  }

  /** The hook before the body gets the header that was read; when it fails, its error is what ends the loop. */
  lemma PreReadFacts(c: State, failure: Option<Error>)
    requires Enabled(c, PreRead(failure))
    ensures Next(c, PreRead(failure)).receiver
            == match failure
               case None => Reading(c.receiver.header, c.receiver.call)
               case Some(x) => Broken(x, PreReadFailed)
    ensures Next(c, PreRead(failure)).log == c.log && Next(c, PreRead(failure)).table == c.table
  {
  }

  /** The texts of package io and of the client's own error. */
  lemma ErrorTexts(text: string)
    ensures TextOf(EOF) == "EOF" && TextOf(UnexpectedEOF) == "unexpected EOF"
    ensures TextOf(Shutdown) == "connection is shut down" && TextOf(Other(text)) == text
  {
  }

  lemma {:induction false} DrainedAt(order: seq<nat>, pending: map<nat, nat>, error: Error)
    requires forall i :: 0 <= i < |order| ==> order[i] in pending
    ensures |Drained(order, pending, error)| == |order|
    ensures forall i :: 0 <= i < |order| ==>
              Drained(order, pending, error)[i] == Completion(pending[order[i]], Failed(error))
  {
    if order != [] {
      DrainedAt(order[..|order| - 1], pending, error);
    }
  }

  /**
    The exception of `NoLostCall` is real for a client that has a plugin: a run in which the hook
    fails, with an error of the form that the plugin manager makes, and the call is lost.
   */
  lemma HookFailureLosesCall()
    ensures exists c :: Reachable(c) && c.receiver == Returned(PreReadFailed) && c.sender.Idle? && c.waiting == {}
                        && |c.calls| == 1 && c.dropped == {0} && c.log == []
  {
    hide Reachable;
    var h := Header(0, "A.B", "");
    var c4 := OneCallSent();
    var c5 := Extended(c4, HeaderOk(h));
    var c6 := Extended(c5, Take);
    var c7 := Extended(c6, PreRead(Some(Other("pre-read-response error happened: denied\n"))));
    var c8 := Extended(c7, Terminate([]));
    assert c8.waiting == {};
  }

  lemma OneCallSent() returns (c: State)
    ensures Reachable(c) && c.sender.Idle? && c.waiting == {} && c.receiver.Top?
    ensures |c.calls| == 1 && c.table.pending == map[0 := 0] && c.log == [] && c.dropped == {}
  {
    hide Reachable;
    var c1 := Extended(INITIAL, Invoke(Request("A.B", Null)));
    var c2 := Extended(c1, Acquire(0));
    var c3 := Extended(c2, Register);
    c := Extended(c3, WriteDone(None));
  }

  /** As shipped the plugin managers hold no plugins, so the hook never fails. */
  predicate HookSilent(e: Event) {
    !(e.PreRead? && e.failure.Some?)
  }

  lemma {:induction false} SilentRunDropsNothing(c: State, events: seq<Event>)
    requires c.dropped == {} && Run(c, events) && forall i :: 0 <= i < |events| ==> HookSilent(events[i])
    ensures After(c, events).dropped == {}
    decreases |events|
  {
    if events != [] {
      assert HookSilent(events[0]);
      assert Next(c, events[0]).dropped == {};
      SilentRunDropsNothing(Next(c, events[0]), events[1..]);
    }
  }

  /**
    As shipped no call is lost: in a run without hook failures, and with at most 2^64
    registrations, every call has completed exactly once when `receive` has returned and no `send`
    is running.
   */
  lemma AsShippedNothingLost(events: seq<Event>, k: nat)
    requires Run(INITIAL, events) && forall i :: 0 <= i < |events| ==> HookSilent(events[i])
    requires var c := After(INITIAL, events);
             && c.receiver.Returned? && c.sender.Idle? && c.waiting == {}
             && k < |c.calls| && |c.issued| <= TWO_TO_THE_64
    ensures Completions(After(INITIAL, events).log, k) == 1
  {
    SilentRunDropsNothing(INITIAL, events);
    NoLostCall(After(INITIAL, events), k);
  }

  lemma Extended(c: State, e: Event) returns (c': State)
    requires c == INITIAL || Reachable(c)
    requires Enabled(c, e)
    ensures c' == Next(c, e) && Reachable(c')
  {
    c' := Next(c, e);
    assert Run(INITIAL, []) && After(INITIAL, []) == INITIAL;
    var events :| Run(INITIAL, events) && c == After(INITIAL, events);
    Appended(INITIAL, events, e);
  }

  lemma {:induction false} Appended(c: State, events: seq<Event>, e: Event)
    requires Run(c, events) && Enabled(After(c, events), e)
    ensures Run(c, events + [e]) && After(c, events + [e]) == Next(After(c, events), e)
    decreases |events|
  {
    if events == [] {
      assert (events + [e])[1..] == [];
    } else {
      assert (events + [e])[1..] == events[1..] + [e];
      Appended(Next(c, events[0]), events[1..], e);
    }
  }

  // ------------------------------------------------------------------ stream alignment

  /** Reads alternate: a header, then one body; and nothing follows a failed header. */
  ghost predicate Aligned(log: seq<Read>) {
    && (forall i :: 0 <= i < |log| ==> (log[i].HeaderRead? <==> i % 2 == 0))
    && (forall i :: 0 <= i < |log| - 1 && log[i].HeaderRead? ==> log[i].ok)
  }

  ghost predicate InStep(c: State) {
    var r, n := c.receiver, |c.readLog|;
    && Aligned(c.readLog)
    && (r.Top? ==> n % 2 == 0)
    && (r.GotHeader? || r.Taken? || r.Reading? ==> n % 2 == 1 && c.readLog[n - 1].ok)
    && (r.Broken? || r.Returned? ==>
          match r.cause
          case HeaderFailed => n % 2 == 1 && !c.readLog[n - 1].ok
          case PreReadFailed => n % 2 == 1 && c.readLog[n - 1].ok
          case BodyFailed => n % 2 == 0 && n > 0 && !c.readLog[n - 1].ok
          case PostReadFailed => n % 2 == 0 && n > 0)
  }

  lemma AlignedNext(log: seq<Read>, x: Read)
    requires Aligned(log) && (x.HeaderRead? <==> |log| % 2 == 0)
    requires log != [] && log[|log| - 1].HeaderRead? ==> log[|log| - 1].ok
    ensures Aligned(log + [x])
  {
  }

  lemma StepInStep(c: State, e: Event)
    requires InStep(c) && Enabled(c, e)
    ensures InStep(Next(c, e))
  {
    var read := match e
                case HeaderOk(_) => Some(HeaderRead(true))
                case HeaderErr(_) => Some(HeaderRead(false))
                case Finish(body, _) => Some(BodyRead(body.BodyOk?))
                case _ => None;
    if read.Some? {
      assert Aligned(c.readLog);
      AlignedNext(c.readLog, read.value);
    }
    hide Aligned, Drained, Enumerates;
  }

  lemma {:induction false} RunInStep(c: State, events: seq<Event>)
    requires InStep(c) && Run(c, events)
    ensures InStep(After(c, events))
    decreases |events|
  {
    hide InStep, Next, Enabled;
    if events != [] {
      StepInStep(c, events[0]);
      RunInStep(Next(c, events[0]), events[1..]);
    }
  }

  /**
    On every run the receive loop reads header, body, header, body, ..., whichever branch each
    response takes. It stops half way through a response exactly when a header read or
    `PreReadResponse` failed, and the last read shows which failure ended it.
   */
  lemma ReceiveAligned(c: State)
    requires Reachable(c)
    ensures Aligned(c.readLog)
    ensures c.receiver.Top? ==> |c.readLog| % 2 == 0
    ensures c.receiver.Returned? ==>
              (|c.readLog| % 2 == 1 <==> c.receiver.cause in {HeaderFailed, PreReadFailed})
    ensures c.receiver == Returned(HeaderFailed) ==> LastRead(c) == Some(HeaderRead(false))
    ensures c.receiver == Returned(PreReadFailed) ==> LastRead(c) == Some(HeaderRead(true))
    ensures c.receiver == Returned(BodyFailed) ==> LastRead(c) == Some(BodyRead(false))
    ensures c.receiver == Returned(PostReadFailed) ==> LastRead(c).Some? && LastRead(c).value.BodyRead?
  {
    var events :| Run(INITIAL, events) && c == After(INITIAL, events);
    RunInStep(INITIAL, events);
  }

  function LastRead(c: State): Option<Read> {
    if c.readLog == [] then None else Some(c.readLog[|c.readLog| - 1])
  }
}
