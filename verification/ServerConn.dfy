/**
  One connection of the server: the reading loop of `serveCodec` and the goroutines it starts
  (server.go, service.go), over the index of the JSON server codec. Steps are atomic at lock
  boundaries and workers answer in any order. Requests are arbitrary.
 */
module ServerConn {
  import opened Basics
  import opened JsonCodec
  import Calls
  import Naming

  /** The services and their methods, as registered. */
  type Services = map<string, set<string>>

  /** A request header that was read, with the number that the codec gave it. */
  datatype Header = Header(number: nat, name: string, id: Option<RawId>, params: Option<Json>)

  /** A request being served: its method runs, or its response is about to be written. */
  datatype Task = Running(args: Json) | Replying(reply: Json, text: string, inline: bool)

  /** The reading loop. `Inline`: it answers a refused request itself. `Waiting`: in `wg.Wait`. */
  datatype Reader = Top | Dispatching | Inline(i: nat) | Waiting | Closed

  /** What a service method returned; an empty text is a nil error, or an error without text. */
  datatype Return = Return(reply: Json, text: string)

  /** One call of `WriteResponse`; `found` is false in the "invalid sequence number" branch. */
  datatype Answer = Answer(i: nat, number: nat, found: bool)

  /**
    Requests are named by the index of their header. `headers`, `returned`, `refused`, `answers`
    and `readLog` are histories.
   */
  datatype State = State(
    index: ServerIndex, reader: Reader, tasks: map<nat, Task>,
    headers: seq<Header>, returned: map<nat, Return>, refused: map<nat, string>,
    answers: seq<Answer>, readLog: seq<Calls.Read>)

  const INITIAL: State := State(EMPTY_INDEX, Top, map[], [], map[], map[], [], [])

  datatype Event =
    | HeaderOk(message: WireRequest)
    | HeaderErr
    | Dispatch(pre: Option<string>, body: Option<string>, post: Option<string>)
    | MethodReturns(i: nat, reply: Json, text: string)
    | Respond(i: nat)
    | Close

  /** The placeholder sent with every error. */
  const INVALID_REQUEST: Json := Data("{}")

  datatype Verdict = Start(args: Json) | Refuse(text: string)

  predicate Serves(services: Services, name: string) {
    match Naming.Route(name)
    case None => false
    case Some((service, entry)) => service in services && entry in services[service]
  }

  /** `readRequest` after the header: lookup, hooks and the body, with the failures given. */
  function Judge(
    services: Services, h: Header, pre: Option<string>, body: Option<string>, post: Option<string>): Verdict
  {
    match Naming.Route(h.name)
    case None => Refuse("service/method request invalid: " + h.name)
    case Some((service, entry)) =>
      if service !in services then Refuse("can't find service " + h.name)
      else if entry !in services[service] then Refuse("can't find method " + h.name)
      else if pre.Some? then Refuse("pre-read-request error happened: " + pre.value)
      else if h.params.None? then Refuse("illegal argument for request params")
      else if body.Some? then Refuse(body.value)
      else if post.Some? then Refuse("post-read-request error happened: " + post.value)
      else Start(h.params.value)
  }

  /** A refused request has its body discarded, which succeeds; otherwise the body is decoded. */
  predicate BodyFails(services: Services, h: Header, pre: Option<string>, body: Option<string>) {
    Serves(services, h.name) && pre.None? && (h.params.None? || body.Some?)
  }

  /** The texts of decoding errors come from package json and are never empty. */
  predicate Enabled(s: State, e: Event) {
    match e
    case HeaderOk(_) => s.reader.Top?
    case HeaderErr => s.reader.Top?
    case Dispatch(_, body, _) => s.reader.Dispatching? && s.headers != [] && body != Some("")
    case MethodReturns(i, _, _) => i in s.tasks && s.tasks[i].Running?
    case Respond(i) => i in s.tasks && s.tasks[i].Replying? && i < |s.headers|
    case Close => s.reader.Waiting? && s.tasks == map[]
  }

  function OnHeader(s: State, m: WireRequest): State {
    var index := Accepted(s.index, m.id);
    s.(index := index, reader := Dispatching,
       headers := s.headers + [Header(index.number, m.name, m.id, m.params)],
       readLog := s.readLog + [Calls.HeaderRead(true)])
  }

  /** A served request gets a goroutine; a refused one is answered by the reading loop. */
  function OnVerdict(s: State, v: Verdict): State
    requires s.headers != []
  {
    var i := |s.headers| - 1;
    match v
    case Start(args) => s.(reader := Top, tasks := s.tasks[i := Running(args)])
    case Refuse(text) =>
      s.(reader := Inline(i), tasks := s.tasks[i := Replying(INVALID_REQUEST, text, true)],
         refused := s.refused[i := text])
  }

  function OnDispatch(
    services: Services, s: State, pre: Option<string>, body: Option<string>, post: Option<string>): State
    requires s.headers != []
  {
    OnVerdict(s, Judge(services, s.headers[|s.headers| - 1], pre, body, post))
      .(readLog := s.readLog + [Calls.BodyRead(!BodyFails(services, s.headers[|s.headers| - 1], pre, body))])
  }

  /** The message that `sendResponse` hands to the encoder; `None` when the codec refuses the number. */
  function ResponseTo(s: State, i: nat): Option<WireResponse>
    requires Enabled(s, Respond(i))
  {
    var t, h := s.tasks[i], s.headers[i];
    if h.number !in s.index.pending then None
    else Some(EncodeResponse(s.index.pending[h.number], t.text, if t.text != "" then INVALID_REQUEST else t.reply))
  }

  /** The response is written, the request is freed, and a worker is done. */
  function OnRespond(s: State, i: nat): State
    requires Enabled(s, Respond(i))
  {
    var n := s.headers[i].number;
    s.(index := s.index.(pending := s.index.pending - {n}),
       tasks := s.tasks - {i},
       reader := if s.tasks[i].inline then Top else s.reader,
       answers := s.answers + [Answer(i, n, n in s.index.pending)])
  }

  function Next(services: Services, s: State, e: Event): State
    requires Enabled(s, e)
  {
    match e
    case HeaderOk(m) => OnHeader(s, m)
    case HeaderErr => s.(reader := Waiting, readLog := s.readLog + [Calls.HeaderRead(false)])
    case Dispatch(pre, body, post) => OnDispatch(services, s, pre, body, post)
    case MethodReturns(i, reply, text) =>
      s.(tasks := s.tasks[i := Replying(reply, text, false)], returned := s.returned[i := Return(reply, text)])
    case Respond(i) => OnRespond(s, i)
    case Close => s.(reader := Closed)
  }

  ghost predicate Run(services: Services, s: State, events: seq<Event>)
    decreases |events|
  {
    events == [] || (Enabled(s, events[0]) && Run(services, Next(services, s, events[0]), events[1..]))
  }

  ghost function After(services: Services, s: State, events: seq<Event>): State
    requires Run(services, s, events)
    decreases |events|
  {
    if events == [] then s else After(services, Next(services, s, events[0]), events[1..])
  }

  ghost predicate Reachable(services: Services, s: State) {
    exists events :: Run(services, INITIAL, events) && s == After(services, INITIAL, events)
  }

  // ------------------------------------------------------------------ the invariant

  function AnswersTo(answers: seq<Answer>, i: nat): nat {
    if answers == [] then 0
    else AnswersTo(answers[..|answers| - 1], i) + One(answers[|answers| - 1].i == i)
  }

  predicate Open(s: State, i: nat) {
    i in s.tasks || (s.reader.Dispatching? && i == |s.headers| - 1)
  }

  /** The number of places where request `i` is: read but not dispatched, being served, or answered. */
  ghost function Places(s: State, i: nat): nat {
    One(i in s.tasks) + One(s.reader.Dispatching? && i == |s.headers| - 1) + AnswersTo(s.answers, i)
  }

  ghost predicate Conserved(s: State) {
    forall i: nat {:trigger Places(s, i)} :: Places(s, i) == One(i < |s.headers|)
  }

  ghost predicate Truthful(s: State) {
    forall j :: 0 <= j < |s.answers| ==>
      s.answers[j].i < |s.headers| && s.answers[j].number == s.headers[s.answers[j].i].number
  }

  ghost predicate ReaderFits(s: State) {
    && (s.reader.Dispatching? ==> s.headers != [])
    && (s.reader.Inline? ==> s.reader.i in s.tasks)
    && (forall i :: i in s.tasks ==> (s.tasks[i].Replying? && s.tasks[i].inline <==> s.reader == Inline(i)))
    && (s.reader.Closed? ==> s.tasks == map[])
  }

  /** What the tasks hold comes from their header and from their own method. */
  ghost predicate Faithful(s: State) {
    && (forall i :: i in s.tasks ==> i < |s.headers|)
    && (forall i :: i in s.tasks && s.tasks[i].Running? ==> s.headers[i].params == Some(s.tasks[i].args))
    && (forall i :: i in s.tasks && s.tasks[i].Replying? ==>
          if s.tasks[i].inline then s.tasks[i].text != "" && i in s.refused && s.refused[i] == s.tasks[i].text
          else i in s.returned && s.returned[i] == Return(s.tasks[i].reply, s.tasks[i].text))
    && (forall i :: i in s.returned || i in s.refused ==>
          i < |s.headers| && !(s.reader.Dispatching? && i == |s.headers| - 1))
    && (forall i :: i in s.tasks && s.tasks[i].Running? ==> i !in s.returned && i !in s.refused)
  }

  /** The codec numbers headers 1, 2, ..., 2^64 - 1, 0, 1, ... */
  function NumberOf(i: nat): nat {
    (i + 1) % TWO_TO_THE_64
  }

  function IndexOf(n: nat): nat {
    if n == 0 then TWO_TO_THE_64 - 1 else n - 1
  }

  ghost predicate Numbered(s: State) {
    && s.index.number == |s.headers| % TWO_TO_THE_64
    && (forall i :: 0 <= i < |s.headers| ==> s.headers[i].number == NumberOf(i))
  }

  /** Before the numbers wrap around, the codec remembers the id of every open request and no other. */
  ghost predicate Remembers(s: State) {
    && (forall i :: 0 <= i < |s.headers| && Open(s, i) ==>
          NumberOf(i) in s.index.pending && s.index.pending[NumberOf(i)] == s.headers[i].id)
    && (forall n :: n in s.index.pending ==>
          IndexOf(n) < |s.headers| && NumberOf(IndexOf(n)) == n && Open(s, IndexOf(n)))
    && (forall j :: 0 <= j < |s.answers| ==> s.answers[j].found)
  }

  ghost predicate Inv(s: State) {
    && Conserved(s) && Truthful(s) && ReaderFits(s) && Faithful(s)
    && Numbered(s) && (|s.headers| <= TWO_TO_THE_64 ==> Remembers(s))
  }

  lemma AnswersAppend(answers: seq<Answer>, x: Answer, i: nat)
    ensures AnswersTo(answers + [x], i) == AnswersTo(answers, i) + One(x.i == i)
  {
    assert (answers + [x])[..|answers|] == answers;
  }

  /** The place of one request after a step. */
  lemma PlaceKept(s: State, s': State, i: nat)
    requires Places(s, i) == One(i < |s.headers|) && s'.answers == s.answers
    requires One(i in s'.tasks) + One(s'.reader.Dispatching? && i == |s'.headers| - 1) + One(i < |s.headers|)
             == One(i in s.tasks) + One(s.reader.Dispatching? && i == |s.headers| - 1) + One(i < |s'.headers|)
    ensures Places(s', i) == One(i < |s'.headers|)
  {
  }

  lemma RespondConserves(s: State, i: nat)
    requires Conserved(s) && ReaderFits(s) && Enabled(s, Respond(i))
    ensures Conserved(OnRespond(s, i))
  {
    var s' := OnRespond(s, i);
    forall j: nat ensures Places(s', j) == One(j < |s'.headers|) {
      assert Places(s, j) == One(j < |s.headers|);
      AnswersAppend(s.answers, s'.answers[|s.answers|], j);
    }
  }

  lemma VerdictConserves(s: State, v: Verdict)
    requires Conserved(s) && s.headers != [] && s.reader.Dispatching?
    ensures Conserved(OnVerdict(s, v))
  {
    var s' := OnVerdict(s, v);
    forall j: nat ensures Places(s', j) == One(j < |s'.headers|) {
      assert Places(s, j) == One(j < |s.headers|);
      PlaceKept(s, s', j);
    }
  }

  lemma ConservedKept(services: Services, s: State, e: Event)
    requires Conserved(s) && ReaderFits(s) && Enabled(s, e)
    ensures Conserved(Next(services, s, e))
  {
    var s' := Next(services, s, e);
    if e.Respond? {
      RespondConserves(s, e.i);
    } else if e.Dispatch? {
      var s1 := OnVerdict(s, Judge(services, s.headers[|s.headers| - 1], e.pre, e.body, e.post));
      VerdictConserves(s, Judge(services, s.headers[|s.headers| - 1], e.pre, e.body, e.post));
      forall j: nat ensures Places(s', j) == One(j < |s'.headers|) {
        assert Places(s1, j) == One(j < |s1.headers|);
      }
    } else {
      forall j: nat ensures Places(s', j) == One(j < |s'.headers|) {
        assert Places(s, j) == One(j < |s.headers|);
        PlaceKept(s, s', j);
      }
    }
  }

  lemma JudgeFacts(services: Services, h: Header, pre: Option<string>, body: Option<string>, post: Option<string>)
    requires body != Some("")
    ensures var v := Judge(services, h, pre, body, post);
            && (v.Start? <==> Serves(services, h.name) && h.params.Some? && pre.None? && body.None? && post.None?)
            && (v.Start? ==> h.params == Some(v.args))
            && (v.Refuse? ==> v.text != "")
  {
  }

  lemma TasksAfterVerdict(s: State, v: Verdict)
    requires Conserved(s) && ReaderFits(s) && Faithful(s) && s.reader.Dispatching?
    requires v.Start? ==> s.headers[|s.headers| - 1].params == Some(v.args)
    requires v.Refuse? ==> v.text != ""
    ensures ReaderFits(OnVerdict(s, v)) && Faithful(OnVerdict(s, v))
  {
    var i := |s.headers| - 1;
    assert Places(s, i) == 1;
    assert i !in s.tasks;
  }

  lemma DispatchTasks(services: Services, s: State, pre: Option<string>, body: Option<string>, post: Option<string>)
    requires Conserved(s) && ReaderFits(s) && Faithful(s) && Enabled(s, Dispatch(pre, body, post))
    ensures ReaderFits(OnDispatch(services, s, pre, body, post)) && Faithful(OnDispatch(services, s, pre, body, post))
  {
    hide Judge, Conserved;
    var h := s.headers[|s.headers| - 1];
    JudgeFacts(services, h, pre, body, post);
    TasksAfterVerdict(s, Judge(services, h, pre, body, post));
  }

  lemma ReturnTasks(services: Services, s: State, i: nat, reply: Json, text: string)
    requires Conserved(s) && ReaderFits(s) && Faithful(s) && Enabled(s, MethodReturns(i, reply, text))
    ensures var s' := Next(services, s, MethodReturns(i, reply, text)); ReaderFits(s') && Faithful(s')
  {
    assert Places(s, i) == 1;
    hide Conserved;
  }

  lemma OtherTasks(services: Services, s: State, e: Event)
    requires ReaderFits(s) && Faithful(s) && Enabled(s, e) && !e.Dispatch? && !e.MethodReturns?
    ensures ReaderFits(Next(services, s, e)) && Faithful(Next(services, s, e))
  {
  }

  lemma TasksKept(services: Services, s: State, e: Event)
    requires Conserved(s) && ReaderFits(s) && Faithful(s) && Enabled(s, e)
    ensures ReaderFits(Next(services, s, e)) && Faithful(Next(services, s, e))
  {
    hide Conserved, ReaderFits, Faithful;
    if e.Dispatch? {
      DispatchTasks(services, s, e.pre, e.body, e.post);
    } else if e.MethodReturns? {
      ReturnTasks(services, s, e.i, e.reply, e.text);
    } else {
      OtherTasks(services, s, e);
    }
  }

  lemma Inverse(i: nat)
    requires i < TWO_TO_THE_64
    ensures IndexOf(NumberOf(i)) == i
  {
  }

  lemma HeaderRemembers(s: State, m: WireRequest)
    requires Inv(s) && s.reader.Top? && |s.headers| < TWO_TO_THE_64
    ensures Remembers(OnHeader(s, m))
  {
    var s', last := OnHeader(s, m), |s.headers|;
    Inverse(last);
    assert s'.index.number == NumberOf(last);
    forall i | 0 <= i < |s'.headers| && Open(s', i)
      ensures NumberOf(i) in s'.index.pending && s'.index.pending[NumberOf(i)] == s'.headers[i].id
    {
      Inverse(i);
      assert i < last ==> Open(s, i);
    }
    forall n | n in s'.index.pending
      ensures IndexOf(n) < |s'.headers| && NumberOf(IndexOf(n)) == n && Open(s', IndexOf(n))
    {
    }
  }

  lemma RespondRemembers(s: State, i: nat)
    requires Inv(s) && Enabled(s, Respond(i)) && |s.headers| <= TWO_TO_THE_64
    ensures Remembers(OnRespond(s, i))
    ensures ResponseTo(s, i)
            == Some(EncodeResponse(s.headers[i].id, s.tasks[i].text,
                                   if s.tasks[i].text != "" then INVALID_REQUEST else s.tasks[i].reply))
  {
    var s' := OnRespond(s, i);
    Inverse(i);
    assert Open(s, i);
    assert Places(s, i) == 1;
    forall j | 0 <= j < |s'.headers| && Open(s', j)
      ensures NumberOf(j) in s'.index.pending && s'.index.pending[NumberOf(j)] == s'.headers[j].id
    {
      Inverse(j);
      assert Open(s, j);
    }
  }

  lemma SameRemembers(s: State, s': State)
    requires Remembers(s)
    requires s'.headers == s.headers && s'.index == s.index && s'.answers == s.answers
    requires forall i: nat :: Open(s', i) <==> Open(s, i)
    ensures Remembers(s')
  {
  }

  lemma StillRemembers(services: Services, s: State, e: Event)
    requires Remembers(s) && Enabled(s, e) && !e.HeaderOk? && !e.Respond?
    ensures Remembers(Next(services, s, e))
  {
    hide Judge, Remembers;
    if e.Dispatch? {
      var s1 := OnVerdict(s, Judge(services, s.headers[|s.headers| - 1], e.pre, e.body, e.post));
      SameRemembers(s, s1);
      SameRemembers(s1, Next(services, s, e));
    } else {
      SameRemembers(s, Next(services, s, e));
    }
  }

  /** Every atomic step of a connection keeps the invariant. */
  lemma StepKeeps(services: Services, s: State, e: Event)
    requires Inv(s) && Enabled(s, e)
    ensures Inv(Next(services, s, e))
  {
    hide Conserved, ReaderFits, Faithful, Remembers, Numbered, Truthful, Judge;
    ConservedKept(services, s, e);
    TasksKept(services, s, e);
    if |Next(services, s, e).headers| <= TWO_TO_THE_64 {
      match e
      case HeaderOk(m) => HeaderRemembers(s, m);
      case Respond(i) => RespondRemembers(s, i);
      case _ => StillRemembers(services, s, e);
    }
    Renumbered(services, s, e);
  }

  lemma Renumbered(services: Services, s: State, e: Event)
    requires Numbered(s) && Truthful(s) && Enabled(s, e)
    ensures Numbered(Next(services, s, e)) && Truthful(Next(services, s, e))
  {
    hide Judge;
  }

  lemma {:induction false} RunKeeps(services: Services, s: State, events: seq<Event>)
    requires Inv(s) && Run(services, s, events)
    ensures Inv(After(services, s, events))
    decreases |events|
  {
    hide Inv, Next, Enabled;
    if events != [] {
      StepKeeps(services, s, events[0]);
      RunKeeps(services, Next(services, s, events[0]), events[1..]);
    }
  }

  lemma ReachableInv(services: Services, s: State)
    requires Reachable(services, s)
    ensures Inv(s)
  {
    var events :| Run(services, INITIAL, events) && s == After(services, INITIAL, events);
    RunKeeps(services, INITIAL, events);
  }

  lemma InitialReachable(services: Services)
    ensures Reachable(services, INITIAL)
  {
    assert Run(services, INITIAL, []) && After(services, INITIAL, []) == INITIAL;
  }

  lemma Extended(services: Services, s: State, e: Event)
    requires Reachable(services, s) && Enabled(s, e)
    ensures Reachable(services, Next(services, s, e))
  {
    var events :| Run(services, INITIAL, events) && s == After(services, INITIAL, events);
    Appended(services, INITIAL, events, e);
  }

  lemma {:induction false} Appended(services: Services, s: State, events: seq<Event>, e: Event)
    requires Run(services, s, events) && Enabled(After(services, s, events), e)
    ensures Run(services, s, events + [e])
    ensures After(services, s, events + [e]) == Next(services, After(services, s, events), e)
    decreases |events|
  {
    if events == [] {
      assert (events + [e])[1..] == [];
    } else {
      assert (events + [e])[1..] == events[1..] + [e];
      Appended(services, Next(services, s, events[0]), events[1..], e);
    }
  }

  // ------------------------------------------------------------------ what a client may rely on

  /**
    Each header leads to at most one `WriteResponse`, always with that header's number, and for the
    first 2^64 requests the codec finds the number every time. After `wg.Wait` each header has
    been answered exactly once and the codec has no id left.
   */
  lemma ExactlyOneAnswer(services: Services, s: State, i: nat)
    requires Reachable(services, s) && i < |s.headers|
    ensures AnswersTo(s.answers, i) <= 1
    ensures forall j :: 0 <= j < |s.answers| ==>
              s.answers[j].i < |s.headers| && s.answers[j].number == s.headers[s.answers[j].i].number
    ensures |s.headers| <= TWO_TO_THE_64 ==> forall j :: 0 <= j < |s.answers| ==> s.answers[j].found
    ensures s.reader.Closed? ==> AnswersTo(s.answers, i) == 1
    ensures s.reader.Closed? && |s.headers| <= TWO_TO_THE_64 ==> s.index.pending == map[]
  {
    ReachableInv(services, s);
    assert Places(s, i) == 1;
    if s.reader.Closed? && |s.headers| <= TWO_TO_THE_64 {
      assert forall n :: n !in s.index.pending;
    }
  }

  // ------------------------------------------------------------------ stream alignment

  ghost predicate InStep(s: State) {
    var n := |s.readLog|;
    && Calls.Aligned(s.readLog)
    && (s.reader.Top? || s.reader.Inline? ==> n % 2 == 0)
    && (s.reader.Dispatching? ==> n % 2 == 1 && s.readLog[n - 1].ok)
    && (s.reader.Waiting? || s.reader.Closed? ==> n % 2 == 1 && s.readLog[n - 1] == Calls.HeaderRead(false))
  }

  lemma StepInStep(services: Services, s: State, e: Event)
    requires ReaderFits(s) && InStep(s) && Enabled(s, e)
    ensures InStep(Next(services, s, e))
  {
    hide Judge;
  }

  lemma {:induction false} RunInStep(services: Services, s: State, events: seq<Event>)
    requires Inv(s) && InStep(s) && Run(services, s, events)
    ensures InStep(After(services, s, events))
    decreases |events|
  {
    if events != [] {
      StepKeeps(services, s, events[0]);
      StepInStep(services, s, events[0]);
      RunInStep(services, Next(services, s, events[0]), events[1..]);
    }
  }

  /**
    The reading loop reads one body after each header that it read, whether the request is served
    or refused, and ends on a failed header read and on nothing else.
   */
  lemma ServeAligned(services: Services, s: State)
    requires Reachable(services, s)
    ensures Calls.Aligned(s.readLog)
    ensures s.reader.Top? ==> |s.readLog| % 2 == 0
    ensures s.reader.Closed? ==> s.readLog != [] && s.readLog[|s.readLog| - 1] == Calls.HeaderRead(false)
  {
    var events :| Run(services, INITIAL, events) && s == After(services, INITIAL, events);
    RunInStep(services, INITIAL, events);
  }

  // ------------------------------------------------------------------ what a refusal says

  /** A name without a dot. */
  lemma UnroutableRefused(
    services: Services, h: Header, pre: Option<string>, body: Option<string>, post: Option<string>)
    requires '.' !in h.name
    ensures Judge(services, h, pre, body, post) == Refuse("service/method request invalid: " + h.name)
    ensures !Serves(services, h.name)
  {
  }

  /**
    Any other name is a service and a method, parted at the last dot. What is missing or fails first
    decides: the service, the method, the hook before the body, the params, their decoding, the hook
    after the body.
   */
  lemma VerdictOf(services: Services, h: Header, service: string, entry: string,
                  pre: Option<string>, body: Option<string>, post: Option<string>)
    requires h.name == service + "." + entry && '.' !in entry
    ensures Judge(services, h, pre, body, post)
            == if service !in services then Refuse("can't find service " + h.name)
               else if entry !in services[service] then Refuse("can't find method " + h.name)
               else if pre.Some? then Refuse("pre-read-request error happened: " + pre.value)
               else if h.params.None? then Refuse("illegal argument for request params")
               else if body.Some? then Refuse(body.value)
               else if post.Some? then Refuse("post-read-request error happened: " + post.value)
               else Start(h.params.value)
    ensures Serves(services, h.name) <==> service in services && entry in services[service]
  {
    Naming.RouteRecovers(service, entry);
  }

  /**
    One body is read for a request. The read can fail only for a registered method that the hook let
    pass: when there are no params or they do not decode. Every other body is discarded.
   */
  lemma BodyReadOf(services: Services, s: State, service: string, entry: string,
                   pre: Option<string>, body: Option<string>, post: Option<string>)
    requires Enabled(s, Dispatch(pre, body, post)) && '.' !in entry
    requires var name := s.headers[|s.headers| - 1].name; name == service + "." + entry || '.' !in name
    ensures var h := s.headers[|s.headers| - 1];
            Next(services, s, Dispatch(pre, body, post)).readLog
            == s.readLog + [Calls.BodyRead('.' !in h.name || service !in services || entry !in services[service]
                                           || pre.Some? || (h.params.Some? && body.None?))]
  {
    var h := s.headers[|s.headers| - 1];
    if '.' in h.name {
      VerdictOf(services, h, service, entry, pre, body, post);
    } else {
      UnroutableRefused(services, h, pre, body, post);
    }
    hide Judge, Serves;
  }

  /** Some failures of hooks and decoder make `text` the reason for which `h` is refused. */
  ghost predicate RefusedFor(services: Services, h: Header, text: string) {
    exists pre, body, post :: Judge(services, h, pre, body, post) == Refuse(text)
  }

  /** Only requests for registered methods are served, and the others are refused for the reason given. */
  ghost predicate Judged(services: Services, s: State) {
    && (forall i :: i in s.refused ==> i < |s.headers| && RefusedFor(services, s.headers[i], s.refused[i]))
    && (forall i :: i in s.returned ==> i < |s.headers| && Serves(services, s.headers[i].name))
    && (forall i :: i in s.tasks && s.tasks[i].Running? ==> i < |s.headers| && Serves(services, s.headers[i].name))
  }

  lemma JudgedKept(services: Services, s: State, e: Event)
    requires Judged(services, s) && Enabled(s, e)
    ensures Judged(services, Next(services, s, e))
  {
    hide Judge, Serves, RefusedFor;
    if e.Dispatch? {
      var h := s.headers[|s.headers| - 1];
      var v := Judge(services, h, e.pre, e.body, e.post);
      JudgeFacts(services, h, e.pre, e.body, e.post);
      if v.Refuse? {
        RefusedNow(services, h, e.pre, e.body, e.post);
      }
    }
  }

  lemma RefusedNow(services: Services, h: Header, pre: Option<string>, body: Option<string>, post: Option<string>)
    requires Judge(services, h, pre, body, post).Refuse?
    ensures RefusedFor(services, h, Judge(services, h, pre, body, post).text)
  {
    hide Judge;
  }

  lemma {:induction false} RunJudged(services: Services, s: State, events: seq<Event>)
    requires Judged(services, s) && Run(services, s, events)
    ensures Judged(services, After(services, s, events))
    decreases |events|
  {
    hide Judged, Next, Enabled;
    if events != [] {
      JudgedKept(services, s, events[0]);
      RunJudged(services, Next(services, s, events[0]), events[1..]);
    }
  }

  lemma ReachableJudged(services: Services, s: State)
    requires Reachable(services, s)
    ensures Judged(services, s)
  {
    var events :| Run(services, INITIAL, events) && s == After(services, INITIAL, events);
    RunJudged(services, INITIAL, events);
  }

  /** What a method returns is what is written for its own request, with that request's id. */
  lemma ReturnIsAnswered(services: Services, s: State, i: nat, reply: Json, text: string)
    requires Reachable(services, s) && Enabled(s, MethodReturns(i, reply, text)) && |s.headers| <= TWO_TO_THE_64
    ensures var s' := Next(services, s, MethodReturns(i, reply, text));
            && Enabled(s', Respond(i)) && i < |s.headers|
            && ResponseTo(s', i) == Some(if text == "" then WireResponse(s.headers[i].id, reply, NoError)
                                         else WireResponse(s.headers[i].id, Null, ErrorText(text)))
  {
    ReachableInv(services, s);
    StepKeeps(services, s, MethodReturns(i, reply, text));
    RespondRemembers(Next(services, s, MethodReturns(i, reply, text)), i);
  }
}
