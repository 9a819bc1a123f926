/**
  The balancer (balancer.go): watch loops that publish the latest address list on a channel of
  capacity one, under a mutex that `Get` may leave locked. A section that runs under `mu` is one
  atomic step; a step that panics or blocks ends in a state that says so.
 */
module Balancer {
  import opened Basics
  import opened Selectors

  type Listing = seq<Address>

  /** A Go channel of capacity 1. */
  datatype Channel = Channel(buffer: seq<Listing>, closed: bool)

  /** A watch loop: in `Next`, or with updates on its way to the lock, or returned. */
  datatype Loop = InNext | Updated(updates: seq<Address>) | Exited

  /** `Held`: a Get returned or spins without unlocking. */
  datatype Mutex = Free | Held

  datatype Policy = RoundRobin | Random

  datatype Publication = Publication(channel: nat, list: Listing)

  /**
    `current` is `addrCh` as an index into `channels`; every Start makes a channel and a loop.
    `update` is what the selector was last reset to. `published` and `closes` are histories.
    `panicked` and `blocked` are what must not happen.
   */
  datatype State = State(
    mu: Mutex, done: bool, current: Option<nat>, channels: seq<Channel>, loops: seq<Loop>,
    selector: Selectors.State, update: seq<Address>, published: seq<Publication>, closes: nat,
    panicked: bool, blocked: bool)

  const INITIAL: State := State.State(Free, false, None, [], [], Selectors.FRESH, [], [], 0, false, false)

  datatype Event =
    | Start(resolves: bool)
    | Next(loop: nat, updates: Option<seq<Address>>)
    | Pass(loop: nat, list: Listing)
    | Receive(channel: nat)
    | Get(blocking: bool, random: nat)
    | PutBack(addr: string)
    | Close

  /** `list` holds every mapped address once: AddrList ranges over a Go map. */
  ghost predicate Lists(list: Listing, m: map<string, AddrInfo>) {
    && |list| == |m|
    && (forall x :: x in m ==> m[x].addr in list)
    && (forall i :: 0 <= i < |list| ==> exists x :: x in m && m[x].addr == list[i])
  }

  ghost predicate Mentions(list: seq<Address>, x: string) {
    exists a :: a in list && a.addr == x
  }

  ghost predicate Enabled(b: State, e: Event) {
    && !b.panicked && !b.blocked
    && match e
       case Start(_) => b.mu.Free?
       case Next(l, _) => l < |b.loops| && b.loops[l].InNext?
       case Pass(l, list) =>
         && b.mu.Free? && l < |b.loops| && b.loops[l].Updated?
         && Lists(list, Built(b.loops[l].updates))
       case Receive(c) => c < |b.channels| && b.channels[c].buffer != []
       case Get(_, _) => b.mu.Free?
       case PutBack(_) => true
       case Close => b.mu.Free?
  }

  function OnStart(b: State, resolves: bool): State {
    if b.done || !resolves then b
    else b.(current := Some(|b.channels|), channels := b.channels + [Channel([], false)], loops := b.loops + [InNext])
  }

  /** Drain without blocking, then send. */
  function Published(b: State, list: Listing): State {
    match b.current
    case None => b.(blocked := true)
    case Some(c) =>
      if c >= |b.channels| then b.(blocked := true)
      else
        var ch := b.channels[c];
        var drained := if ch.buffer == [] then [] else ch.buffer[1..];
        if ch.closed then b.(panicked := true)
        else if |drained| >= 1 then b.(blocked := true)
        else b.(channels := b.channels[c := ch.(buffer := drained + [list])],
                published := b.published + [Publication(c, list)])
  }

  /** The locked half of watchAddrUpdates. The selector is reset even when the balancer is closed. */
  function OnPass(b: State, l: nat, list: Listing): State
    requires l < |b.loops| && b.loops[l].Updated?
  {
    var b' := b.(selector := ResetState(b.selector, b.loops[l].updates), update := b.loops[l].updates);
    if b.done then b'.(loops := b.loops[l := Exited])
    else Published(b'.(loops := b.loops[l := InNext]), list)
  }

  /** The pick of the selector in use; `None` when Select fails or never returns. */
  function Choose(policy: Policy, s: Selectors.State, random: nat): (Option<string>, Selectors.State) {
    match policy
    case Random => RandomSelected(s, random)
    case RoundRobin =>
      var (c, s') := Selected(s);
      (if c.Picked? then Some(c.addr) else None, s')
  }

  /** Get unlocks only when it is closed or when it has picked an address. */
  function OnGet(policy: Policy, b: State, blocking: bool, random: nat): State {
    if b.done then b
    else if blocking && b.selector.addrMap == map[] then b.(mu := Held)
    else
      var (pick, s') := Choose(policy, b.selector, random);
      b.(selector := s', mu := if pick.Some? then Free else Held)
  }

  function OnClose(b: State): State {
    var b' := b.(done := true, closes := b.closes + 1);
    match b.current
    case None => b'
    case Some(c) =>
      if c >= |b.channels| then b'
      else if b.channels[c].closed then b'.(panicked := true)
      else b'.(channels := b.channels[c := b.channels[c].(closed := true)])
  }

  /** What a step returns to whoever takes it: the address of a Get, the list that a consumer reads. */
  datatype Output = Nothing | Got(addr: Option<string>) | Took(list: Listing)

  function OutputOf(policy: Policy, b: State, e: Event): Output {
    match e
    case Get(blocking, random) =>
      if b.done || (blocking && b.selector.addrMap == map[]) then Got(None)
      else Got(Choose(policy, b.selector, random).0)
    case Receive(c) =>
      if c < |b.channels| && b.channels[c].buffer != [] then Took(b.channels[c].buffer[0]) else Nothing
    case _ => Nothing
  }

  ghost function After(policy: Policy, b: State, e: Event): State
    requires Enabled(b, e)
  {
    match e
    case Start(resolves) => OnStart(b, resolves)
    case Next(l, updates) =>
      b.(loops := b.loops[l := match updates case None => Exited case Some(u) => Updated(u)])
    case Pass(l, list) => OnPass(b, l, list)
    case Receive(c) => b.(channels := b.channels[c := b.channels[c].(buffer := b.channels[c].buffer[1..])])
    case Get(blocking, random) => OnGet(policy, b, blocking, random)
    case PutBack(x) => b.(selector := PutState(b.selector, x))
    case Close => OnClose(b)
  }

  ghost predicate Run(policy: Policy, b: State, events: seq<Event>)
    decreases |events|
  {
    events == [] || (Enabled(b, events[0]) && Run(policy, After(policy, b, events[0]), events[1..]))
  }

  ghost function Final(policy: Policy, b: State, events: seq<Event>): State
    requires Run(policy, b, events)
    decreases |events|
  {
    if events == [] then b else Final(policy, After(policy, b, events[0]), events[1..])
  }

  ghost predicate Reachable(policy: Policy, b: State) {
    exists events :: Run(policy, INITIAL, events) && b == Final(policy, INITIAL, events)
  }

  // ------------------------------------------------------------------ the invariant

  /** The last list published on channel `c`. */
  function LastOn(published: seq<Publication>, c: nat): Option<Listing> {
    if published == [] then None
    else if published[|published| - 1].channel == c then Some(published[|published| - 1].list)
    else LastOn(published[..|published| - 1], c)
  }

  lemma LastAfter(published: seq<Publication>, p: Publication, c: nat)
    ensures LastOn(published + [p], c) == if p.channel == c then Some(p.list) else LastOn(published, c)
  {
    assert (published + [p])[..|published|] == published;
  }

  /** At most one value waits in a channel, and it is the last one that was published there. */
  ghost predicate Latest(b: State) {
    forall c: nat :: c < |b.channels| ==>
      b.channels[c].buffer == [] ||
      (|b.channels[c].buffer| == 1 && LastOn(b.published, c) == Some(b.channels[c].buffer[0]))
  }

  /** The current channel is closed exactly when the balancer is, and others never are. */
  ghost predicate Closing(b: State) {
    && (b.current.Some? ==> b.current.value < |b.channels|)
    && (b.current.None? ==> b.loops == [] && b.channels == [])
    && (forall c: nat :: c < |b.channels| ==> (b.channels[c].closed <==> b.done && b.current == Some(c)))
    && (b.done <==> b.closes > 0)
  }

  ghost predicate Inv(b: State) {
    && !b.blocked
    && (b.panicked ==> b.closes >= 2)
    && Latest(b)
    && (!b.panicked ==> Closing(b))
    && Shipped(b.selector) && b.selector.addrMap.Keys == Built(b.update).Keys
  }

  lemma PublishKeeps(b: State, list: Listing)
    requires !b.blocked && !b.panicked && Latest(b) && Closing(b) && b.current.Some? && !b.done
    ensures var b' := Published(b, list);
            && !b'.blocked && !b'.panicked && Latest(b') && Closing(b')
            && b'.published == b.published + [Publication(b.current.value, list)]
            && b'.channels[b.current.value].buffer == [list]
  {
    var b' := Published(b, list);
    forall c: nat | c < |b'.channels|
      ensures b'.channels[c].buffer == [] ||
              (|b'.channels[c].buffer| == 1 && LastOn(b'.published, c) == Some(b'.channels[c].buffer[0]))
    {
      LastAfter(b.published, Publication(b.current.value, list), c);
    }
  }

  lemma PassKeeps(b: State, l: nat, list: Listing)
    requires Inv(b) && Enabled(b, Pass(l, list))
    ensures Inv(OnPass(b, l, list))
    ensures !OnPass(b, l, list).panicked
  {
    ResetShipped(b.selector, b.loops[l].updates);
    if !b.done {
      PublishKeeps(b.(selector := ResetState(b.selector, b.loops[l].updates), update := b.loops[l].updates,
                      loops := b.loops[l := InNext]), list);
    }
  }

  lemma ChooseKeeps(policy: Policy, s: Selectors.State, random: nat)
    requires Shipped(s)
    ensures Shipped(Choose(policy, s, random).1) && Choose(policy, s, random).1.addrMap.Keys == s.addrMap.Keys
    ensures Choose(policy, s, random).0.Some? <==> policy.RoundRobin? && s.addrMap != map[]
  {
    SelectShipped(s);
    RandomFails(s, random);
  }

  lemma CloseKeeps(b: State)
    requires Inv(b) && Enabled(b, Close)
    ensures Inv(OnClose(b))
    ensures OnClose(b).panicked <==> b.done && b.current.Some?
  {
  }

  lemma StepKeeps(policy: Policy, b: State, e: Event)
    requires Inv(b) && Enabled(b, e)
    ensures Inv(After(policy, b, e))
    ensures After(policy, b, e).panicked <==> e.Close? && b.done && b.current.Some?
  {
    match e
    case Pass(l, list) => PassKeeps(b, l, list);
    case Get(_, random) => ChooseKeeps(policy, b.selector, random);
    case PutBack(x) => ApplyShipped(b.selector, Put(x));
    case Close => CloseKeeps(b);
    case _ =>
  }

  lemma {:induction false} RunKeeps(policy: Policy, b: State, events: seq<Event>)
    requires Inv(b) && Run(policy, b, events)
    ensures Inv(Final(policy, b, events))
    decreases |events|
  {
    hide Inv, After, Enabled;
    if events != [] {
      StepKeeps(policy, b, events[0]);
      RunKeeps(policy, After(policy, b, events[0]), events[1..]);
    }
  }

  lemma ReachableInv(policy: Policy, b: State)
    requires Reachable(policy, b)
    ensures Inv(b)
  {
    var events :| Run(policy, INITIAL, events) && b == Final(policy, INITIAL, events);
    RunKeeps(policy, INITIAL, events);
  }

  lemma Extended(policy: Policy, b: State, e: Event)
    requires Reachable(policy, b) && Enabled(b, e)
    ensures Reachable(policy, After(policy, b, e))
  {
    var events :| Run(policy, INITIAL, events) && b == Final(policy, INITIAL, events);
    Appended(policy, INITIAL, events, e);
  }

  lemma {:induction false} Appended(policy: Policy, b: State, events: seq<Event>, e: Event)
    requires Run(policy, b, events) && Enabled(Final(policy, b, events), e)
    ensures Run(policy, b, events + [e])
    ensures Final(policy, b, events + [e]) == After(policy, Final(policy, b, events), e)
    decreases |events|
  {
    hide After, Enabled;
    if events == [] {
      assert (events + [e])[1..] == [];
    } else {
      assert (events + [e])[1..] == events[1..] + [e];
      Appended(policy, After(policy, b, events[0]), events[1..], e);
    }
  }

  // ------------------------------------------------------------------ what follows

  /**
    Latest-value channel. In every run the send never blocks; a run with at most one Close never
    panics, and the only step that panics is a Close of a closed balancer that was started; and an
    unread value is always the most recently published one of its channel.
   */
  lemma LatestValue(policy: Policy, b: State)
    requires Reachable(policy, b)
    ensures !b.blocked
    ensures b.closes <= 1 ==> !b.panicked
    ensures forall c: nat :: c < |b.channels| && b.channels[c].buffer != [] ==>
              |b.channels[c].buffer| == 1 && LastOn(b.published, c) == Some(b.channels[c].buffer[0])
    ensures forall e :: Enabled(b, e) ==> (After(policy, b, e).panicked <==> e.Close? && b.done && b.current.Some?)
  {
    ReachableInv(policy, b);
    forall e | Enabled(b, e) ensures After(policy, b, e).panicked <==> e.Close? && b.done && b.current.Some? {
      StepKeeps(policy, b, e);
    }
  }

  /** What a pass through the lock changes. */
  lemma PassEffect(policy: Policy, b: State, l: nat, list: Listing)
    requires Reachable(policy, b) && !b.panicked && b.mu.Free?
    requires l < |b.loops| && b.loops[l].Updated? && Lists(list, Built(b.loops[l].updates))
    ensures Enabled(b, Pass(l, list))
    ensures var b1 := b.(selector := ResetState(b.selector, b.loops[l].updates), update := b.loops[l].updates);
            After(policy, b, Pass(l, list)) ==
              if b.done then b1.(loops := b.loops[l := Exited])
              else if b.current.None? || b.current.value >= |b.channels| then b
              else b1.(loops := b.loops[l := InNext],
                       channels := b.channels[b.current.value := Channel([list], false)],
                       published := b.published + [Publication(b.current.value, list)])
    ensures !b.done ==>
              && b.current.Some? && b.current.value < |b.channels|
              && !b.channels[b.current.value].closed && |b.channels[b.current.value].buffer| <= 1
  {
    ReachableInv(policy, b);
    if !b.done {
      PublishKeeps(b.(selector := ResetState(b.selector, b.loops[l].updates), update := b.loops[l].updates,
                      loops := b.loops[l := InNext]), list);
    }
  }

  /** A pass through the lock publishes the addresses of the update, first occurrences only, and nothing else. */
  lemma PassPublishes(policy: Policy, b: State, l: nat, list: Listing)
    requires Reachable(policy, b) && Enabled(b, Pass(l, list)) && !b.done
    ensures b.current.Some?
    ensures var b' := After(policy, b, Pass(l, list));
            && b'.published == b.published + [Publication(b.current.value, list)]
            && b'.channels[b.current.value].buffer == [list]
            && b'.loops[l] == InNext
            && (forall x :: Mentions(list, x) <==> FirstWeight(b.loops[l].updates, x) > 0)
  {
    ReachableInv(policy, b);
    var b1 := b.(selector := ResetState(b.selector, b.loops[l].updates), update := b.loops[l].updates,
                 loops := b.loops[l := InNext]);
    PublishKeeps(b1, list);
    var m := Built(b.loops[l].updates);
    forall x ensures Mentions(list, x) <==> FirstWeight(b.loops[l].updates, x) > 0 {
      ExpansionCount(b.loops[l].updates, x);
      if a :| a in list && a.addr == x {
        var i :| 0 <= i < |list| && list[i] == a;
        var y :| y in m && m[y].addr == list[i];
        ExpansionCount(b.loops[l].updates, y);
      }
      if x in m {
        assert m[x].addr in list;
      }
    }
  }

  /** Nothing is published once the balancer is closed, and a loop exits at its next pass through the lock. */
  lemma {:induction false} QuietAfterClose(policy: Policy, b: State, events: seq<Event>)
    requires b.done && Run(policy, b, events)
    ensures Final(policy, b, events).published == b.published && Final(policy, b, events).done
    ensures forall l: nat, list :: Enabled(b, Pass(l, list)) ==> After(policy, b, Pass(l, list)).loops[l] == Exited
    decreases |events|
  {
    if events != [] {
      QuietAfterClose(policy, After(policy, b, events[0]), events[1..]);
    }
  }

  /** Once Get has kept the lock, it is kept for ever: the list is frozen and Close cannot run. */
  lemma {:induction false} HeldForEver(policy: Policy, b: State, events: seq<Event>)
    requires b.mu.Held? && Run(policy, b, events)
    ensures var b' := Final(policy, b, events);
            && b'.mu.Held? && b'.done == b.done && b'.published == b.published
            && b'.selector.addrs == b.selector.addrs && b'.selector.next == b.selector.next
    decreases |events|
  {
    if events != [] {
      HeldForEver(policy, After(policy, b, events[0]), events[1..]);
    }
  }

  /**
    When Get keeps the lock, as shipped, whether it blocks for a list or not: with the default
    random selector always, since nothing is ever connected; with round robin exactly when
    AddrList would return an empty list. These are the Gets that return no address, but for those of
    a closed balancer, which change nothing.
   */
  lemma GetKeepsLock(policy: Policy, b: State, blocking: bool, random: nat)
    requires Reachable(policy, b) && Enabled(b, Get(blocking, random))
    ensures After(policy, b, Get(blocking, random)).mu.Held? <==>
              !b.done && (policy.Random? || b.selector.addrMap == map[])
    ensures OutputOf(policy, b, Get(blocking, random)) == Got(None) <==>
              b.done || After(policy, b, Get(blocking, random)).mu.Held?
    ensures b.done ==> After(policy, b, Get(blocking, random)) == b
  {
    ReachableInv(policy, b);
    ChooseKeeps(policy, b.selector, random);
  }

  /** `x` is a good answer to a Get that took the balancer from `b` to `b'`. */
  ghost predicate GoodPick(b: State, b': State, x: string) {
    && b.selector.addrs != [] && x == b.selector.addrs[|b.selector.addrs| - 1]
    && FirstWeight(b.update, x) > 0
    && OneMore(b.selector.addrMap, b'.selector.addrMap, x)
    && b' == b.(selector := b.selector.(addrMap := b'.selector.addrMap))
  }

  /**
    What Get returns, as shipped: an address of the last update, the last entry of the list, whose
    load goes up by one; nothing else changes.
   */
  lemma GetPicks(policy: Policy, b: State, blocking: bool, random: nat, x: string)
    requires Reachable(policy, b) && Enabled(b, Get(blocking, random))
    requires OutputOf(policy, b, Get(blocking, random)) == Got(Some(x))
    ensures policy.RoundRobin? && !b.done && GoodPick(b, After(policy, b, Get(blocking, random)), x)
  {
    ReachableInv(policy, b);
    ChooseKeeps(policy, b.selector, random);
    SelectShipped(b.selector);
    PickLoads(b.selector, random, x);
    ExpansionCount(b.update, x);
  }

  /** What the `put` function does: the load of its address goes down by one, modulo 2^64, and nothing else changes. */
  lemma PutLowersLoad(policy: Policy, b: State, x: string)
    requires Enabled(b, PutBack(x))
    ensures var b' := After(policy, b, PutBack(x));
            && b' == b.(selector := b.selector.(addrMap := b'.selector.addrMap))
            && (x !in b.selector.addrMap ==> b' == b)
            && (x in b.selector.addrMap ==>
                  && b'.selector.addrMap == b.selector.addrMap[x := b'.selector.addrMap[x]]
                  && b'.selector.addrMap[x] == b.selector.addrMap[x].(load := b'.selector.addrMap[x].load)
                  && b.selector.addrMap[x].load % TWO_TO_THE_64
                     == (b'.selector.addrMap[x].load + 1) % TWO_TO_THE_64)
  {
  }

  /** A consumer reads the list that was published last on its channel. */
  lemma ConsumerReadsLatest(policy: Policy, b: State, c: nat)
    requires Reachable(policy, b) && Enabled(b, Receive(c))
    ensures LastOn(b.published, c).Some?
    ensures OutputOf(policy, b, Receive(c)) == Took(LastOn(b.published, c).value)
    ensures After(policy, b, Receive(c)).channels[c].buffer == []
  {
    ReachableInv(policy, b);
  }

  /** Start opens a new channel, which becomes the current one, and sets a loop going; or it does nothing at all. */
  lemma StartOpens(policy: Policy, b: State, resolves: bool)
    requires Enabled(b, Start(resolves))
    ensures var b' := After(policy, b, Start(resolves));
            if b.done || !resolves then b' == b
            else
              && b'.current == Some(|b.channels|)
              && b'.channels == b.channels + [Channel([], false)] && b'.loops == b.loops + [InNext]
              && b' == b.(current := b'.current, channels := b'.channels, loops := b'.loops)
  {
  }

  /**
    What the watcher returns is what is published: the selector is reset to those updates, and the
    list holds their addresses and no others. A loop whose watcher fails exits.
   */
  lemma UpdateArrives(policy: Policy, b: State, l: nat, updates: seq<Address>, list: Listing)
    requires Reachable(policy, b) && Enabled(b, Next(l, Some(updates))) && b.mu.Free? && !b.done
    requires Lists(list, Built(updates))
    ensures After(policy, b, Next(l, None)).loops[l] == Exited
    ensures var b1 := After(policy, b, Next(l, Some(updates)));
            && Enabled(b1, Pass(l, list))
            && var b2 := After(policy, b1, Pass(l, list));
               && b2.update == updates && b2.selector == ResetState(b.selector, updates)
               && b2.current == b.current && b.current.Some?
               && b2.published == b.published + [Publication(b.current.value, list)]
               && (forall x :: Mentions(list, x) <==> Mentions(updates, x))
  {
    var b1 := After(policy, b, Next(l, Some(updates)));
    Extended(policy, b, Next(l, Some(updates)));
    PassPublishes(policy, b1, l, list);
    PassEffect(policy, b1, l, list);
    hide Reachable, After, Enabled, Lists, Mentions;
    forall x ensures FirstWeight(updates, x) > 0 <==> Mentions(updates, x) {
      WeightedMeansListed(updates, x);
    }
  }

  lemma {:induction false} WeightedMeansListed(updates: seq<Address>, x: string)
    ensures FirstWeight(updates, x) > 0 <==> Mentions(updates, x)
  {
    if updates != [] {
      WeightedMeansListed(updates[1..], x);
      assert updates == [updates[0]] + updates[1..];
      assert updates[0] in updates;
    }
  }

  // ------------------------------------------------------------------ the objects

  class AddrChannel {
    var buffer: seq<Listing>
    var closed: bool

    constructor ()
      ensures View() == Channel([], false)
    {
      buffer, closed := [], false;
    }

    ghost function View(): Channel
      reads this
    {
      Channel(buffer, closed)
    }

    /** A receive that does not block. */
    method Drain()
      modifies this`buffer
      ensures buffer == if old(buffer) == [] then [] else old(buffer)[1..]
    {
      if buffer != [] {
        buffer := buffer[1..];
      }
    }

    /** A send on a channel of capacity 1: it neither panics nor blocks under these conditions. */
    method Send(list: Listing)
      requires !closed && buffer == []
      modifies this`buffer
      ensures buffer == [list]
    {
      buffer := [list];
    }

    /** Whatever was unread is replaced. */
    method Replace(list: Listing)
      requires !closed && |buffer| <= 1
      modifies this`buffer
      ensures buffer == [list]
    {
      Drain();
      Send(list);
    }
  }

  /**
    A balancer with its selector and its channels on the heap. `channels` are those that consumers
    may still read, `loops` the watch goroutines; `b` is the state of the machine above that the
    object is in. Each method is a section that runs under `mu`, and keeps the object in step.
   */
  class BalancerObject {
    const policy: Policy
    const base: BaseSelector
    const roundRobin: RoundRobinSelector
    const random: RandomSelector
    var mu: Mutex
    var done: bool
    var crashed: bool
    var addrCh: AddrChannel?
    var channels: seq<AddrChannel>
    var loops: seq<Loop>
    ghost var b: State

    ghost predicate ChannelsFit()
      reads this, channels
    {
      && |channels| == |b.channels|
      && (forall c :: 0 <= c < |channels| ==> channels[c].View() == b.channels[c])
      && (forall c, c' :: 0 <= c < c' < |channels| ==> channels[c] != channels[c'])
      && (b.current.None? ==> addrCh == null)
      && (b.current.Some? ==> b.current.value < |channels| && addrCh == channels[b.current.value])
    }

    ghost predicate Valid()
      reads this, base, roundRobin, channels
    {
      && roundRobin.base == base && random.base == base
      && Reachable(policy, b)
      && mu == b.mu && done == b.done && crashed == b.panicked && loops == b.loops
      && b.selector == Selectors.State(base.addrs, base.addrMap, roundRobin.next)
      && ChannelsFit()
    }

    constructor (policy: Policy)
      ensures Valid() && this.policy == policy && b == INITIAL && fresh(base) && fresh(roundRobin)
    {
      this.policy := policy;
      var shared := new BaseSelector();
      base := shared;
      roundRobin := new RoundRobinSelector(shared);
      random := new RandomSelector(shared);
      mu, done, crashed, addrCh, channels, loops := Free, false, false, null, [], [];
      b := INITIAL;
      new;
      assert Run(policy, INITIAL, []) && Final(policy, INITIAL, []) == INITIAL;
    }

    /** A new channel and a watch loop; the old channel, if any, is abandoned. */
    method StartWatching(resolves: bool)
      requires Valid() && Enabled(b, Start(resolves))
      modifies this
      ensures Valid() && b == After(policy, old(b), Start(resolves))
      ensures forall i :: 0 <= i < |channels| ==> channels[i] in old(channels) || fresh(channels[i])
    {
      Extended(policy, b, Start(resolves));
      b := After(policy, b, Start(resolves));
      if !done && resolves {
        addrCh := new AddrChannel();
        channels := channels + [addrCh];
        loops := loops + [InNext];
      }
    }

    /** `Next` of the watcher returns in loop `l`, without the lock. */
    method NextReturns(l: nat, updates: Option<seq<Address>>)
      requires Valid() && Enabled(b, Next(l, updates))
      modifies this`loops, this`b
      ensures Valid() && b == After(policy, old(b), Next(l, updates))
    {
      Extended(policy, b, Next(l, updates));
      b := After(policy, b, Next(l, updates));
      loops := loops[l := match updates case None => Exited case Some(u) => Updated(u)];
    }

    /** The locked half of watchAddrUpdates. */
    method WatchPass(l: nat) returns (list: Listing)
      requires Valid() && !crashed && mu.Free? && l < |loops| && loops[l].Updated?
      modifies this`loops, this`b, base, channels
      ensures Valid() && Enabled(old(b), Pass(l, list)) && b == After(policy, old(b), Pass(l, list))
    {
      hide Reachable, After, Built, Expanded, Lists;
      var updates := loops[l].updates;
      list := Relist(updates);
      PassEffect(policy, b, l, list);
      Extended(policy, b, Pass(l, list));
      b := After(policy, b, Pass(l, list));
      if done {
        loops := loops[l := Exited];
      } else {
        addrCh.Replace(list);
        loops := loops[l := InNext];
      }
    }

    method Relist(updates: seq<Address>) returns (list: Listing)
      modifies base
      ensures base.addrMap == Built(updates) && base.addrs == old(base.addrs) + Expanded(updates)
      ensures Lists(list, Built(updates))
    {
      base.Reset(updates);
      list := base.AddrList();
    }

    /** A consumer reads from a channel that it was given. */
    method Consume(c: nat) returns (list: Listing)
      requires Valid() && Enabled(b, Receive(c))
      modifies this`b, channels
      ensures Valid() && b == After(policy, old(b), Receive(c))
      ensures Took(list) == OutputOf(policy, old(b), Receive(c))
    {
      Extended(policy, b, Receive(c));
      list := channels[c].buffer[0];
      b := After(policy, b, Receive(c));
      channels[c].Drain();
    }

    /** `None`: closed, or an error, or a Get that never returns; in the last two cases `mu` stays locked. */
    method Get(blocking: bool, r: nat) returns (addr: Option<string>)
      requires Valid() && Enabled(b, Event.Get(blocking, r))
      modifies this`mu, this`b, base, roundRobin
      ensures Valid() && b == After(policy, old(b), Event.Get(blocking, r))
      ensures Got(addr) == OutputOf(policy, old(b), Event.Get(blocking, r))
    {
      hide Reachable, Choose;
      Extended(policy, b, Event.Get(blocking, r));
      b := After(policy, b, Event.Get(blocking, r));
      if done {
        return None;
      }
      if blocking {
        var list := base.AddrList();
        assert |base.addrMap| == 0 <==> base.addrMap == map[];
        if |list| == 0 {
          mu := Held;
          return None;
        }
      }
      addr := Pick(r);
      mu := if addr.Some? then Free else Held;
    }

    /** `Select` of the selector in use. */
    method Pick(r: nat) returns (addr: Option<string>)
      requires roundRobin.base == base && random.base == base
      modifies base`addrMap, roundRobin`next
      ensures (addr, Selectors.State(base.addrs, base.addrMap, roundRobin.next))
              == Choose(policy, old(Selectors.State(base.addrs, base.addrMap, roundRobin.next)), r)
    {
      if policy.Random? {
        addr := random.Select(r);
      } else {
        var c := roundRobin.Select();
        addr := if c.Picked? then Some(c.addr) else None;
      }
    }

    /** The `put` function that Get returns; it does not take the lock. */
    method PutBack(x: string)
      requires Valid() && Enabled(b, Event.PutBack(x))
      modifies this`b, base
      ensures Valid() && b == After(policy, old(b), Event.PutBack(x))
    {
      Extended(policy, b, Event.PutBack(x));
      b := After(policy, b, Event.PutBack(x));
      base.Put(x);
    }

    /** Closing a channel that is closed panics. */
    method Close()
      requires Valid() && Enabled(b, Event.Close)
      modifies this, channels
      ensures Valid() && b == After(policy, old(b), Event.Close) && channels == old(channels)
    {
      Extended(policy, b, Event.Close);
      b := After(policy, b, Event.Close);
      done := true;
      if addrCh != null {
        if addrCh.closed {
          crashed := true;
        } else {
          addrCh.closed := true;
        }
      }
    }
  }

  // ------------------------------------------------------------------ whole runs of the objects

  /** A step that a scheduler can ask for. The list of a Pass is whatever AddrList returns. */
  ghost predicate Ready(b: State, e: Event) {
    if e.Pass? then !b.panicked && b.mu.Free? && e.loop < |b.loops| && b.loops[e.loop].Updated?
    else Enabled(b, e)
  }

  /** `b'` is a state of the machine after step `e`; a step that cannot be taken changes nothing. */
  ghost predicate MayStep(policy: Policy, b: State, e: Event, b': State) {
    if !Ready(b, e) then b' == b
    else if e.Pass? then exists list :: Enabled(b, Pass(e.loop, list)) && b' == After(policy, b, Pass(e.loop, list))
    else b' == After(policy, b, e)
  }

  /** The states that a schedule leads through. */
  ghost predicate Traces(policy: Policy, trace: seq<State>, schedule: seq<Event>) {
    && |trace| == |schedule| + 1
    && (forall n :: 0 <= n < |schedule| ==> MayStep(policy, trace[n], schedule[n], trace[n + 1]))
  }

  /**
    Any schedule of starts, updates, passes, reads, Gets, Puts and Closes on the objects is a run of
    the machine; so the sends never block or hit a closed channel, and afterwards an unread list is
    the one that was published last on its channel. Each Get that returns an address returns a good
    one, and each consumer reads the latest list.
   */
  method Drive(o: BalancerObject, schedule: seq<Event>) returns (outputs: seq<Output>, ghost trace: seq<State>)
    requires o.Valid()
    modifies o, o.base, o.roundRobin, o.channels
    ensures o.Valid() && Traces(o.policy, trace, schedule) && trace[0] == old(o.b) && trace[|schedule|] == o.b
    ensures forall c: nat :: c < |o.channels| && o.channels[c].buffer != [] ==>
              |o.channels[c].buffer| == 1 && LastOn(o.b.published, c) == Some(o.channels[c].buffer[0])
    ensures o.addrCh != null && !o.crashed ==> (o.addrCh.closed <==> o.done)
    ensures o.crashed ==> o.b.closes >= 2
    ensures |outputs| == |schedule|
    ensures forall n :: 0 <= n < |schedule| ==> GoodOutput(trace[n], schedule[n], outputs[n], trace[n + 1])
  {
    hide Reachable, MayStep, GoodOutput;
    outputs, trace := [], [o.b];
    for n := 0 to |schedule|
      invariant o.Valid() && Traces(o.policy, trace, schedule[..n]) && trace[0] == old(o.b) && trace[n] == o.b
      invariant |outputs| == n
      invariant forall m :: 0 <= m < n ==> GoodOutput(trace[m], schedule[m], outputs[m], trace[m + 1])
      invariant forall i :: 0 <= i < |o.channels| ==> o.channels[i] in old(o.channels) || fresh(o.channels[i])
    {
      var output := Take(o, schedule[n]);
      outputs, trace := outputs + [output], trace + [o.b];
    }
    assert schedule[..|schedule|] == schedule;
    Shown(o);
  }

  lemma Shown(o: BalancerObject)
    requires o.Valid()
    ensures forall c: nat :: c < |o.channels| && o.channels[c].buffer != [] ==>
              |o.channels[c].buffer| == 1 && LastOn(o.b.published, c) == Some(o.channels[c].buffer[0])
    ensures o.addrCh != null && !o.crashed ==> (o.addrCh.closed <==> o.done)
    ensures o.crashed ==> o.b.closes >= 2
  {
    ReachableInv(o.policy, o.b);
    assert forall c :: 0 <= c < |o.channels| ==> o.channels[c].View() == o.b.channels[c];
  }

  /** What a step that was asked for in state `b` may return. */
  ghost predicate GoodOutput(b: State, e: Event, output: Output, b': State) {
    match output
    case Nothing => e.Get? || e.Receive? ==> !Ready(b, e)
    case Got(addr) =>
      && e.Get? && Ready(b, e)
      && (addr.None? <==> b.done || b'.mu.Held?)
      && (addr.Some? ==> GoodPick(b, b', addr.value))
    case Took(list) => e.Receive? && Ready(b, e) && LastOn(b.published, e.channel) == Some(list)
  }

  method Take(o: BalancerObject, e: Event) returns (output: Output)
    requires o.Valid()
    modifies o, o.base, o.roundRobin, o.channels
    ensures o.Valid() && MayStep(o.policy, old(o.b), e, o.b)
    ensures GoodOutput(old(o.b), e, output, o.b)
    ensures forall i :: 0 <= i < |o.channels| ==> o.channels[i] in old(o.channels) || fresh(o.channels[i])
  {
    hide Reachable, After;
    ReachableInv(o.policy, o.b);
    output := Nothing;
    if o.crashed {
      return;
    }
    match e {
      case Start(resolves) => if o.mu.Free? { o.StartWatching(resolves); }
      case Next(l, updates) => if l < |o.loops| && o.loops[l].InNext? { o.NextReturns(l, updates); }
      case Pass(l, _) =>
        if o.mu.Free? && l < |o.loops| && o.loops[l].Updated? {
          var list := o.WatchPass(l);
        }
      case Receive(c) =>
        if c < |o.channels| && o.channels[c].buffer != [] {
          ConsumerReadsLatest(o.policy, o.b, c);
          var list := o.Consume(c);
          output := Took(list);
        }
      case Get(_, _) => output := TakeGet(o, e);
      case PutBack(x) => o.PutBack(x);
      case Close => if o.mu.Free? { o.Close(); }
    }
  }

  method TakeGet(o: BalancerObject, e: Event) returns (output: Output)
    requires o.Valid() && !o.crashed && e.Get?
    modifies o`mu, o`b, o.base, o.roundRobin
    ensures o.Valid() && MayStep(o.policy, old(o.b), e, o.b)
    ensures GoodOutput(old(o.b), e, output, o.b)
  {
    ReachableInv(o.policy, o.b);
    hide Reachable, After, GoodPick;
    output := Nothing;
    if o.mu.Free? {
      ghost var b := o.b;
      assert Enabled(b, e);
      GetAnswers(o.policy, b, e.blocking, e.random);
      var addr := o.Get(e.blocking, e.random);
      output := Got(addr);
    }
  }

  lemma GetAnswers(policy: Policy, b: State, blocking: bool, random: nat)
    requires Reachable(policy, b) && Enabled(b, Get(blocking, random))
    ensures var b' := After(policy, b, Get(blocking, random));
            var output := OutputOf(policy, b, Get(blocking, random));
            && output.Got? && (output.addr.None? <==> b.done || b'.mu.Held?)
            && (output.addr.Some? ==> GoodPick(b, b', output.addr.value))
  {
    var output := OutputOf(policy, b, Get(blocking, random));
    GetKeepsLock(policy, b, blocking, random);
    if output.addr.Some? {
      GetPicks(policy, b, blocking, random, output.addr.value);
    }
  }
}
