/**
  The address selectors: weight expansion and load counters (selector.go), the round-robin scan
  (selector_rr.go) and the random scan (selector_random.go).
 */
module Selectors {
  import opened Basics

  datatype Address = Address(addr: string, metadata: Option<map<string, string>>)

  /** `load` is a Go uint64. Nothing in the source sets `connected`; it is an arbitrary flag here. */
  datatype AddrInfo = AddrInfo(addr: Address, weight: nat, load: nat, connected: bool)

  // ------------------------------------------------------------------ Reset

  function Digits(s: string): Option<nat> {
    if s == "" then None
    else
      var c := s[|s| - 1];
      if !('0' <= c <= '9') then None
      else if |s| == 1 then Some(c as nat - '0' as nat)
      else match Digits(s[..|s| - 1])
           case None => None
           case Some(n) => Some(10 * n + (c as nat - '0' as nat))
  }

  /** strconv.Atoi, as far as positive results matter: `None` stands for an error or a result below 1. */
  function PositiveAtoi(s: string): Option<nat> {
    match Digits(if s != "" && s[0] == '+' then s[1..] else s)
    case Some(n) => if 0 < n < 0x8000_0000_0000_0000 then Some(n) else None
    case None => None
  }

  /** A positive number under `key` in the metadata, or the default. */
  function Setting(a: Address, key: string, default: nat): nat {
    if a.metadata.Some? && key in a.metadata.value then
      match PositiveAtoi(a.metadata.value[key]) case Some(n) => n case None => default
    else default
  }

  function Weight(a: Address): (w: nat)
    ensures w >= 1
  {
    Setting(a, "weight", 1)
  }

  function Info(a: Address): AddrInfo {
    AddrInfo(a, Weight(a), Setting(a, "load", 0), false)
  }

  function Repeat(x: string, n: nat): seq<string> {
    if n == 0 then [] else Repeat(x, n - 1) + [x]
  }

  /** The map and the list entries that one Reset makes of its argument. */
  function Built(input: seq<Address>): map<string, AddrInfo> {
    if input == [] then map[]
    else
      var m, a := Built(input[..|input| - 1]), input[|input| - 1];
      if a.addr in m then m else m[a.addr := Info(a)]
  }

  function Expanded(input: seq<Address>): seq<string> {
    if input == [] then []
    else
      var front, a := input[..|input| - 1], input[|input| - 1];
      Expanded(front) + if a.addr in Built(front) then [] else Repeat(a.addr, Weight(a))
  }

  /** The weight of the first occurrence of `x` in `input`, 0 when there is none. */
  function FirstWeight(input: seq<Address>, x: string): nat {
    if input == [] then 0
    else if input[0].addr == x then Weight(input[0])
    else FirstWeight(input[1..], x)
  }

  lemma {:induction false} RepeatCount(x: string, n: nat, y: string)
    ensures multiset(Repeat(x, n))[y] == if x == y then n else 0
  {
    if n > 0 {
      RepeatCount(x, n - 1, y);
    }
  }

  lemma {:induction false} FirstWeightSnoc(front: seq<Address>, a: Address, x: string)
    ensures FirstWeight(front + [a], x)
            == if FirstWeight(front, x) > 0 then FirstWeight(front, x) else if a.addr == x then Weight(a) else 0
  {
    if front == [] {
      assert (front + [a])[1..] == [];
    } else {
      assert (front + [a])[1..] == front[1..] + [a];
      FirstWeightSnoc(front[1..], a, x);
    }
  }

  /** One Reset lists an address as often as the weight of its first occurrence, and maps it to that. */
  lemma {:induction false} ExpansionCount(input: seq<Address>, x: string)
    ensures multiset(Expanded(input))[x] == FirstWeight(input, x)
    ensures x in Built(input) <==> FirstWeight(input, x) > 0
    ensures x in Built(input) ==>
              && Built(input)[x].addr.addr == x && Built(input)[x].weight == FirstWeight(input, x)
              && !Built(input)[x].connected
  {
    if input != [] {
      var front, a := input[..|input| - 1], input[|input| - 1];
      assert input == front + [a];
      ExpansionCount(front, x);
      ExpansionCount(front, a.addr);
      FirstWeightSnoc(front, a, x);
      RepeatCount(a.addr, Weight(a), x);
    }
  }

  // ------------------------------------------------------------------ weights and loads as written

  /** `n` in decimal. */
  function Decimal(n: nat): (s: string)
    ensures s != ""
  {
    if n < 10 then [('0' as nat + n) as char] else Decimal(n / 10) + [('0' as nat + n % 10) as char]
  }

  function Zeros(z: nat): string {
    seq(z, _ => '0')
  }

  /** How Go lets a positive number be written: a plus sign or none, zeros or none, the number. */
  ghost predicate Writes(s: string, n: nat) {
    exists z: nat :: s == Zeros(z) + Decimal(n) || s == "+" + (Zeros(z) + Decimal(n))
  }

  lemma {:induction false} DigitsOfDecimal(z: nat, n: nat)
    ensures Digits(Zeros(z) + Decimal(n)) == Some(n)
    decreases n, z
  {
    var front := if n < 10 then Zeros(z) else Zeros(z) + Decimal(n / 10);
    var c := ('0' as nat + n % 10) as char;
    assert Zeros(z) + Decimal(n) == front + [c];
    if n >= 10 {
      DigitsOfDecimal(z, n / 10);
      hide Decimal, Zeros;
      DigitsSnoc(front, c);
    } else if z > 0 {
      DigitsOfZeros(z);
      DigitsSnoc(front, c);
    }
  }

  /** One more digit. */
  lemma DigitsSnoc(front: string, c: char)
    requires front != "" && '0' <= c <= '9' && Digits(front).Some?
    ensures Digits(front + [c]) == Some(10 * Digits(front).value + (c as nat - '0' as nat))
  {
    assert (front + [c])[..|front|] == front;
  }

  lemma {:induction false} DigitsOfZeros(z: nat)
    requires z > 0
    ensures Digits(Zeros(z)) == Some(0)
  {
    assert Zeros(z)[..z - 1] == Zeros(z - 1);
    if z > 1 {
      DigitsOfZeros(z - 1);
    }
  }

  /** Whatever reads as `n` is `n` in decimal, perhaps after zeros. */
  lemma {:induction false} DigitsAreDecimal(s: string) returns (z: nat)
    requires Digits(s).Some?
    ensures s == Zeros(z) + Decimal(Digits(s).value)
    decreases |s|
  {
    var front, c := s[..|s| - 1], s[|s| - 1];
    assert s == front + [c];
    var d := c as nat - '0' as nat;
    if |s| == 1 {
      z := 0;
    } else {
      var m := Digits(front).value;
      var y := DigitsAreDecimal(front);
      if m == 0 {
        z := y + 1;
        assert front == Zeros(y) + "0";
        assert Zeros(z) == front;
      } else {
        z := y;
        assert (10 * m + d) / 10 == m && (10 * m + d) % 10 == d;
      }
    }
  }

  lemma {:induction false} DecimalIsDigits(n: nat)
    ensures '0' <= Decimal(n)[0] <= '9'
  {
    if n >= 10 {
      DecimalIsDigits(n / 10);
    }
  }

  lemma NoSign(z: nat, n: nat)
    ensures (Zeros(z) + Decimal(n))[0] != '+'
  {
    DecimalIsDigits(n);
  }

  /** Atoi reads exactly the positive numbers below 2^63 that are written so. */
  lemma AtoiExact(s: string, n: nat)
    ensures PositiveAtoi(s) == Some(n) <==> 0 < n < 0x8000_0000_0000_0000 && Writes(s, n)
  {
    hide Digits, Decimal, Zeros;
    var bare := if s != "" && s[0] == '+' then s[1..] else s;
    if PositiveAtoi(s) == Some(n) {
      var z := DigitsAreDecimal(bare);
      assert s == bare || s == "+" + bare;
    }
    if Writes(s, n) {
      var z: nat :| s == Zeros(z) + Decimal(n) || s == "+" + (Zeros(z) + Decimal(n));
      NoSign(z, n);
      DigitsOfDecimal(z, n);
      assert s != Zeros(z) + Decimal(n) ==> s[1..] == Zeros(z) + Decimal(n);
    }
  }

  /** The metadata of `a` have an entry under `key` that writes a positive number: `n`. */
  ghost predicate Says(a: Address, key: string, n: nat) {
    && 0 < n < 0x8000_0000_0000_0000
    && a.metadata.Some? && key in a.metadata.value && Writes(a.metadata.value[key], n)
  }

  /** The weight is what the entry "weight" says, and 1 when it says nothing; the load is what "load" says, or 0. */
  lemma WeightAndLoad(a: Address, n: nat)
    ensures Weight(a) == n <==> Says(a, "weight", n) || (n == 1 && forall m :: !Says(a, "weight", m))
    ensures Info(a).load == n <==> Says(a, "load", n) || (n == 0 && forall m :: !Says(a, "load", m))
  {
    SettingExact(a, "weight", 1, n);
    SettingExact(a, "load", 0, n);
  }

  lemma SettingExact(a: Address, key: string, default: nat, n: nat)
    ensures Setting(a, key, default) == n <==> Says(a, key, n) || (n == default && forall m :: !Says(a, key, m))
  {
    if a.metadata.Some? && key in a.metadata.value {
      var s := a.metadata.value[key];
      hide PositiveAtoi, Writes;
      forall m: nat ensures PositiveAtoi(s) == Some(m) <==> Says(a, key, m) {
        AtoiExact(s, m);
      }
      if PositiveAtoi(s).Some? {
        assert Says(a, key, PositiveAtoi(s).value);
      }
    }
  }

  /**
    What one Reset does with an address that first occurs at `i`: it is listed as often as its
    weight entry says, and mapped to that very entry with the weight and the load that it says.
   */
  lemma ListedAsWritten(input: seq<Address>, i: nat)
    requires i < |input| && forall k :: 0 <= k < i ==> input[k].addr != input[i].addr
    ensures var a := input[i];
            && a.addr in Built(input) && Built(input)[a.addr] == AddrInfo(a, Weight(a), Info(a).load, false)
            && multiset(Expanded(input))[a.addr] == Weight(a)
    ensures forall n :: Says(input[i], "weight", n) ==> multiset(Expanded(input))[input[i].addr] == n
    ensures (forall n :: !Says(input[i], "weight", n)) ==> multiset(Expanded(input))[input[i].addr] == 1
    ensures forall n :: Says(input[i], "load", n) ==> Built(input)[input[i].addr].load == n
    ensures (forall n :: !Says(input[i], "load", n)) ==> Built(input)[input[i].addr].load == 0
  {
    hide Says;
    var a := input[i];
    FirstOccurrence(input, i);
    ExpansionCount(input, a.addr);
    WeightAndLoad(a, Weight(a));
    WeightAndLoad(a, Info(a).load);
    WeightAndLoad(a, 1);
    WeightAndLoad(a, 0);
    forall n | Says(a, "weight", n) ensures Weight(a) == n {
      WeightAndLoad(a, n);
    }
    forall n | Says(a, "load", n) ensures Info(a).load == n {
      WeightAndLoad(a, n);
    }
  }

  lemma {:induction false} FirstOccurrence(input: seq<Address>, i: nat)
    requires i < |input| && forall k :: 0 <= k < i ==> input[k].addr != input[i].addr
    ensures input[i].addr in Built(input) && Built(input)[input[i].addr] == Info(input[i])
    ensures FirstWeight(input, input[i].addr) == Weight(input[i])
  {
    FirstWeightAt(input, i);
    if i < |input| - 1 {
      FirstOccurrence(input[..|input| - 1], i);
    } else {
      ExpansionCount(input[..i], input[i].addr);
      NotBefore(input[..i], input[i].addr);
    }
  }

  lemma {:induction false} FirstWeightAt(input: seq<Address>, i: nat)
    requires i < |input| && forall k :: 0 <= k < i ==> input[k].addr != input[i].addr
    ensures FirstWeight(input, input[i].addr) == Weight(input[i])
  {
    if i > 0 {
      assert input[0].addr != input[i].addr;
      assert forall k :: 0 <= k < i - 1 ==> input[1..][k] == input[k + 1];
      FirstWeightAt(input[1..], i - 1);
    }
  }

  lemma {:induction false} NotBefore(input: seq<Address>, x: string)
    requires forall k :: 0 <= k < |input| ==> input[k].addr != x
    ensures FirstWeight(input, x) == 0
  {
    if input != [] {
      NotBefore(input[1..], x);
    }
  }

  // ------------------------------------------------------------------ the selector as a value

  datatype State = State(addrs: seq<string>, addrMap: map<string, AddrInfo>, next: nat)

  const FRESH: State := State([], map[], 0)

  function ResetState(s: State, input: seq<Address>): State {
    s.(addrs := s.addrs + Expanded(input), addrMap := Built(input))
  }

  /** `Reset` called with each of `inputs`; `addrs` is never cleared. */
  function ResetAll(s: State, inputs: seq<seq<Address>>): State {
    if inputs == [] then s
    else ResetState(ResetAll(s, inputs[..|inputs| - 1]), inputs[|inputs| - 1])
  }

  function SumOfWeights(inputs: seq<seq<Address>>, x: string): nat {
    if inputs == [] then 0
    else SumOfWeights(inputs[..|inputs| - 1], x) + FirstWeight(inputs[|inputs| - 1], x)
  }

  /** After any sequence of Resets the list keeps the entries of all of them; the map only the last. */
  lemma {:induction false} CountAfterResets(s: State, inputs: seq<seq<Address>>, x: string)
    ensures multiset(ResetAll(s, inputs).addrs)[x] == multiset(s.addrs)[x] + SumOfWeights(inputs, x)
    ensures inputs != [] ==> (x in ResetAll(s, inputs).addrMap <==> FirstWeight(inputs[|inputs| - 1], x) > 0)
  {
    if inputs != [] {
      CountAfterResets(s, inputs[..|inputs| - 1], x);
      ExpansionCount(inputs[|inputs| - 1], x);
    }
  }

  // ------------------------------------------------------------------ the round-robin scan

  predicate Connected(s: State, i: nat)
    requires i < |s.addrs|
  {
    s.addrs[i] in s.addrMap && s.addrMap[s.addrs[i]].connected
  }

  function Succ(i: nat, n: nat): nat {
    if i + 1 >= n then 0 else i + 1
  }

  /** `next` is reset when the list is shorter than it. */
  function Start(s: State): nat {
    if s.next >= |s.addrs| then 0 else s.next
  }

  /** The index that iteration `k` of the loop looks at. */
  function Pos(s: State, k: nat): (i: nat)
    requires s.addrs != []
    ensures i < |s.addrs|
  {
    if k == 0 then Start(s) else Succ(Pos(s, k - 1), |s.addrs|)
  }

  /** Iteration `k` of the loop returns. */
  predicate StopsAt(s: State, k: nat)
    requires s.addrs != []
  {
    var i := Pos(s, k);
    s.addrs[i] in s.addrMap && (s.addrMap[s.addrs[i]].connected || Succ(i, |s.addrs|) == Start(s))
  }

  /** The position `k` steps after `start` in a cycle of `n`. */
  function Cyclic(start: nat, k: nat, n: nat): nat
    requires start < n && k < n
  {
    if start + k < n then start + k else start + k - n
  }

  lemma {:induction false} PosIsCyclic(s: State, k: nat)
    requires s.addrs != [] && k < |s.addrs|
    ensures Pos(s, k) == Cyclic(Start(s), k, |s.addrs|)
  {
    if k > 0 {
      PosIsCyclic(s, k - 1);
    }
  }

  lemma {:induction false} PosRepeats(s: State, k: nat)
    requires s.addrs != []
    ensures Pos(s, k + |s.addrs|) == Pos(s, k)
  {
    if k == 0 {
      PosIsCyclic(s, |s.addrs| - 1);
    } else {
      PosRepeats(s, k - 1);
    }
  }

  /** The scan is periodic: if the first pass over the list does not return, no pass does. */
  lemma {:induction false} FirstPassDecides(s: State, k: nat)
    requires s.addrs != [] && StopsAt(s, k)
    ensures exists j: nat :: j < |s.addrs| && StopsAt(s, j)
    decreases k
  {
    if k >= |s.addrs| {
      PosRepeats(s, k - |s.addrs|);
      FirstPassDecides(s, k - |s.addrs|);
    }
  }

  function Before(s: State): nat
    requires s.addrs != []
  {
    Cyclic(Start(s), |s.addrs| - 1, |s.addrs|)
  }

  /** Within the first pass, an iteration returns on a connected entry, or at the end on a known one. */
  lemma StopsWithin(s: State, k: nat)
    requires s.addrs != [] && k < |s.addrs|
    ensures StopsAt(s, k) <==>
              || Connected(s, Cyclic(Start(s), k, |s.addrs|))
              || (k == |s.addrs| - 1 && s.addrs[Before(s)] in s.addrMap)
  {
    PosIsCyclic(s, k);
  }

  /**
    Exact termination: on a non-empty list the loop returns at some iteration if and only if some
    entry is connected or the entry just before the start is still in the map.
   */
  lemma SelectTerminates(s: State)
    requires s.addrs != []
    ensures (exists k: nat :: StopsAt(s, k))
            <==> (exists i: nat :: i < |s.addrs| && Connected(s, i)) || s.addrs[Before(s)] in s.addrMap
  {
    var n := |s.addrs|;
    if k: nat :| StopsAt(s, k) {
      FirstPassDecides(s, k);
      var j: nat :| j < n && StopsAt(s, j);
      StopsWithin(s, j);
    }
    if i: nat :| i < n && Connected(s, i) {
      var k := if i >= Start(s) then i - Start(s) else i + n - Start(s);
      StopsWithin(s, k);
    }
    if s.addrs[Before(s)] in s.addrMap {
      StopsWithin(s, n - 1);
    }
  }

  /** The first iteration, from `k` on and within the first pass, that returns. */
  function Scan(s: State, k: nat): (r: Option<nat>)
    requires s.addrs != []
    ensures r.Some? ==> k <= r.value < |s.addrs| && StopsAt(s, r.value)
    ensures r.Some? ==> forall j :: k <= j < r.value ==> !StopsAt(s, j)
    ensures r.None? ==> forall j :: k <= j < |s.addrs| ==> !StopsAt(s, j)
    decreases |s.addrs| - k
  {
    if k >= |s.addrs| then None else if StopsAt(s, k) then Some(k) else Scan(s, k + 1)
  }

  /** `Forever`: the loop of the source does not end. */
  datatype Choice = Picked(addr: string) | EmptyList | Forever

  function Loaded(m: map<string, AddrInfo>, x: string): map<string, AddrInfo>
    requires x in m
  {
    m[x := m[x].(load := (m[x].load + 1) % TWO_TO_THE_64)]
  }

  function Selected(s: State): (Choice, State) {
    if s.addrs == [] then (EmptyList, s)
    else
      match Scan(s, 0)
      case None => (Forever, s.(next := Start(s)))
      case Some(k) =>
        var i := Pos(s, k);
        (Picked(s.addrs[i]),
         State(s.addrs, Loaded(s.addrMap, s.addrs[i]), Succ(i, |s.addrs|)))
  }

  /**
    What round robin picks: the first connected entry at or cyclically after `next`; when none is
    connected, the entry just before `next`; and `next` is left one past the pick.
   */
  lemma RoundRobinResult(s: State)
    requires s.addrs != [] && Selected(s).0 != Forever
    ensures exists k: nat ::
              && k < |s.addrs|
              && var i := Cyclic(Start(s), k, |s.addrs|);
                 && Selected(s).0 == Picked(s.addrs[i])
                 && Selected(s).1.next == Succ(i, |s.addrs|)
                 && (forall j: nat :: j < k ==> !Connected(s, Cyclic(Start(s), j, |s.addrs|)))
                 && (Connected(s, i) || (i == Before(s) && forall j: nat :: j < |s.addrs| ==> !Connected(s, j)))
  {
    var n, k := |s.addrs|, Scan(s, 0).value;
    PosIsCyclic(s, k);
    StopsWithin(s, k);
    var i := Cyclic(Start(s), k, n);
    forall j: nat | j < k ensures !Connected(s, Cyclic(Start(s), j, n)) {
      StopsWithin(s, j);
    }
    if !Connected(s, i) {
      forall j: nat | j < n ensures !Connected(s, j) {
        var o := if j >= Start(s) then j - Start(s) else j + n - Start(s);
        assert Cyclic(Start(s), o, n) == j;
        assert o < k || o == k;
      }
    }
  }

  /** `Forever` is exact: it stands for a loop in which no iteration ever returns. */
  lemma ForeverIsForever(s: State)
    requires s.addrs != []
    ensures Selected(s).0 == Forever <==> forall k: nat :: !StopsAt(s, k)
  {
    if k: nat :| StopsAt(s, k) {
      FirstPassDecides(s, k);
    }
  }

  // ------------------------------------------------------------------ runs of Select

  /** The picks of `m` calls of Select, up to one that does not pick. */
  function Picks(s: State, m: nat): seq<string>
    decreases m
  {
    if m == 0 || !Selected(s).0.Picked? then []
    else [Selected(s).0.addr] + Picks(Selected(s).1, m - 1)
  }

  ghost predicate AllConnected(s: State) {
    forall i: nat :: i < |s.addrs| ==> Connected(s, i)
  }

  ghost predicate NoneConnected(s: State) {
    forall x :: x in s.addrMap ==> !s.addrMap[x].connected
  }

  /** `m` entries of a list, read cyclically from index `i`. */
  function Turns(addrs: seq<string>, i: nat, m: nat): seq<string>
    requires i < |addrs|
    decreases m
  {
    if m == 0 then [] else [addrs[i]] + Turns(addrs, Succ(i, |addrs|), m - 1)
  }

  lemma AllConnectedStep(s: State)
    requires s.addrs != [] && AllConnected(s)
    ensures var (c, s') := Selected(s);
            && c == Picked(s.addrs[Start(s)]) && AllConnected(s') && s'.addrs == s.addrs
            && Start(s') == Succ(Start(s), |s.addrs|)
  {
    assert Connected(s, Start(s));
    assert StopsAt(s, 0);
    var s' := Selected(s).1;
    forall i: nat | i < |s'.addrs| ensures Connected(s', i) {
      assert Connected(s, i);
    }
  }

  /** With every entry connected, round robin reads the list cyclically. */
  lemma {:induction false} PicksAreTurns(s: State, m: nat)
    requires s.addrs != [] && AllConnected(s)
    ensures Picks(s, m) == Turns(s.addrs, Start(s), m)
    decreases m
  {
    if m > 0 {
      AllConnectedStep(s);
      PicksAreTurns(Selected(s).1, m - 1);
    }
  }

  lemma {:induction false} TurnsStraight(addrs: seq<string>, i: nat, m: nat)
    requires i < |addrs| && i + m <= |addrs|
    ensures Turns(addrs, i, m) == addrs[i..i + m]
    decreases m
  {
    if m == 1 {
    } else if m > 1 {
      TurnsStraight(addrs, i + 1, m - 1);
      assert addrs[i..i + m] == [addrs[i]] + addrs[i + 1..i + m];
    }
  }

  function Moved(i: nat, m: nat, n: nat): (j: nat)
    requires i < n
    ensures j < n
    decreases m
  {
    if m == 0 then i else Moved(Succ(i, n), m - 1, n)
  }

  lemma {:induction false} MovedStraight(i: nat, m: nat, n: nat)
    requires i < n && i + m <= n
    ensures Moved(i, m, n) == if i + m == n then 0 else i + m
    decreases m
  {
    if m > 0 && i + 1 < n {
      MovedStraight(i + 1, m - 1, n);
    }
  }

  lemma Associate(x: string, a: seq<string>, b: seq<string>)
    ensures [x] + (a + b) == ([x] + a) + b
  {
  }

  lemma {:induction false} TurnsSplit(addrs: seq<string>, i: nat, a: nat, b: nat)
    requires i < |addrs|
    ensures Turns(addrs, i, a + b) == Turns(addrs, i, a) + Turns(addrs, Moved(i, a, |addrs|), b)
    ensures Moved(i, a + b, |addrs|) == Moved(Moved(i, a, |addrs|), b, |addrs|)
    decreases a
  {
    if a == 0 {
      assert Turns(addrs, i, 0) == [];
    } else {
      var j := Succ(i, |addrs|);
      TurnsSplit(addrs, j, a - 1, b);
      assert a + b - 1 == a - 1 + b;
      assert Turns(addrs, i, a) == [addrs[i]] + Turns(addrs, j, a - 1);
      assert Turns(addrs, i, a + b) == [addrs[i]] + Turns(addrs, j, a - 1 + b);
      Associate(addrs[i], Turns(addrs, j, a - 1), Turns(addrs, Moved(i, a, |addrs|), b));
    }
  }

  lemma Rotation(addrs: seq<string>, i: nat)
    requires i <= |addrs|
    ensures multiset(addrs[i..] + addrs[..i]) == multiset(addrs)
  {
    assert addrs == addrs[..i] + addrs[i..];
  }

  /** One full turn passes every entry once and comes back to where it started. */
  lemma FullTurn(addrs: seq<string>, i: nat)
    requires i < |addrs|
    ensures multiset(Turns(addrs, i, |addrs|)) == multiset(addrs)
    ensures Moved(i, |addrs|, |addrs|) == i
  {
    hide Turns, Moved;
    var n := |addrs|;
    assert n - i + i == n && i + (n - i) == n && addrs[0..i] == addrs[..i] && addrs[i..n] == addrs[i..];
    MovedStraight(i, n - i, n);
    MovedStraight(0, i, n);
    TurnsStraight(addrs, i, n - i);
    TurnsStraight(addrs, 0, i);
    TurnsSplit(addrs, i, n - i, i);
    assert Turns(addrs, i, n) == addrs[i..] + addrs[..i];
    Rotation(addrs, i);
  }

  /** `k` times `n`, by addition. */
  function Times(k: nat, n: nat): nat {
    if k == 0 then 0 else n + Times(k - 1, n)
  }

  lemma {:induction false} TimesIsProduct(k: nat, n: nat)
    ensures Times(k, n) == k * n
  {
    if k > 0 {
      TimesIsProduct(k - 1, n);
    }
  }

  lemma {:induction false} FairTurns(addrs: seq<string>, i: nat, k: nat, x: string)
    requires i < |addrs|
    ensures multiset(Turns(addrs, i, Times(k, |addrs|)))[x] == Times(k, multiset(addrs)[x])
    decreases k
  {
    if k > 0 {
      var n, count := |addrs|, multiset(addrs)[x];
      assert Times(k, n) == n + Times(k - 1, n) && Times(k, count) == count + Times(k - 1, count);
      hide Turns, Times;
      FairTurns(addrs, i, k - 1, x);
      AddTurn(addrs, i, Times(k - 1, |addrs|), x);
    }
  }

  lemma AddTurn(addrs: seq<string>, i: nat, rest: nat, x: string)
    requires i < |addrs|
    ensures multiset(Turns(addrs, i, |addrs| + rest))[x] == multiset(addrs)[x] + multiset(Turns(addrs, i, rest))[x]
  {
    hide Turns, Moved;
    TurnsSplit(addrs, i, |addrs|, rest);
    FullTurn(addrs, i);
  }

  function Connect(m: map<string, AddrInfo>): map<string, AddrInfo> {
    map x | x in m :: m[x].(connected := true)
  }

  /**
    Weighted fairness: after one Reset of a fresh selector, with all its addresses connected, any
    k * n consecutive picks, n being the total weight, choose each address k times its weight,
    from wherever `next` is.
   */
  lemma WeightedFairness(input: seq<Address>, next: nat, k: nat, x: string)
    requires Expanded(input) != []
    ensures var s := State(Expanded(input), Connect(Built(input)), next);
            multiset(Picks(s, k * |Expanded(input)|))[x] == k * FirstWeight(input, x)
  {
    var s := State(Expanded(input), Connect(Built(input)), next);
    hide Picks, Turns, AllConnected, FirstWeight, Built, Expanded, Connect, Times;
    ConnectedReset(input, next);
    TimesIsProduct(k, |s.addrs|);
    TimesIsProduct(k, FirstWeight(input, x));
    PicksAreTurns(s, Times(k, |s.addrs|));
    FairTurns(s.addrs, Start(s), k, x);
    ExpansionCount(input, x);
  }

  lemma ConnectedReset(input: seq<Address>, next: nat)
    ensures AllConnected(State(Expanded(input), Connect(Built(input)), next))
  {
    var s := State(Expanded(input), Connect(Built(input)), next);
    forall i: nat | i < |s.addrs| ensures Connected(s, i) {
      ExpansionCount(input, s.addrs[i]);
      assert s.addrs[i] in multiset(s.addrs);
    }
  }

  lemma FirstStop(s: State, k: nat)
    requires s.addrs != [] && k < |s.addrs| && StopsAt(s, k)
    requires forall j :: 0 <= j < k ==> !StopsAt(s, j)
    ensures Scan(s, 0) == Some(k)
  {
    var r := Scan(s, 0);
    assert r.Some?;
    assert r.value <= k && k <= r.value;
  }

  /**
    As shipped nothing is ever connected. Then round robin does not rotate: from one Reset to the
    next, every Select picks the same entry, the one just before `next`, and `next` stays put.
   */
  lemma {:induction false} NeverConnectedNeverRotates(s: State, m: nat)
    requires s.addrs != [] && NoneConnected(s) && s.addrs[Before(s)] in s.addrMap
    ensures Picks(s, m) == seq(m, _ => s.addrs[Before(s)])
    ensures NoneConnected(Selected(s).1) && Selected(s).1.next == Start(s)
    decreases m
  {
    var n := |s.addrs|;
    forall k: nat | k < n ensures StopsAt(s, k) <==> k == n - 1 {
      StopsWithin(s, k);
    }
    FirstStop(s, n - 1);
    PosIsCyclic(s, n - 1);
    var s' := Selected(s).1;
    assert Start(s') == Start(s) && Before(s') == Before(s);
    if m > 0 {
      NeverConnectedNeverRotates(s', m - 1);
    }
  }

  // ------------------------------------------------------------------ the random scan

  /** The first connected entry at or cyclically after `start`, from offset `k` on. */
  function NextConnected(s: State, start: nat, k: nat): (r: Option<nat>)
    requires start < |s.addrs|
    ensures r.Some? ==> k <= r.value < |s.addrs| && Connected(s, Cyclic(start, r.value, |s.addrs|))
    ensures r.Some? ==> forall j: nat :: k <= j < r.value ==> !Connected(s, Cyclic(start, j, |s.addrs|))
    ensures r.None? ==> forall j: nat :: k <= j < |s.addrs| ==> !Connected(s, Cyclic(start, j, |s.addrs|))
    decreases |s.addrs| - k
  {
    if k >= |s.addrs| then None
    else if Connected(s, Cyclic(start, k, |s.addrs|)) then Some(k)
    else NextConnected(s, start, k + 1)
  }

  /** `None` is ErrAddrListEmpty or ErrNoAvailableAddress. */
  function RandomSelected(s: State, random: nat): (Option<string>, State) {
    if s.addrs == [] then (None, s)
    else
      match NextConnected(s, random % |s.addrs|, 0)
      case None => (None, s)
      case Some(k) =>
        var x := s.addrs[Cyclic(random % |s.addrs|, k, |s.addrs|)];
        (Some(x), s.(addrMap := Loaded(s.addrMap, x)))
  }

  /** Random selection fails exactly when nothing is connected, wherever the scan starts. */
  lemma RandomFails(s: State, random: nat)
    ensures RandomSelected(s, random).0.None? <==> forall i: nat :: i < |s.addrs| ==> !Connected(s, i)
  {
    if s.addrs != [] {
      var n, start := |s.addrs|, random % |s.addrs|;
      if RandomSelected(s, random).0.None? {
        forall j: nat | j < n ensures !Connected(s, j) {
          var o := if j >= start then j - start else j + n - start;
          assert Cyclic(start, o, n) == j;
        }
      }
    }
  }

  lemma Monotone(n: nat, x: int, y: int)
    requires x <= y
    ensures n * x <= n * y
  {
  }

  /** `q` times `n` and a remainder: there is only one. */
  lemma ModUnique(a: nat, n: nat, q: nat, c: nat)
    requires c < n && a == n * q + c
    ensures a % n == c
  {
    var p: int, d: int := a / n, a % n;
    var off: int := q - p;
    assert n * off == d - c;
    if off >= 1 {
      Monotone(n, 1, off);
    } else if off <= -1 {
      Monotone(n, off, -1);
    }
  }

  lemma CyclicIsMod(random: nat, k: nat, n: nat)
    requires k < n
    ensures Cyclic(random % n, k, n) == (random + k) % n
  {
    var q, start := random / n, random % n;
    assert random == n * q + start;
    var c, turns := Cyclic(start, k, n), if start + k < n then q else q + 1;
    assert n * (q + 1) == n * q + n;
    ModUnique(random + k, n, turns, c);
  }

  /** The words of the round-robin results: where a scan starts, what comes k entries later, and just before. */
  lemma Positions(s: State, k: nat)
    requires s.addrs != [] && k < |s.addrs|
    ensures Start(s) == if s.next < |s.addrs| then s.next else 0
    ensures Cyclic(Start(s), k, |s.addrs|) == (Start(s) + k) % |s.addrs|
    ensures Before(s) == if Start(s) == 0 then |s.addrs| - 1 else Start(s) - 1
  {
    Wrap(Start(s), k, |s.addrs|);
  }

  /** What random selection picks: the first connected entry at or cyclically after `random` modulo n. */
  lemma RandomPicks(s: State, random: nat)
    requires RandomSelected(s, random).0.Some?
    ensures s.addrs != []
    ensures exists k: nat ::
              && k < |s.addrs|
              && var i := Cyclic(random % |s.addrs|, k, |s.addrs|);
                 && i == (random + k) % |s.addrs|
                 && Connected(s, i) && RandomSelected(s, random).0 == Some(s.addrs[i])
                 && (forall j: nat :: j < k ==> !Connected(s, Cyclic(random % |s.addrs|, j, |s.addrs|)))
  {
    var k := NextConnected(s, random % |s.addrs|, 0).value;
    CyclicIsMod(random, k, |s.addrs|);
  }

  /** `m` with the load of `x` one higher, and nothing else changed. */
  ghost predicate OneMore(m: map<string, AddrInfo>, m': map<string, AddrInfo>, x: string) {
    && m'.Keys == m.Keys && x in m
    && (forall y :: y in m && y != x ==> m'[y] == m[y])
    && m'[x].load == (m[x].load + 1) % TWO_TO_THE_64
    && m'[x].addr == m[x].addr && m'[x].weight == m[x].weight && m'[x].connected == m[x].connected
  }

  /** A pick of either kind is a mapped address, whose load goes up by one. */
  lemma PickLoads(s: State, random: nat, x: string)
    ensures Selected(s).0 == Picked(x) ==>
              OneMore(s.addrMap, Selected(s).1.addrMap, x) && Selected(s).1.addrs == s.addrs
    ensures RandomSelected(s, random).0 == Some(x) ==>
              && OneMore(s.addrMap, RandomSelected(s, random).1.addrMap, x)
              && RandomSelected(s, random).1.addrs == s.addrs && RandomSelected(s, random).1.next == s.next
  {
  }

  // ------------------------------------------------------------------ whole histories

  /** What a selector of either kind may be asked to do. */
  datatype Op = Reset(input: seq<Address>) | Select | RandomSelect(random: nat) | Put(addr: string)

  function PutState(s: State, x: string): State {
    if x in s.addrMap then
      s.(addrMap := s.addrMap[x := s.addrMap[x].(load := (s.addrMap[x].load + TWO_TO_THE_64 - 1) % TWO_TO_THE_64)])
    else s
  }

  function Apply(s: State, op: Op): State {
    match op
    case Reset(input) => ResetState(s, input)
    case Select => Selected(s).1
    case RandomSelect(random) => RandomSelected(s, random).1
    case Put(x) => PutState(s, x)
  }

  function ApplyAll(s: State, ops: seq<Op>): State {
    if ops == [] then s else Apply(ApplyAll(s, ops[..|ops| - 1]), ops[|ops| - 1])
  }

  // ------------------------------------------------------------------ load accounting

  function LoadIn(m: map<string, AddrInfo>, x: string): nat {
    if x in m then m[x].load else 0
  }

  /** The load with which `x` entered the map that is in use after `ops`. */
  function InitialLoad(s: State, ops: seq<Op>, x: string): nat {
    if ops == [] then LoadIn(s.addrMap, x)
    else
      match ops[|ops| - 1]
      case Reset(input) => LoadIn(Built(input), x)
      case _ => InitialLoad(s, ops[..|ops| - 1], x)
  }

  /** Whether `op`, done in state `s`, selects `x`. */
  predicate Chooses(s: State, op: Op, x: string) {
    match op
    case Select => Selected(s).0 == Picked(x)
    case RandomSelect(random) => RandomSelected(s, random).0 == Some(x)
    case _ => false
  }

  /** How often `x` was selected since the last Reset. */
  function Selections(s: State, ops: seq<Op>, x: string): nat {
    if ops == [] || ops[|ops| - 1].Reset? then 0
    else
      var front := ops[..|ops| - 1];
      Selections(s, front, x) + One(Chooses(ApplyAll(s, front), ops[|ops| - 1], x))
  }

  /** How often `x` was put back since the last Reset. */
  function Returns(ops: seq<Op>, x: string): nat {
    if ops == [] || ops[|ops| - 1].Reset? then 0
    else Returns(ops[..|ops| - 1], x) + One(ops[|ops| - 1] == Put(x))
  }

  ghost predicate LoadsFit(s: State) {
    forall x :: x in s.addrMap ==> s.addrMap[x].load < TWO_TO_THE_64
  }

  lemma {:induction false} BuiltFits(input: seq<Address>)
    ensures forall x :: x in Built(input) ==> Built(input)[x].load < TWO_TO_THE_64
  {
    if input != [] {
      BuiltFits(input[..|input| - 1]);
    }
  }

  lemma ModExact(a: int)
    ensures a % TWO_TO_THE_64 == a <==> 0 <= a < TWO_TO_THE_64
  {
  }

  lemma ModAdd(a: int, b: int)
    ensures (a % TWO_TO_THE_64 + b) % TWO_TO_THE_64 == (a + b) % TWO_TO_THE_64
  {
  }

  lemma LoadSelected(s: State, x: string)
    requires LoadsFit(s) && x in s.addrMap
    ensures var (c, s') := Selected(s);
            && LoadsFit(s') && s'.addrMap.Keys == s.addrMap.Keys
            && s'.addrMap[x].load == (s.addrMap[x].load + One(c == Picked(x))) % TWO_TO_THE_64
  {
    hide Pos, Start, Succ;
  }

  lemma LoadRandom(s: State, random: nat, x: string)
    requires LoadsFit(s) && x in s.addrMap
    ensures var (c, s') := RandomSelected(s, random);
            && LoadsFit(s') && s'.addrMap.Keys == s.addrMap.Keys
            && s'.addrMap[x].load == (s.addrMap[x].load + One(c == Some(x))) % TWO_TO_THE_64
  {
  }

  lemma LoadPut(s: State, y: string, x: string)
    requires LoadsFit(s) && x in s.addrMap
    ensures var s' := PutState(s, y);
            && LoadsFit(s') && s'.addrMap.Keys == s.addrMap.Keys
            && s'.addrMap[x].load == (s.addrMap[x].load - One(x == y)) % TWO_TO_THE_64
  {
  }

  lemma LoadStep(s: State, op: Op, x: string)
    requires LoadsFit(s) && x in s.addrMap && !op.Reset?
    ensures var s' := Apply(s, op);
            && LoadsFit(s') && s'.addrMap.Keys == s.addrMap.Keys
            && s'.addrMap[x].load
               == (s.addrMap[x].load + One(Chooses(s, op, x)) - One(op == Put(x))) % TWO_TO_THE_64
  {
    hide Selected, RandomSelected, PutState, LoadsFit;
    match op
    case Select => LoadSelected(s, x);
    case RandomSelect(random) => LoadRandom(s, random, x);
    case Put(y) => LoadPut(s, y, x);
  }

  lemma FitsStep(s: State, op: Op)
    requires LoadsFit(s)
    ensures LoadsFit(Apply(s, op))
    ensures !op.Reset? ==> Apply(s, op).addrMap.Keys == s.addrMap.Keys
  {
    if op.Reset? {
      BuiltFits(op.input);
    }
  }

  /** What the load should be: as it entered the map, plus Selects, minus Puts. */
  function Due(s: State, ops: seq<Op>, x: string): int {
    InitialLoad(s, ops, x) + Selections(s, ops, x) - Returns(ops, x)
  }

  /**
    The load of an address that is in the map is the load with which the last Reset entered it,
    plus the Selects that picked it minus the Puts that named it since that Reset, modulo 2^64; so
    it is that number exactly when no more Puts came than the counter covers and it did not
    overflow. Both kinds of selection count.
   */
  lemma LoadAccounting(s: State, ops: seq<Op>, x: string)
    requires LoadsFit(s) && x in ApplyAll(s, ops).addrMap
    ensures var load := ApplyAll(s, ops).addrMap[x].load;
            && load == Due(s, ops, x) % TWO_TO_THE_64
            && (load == Due(s, ops, x) <==> 0 <= Due(s, ops, x) < TWO_TO_THE_64)
  {
    hide *;
    LoadIsDue(s, ops, x);
    ModExact(Due(s, ops, x));
  }

  lemma {:induction false} LoadIsDue(s: State, ops: seq<Op>, x: string)
    requires LoadsFit(s) && x in ApplyAll(s, ops).addrMap
    ensures ApplyAll(s, ops).addrMap[x].load == Due(s, ops, x) % TWO_TO_THE_64
    decreases |ops|
  {
    hide Apply, LoadsFit, Chooses, Due, InitialLoad, Selections, Returns;
    if ops == [] || ops[|ops| - 1].Reset? {
      DueAtFirst(s, ops, x);
      ModExact(Due(s, ops, x));
    } else {
      var front, op := ops[..|ops| - 1], ops[|ops| - 1];
      DueStep(s, ops, x);
      AllFit(s, front);
      FitsStep(ApplyAll(s, front), op);
      LoadIsDue(s, front, x);
      DueAfter(ApplyAll(s, front), op, x, Due(s, front, x));
    }
  }

  lemma DueAtFirst(s: State, ops: seq<Op>, x: string)
    requires LoadsFit(s) && x in ApplyAll(s, ops).addrMap && (ops == [] || ops[|ops| - 1].Reset?)
    ensures ApplyAll(s, ops).addrMap[x].load == Due(s, ops, x) < TWO_TO_THE_64
  {
    if ops != [] {
      BuiltFits(ops[|ops| - 1].input);
    }
  }

  lemma DueAfter(s: State, op: Op, x: string, due: int)
    requires LoadsFit(s) && x in s.addrMap && !op.Reset? && s.addrMap[x].load == due % TWO_TO_THE_64
    ensures x in Apply(s, op).addrMap
    ensures Apply(s, op).addrMap[x].load == (due + One(Chooses(s, op, x)) - One(op == Put(x))) % TWO_TO_THE_64
  {
    hide Apply, LoadsFit, Chooses;
    LoadStep(s, op, x);
    ModAdd(due, One(Chooses(s, op, x)) - One(op == Put(x)));
  }

  lemma DueStep(s: State, ops: seq<Op>, x: string)
    requires ops != [] && !ops[|ops| - 1].Reset?
    ensures var front, op := ops[..|ops| - 1], ops[|ops| - 1];
            Due(s, ops, x) == Due(s, front, x) + One(Chooses(ApplyAll(s, front), op, x)) - One(op == Put(x))
  {
    hide Chooses, ApplyAll;
  }

  lemma {:induction false} AllFit(s: State, ops: seq<Op>)
    requires LoadsFit(s)
    ensures LoadsFit(ApplyAll(s, ops))
    decreases |ops|
  {
    if ops != [] {
      AllFit(s, ops[..|ops| - 1]);
      FitsStep(ApplyAll(s, ops[..|ops| - 1]), ops[|ops| - 1]);
    }
  }

  /**
    While every Put matches a Select since the last Reset, the load never falls below where it
    started. The only bound is that the counter has room for the Selects.
   */
  lemma NoUnderflow(s: State, ops: seq<Op>, x: string)
    requires LoadsFit(s) && x in ApplyAll(s, ops).addrMap
    requires Returns(ops, x) <= Selections(s, ops, x)
    requires InitialLoad(s, ops, x) + |ops| < TWO_TO_THE_64
    ensures ApplyAll(s, ops).addrMap[x].load
            == InitialLoad(s, ops, x) + Selections(s, ops, x) - Returns(ops, x) >= InitialLoad(s, ops, x)
  {
    LoadAccounting(s, ops, x);
    SelectionsBounded(s, ops, x);
  }

  lemma {:induction false} SelectionsBounded(s: State, ops: seq<Op>, x: string)
    ensures Selections(s, ops, x) <= |ops|
    decreases |ops|
  {
    if ops != [] {
      SelectionsBounded(s, ops[..|ops| - 1], x);
    }
  }

  /**
    The load does underflow when a Reset falls between the Selects and the Puts that match them:
    after `m` late Puts it is what it should be exactly when the new initial load covers them.
   */
  lemma LatePuts(s: State, before: seq<Op>, input: seq<Address>, x: string, m: nat)
    requires LoadsFit(s) && x in Built(input) && m <= TWO_TO_THE_64
    ensures var ops := before + [Reset(input)] + seq(m, _ => Put(x));
            var initial := Built(input)[x].load;
            && x in ApplyAll(s, ops).addrMap
            && ApplyAll(s, ops).addrMap[x].load
               == if m <= initial then initial - m else TWO_TO_THE_64 + initial - m
  {
    var ops := before + [Reset(input)] + seq(m, _ => Put(x));
    AfterReset(s, before, input, x, m);
    BuiltFits(input);
    hide ApplyAll, InitialLoad, Selections, Returns, LoadsFit, Built;
    LoadAccounting(s, ops, x);
  }

  lemma {:induction false} AfterReset(s: State, before: seq<Op>, input: seq<Address>, x: string, m: nat)
    requires x in Built(input)
    ensures var ops := before + [Reset(input)] + seq(m, _ => Put(x));
            && x in ApplyAll(s, ops).addrMap && InitialLoad(s, ops, x) == Built(input)[x].load
            && Selections(s, ops, x) == 0 && Returns(ops, x) == m
  {
    var ops := before + [Reset(input)] + seq(m, _ => Put(x));
    if m == 0 {
      assert ops[..|ops| - 1] == before && ops[|ops| - 1] == Reset(input);
    } else {
      assert ops[..|ops| - 1] == before + [Reset(input)] + seq(m - 1, _ => Put(x));
      AfterReset(s, before, input, x, m - 1);
    }
  }

  // ------------------------------------------------------------------ as shipped

  /**
    What holds of a selector that started fresh: `Up` is commented out, so nothing is connected,
    `next` never moves from 0, and the last entry of the list belongs to the last non-empty update.
   */
  ghost predicate Shipped(s: State) {
    && s.next == 0 && NoneConnected(s)
    && (s.addrMap != map[] ==> s.addrs != [] && s.addrs[|s.addrs| - 1] in s.addrMap)
  }

  lemma ResetShipped(s: State, input: seq<Address>)
    requires Shipped(s)
    ensures Shipped(ResetState(s, input))
    ensures ResetState(s, input).addrMap == map[] <==> input == []
    ensures ResetState(s, input).addrs == [] <==> s.addrs == [] && input == []
  {
    var m, e := Built(input), Expanded(input);
    forall x ensures x in m <==> x in e {
      ExpansionCount(input, x);
      assert x in e <==> multiset(e)[x] > 0;
    }
    forall x | x in m ensures !m[x].connected {
      ExpansionCount(input, x);
    }
    if input != [] {
      assert FirstWeight(input, input[0].addr) > 0;
      ExpansionCount(input, input[0].addr);
      assert input[0].addr in e;
      assert e[|e| - 1] in e;
    }
  }

  /** What round robin does as shipped: the last entry is picked, over and over, if it is still mapped. */
  lemma SelectShipped(s: State)
    requires Shipped(s)
    ensures Shipped(Selected(s).1)
    ensures Selected(s).1.addrMap.Keys == s.addrMap.Keys && Selected(s).1.addrs == s.addrs
    ensures Selected(s).0 == if s.addrs == [] then EmptyList
                             else if s.addrMap == map[] then Forever
                             else Picked(s.addrs[|s.addrs| - 1])
  {
    if s.addrs != [] {
      if s.addrMap == map[] {
        ForeverIsForever(s);
      } else {
        assert Before(s) == |s.addrs| - 1;
        NeverConnectedNeverRotates(s, 1);
        assert Picks(s, 1)[0] == s.addrs[Before(s)];
      }
    }
  }

  lemma RandomShipped(s: State, random: nat)
    requires Shipped(s)
    ensures RandomSelected(s, random) == (None, s)
  {
    RandomFails(s, random);
  }

  lemma ApplyShipped(s: State, op: Op)
    requires Shipped(s)
    ensures Shipped(Apply(s, op))
    ensures !op.Reset? ==> Apply(s, op).addrMap.Keys == s.addrMap.Keys && Apply(s, op).addrs == s.addrs
  {
    match op
    case Reset(input) => ResetShipped(s, input);
    case Select => SelectShipped(s);
    case RandomSelect(random) => RandomFails(s, random);
    case Put(_) =>
  }

  /** The last update, empty when there was none. */
  function LastInput(ops: seq<Op>): seq<Address> {
    if ops == [] then []
    else if ops[|ops| - 1].Reset? then ops[|ops| - 1].input
    else LastInput(ops[..|ops| - 1])
  }

  ghost predicate SomeInput(ops: seq<Op>) {
    exists i :: 0 <= i < |ops| && ops[i].Reset? && ops[i].input != []
  }

  lemma {:induction false} RunShipped(ops: seq<Op>)
    ensures Shipped(ApplyAll(FRESH, ops))
    ensures ApplyAll(FRESH, ops).addrMap == map[] <==> LastInput(ops) == []
    ensures ApplyAll(FRESH, ops).addrs == [] <==> !SomeInput(ops)
  {
    if ops != [] {
      var front, op := ops[..|ops| - 1], ops[|ops| - 1];
      RunShipped(front);
      ApplyShipped(ApplyAll(FRESH, front), op);
      if op.Reset? {
        ResetShipped(ApplyAll(FRESH, front), op.input);
      }
      assert SomeInput(ops) <==> SomeInput(front) || (op.Reset? && op.input != []) by {
        assert forall i :: 0 <= i < |front| ==> ops[i] == front[i];
      }
      var s, s' := ApplyAll(FRESH, front), ApplyAll(FRESH, ops);
      assert s.addrMap == map[] <==> s.addrMap.Keys == {};
      assert s'.addrMap == map[] <==> s'.addrMap.Keys == {};
    }
  }

  /**
    The selectors as shipped, after any history of updates, Selects and Puts. Random selection
    always fails. Round robin fails before the first non-empty update, never returns when the last
    update was empty and an earlier one was not, and otherwise picks one fixed entry.
   */
  lemma AsShipped(ops: seq<Op>, random: nat)
    ensures var s := ApplyAll(FRESH, ops);
            && RandomSelected(s, random).0 == None
            && (Selected(s).0 == EmptyList <==> !SomeInput(ops))
            && (Selected(s).0 == Forever <==> SomeInput(ops) && LastInput(ops) == [])
            && (LastInput(ops) != [] ==>
                  s.addrs != [] && Selected(s).0 == Picked(s.addrs[|s.addrs| - 1])
                  && FirstWeight(LastInput(ops), s.addrs[|s.addrs| - 1]) > 0)
  {
    RunShipped(ops);
    var s := ApplyAll(FRESH, ops);
    SelectShipped(s);
    RandomShipped(s, random);
    assert LastInput(ops) != [] ==> s.addrs != [] && s.addrs[|s.addrs| - 1] in s.addrMap;
    hide ApplyAll, SomeInput, LastInput, Selected, RandomSelected, FirstWeight, Built;
    if LastInput(ops) != [] {
      MapIsLast(ops);
      ExpansionCount(LastInput(ops), s.addrs[|s.addrs| - 1]);
    }
  }

  lemma {:induction false} MapIsLast(ops: seq<Op>)
    ensures ApplyAll(FRESH, ops).addrMap.Keys == Built(LastInput(ops)).Keys
  {
    if ops != [] && !ops[|ops| - 1].Reset? {
      var front := ops[..|ops| - 1];
      RunShipped(front);
      ApplyShipped(ApplyAll(FRESH, front), ops[|ops| - 1]);
      MapIsLast(front);
    }
  }

  /** The smallest run after which Select does not return: an address comes and goes. */
  lemma SelectHangs()
    ensures Selected(ApplyAll(FRESH, [Reset([Address("a", None)]), Reset([])])).0 == Forever
  {
    var ops := [Reset([Address("a", None)]), Reset([])];
    assert ops[0].input != [] && LastInput(ops) == [];
    AsShipped(ops, 0);
  }

  // ------------------------------------------------------------------ the selector as an object

  lemma AssociateAll(a: seq<string>, b: seq<string>, c: seq<string>)
    ensures (a + b) + c == a + (b + c)
  {
  }

  lemma ResetStart(input: seq<Address>)
    ensures Built(input[..0]) == map[] && Expanded(input[..0]) == []
  {
  }

  /** What one round of Reset's loop adds. */
  lemma ResetStep(input: seq<Address>, n: nat)
    requires n < |input|
    ensures var front, a := input[..n], input[n];
            if a.addr in Built(front) then
              Built(input[..n + 1]) == Built(front) && Expanded(input[..n + 1]) == Expanded(front)
            else
              && Built(input[..n + 1]) == Built(front)[a.addr := Info(a)]
              && Expanded(input[..n + 1]) == Expanded(front) + Repeat(a.addr, Weight(a))
  {
    assert input[..n + 1][..n] == input[..n];
  }

  class BaseSelector {
    var addrs: seq<string>
    var addrMap: map<string, AddrInfo>

    constructor ()
      ensures addrs == [] && addrMap == map[]
    {
      addrs, addrMap := [], map[];
    }

    /** Rebuilds the map and appends to the list: the list is not cleared. */
    method Reset(input: seq<Address>)
      modifies this
      ensures addrMap == Built(input) && addrs == old(addrs) + Expanded(input)
    {
      hide Built, Expanded, Weight, Setting, Repeat;
      addrMap := map[];
      ResetStart(input);
      for n := 0 to |input|
        invariant addrMap == Built(input[..n]) && addrs == old(addrs) + Expanded(input[..n])
      {
        var a := input[n];
        ResetStep(input, n);
        if a.addr !in addrMap {
          addrMap := addrMap[a.addr := AddrInfo(a, Weight(a), Setting(a, "load", 0), false)];
          Append(a.addr, Weight(a));
          AssociateAll(old(addrs), Expanded(input[..n]), Repeat(a.addr, Weight(a)));
        }
      }
      assert input[..|input|] == input;
    }

    /** One entry for each unit of weight. */
    method Append(x: string, weight: nat)
      modifies this`addrs
      ensures addrs == old(addrs) + Repeat(x, weight)
    {
      for i := 0 to weight
        invariant addrs == old(addrs) + Repeat(x, i)
      {
        addrs := addrs + [x];
      }
    }

    /** Every mapped address, each once, in some order. */
    method AddrList() returns (list: seq<Address>)
      ensures |list| == |addrMap|
      ensures forall x :: x in addrMap ==> addrMap[x].addr in list
      ensures forall i :: 0 <= i < |list| ==> exists x :: x in addrMap && addrMap[x].addr == list[i]
    {
      list := [];
      var remaining := addrMap.Keys;
      while remaining != {}
        invariant remaining <= addrMap.Keys && |list| + |remaining| == |addrMap.Keys|
        invariant forall x :: x in addrMap && x !in remaining ==> addrMap[x].addr in list
        invariant forall i :: 0 <= i < |list| ==> exists x :: x in addrMap && addrMap[x].addr == list[i]
        decreases remaining
      {
        var x :| x in remaining;
        remaining := remaining - {x};
        list := list + [addrMap[x].addr];
      }
      assert |addrMap.Keys| == |addrMap|;
    }

    method Put(x: string)
      modifies this`addrMap
      ensures forall n: nat :: addrMap == PutState(State(addrs, old(addrMap), n), x).addrMap
    {
      if x in addrMap {
        var info := addrMap[x];
        var load := if info.load == 0 then TWO_TO_THE_64 - 1 else (info.load - 1) % TWO_TO_THE_64;
        addrMap := addrMap[x := info.(load := load)];
      }
    }
  }

  class RoundRobinSelector {
    const base: BaseSelector
    var next: nat

    ghost function View(): State
      reads this, base
    {
      State(base.addrs, base.addrMap, next)
    }

    constructor (base: BaseSelector)
      ensures this.base == base && next == 0
    {
      this.base, next := base, 0;
    }

    /** One pass over the list; a pass that does not return means that the loop of the source never does. */
    method Select() returns (c: Choice)
      modifies this`next, base`addrMap
      ensures (c, View()) == Selected(old(View()))
    {
      ghost var s := View();
      var n := |base.addrs|;
      if n == 0 {
        return EmptyList;
      }
      if next >= n {
        next := 0;
      }
      var i, k := next, 0;
      while k < n
        invariant k <= n && next == Start(s) && View() == s.(next := next)
        invariant i == Pos(s, k)
        invariant forall j :: 0 <= j < k ==> !StopsAt(s, j)
      {
        var a := base.addrs[i];
        SuccIsMod(i, n);
        i := (i + 1) % n;
        if a in base.addrMap && (base.addrMap[a].connected || i == next) {
          FirstStop(s, k);
          base.addrMap := base.addrMap[a := base.addrMap[a].(load := (base.addrMap[a].load + 1) % TWO_TO_THE_64)];
          next := i;
          return Picked(a);
        }
        k := k + 1;
      }
      return Forever;
    }
  }

  class RandomSelector {
    const base: BaseSelector

    constructor (base: BaseSelector)
      ensures this.base == base
    {
      this.base := base;
    }

    /** `random` is what the generator returned. */
    method Select(random: nat) returns (c: Option<string>)
      modifies base`addrMap
      ensures forall m: nat ::
                (c, State(base.addrs, base.addrMap, m))
                == RandomSelected(State(base.addrs, old(base.addrMap), m), random)
    {
      var n := |base.addrs|;
      if n == 0 {
        return None;
      }
      ghost var s := State(base.addrs, base.addrMap, 0);
      var start := random % n;
      var i := 0;
      while i < n
        invariant i <= n && base.addrMap == s.addrMap
        invariant forall m: nat :: NextConnected(s.(next := m), start, 0) == NextConnected(s.(next := m), start, i)
      {
        Wrap(start, i, n);
        var a := base.addrs[(start + i) % n];
        if a in base.addrMap && base.addrMap[a].connected {
          base.addrMap := base.addrMap[a := base.addrMap[a].(load := (base.addrMap[a].load + 1) % TWO_TO_THE_64)];
          return Some(a);
        }
        i := i + 1;
      }
      return None;
    }
  }

  lemma ModOnce(a: nat, n: nat)
    requires n > 0 && a < 2 * n
    ensures a % n == if a < n then a else a - n
  {
    var q, r := a / n, a % n;
    assert a == n * q + r;
    assert q == 0 || q == 1;
  }

  lemma Wrap(start: nat, i: nat, n: nat)
    requires start < n && i < n
    ensures (start + i) % n == Cyclic(start, i, n)
  {
    ModOnce(start + i, n);
  }

  lemma SuccIsMod(i: nat, n: nat)
    requires i < n
    ensures (i + 1) % n == Succ(i, n)
  {
    ModOnce(i + 1, n);
  }
}
