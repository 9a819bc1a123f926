/**
  A whole server: any number of connections, each a `ServerConn` machine, whose request and
  response headers are heap objects recycled through the shared free lists. Each method is one
  atomic step of one goroutine; `Drive` runs any schedule of them.
 */
module ServerHost {
  import opened Basics
  import opened JsonCodec
  import opened HeaderPool
  import Conn = ServerConn
  import Calls
  import Naming

  /**
    The connections, and the objects that goroutines hold in local variables: `blank` those of
    reading loops that wait for a header, `held` those of requests, `replies` the responses being
    sent, and `written` the responses that are written but not given back yet.
   */
  datatype Locals = Locals(
    conns: map<nat, Conn.State>, blank: map<nat, RpcRequest>,
    held: map<Key, RpcRequest>, replies: map<Key, RpcResponse>, written: set<Key>)

  datatype Action =
    | Accept(c: nat)
    | Get(c: nat)
    | Header(c: nat, item: Item<WireRequest>)
    | Step(c: nat, e: Conn.Event)
    | GetReply(k: Key)
    | WriteReply(k: Key)
    | FreeReply(k: Key)
    | FreeRequest(k: Key)

  /** The same server without objects: it only knows which request is how far. */
  datatype Plain = Plain(
    conns: map<nat, Conn.State>, blank: set<nat>, held: set<Key>, replies: set<Key>, written: set<Key>)

  function PlainOf(v: Locals): Plain {
    Plain(v.conns, v.blank.Keys, v.held.Keys, v.replies.Keys, v.written)
  }

  /** A response that was handed to the encoder of a connection. */
  datatype Sent = Sent(key: Key, message: Option<WireResponse>)

  /**
    One step of the plain server, in which every request keeps its headers to itself: the response
    is made from the header that was read. A step that cannot be taken changes nothing.
   */
  function PlainStep(services: Conn.Services, p: Plain, a: Action): (Plain, seq<Sent>) {
    match a
    case Accept(c) =>
      (if c in p.conns then p else p.(conns := p.conns[c := Conn.INITIAL]), [])
    case Get(c) =>
      (if c in p.conns && p.conns[c].reader.Top? then p.(blank := p.blank + {c}) else p, [])
    case Header(c, item) =>
      if !(c in p.blank && c in p.conns && p.conns[c].reader.Top?) then (p, [])
      else
        var e := match item case Whole(m) => Conn.HeaderOk(m) case Torn => Conn.HeaderErr;
        (p.(conns := p.conns[c := Conn.Next(services, p.conns[c], e)], blank := p.blank - {c},
            held := if item.Whole? then p.held + {Key(c, |p.conns[c].headers|)} else p.held), [])
    case Step(c, e) =>
      (if c in p.conns && Conn.Enabled(p.conns[c], e) && Silent(e)
       then p.(conns := p.conns[c := Conn.Next(services, p.conns[c], e)]) else p, [])
    case GetReply(k) =>
      (if k in p.held && k.c in p.conns && Replying(p.conns[k.c], k.i) then p.(replies := p.replies + {k}) else p, [])
    case WriteReply(k) =>
      if !(k in p.replies && k !in p.written && k.c in p.conns && Conn.Enabled(p.conns[k.c], Conn.Respond(k.i)))
      then (p, [])
      else
        (p.(conns := p.conns[k.c := Conn.Next(services, p.conns[k.c], Conn.Respond(k.i))], written := p.written + {k}),
         [Sent(k, Conn.ResponseTo(p.conns[k.c], k.i))])
    case FreeReply(k) =>
      (if k in p.written then p.(replies := p.replies - {k}, written := p.written - {k}) else p, [])
    case FreeRequest(k) =>
      (if k in p.held && k !in p.replies && k.c in p.conns && !Conn.Open(p.conns[k.c], k.i)
       then p.(held := p.held - {k}) else p, [])
  }

  function PlainRun(services: Conn.Services, p: Plain, schedule: seq<Action>): (Plain, seq<Sent>) {
    if schedule == [] then (p, [])
    else
      var (p1, sent1) := PlainRun(services, p, schedule[..|schedule| - 1]);
      var (p2, sent2) := PlainStep(services, p1, schedule[|schedule| - 1]);
      (p2, sent1 + sent2)
  }

  predicate Silent(e: Conn.Event) {
    e.Dispatch? || e.MethodReturns? || e.Close?
  }

  /** Every open request of connection `c` has its object. */
  ghost predicate Covered(c: nat, s: Conn.State, held: map<Key, RpcRequest>) {
    forall i: nat :: Conn.Open(s, i) ==> Key(c, i) in held
  }

  predicate Replying(s: Conn.State, i: nat) {
    i in s.tasks && s.tasks[i].Replying?
  }

  /** A reading loop that waits for a header holds a wiped object of its own. */
  ghost predicate BlankSound(v: Locals, inUse: map<RpcRequest, Tag>) {
    forall c :: c in v.blank ==>
      && c in v.conns && v.conns[c].reader.Top?
      && v.blank[c] in inUse && inUse[v.blank[c]] == Tag(Reader(c), 0, "")
  }

  /** A request holds an object of its own, which contains its number and its method. */
  ghost predicate HeldOk(v: Locals, inUse: map<RpcRequest, Tag>, k: Key)
    requires k in v.held
  {
    && k.c in v.conns && k.i < |v.conns[k.c].headers|
    && v.held[k] in inUse
    && inUse[v.held[k]] == Tag(Serving(k), v.conns[k.c].headers[k.i].number, v.conns[k.c].headers[k.i].name)
  }

  ghost predicate HeldSound(v: Locals, inUse: map<RpcRequest, Tag>) {
    forall k :: k in v.held ==> HeldOk(v, inUse, k)
  }

  /** A response being sent is an object of its own, filled in from its request until it is written. */
  ghost predicate ReplySound(v: Locals, sending: map<RpcResponse, ReplyTag>, k: Key)
    requires k in v.replies
  {
    && k in v.held && k.c in v.conns && k.i < |v.conns[k.c].headers|
    && v.replies[k] in sending && sending[v.replies[k]].key == k
    && (if k in v.written then !Conn.Open(v.conns[k.c], k.i)
        else
          && Replying(v.conns[k.c], k.i)
          && sending[v.replies[k]] == ReplyTag(k, v.conns[k.c].headers[k.i].number,
                                               v.conns[k.c].headers[k.i].name, v.conns[k.c].tasks[k.i].text))
  }

  ghost predicate RepliesSound(v: Locals, sending: map<RpcResponse, ReplyTag>) {
    && v.written <= v.replies.Keys
    && (forall k :: k in v.replies ==> ReplySound(v, sending, k))
  }

  ghost predicate ConnsSound(v: Locals) {
    forall c :: c in v.conns ==> Covered(c, v.conns[c], v.held)
  }

  ghost predicate Sound(v: Locals, inUse: map<RpcRequest, Tag>, sending: map<RpcResponse, ReplyTag>) {
    BlankSound(v, inUse) && HeldSound(v, inUse) && RepliesSound(v, sending) && ConnsSound(v)
  }

  // ------------------------------------------------------------------ each step on values

  lemma ConnectSound(v: Locals, inUse: map<RpcRequest, Tag>, sending: map<RpcResponse, ReplyTag>, c: nat)
    requires Sound(v, inUse, sending) && c !in v.conns
    ensures Sound(v.(conns := v.conns[c := Conn.INITIAL]), inUse, sending)
  {
  }

  lemma FetchSound(v: Locals, inUse: map<RpcRequest, Tag>, sending: map<RpcResponse, ReplyTag>, c: nat, r: RpcRequest)
    requires Sound(v, inUse, sending)
    requires c in v.conns && v.conns[c].reader.Top? && r !in inUse
    ensures Sound(v.(blank := v.blank[c := r]), inUse[r := Tag(Reader(c), 0, "")], sending)
  {
  }

  lemma ReadHeaderSound(
    v: Locals, inUse: map<RpcRequest, Tag>, sending: map<RpcResponse, ReplyTag>, c: nat, m: WireRequest)
    requires Sound(v, inUse, sending) && c in v.blank
    ensures var s := v.conns[c];
            var s', k := Conn.OnHeader(s, m), Key(c, |s.headers|);
            Sound(v.(conns := v.conns[c := s'], blank := v.blank - {c}, held := v.held[k := v.blank[c]]),
                  inUse[v.blank[c] := Tag(Serving(k), s'.headers[|s.headers|].number, m.name)], sending)
  {
    var s, r := v.conns[c], v.blank[c];
    var s', k := Conn.OnHeader(s, m), Key(c, |s.headers|);
    var v' := v.(conns := v.conns[c := s'], blank := v.blank - {c}, held := v.held[k := r]);
    var inUse' := inUse[r := Tag(Serving(k), s'.headers[|s.headers|].number, m.name)];
    assert forall i: nat :: Conn.Open(s', i) <==> Conn.Open(s, i) || i == |s.headers|;
    OthersUntouched(v, inUse, c);
    BlankFollow(v, v', inUse, inUse', c);
    HeldFollow(v, v', inUse, inUse', c, k);
    CoverFollow(v, v', c);
    RepliesFollow(v, v', sending, c);
  }

  /** The object of a reading loop is nobody else's. */
  lemma OthersUntouched(v: Locals, inUse: map<RpcRequest, Tag>, c: nat)
    requires BlankSound(v, inUse) && HeldSound(v, inUse) && c in v.blank
    ensures forall c' :: c' in v.blank && c' != c ==> v.blank[c'] != v.blank[c]
    ensures forall k :: k in v.held ==> v.held[k] != v.blank[c]
  {
  }

  ghost predicate OnlyConn(v: Locals, v': Locals, c: nat) {
    && c in v.conns && v'.conns.Keys == v.conns.Keys
    && (forall c' :: c' in v.conns && c' != c ==> v'.conns[c'] == v.conns[c'])
    && v.conns[c].headers <= v'.conns[c].headers
  }

  lemma BlankFollow(v: Locals, v': Locals, inUse: map<RpcRequest, Tag>, inUse': map<RpcRequest, Tag>, c: nat)
    requires BlankSound(v, inUse) && OnlyConn(v, v', c) && v'.blank == v.blank - {c}
    requires forall c' :: c' in v.blank && c' != c && v.blank[c'] in inUse ==>
               v.blank[c'] in inUse' && inUse'[v.blank[c']] == inUse[v.blank[c']]
    ensures BlankSound(v', inUse')
  {
  }

  lemma HeldFollow(v: Locals, v': Locals, inUse: map<RpcRequest, Tag>, inUse': map<RpcRequest, Tag>, c: nat, k: Key)
    requires HeldSound(v, inUse) && OnlyConn(v, v', c)
    requires forall k' :: k' in v'.held && k' != k ==> k' in v.held && v'.held[k'] == v.held[k']
    requires forall k' :: k' in v.held && k' != k && v.held[k'] in inUse ==>
               v.held[k'] in inUse' && inUse'[v.held[k']] == inUse[v.held[k']]
    requires k in v'.held ==> HeldOk(v', inUse', k)
    ensures HeldSound(v', inUse')
  {
    forall k' | k' in v'.held && k' != k ensures HeldOk(v', inUse', k') {
      assert HeldOk(v, inUse, k');
    }
  }

  lemma CoverFollow(v: Locals, v': Locals, c: nat)
    requires ConnsSound(v) && OnlyConn(v, v', c) && v.held.Keys <= v'.held.Keys
    requires forall i: nat :: Conn.Open(v'.conns[c], i) ==> Conn.Open(v.conns[c], i) || Key(c, i) in v'.held
    ensures ConnsSound(v')
  {
    forall c' | c' in v'.conns ensures Covered(c', v'.conns[c'], v'.held) {
      assert Covered(c', v.conns[c'], v.held);
    }
  }

  /** What `RepliesSound` asks of a connection survives when nothing that it mentions changes. */
  lemma RepliesFollow(v: Locals, v': Locals, sending: map<RpcResponse, ReplyTag>, c: nat)
    requires RepliesSound(v, sending)
    requires v'.replies == v.replies && v'.written == v.written && v.held.Keys <= v'.held.Keys
    requires OnlyConn(v, v', c)
    requires forall i: nat :: i < |v.conns[c].headers| && !Conn.Open(v.conns[c], i) ==> !Conn.Open(v'.conns[c], i)
    requires forall i: nat :: Replying(v.conns[c], i) ==>
               Replying(v'.conns[c], i) && v'.conns[c].tasks[i].text == v.conns[c].tasks[i].text
    ensures RepliesSound(v', sending)
  {
    forall k | k in v'.replies ensures ReplySound(v', sending, k) {
      assert ReplySound(v, sending, k);
    }
  }

  lemma FailHeaderSound(
    v: Locals, inUse: map<RpcRequest, Tag>, sending: map<RpcResponse, ReplyTag>, c: nat, s': Conn.State)
    requires Sound(v, inUse, sending) && c in v.blank
    requires s' == v.conns[c].(reader := Conn.Waiting, readLog := s'.readLog)
    ensures Sound(v.(conns := v.conns[c := s'], blank := v.blank - {c}), inUse - {v.blank[c]}, sending)
  {
    var v' := v.(conns := v.conns[c := s'], blank := v.blank - {c});
    assert forall i: nat :: Conn.Open(s', i) <==> Conn.Open(v.conns[c], i);
    OthersUntouched(v, inUse, c);
    BlankFollow(v, v', inUse, inUse - {v.blank[c]}, c);
    FollowAll(v, v', inUse, inUse - {v.blank[c]}, sending, c);
  }

  /** A connection moves on while the objects of its requests stay where they are. */
  lemma FollowAll(
    v: Locals, v': Locals, inUse: map<RpcRequest, Tag>, inUse': map<RpcRequest, Tag>,
    sending: map<RpcResponse, ReplyTag>, c: nat)
    requires HeldSound(v, inUse) && RepliesSound(v, sending) && ConnsSound(v) && OnlyConn(v, v', c)
    requires v'.held == v.held && v'.replies == v.replies && v'.written == v.written
    requires forall k :: k in v.held && v.held[k] in inUse ==>
               v.held[k] in inUse' && inUse'[v.held[k]] == inUse[v.held[k]]
    requires forall i: nat :: Conn.Open(v'.conns[c], i) <==> Conn.Open(v.conns[c], i)
    requires forall i: nat :: Replying(v.conns[c], i) ==>
               Replying(v'.conns[c], i) && v'.conns[c].tasks[i].text == v.conns[c].tasks[i].text
    ensures HeldSound(v', inUse') && RepliesSound(v', sending) && ConnsSound(v')
  {
    forall k | k in v'.held ensures HeldOk(v', inUse', k) {
      assert HeldOk(v, inUse, k);
    }
    RepliesFollow(v, v', sending, c);
    CoverFollow(v, v', c);
  }

  lemma SilentFacts(services: Conn.Services, s: Conn.State, e: Conn.Event)
    requires Conn.Enabled(s, e) && Silent(e)
    requires e.Dispatch? ==> |s.headers| - 1 !in s.tasks
    ensures var s' := Conn.Next(services, s, e);
            && s'.headers == s.headers && (s.reader.Top? ==> s'.reader.Top?)
            && (forall i: nat :: Conn.Open(s', i) <==> Conn.Open(s, i))
            && (forall i: nat :: Replying(s, i) ==> Replying(s', i) && s'.tasks[i].text == s.tasks[i].text)
            && s'.index == s.index && (s'.reader.Dispatching? ==> s.reader.Dispatching?)
  {
    if e.Dispatch? {
      var v := Conn.Judge(services, s.headers[|s.headers| - 1], e.pre, e.body, e.post);
      assert Conn.Next(services, s, e).tasks == Conn.OnVerdict(s, v).tasks;
    }
  }

  lemma SilentSound(v: Locals, inUse: map<RpcRequest, Tag>, sending: map<RpcResponse, ReplyTag>, c: nat, s': Conn.State)
    requires Sound(v, inUse, sending) && c in v.conns
    requires var s := v.conns[c];
             && s'.headers == s.headers && (s.reader.Top? ==> s'.reader.Top?)
             && (forall i: nat :: Conn.Open(s', i) <==> Conn.Open(s, i))
             && (forall i: nat :: Replying(s, i) ==> Replying(s', i) && s'.tasks[i].text == s.tasks[i].text)
    ensures Sound(v.(conns := v.conns[c := s']), inUse, sending)
  {
    FollowAll(v, v.(conns := v.conns[c := s']), inUse, inUse, sending, c);
  }

  lemma PrepareSound(
    v: Locals, inUse: map<RpcRequest, Tag>, sending: map<RpcResponse, ReplyTag>, k: Key, p: RpcResponse, tag: ReplyTag)
    requires Sound(v, inUse, sending) && k in v.held && k !in v.replies && p !in sending
    requires Replying(v.conns[k.c], k.i)
    requires tag == ReplyTag(k, v.conns[k.c].headers[k.i].number, v.conns[k.c].headers[k.i].name,
                             v.conns[k.c].tasks[k.i].text)
    ensures Sound(v.(replies := v.replies[k := p]), inUse, sending[p := tag])
  {
    var v' := v.(replies := v.replies[k := p]);
    forall k' | k' in v'.replies ensures ReplySound(v', sending[p := tag], k') {
      assert k' != k ==> ReplySound(v, sending, k');
    }
  }

  lemma WriteSound(v: Locals, inUse: map<RpcRequest, Tag>, sending: map<RpcResponse, ReplyTag>, k: Key)
    requires Sound(v, inUse, sending) && k in v.replies && k !in v.written
    requires Conn.Enabled(v.conns[k.c], Conn.Respond(k.i)) && Conn.ReaderFits(v.conns[k.c])
    requires !(v.conns[k.c].reader.Dispatching? && k.i == |v.conns[k.c].headers| - 1)
    ensures Sound(v.(conns := v.conns[k.c := Conn.OnRespond(v.conns[k.c], k.i)], written := v.written + {k}),
                  inUse, sending)
  {
    var s := v.conns[k.c];
    var s' := Conn.OnRespond(s, k.i);
    var v' := v.(conns := v.conns[k.c := s'], written := v.written + {k});
    assert forall j: nat :: Conn.Open(s', j) <==> Conn.Open(s, j) && j != k.i;
    assert Replying(s, k.i) by { assert ReplySound(v, sending, k); }
    assert k.c !in v.blank || !s.tasks[k.i].inline;
    BlankStays(v, v', inUse, k.c);
    HeldStays(v, v', inUse, k.c);
    CoverFollow(v, v', k.c);
    RepliesAfterWrite(v, v', sending, k);
  }

  lemma BlankStays(v: Locals, v': Locals, inUse: map<RpcRequest, Tag>, c: nat)
    requires BlankSound(v, inUse) && OnlyConn(v, v', c) && v'.blank == v.blank
    requires v.conns[c].reader.Top? ==> v'.conns[c].reader.Top?
    ensures BlankSound(v', inUse)
  {
  }

  lemma HeldStays(v: Locals, v': Locals, inUse: map<RpcRequest, Tag>, c: nat)
    requires HeldSound(v, inUse) && OnlyConn(v, v', c) && v'.held == v.held
    ensures HeldSound(v', inUse)
  {
    forall k | k in v'.held ensures HeldOk(v', inUse, k) {
      assert HeldOk(v, inUse, k);
    }
  }

  lemma RepliesAfterWrite(v: Locals, v': Locals, sending: map<RpcResponse, ReplyTag>, k: Key)
    requires RepliesSound(v, sending) && k in v.replies && OnlyConn(v, v', k.c)
    requires v'.replies == v.replies && v'.held == v.held && v'.written == v.written + {k}
    requires v'.conns[k.c].tasks == v.conns[k.c].tasks - {k.i}
    requires forall j: nat :: Conn.Open(v'.conns[k.c], j) <==> Conn.Open(v.conns[k.c], j) && j != k.i
    ensures RepliesSound(v', sending)
  {
    forall k' | k' in v'.replies ensures ReplySound(v', sending, k') {
      assert ReplySound(v, sending, k');
    }
  }

  lemma ReleaseResponseSound(v: Locals, inUse: map<RpcRequest, Tag>, sending: map<RpcResponse, ReplyTag>, k: Key)
    requires Sound(v, inUse, sending) && k in v.written
    ensures Sound(v.(replies := v.replies - {k}, written := v.written - {k}), inUse, sending - {v.replies[k]})
  {
    var v' := v.(replies := v.replies - {k}, written := v.written - {k});
    assert ReplySound(v, sending, k);
    forall k' | k' in v'.replies ensures ReplySound(v', sending - {v.replies[k]}, k') {
      assert ReplySound(v, sending, k');
    }
  }

  lemma ReleaseRequestSound(v: Locals, inUse: map<RpcRequest, Tag>, sending: map<RpcResponse, ReplyTag>, k: Key)
    requires Sound(v, inUse, sending) && k in v.held && k !in v.replies && !Conn.Open(v.conns[k.c], k.i)
    ensures Sound(v.(held := v.held - {k}), inUse - {v.held[k]}, sending)
  {
    var v' := v.(held := v.held - {k});
    forall k' | k' in v'.replies ensures ReplySound(v', sending, k') {
      assert ReplySound(v, sending, k');
    }
    forall c | c in v.conns ensures Covered(c, v.conns[c], v'.held) {
      assert Covered(c, v.conns[c], v.held);
    }
  }

  lemma BlankFacts(v: Locals, inUse: map<RpcRequest, Tag>, sending: map<RpcResponse, ReplyTag>, c: nat)
    requires Sound(v, inUse, sending) && c in v.blank
    ensures c in v.conns && v.conns[c].reader.Top? && v.blank[c] in inUse
  {
  }

  lemma HeldFacts(v: Locals, inUse: map<RpcRequest, Tag>, sending: map<RpcResponse, ReplyTag>, k: Key)
    requires Sound(v, inUse, sending) && k in v.held
    ensures HeldOk(v, inUse, k)
  {
  }

  /** A response made from the object that a request holds is made from that request's header. */
  lemma PrepareKeeps(
    v: Locals, inUse: map<RpcRequest, Tag>, sending: map<RpcResponse, ReplyTag>, k: Key, p: RpcResponse)
    requires Sound(v, inUse, sending) && k in v.held && k !in v.replies && p !in sending
    requires k.c in v.conns && Replying(v.conns[k.c], k.i)
    ensures v.held[k] in inUse
    ensures var tag := inUse[v.held[k]];
            Sound(v.(replies := v.replies[k := p]), inUse,
                  sending[p := ReplyTag(k, tag.number, tag.name, v.conns[k.c].tasks[k.i].text)])
  {
    HeldFacts(v, inUse, sending, k);
    var h := v.conns[k.c].headers[k.i];
    PrepareSound(v, inUse, sending, k, p, ReplyTag(k, h.number, h.name, v.conns[k.c].tasks[k.i].text));
  }

  lemma ReplyFacts(v: Locals, inUse: map<RpcRequest, Tag>, sending: map<RpcResponse, ReplyTag>, k: Key)
    requires Sound(v, inUse, sending) && (k in v.replies || k in v.written)
    ensures k in v.replies && ReplySound(v, sending, k)
  {
  }

  lemma ReplyContents(v: Locals, inUse: map<RpcRequest, Tag>, sending: map<RpcResponse, ReplyTag>, k: Key)
    requires Sound(v, inUse, sending) && k in v.replies && k !in v.written
    ensures k.c in v.conns && v.replies[k] in sending && Conn.Enabled(v.conns[k.c], Conn.Respond(k.i))
    ensures sending[v.replies[k]].number == v.conns[k.c].headers[k.i].number
    ensures sending[v.replies[k]].error == v.conns[k.c].tasks[k.i].text
  {
    assert ReplySound(v, sending, k);
  }

  /** Each connection has made a run of its own: sharing the objects is not observable. */
  ghost predicate Behaved(services: Conn.Services, conns: map<nat, Conn.State>) {
    forall c :: c in conns ==> Conn.Reachable(services, conns[c])
  }

  lemma BehavedStep(services: Conn.Services, conns: map<nat, Conn.State>, c: nat, e: Conn.Event)
    requires Behaved(services, conns) && c in conns && Conn.Enabled(conns[c], e)
    ensures Behaved(services, conns[c := Conn.Next(services, conns[c], e)])
  {
    Conn.Extended(services, conns[c], e);
  }

  // ------------------------------------------------------------------ the codecs

  /** The codec object of a connection is where its machine says: index, and params in hand. */
  ghost predicate CodecFits(codec: JsonServerCodec, s: Conn.State)
    reads codec
  {
    && codec.View() == s.index
    && (s.reader.Dispatching? ==> s.headers != [] && codec.params == s.headers[|s.headers| - 1].params)
  }

  /** Each connection has a codec of its own. */
  ghost predicate CodecsFit(codecs: map<nat, JsonServerCodec>, conns: map<nat, Conn.State>)
    reads codecs.Values
  {
    && codecs.Keys == conns.Keys
    && (forall c :: c in codecs ==> CodecFits(codecs[c], conns[c]))
    && (forall c, c' :: c in codecs && c' in codecs && c != c' ==> codecs[c] != codecs[c'])
  }

  /** A connection moves on without its codec. */
  lemma CodecsFollow(codecs: map<nat, JsonServerCodec>, conns: map<nat, Conn.State>, c: nat, s': Conn.State)
    requires CodecsFit(codecs, conns) && c in conns && s'.index == conns[c].index
    requires s'.reader.Dispatching? ==> conns[c].reader.Dispatching? && s'.headers == conns[c].headers
    ensures CodecsFit(codecs, conns[c := s'])
  {
  }

  // ------------------------------------------------------------------ the steps on the heap

  class Host {
    const services: Conn.Services
    const server: Server
    var v: Locals
    var codecs: map<nat, JsonServerCodec>

    ghost predicate Valid()
      reads this, server, server.pool, server.replyPool, codecs.Values
    {
      && server.ValidRequests() && server.ValidResponses()
      && Sound(v, server.inUse, server.sending)
      && Behaved(services, v.conns)
      && CodecsFit(codecs, v.conns)
    }

    constructor (services: Conn.Services)
      ensures Valid() && v.conns == map[] && this.services == services
      ensures fresh(server) && server.pool == {} && server.replyPool == {}
    {
      this.services := services;
      server := new Server();
      v := Locals(map[], map[], map[], map[], {});
      codecs := map[];
    }

    /** A connection is accepted. */
    method Connect(c: nat)
      requires Valid() && c !in v.conns
      modifies this`v, this`codecs
      ensures Valid() && v == old(v).(conns := old(v).conns[c := Conn.INITIAL])
      ensures fresh(codecs.Values - old(codecs.Values))
    {
      hide Sound, CodecsFit, Behaved, Server.ValidRequests, Server.ValidResponses;
      BehavedMore(services, v.conns, c);
      ConnectSound(v, server.inUse, server.sending, c);
      var codec := new JsonServerCodec();
      CodecsMore(codecs, v.conns, c, codec);
      codecs := codecs[c := codec];
      v := v.(conns := v.conns[c := Conn.INITIAL]);
    }

    /** `getRequest` in `readRequestHeader`. */
    method Fetch(c: nat)
      requires Valid() && c in v.conns && v.conns[c].reader.Top? && c !in v.blank
      modifies this`v, server`freeReq, server`requests, server`inUse, server`pool, server.pool
      ensures Valid() && fresh(server.pool - old(server.pool))
      ensures PlainOf(v) == PlainOf(old(v)).(blank := old(v).blank.Keys + {c})
      ensures old(server.requests) != [] ==> [v.blank[c]] + server.requests == old(server.requests)
    {
      hide Sound, Behaved, CodecsFit, Server.ValidRequests, Server.ValidResponses;
      ghost var inUse := server.inUse;
      var r := server.GetRequest(Reader(c));
      FetchSound(v, inUse, server.sending, c, r);
      v := v.(blank := v.blank[c := r]);
    }

    /** ReadRequestHeader of the codec, on a message that decodes. */
    method Number(c: nat, m: WireRequest) returns (number: nat, name: string)
      requires CodecsFit(codecs, v.conns) && c in v.conns
      modifies codecs[c]
      ensures CodecsFit(codecs, v.conns[c := Conn.OnHeader(v.conns[c], m)])
      ensures name == m.name && number == Accepted(v.conns[c].index, m.id).number
    {
      var header := codecs[c].ReadRequestHeader(Whole(m));
      name, number := header.value.0, header.value.1;
    }

    /** ReadRequestHeader succeeds. */
    method ReadHeader(c: nat, m: WireRequest)
      requires Valid() && c in v.blank
      modifies this`v, server`inUse, {v.blank[c]}, codecs.Values
      ensures Valid()
      ensures Conn.Enabled(old(v).conns[c], Conn.HeaderOk(m))
      ensures PlainOf(v) == PlainOf(old(v)).(
                conns := old(v).conns[c := Conn.Next(services, old(v).conns[c], Conn.HeaderOk(m))],
                blank := old(v).blank.Keys - {c},
                held := old(v).held.Keys + {Key(c, |old(v).conns[c].headers|)})
    {
      hide Sound, Behaved, CodecsFit, Accepted, Conn.Next, Conn.OnHeader, Conn.Enabled;
      hide Server.ValidRequests, Server.ValidResponses;
      BlankFacts(v, server.inUse, server.sending, c);
      HeaderFacts(services, v.conns[c], m);
      HasCodec(codecs, v.conns, c);
      var s, r := v.conns[c], v.blank[c];
      var k, s' := Key(c, |s.headers|), Conn.OnHeader(s, m);
      BehavedStep(services, v.conns, c, Conn.HeaderOk(m));
      ReadHeaderSound(v, server.inUse, server.sending, c, m);
      var number, name := Number(c, m);
      server.FillRequest(r, number, name, k);
      v := v.(conns := v.conns[c := s'], blank := v.blank - {c}, held := v.held[k := r]);
    }

    /** ReadRequestHeader fails: the loop ends and the object is dropped. */
    method FailHeader(c: nat)
      requires Valid() && c in v.blank
      modifies this`v, server`inUse
      ensures Valid()
      ensures Conn.Enabled(old(v).conns[c], Conn.HeaderErr)
      ensures PlainOf(v) == PlainOf(old(v)).(
                conns := old(v).conns[c := Conn.Next(services, old(v).conns[c], Conn.HeaderErr)],
                blank := old(v).blank.Keys - {c})
    {
      hide Sound, Behaved, CodecsFit;
      BlankFacts(v, server.inUse, server.sending, c);
      var s' := Conn.Next(services, v.conns[c], Conn.HeaderErr);
      CodecsFollow(codecs, v.conns, c, s');
      BehavedStep(services, v.conns, c, Conn.HeaderErr);
      FailHeaderSound(v, server.inUse, server.sending, c, s');
      server.ForgetRequest(v.blank[c]);
      assert server.ValidResponses();
      v := v.(conns := v.conns[c := s'], blank := v.blank - {c});
    }

    /** `readRequestHeader` after the header is read: `None` when the request is to be served. */
    method Lookup(name: string, pre: Option<string>) returns (refusal: Option<string>)
      ensures refusal.None? <==> Conn.Serves(services, name) && pre.None?
      ensures refusal.Some? ==>
                forall h: Conn.Header, body, post :: h.name == name ==>
                  Conn.Judge(services, h, pre, body, post) == Conn.Refuse(refusal.value)
    {
      hide Naming.Route;
      var route := Naming.Route(name);
      if route.None? {
        return Some("service/method request invalid: " + name);
      }
      var (service, entry) := route.value;
      if service !in services {
        return Some("can't find service " + name);
      }
      if entry !in services[service] {
        return Some("can't find method " + name);
      }
      if pre.Some? {
        return Some("pre-read-request error happened: " + pre.value);
      }
      return None;
    }

    /**
      `readRequest` after the header: the method is looked up under the name in the request object,
      and the body comes from the codec object; a refused request has its body discarded.
     */
    method ReadRequest(c: nat, r: RpcRequest, pre: Option<string>, body: Option<string>, post: Option<string>)
      returns (verdict: Conn.Verdict)
      requires CodecsFit(codecs, v.conns) && c in v.conns && v.conns[c].reader.Dispatching? && v.conns[c].headers != []
      requires r.serviceMethod == v.conns[c].headers[|v.conns[c].headers| - 1].name
      ensures verdict == Conn.Judge(services, v.conns[c].headers[|v.conns[c].headers| - 1], pre, body, post)
    {
      hide Naming.Route;
      var refusal := Lookup(r.serviceMethod, pre);
      var params := codecs[c].ReadRequestBody(refusal.None?, body);
      if refusal.Some? {
        return Conn.Refuse(refusal.value);
      }
      if params.Undecodable? {
        return Conn.Refuse(params.text);
      }
      if post.Some? {
        return Conn.Refuse("post-read-request error happened: " + post.value);
      }
      return Conn.Start(params.args);
    }

    /** A request is dispatched: a goroutine is started for it, or it is refused. */
    method Dispatch(c: nat, pre: Option<string>, body: Option<string>, post: Option<string>)
      requires Valid() && c in v.conns && Conn.Enabled(v.conns[c], Conn.Dispatch(pre, body, post))
      modifies this`v
      ensures Valid()
      ensures v == old(v).(
                conns := old(v).conns[c := Conn.Next(services, old(v).conns[c], Conn.Dispatch(pre, body, post))])
    {
      hide Sound, Behaved, CodecsFit, Conn.Judge, Conn.Next, Conn.BodyFails;
      var s := v.conns[c];
      var k := Key(c, |s.headers| - 1);
      OpenIsHeld(v, server.inUse, server.sending, k);
      var verdict := ReadRequest(c, v.held[k], pre, body, post);
      ghost var e := Conn.Dispatch(pre, body, post);
      AdvanceFacts(services, v.conns, c, e);
      DispatchEffect(services, s, pre, body, post);
      BehavedStep(services, v.conns, c, e);
      SilentSound(v, server.inUse, server.sending, c, Conn.Next(services, s, e));
      var read := Conn.BodyFails(services, s.headers[|s.headers| - 1], pre, body);
      var s' := Conn.OnVerdict(s, verdict).(readLog := s.readLog + [Calls.BodyRead(!read)]);
      CodecsFollow(codecs, v.conns, c, s');
      v := v.(conns := v.conns[c := s']);
    }

    /** Steps that touch neither header objects nor the codec: a method returns, the loop closes. */
    method Advance(c: nat, e: Conn.Event)
      requires Valid() && c in v.conns && Conn.Enabled(v.conns[c], e) && Silent(e) && !e.Dispatch?
      modifies this`v
      ensures Valid() && v == old(v).(conns := old(v).conns[c := Conn.Next(services, old(v).conns[c], e)])
    {
      hide Sound, Behaved, CodecsFit, Conn.Next, Conn.Enabled, Server.ValidRequests, Server.ValidResponses;
      AdvanceFacts(services, v.conns, c, e);
      CodecsFollow(codecs, v.conns, c, Conn.Next(services, v.conns[c], e));
      BehavedStep(services, v.conns, c, e);
      SilentSound(v, server.inUse, server.sending, c, Conn.Next(services, v.conns[c], e));
      v := v.(conns := v.conns[c := Conn.Next(services, v.conns[c], e)]);
    }

    /** `getResponse`, and the fields that `sendResponse` copies from the request object. */
    method Prepare(k: Key)
      requires Valid() && k in v.held && k !in v.replies && k.c in v.conns && Replying(v.conns[k.c], k.i)
      modifies this`v, server`freeResp, server`responses, server`sending, server`replyPool, server.replyPool
      ensures Valid() && fresh(server.replyPool - old(server.replyPool))
      ensures PlainOf(v) == PlainOf(old(v)).(replies := old(v).replies.Keys + {k})
      ensures old(server.responses) != [] ==> [v.replies[k]] + server.responses == old(server.responses)
    {
      hide Sound, Behaved, CodecsFit, HeldOk, PlainOf, Server.ValidRequests, Server.ValidResponses;
      ghost var sending := server.sending;
      var r, text := v.held[k], v.conns[k.c].tasks[k.i].text;
      HeldInUse(v, server.inUse, server.sending, k);
      InUseFacts(server, r);
      var p := server.PrepareResponse(r, text, k);
      PrepareKeeps(v, server.inUse, sending, k, p);
      PlainReply(v, k, p);
      v := v.(replies := v.replies[k := p]);
    }

    /** WriteResponse of the codec: the id is the one remembered under the number. */
    method Encode(c: nat, i: nat, number: nat, error: string, reply: Json) returns (message: Option<WireResponse>)
      requires CodecsFit(codecs, v.conns) && c in v.conns && Conn.Enabled(v.conns[c], Conn.Respond(i))
      requires number == v.conns[c].headers[i].number && error == v.conns[c].tasks[i].text
      requires reply == if error != "" then Conn.INVALID_REQUEST else v.conns[c].tasks[i].reply
      modifies codecs[c]
      ensures CodecsFit(codecs, v.conns[c := Conn.OnRespond(v.conns[c], i)])
      ensures message == Conn.ResponseTo(v.conns[c], i)
    {
      message := codecs[c].WriteResponse(number, error, reply);
    }

    /**
      `WriteResponse`, from the response object and the codec object. It is the response that the
      connection would write if every request kept headers of its own.
     */
    method Write(k: Key) returns (message: Option<WireResponse>)
      requires Valid() && k in v.replies && k !in v.written
      modifies this`v, codecs.Values
      ensures Valid()
      ensures Conn.Enabled(old(v).conns[k.c], Conn.Respond(k.i))
      ensures message == Conn.ResponseTo(old(v).conns[k.c], k.i)
      ensures PlainOf(v) == PlainOf(old(v)).(
                conns := old(v).conns[k.c := Conn.Next(services, old(v).conns[k.c], Conn.Respond(k.i))],
                written := old(v).written + {k})
    {
      hide Sound, Behaved, CodecsFit, Conn.ResponseTo;
      ReplyContents(v, server.inUse, server.sending, k);
      HasCodec(codecs, v.conns, k.c);
      var s: Conn.State, p: RpcResponse := v.conns[k.c], v.replies[k];
      WriteKeeps(services, v, server.inUse, server.sending, k);
      var n: nat, reply: Json := p.number, if p.error != "" then Conn.INVALID_REQUEST else s.tasks[k.i].reply;
      message := Encode(k.c, k.i, n, p.error, reply);
      assert server.ValidRequests() && server.ValidResponses();
      var s' := s.(index := s.index.(pending := s.index.pending - {n}),
                   tasks := s.tasks - {k.i},
                   reader := if s.tasks[k.i].inline then Conn.Top else s.reader,
                   answers := s.answers + [Conn.Answer(k.i, n, message.Some?)]);
      FoundIsAnswered(s, k.i);
      assert s' == Conn.OnRespond(s, k.i);
      v := v.(conns := v.conns[k.c := s'], written := v.written + {k});
    }

    /** `freeResponse`. */
    method ReleaseResponse(k: Key)
      requires Valid() && k in v.written && k in v.replies
      modifies this`v, server`freeResp, server`responses, server`sending, server.replyPool
      ensures Valid() && server.replyPool == old(server.replyPool)
      ensures server.responses == [old(v).replies[k]] + old(server.responses)
      ensures PlainOf(v) == PlainOf(old(v)).(replies := old(v).replies.Keys - {k}, written := old(v).written - {k})
    {
      hide Sound, Behaved, CodecsFit;
      ReplyFacts(v, server.inUse, server.sending, k);
      ReleaseResponseSound(v, server.inUse, server.sending, k);
      server.FreeResponse(v.replies[k]);
      assert server.ValidRequests();
      v := v.(replies := v.replies - {k}, written := v.written - {k});
    }

    /** `freeRequest`, once the response is sent. */
    method ReleaseRequest(k: Key)
      requires Valid() && k in v.held && k !in v.replies && !Conn.Open(v.conns[k.c], k.i)
      modifies this`v, server`freeReq, server`requests, server`inUse, server.pool
      ensures Valid() && server.pool == old(server.pool)
      ensures server.requests == [old(v).held[k]] + old(server.requests)
      ensures PlainOf(v) == PlainOf(old(v)).(held := old(v).held.Keys - {k})
    {
      hide Sound, Behaved, CodecsFit;
      HeldFacts(v, server.inUse, server.sending, k);
      ReleaseRequestSound(v, server.inUse, server.sending, k);
      server.FreeRequest(v.held[k]);
      assert server.ValidResponses();
      v := v.(held := v.held - {k});
    }
  }

  lemma BehavedMore(services: Conn.Services, conns: map<nat, Conn.State>, c: nat)
    requires Behaved(services, conns)
    ensures Behaved(services, conns[c := Conn.INITIAL])
  {
    Conn.InitialReachable(services);
  }

  lemma CodecsMore(codecs: map<nat, JsonServerCodec>, conns: map<nat, Conn.State>, c: nat, codec: JsonServerCodec)
    requires CodecsFit(codecs, conns) && c !in conns && codec !in codecs.Values && codec.View() == EMPTY_INDEX
    ensures CodecsFit(codecs[c := codec], conns[c := Conn.INITIAL])
  {
  }

  lemma HeldInUse(v: Locals, inUse: map<RpcRequest, Tag>, sending: map<RpcResponse, ReplyTag>, k: Key)
    requires Sound(v, inUse, sending) && k in v.held
    ensures v.held[k] in inUse && k.c in v.conns
  {
    HeldFacts(v, inUse, sending, k);
  }

  lemma BlankInPool(host: Host, c: nat)
    requires host.Valid() && c in host.v.blank
    ensures c in host.v.conns && host.v.conns[c].reader.Top? && host.v.blank[c] in host.server.pool
  {
    BlankFacts(host.v, host.server.inUse, host.server.sending, c);
  }

  lemma HeldHasConn(host: Host, k: Key)
    requires host.Valid() && k in host.v.held
    ensures k.c in host.v.conns
  {
    HeldInUse(host.v, host.server.inUse, host.server.sending, k);
  }

  lemma HeaderFacts(services: Conn.Services, s: Conn.State, m: WireRequest)
    requires s.reader.Top?
    ensures Conn.Enabled(s, Conn.HeaderOk(m)) && Conn.Next(services, s, Conn.HeaderOk(m)) == Conn.OnHeader(s, m)
    ensures |Conn.OnHeader(s, m).headers| == |s.headers| + 1
    ensures Conn.OnHeader(s, m).headers[|s.headers|].number == Accepted(s.index, m.id).number
  {
  }

  lemma PlainReply(v: Locals, k: Key, p: RpcResponse)
    ensures PlainOf(v.(replies := v.replies[k := p])) == PlainOf(v).(replies := v.replies.Keys + {k})
  {
  }

  lemma InUseFacts(server: Server, r: RpcRequest)
    requires server.ValidRequests() && r in server.inUse
    ensures r in server.pool && r.number == server.inUse[r].number && r.serviceMethod == server.inUse[r].name
  {
  }

  lemma HasCodec(codecs: map<nat, JsonServerCodec>, conns: map<nat, Conn.State>, c: nat)
    requires CodecsFit(codecs, conns) && c in conns
    ensures c in codecs
  {
  }

  lemma FoundIsAnswered(s: Conn.State, i: nat)
    requires Conn.Enabled(s, Conn.Respond(i))
    ensures Conn.ResponseTo(s, i).Some? <==> s.headers[i].number in s.index.pending
  {
  }

  /** An open request has its object, which names its method. */
  lemma OpenIsHeld(v: Locals, inUse: map<RpcRequest, Tag>, sending: map<RpcResponse, ReplyTag>, k: Key)
    requires Sound(v, inUse, sending) && k.c in v.conns && Conn.Open(v.conns[k.c], k.i)
    ensures k in v.held && HeldOk(v, inUse, k)
  {
    assert Covered(k.c, v.conns[k.c], v.held);
  }

  lemma DispatchEffect(
    services: Conn.Services, s: Conn.State, pre: Option<string>, body: Option<string>, post: Option<string>)
    requires Conn.Enabled(s, Conn.Dispatch(pre, body, post))
    ensures var h := s.headers[|s.headers| - 1];
            var s' := Conn.Next(services, s, Conn.Dispatch(pre, body, post));
            && s' == Conn.OnVerdict(s, Conn.Judge(services, h, pre, body, post))
                     .(readLog := s.readLog + [Calls.BodyRead(!Conn.BodyFails(services, h, pre, body))])
            && s'.index == s.index && !s'.reader.Dispatching?
  {
    hide Conn.Judge;
  }

  lemma AdvanceFacts(services: Conn.Services, conns: map<nat, Conn.State>, c: nat, e: Conn.Event)
    requires Behaved(services, conns) && c in conns && Conn.Enabled(conns[c], e) && Silent(e)
    ensures var s, s' := conns[c], Conn.Next(services, conns[c], e);
            && s'.headers == s.headers && (s.reader.Top? ==> s'.reader.Top?)
            && (forall i: nat :: Conn.Open(s', i) <==> Conn.Open(s, i))
            && (forall i: nat :: Replying(s, i) ==> Replying(s', i) && s'.tasks[i].text == s.tasks[i].text)
            && s'.index == s.index && (s'.reader.Dispatching? ==> s.reader.Dispatching?)
  {
    var s := conns[c];
    Conn.ReachableInv(services, s);
    if e.Dispatch? {
      assert Conn.Places(s, |s.headers| - 1) == 1;
    }
    SilentFacts(services, s, e);
  }

  lemma WriteKeeps(
    services: Conn.Services, v: Locals, inUse: map<RpcRequest, Tag>, sending: map<RpcResponse, ReplyTag>, k: Key)
    requires Sound(v, inUse, sending) && Behaved(services, v.conns) && k in v.replies && k !in v.written
    ensures k.c in v.conns && Conn.Enabled(v.conns[k.c], Conn.Respond(k.i))
    ensures Sound(v.(conns := v.conns[k.c := Conn.OnRespond(v.conns[k.c], k.i)], written := v.written + {k}),
                  inUse, sending)
    ensures Behaved(services, v.conns[k.c := Conn.OnRespond(v.conns[k.c], k.i)])
  {
    hide Sound;
    ReplyContents(v, inUse, sending, k);
    WriteFacts(services, v.conns[k.c], k.i);
    BehavedStep(services, v.conns, k.c, Conn.Respond(k.i));
    WriteSound(v, inUse, sending, k);
  }

  lemma WriteFacts(services: Conn.Services, s: Conn.State, i: nat)
    requires Conn.Reachable(services, s) && Conn.Enabled(s, Conn.Respond(i))
    ensures Conn.ReaderFits(s) && !(s.reader.Dispatching? && i == |s.headers| - 1)
  {
    Conn.ReachableInv(services, s);
    assert Conn.Places(s, i) <= 1;
  }

  // ------------------------------------------------------------------ whole runs

  /**
    Any schedule of steps over any number of connections. Pooling is transparent: the connections
    and all the messages they write are those of the plain server, and each connection makes a run
    of its own machine, so nothing that was proved of one connection is lost by sharing.
   */
  method Drive(host: Host, schedule: seq<Action>) returns (sent: seq<Sent>)
    requires host.Valid()
    modifies host, host.server, host.server.pool, host.server.replyPool, host.codecs.Values
    ensures host.Valid()
    ensures (PlainOf(host.v), sent) == PlainRun(host.services, PlainOf(old(host.v)), schedule)
    ensures forall c :: c in host.v.conns ==> Conn.Reachable(host.services, host.v.conns[c])
  {
    var server := host.server;
    sent := [];
    for n := 0 to |schedule|
      invariant host.Valid()
      invariant (PlainOf(host.v), sent) == PlainRun(host.services, PlainOf(old(host.v)), schedule[..n])
      invariant fresh(server.pool - old(server.pool)) && fresh(server.replyPool - old(server.replyPool))
      invariant fresh(host.codecs.Values - old(host.codecs.Values))
    {
      assert schedule[..n + 1][..n] == schedule[..n];
      var more := Take(host, schedule[n]);
      sent := sent + more;
    }
    assert schedule[..|schedule|] == schedule;
  }

  method Take(host: Host, a: Action) returns (sent: seq<Sent>)
    requires host.Valid()
    modifies host, host.server, host.server.pool, host.server.replyPool, host.codecs.Values
    ensures host.Valid()
    ensures (PlainOf(host.v), sent) == PlainStep(host.services, PlainOf(old(host.v)), a)
    ensures fresh(host.server.pool - old(host.server.pool))
    ensures fresh(host.server.replyPool - old(host.server.replyPool))
    ensures fresh(host.codecs.Values - old(host.codecs.Values))
  {
    hide *;
    match a {
      case Accept(_) => TakeReading(host, a); sent := [];
      case Get(_) => TakeReading(host, a); sent := [];
      case Header(_, _) => TakeReading(host, a); sent := [];
      case Step(_, _) => TakeReading(host, a); sent := [];
      case FreeReply(_) => TakeReleasing(host, a); sent := [];
      case FreeRequest(_) => TakeReleasing(host, a); sent := [];
      case GetReply(k) => TakePreparing(host, k); sent := [];
      case WriteReply(k) => sent := TakeWriting(host, k);
    }
  }

  method TakeReading(host: Host, a: Action)
    requires host.Valid() && (a.Accept? || a.Get? || a.Header? || a.Step?)
    modifies host, host.server, host.server.pool, host.codecs.Values
    ensures host.Valid() && fresh(host.server.pool - old(host.server.pool))
    ensures host.server.replyPool == old(host.server.replyPool)
    ensures fresh(host.codecs.Values - old(host.codecs.Values))
    ensures (PlainOf(host.v), []) == PlainStep(host.services, PlainOf(old(host.v)), a)
  {
    hide Host.Valid, Conn.Next, Conn.Enabled, Conn.ResponseTo;
    var v := host.v;
    match a {
      case Accept(c) =>
        if c !in v.conns { host.Connect(c); }
      case Get(c) =>
        if c in v.conns && v.conns[c].reader.Top? {
          if c in v.blank {
            assert v.blank.Keys + {c} == v.blank.Keys;
          } else {
            host.Fetch(c);
          }
        }
      case Header(c, item) =>
        if c in v.blank {
          BlankInPool(host, c);
          match item {
            case Whole(m) => host.ReadHeader(c, m);
            case Torn => host.FailHeader(c);
          }
        }
      case Step(c, e) =>
        if c in v.conns && Conn.Enabled(v.conns[c], e) && Silent(e) {
          match e {
            case Dispatch(pre, body, post) => host.Dispatch(c, pre, body, post);
            case _ => host.Advance(c, e);
          }
        }
    }
  }

  method TakePreparing(host: Host, k: Key)
    requires host.Valid()
    modifies host`v, host.server, host.server.replyPool
    ensures host.Valid() && fresh(host.server.replyPool - old(host.server.replyPool))
    ensures host.server.pool == old(host.server.pool)
    ensures (PlainOf(host.v), []) == PlainStep(host.services, PlainOf(old(host.v)), GetReply(k))
  {
    hide Host.Valid, Conn.Next, Conn.Enabled, Conn.ResponseTo;
    var v := host.v;
    if k in v.held {
      HeldHasConn(host, k);
      if Replying(v.conns[k.c], k.i) {
        if k in v.replies {
          assert v.replies.Keys + {k} == v.replies.Keys;
        } else {
          host.Prepare(k);
        }
      }
    }
  }

  method TakeWriting(host: Host, k: Key) returns (sent: seq<Sent>)
    requires host.Valid()
    modifies host`v, host.codecs.Values
    ensures host.Valid()
    ensures (PlainOf(host.v), sent) == PlainStep(host.services, PlainOf(old(host.v)), WriteReply(k))
  {
    hide Sound, Behaved, CodecsFit, Conn.Next, Conn.ResponseTo;
    var v := host.v;
    sent := [];
    if k in v.replies && k !in v.written {
      ReplyContents(v, host.server.inUse, host.server.sending, k);
      var message := host.Write(k);
      sent := [Sent(k, message)];
    }
  }

  method TakeReleasing(host: Host, a: Action)
    requires host.Valid() && (a.FreeReply? || a.FreeRequest?)
    modifies host`v, host.server, host.server.pool, host.server.replyPool
    ensures host.Valid()
    ensures host.server.pool == old(host.server.pool) && host.server.replyPool == old(host.server.replyPool)
    ensures (PlainOf(host.v), []) == PlainStep(host.services, PlainOf(old(host.v)), a)
  {
    hide Sound, Behaved, CodecsFit, Conn.Next, Conn.ResponseTo;
    var v := host.v;
    match a {
      case FreeReply(k) =>
        if k in v.written {
          ReplyFacts(v, host.server.inUse, host.server.sending, k);
          host.ReleaseResponse(k);
        }
      case FreeRequest(k) =>
        if k in v.held && k !in v.replies {
          HeldFacts(v, host.server.inUse, host.server.sending, k);
          if !Conn.Open(v.conns[k.c], k.i) { host.ReleaseRequest(k); }
        }
    }
  }

  /**
    Ownership at any moment of any run: two requests never hold the same object, the object of a
    request is not on the free list, and until it is given back it holds the number and the method
    that were read for that request; the same for the responses being sent.
   */
  lemma Ownership(host: Host, k: Key, k': Key)
    requires host.Valid() && k in host.v.held && k' in host.v.held
    ensures host.v.held[k] == host.v.held[k'] <==> k == k'
    ensures host.v.held[k] !in host.server.requests
    ensures k.c in host.v.conns && k.i < |host.v.conns[k.c].headers|
    ensures host.v.held[k].number == host.v.conns[k.c].headers[k.i].number
    ensures host.v.held[k].serviceMethod == host.v.conns[k.c].headers[k.i].name
    ensures k in host.v.replies ==> host.v.replies[k] !in host.server.responses
    ensures k in host.v.replies && k' in host.v.replies ==> (host.v.replies[k] == host.v.replies[k'] <==> k == k')
  {
    HeldFacts(host.v, host.server.inUse, host.server.sending, k);
    HeldFacts(host.v, host.server.inUse, host.server.sending, k');
    if k in host.v.replies {
      ReplyFacts(host.v, host.server.inUse, host.server.sending, k);
    }
    if k' in host.v.replies {
      ReplyFacts(host.v, host.server.inUse, host.server.sending, k');
    }
  }

  /**
    The same for reading loops that wait for a header: their objects are wiped, on no free list, and
    held by no request and no other loop.
   */
  lemma ReaderOwnership(host: Host, c: nat)
    requires host.Valid() && c in host.v.blank
    ensures host.v.blank[c].number == 0 && host.v.blank[c].serviceMethod == ""
    ensures host.v.blank[c] !in host.server.requests
    ensures forall c' :: c' in host.v.blank && c' != c ==> host.v.blank[c'] != host.v.blank[c]
    ensures forall k :: k in host.v.held ==> host.v.held[k] != host.v.blank[c]
  {
    OthersUntouched(host.v, host.server.inUse, c);
  }

  // ------------------------------------------------------------------ nothing leaks

  /** No step but a new connection changes anything or writes anything. */
  ghost predicate Settled(services: Conn.Services, p: Plain) {
    forall a: Action :: !a.Accept? ==> PlainStep(services, p, a) == (p, [])
  }

  /** Responses are written and given back. */
  lemma RepliesMove(services: Conn.Services, v: Locals, sending: map<RpcResponse, ReplyTag>, k: Key)
    requires RepliesSound(v, sending) && (k in v.replies || k in v.written)
    ensures !Settled(services, PlainOf(v))
  {
    var p := PlainOf(v);
    assert ReplySound(v, sending, k);
    if k in v.written {
      assert k !in PlainStep(services, p, FreeReply(k)).0.written;
    } else {
      assert |PlainStep(services, p, WriteReply(k)).1| == 1;
    }
  }

  /** Requests that are being served move on, towards a response object of their own. */
  lemma TasksMove(services: Conn.Services, v: Locals, c: nat, i: nat)
    requires ConnsSound(v) && v.replies == map[] && c in v.conns && i in v.conns[c].tasks
    ensures !Settled(services, PlainOf(v))
  {
    var p, s, k := PlainOf(v), v.conns[c], Key(c, i);
    if s.tasks[i].Running? {
      var e := Conn.MethodReturns(i, Null, "");
      assert PlainStep(services, p, Step(c, e)).0.conns[c].tasks[i].Replying?;
    } else {
      assert Covered(c, s, v.held);
      assert Conn.Open(s, i);
      assert k in PlainStep(services, p, GetReply(k)).0.replies;
    }
  }

  /** Reading loops move on until they are closed. */
  lemma ReaderMoves(services: Conn.Services, v: Locals, inUse: map<RpcRequest, Tag>, c: nat)
    requires BlankSound(v, inUse) && c in v.conns && Conn.ReaderFits(v.conns[c]) && v.conns[c].tasks == map[]
    requires !v.conns[c].reader.Closed?
    ensures !Settled(services, PlainOf(v))
  {
    var p, s := PlainOf(v), v.conns[c];
    match s.reader
    case Top =>
      if c in v.blank {
        assert PlainStep(services, p, Header(c, Torn)).0.conns[c].reader.Waiting?;
      } else {
        assert c in PlainStep(services, p, Get(c)).0.blank;
      }
    case Dispatching =>
      var e := Conn.Dispatch(None, None, None);
      hide Conn.Judge;
      assert !PlainStep(services, p, Step(c, e)).0.conns[c].reader.Dispatching?;
    case Waiting =>
      assert PlainStep(services, p, Step(c, Conn.Close)).0.conns[c].reader.Closed?;
    case Inline(_) =>
  }

  /** Requests that are answered are given back. */
  lemma HeldMoves(services: Conn.Services, v: Locals, inUse: map<RpcRequest, Tag>, k: Key)
    requires HeldSound(v, inUse) && v.replies == map[] && k in v.held
    requires k.c in v.conns ==> !Conn.Open(v.conns[k.c], k.i)
    ensures !Settled(services, PlainOf(v))
  {
    assert HeldOk(v, inUse, k);
    assert k !in PlainStep(services, PlainOf(v), FreeRequest(k)).0.held;
  }

  lemma AllTasksDone(
    services: Conn.Services, v: Locals, inUse: map<RpcRequest, Tag>, sending: map<RpcResponse, ReplyTag>)
    requires Sound(v, inUse, sending) && Settled(services, PlainOf(v))
    ensures v.replies == map[] && v.written == {}
    ensures forall c :: c in v.conns ==> v.conns[c].tasks == map[]
  {
    hide Settled, PlainOf, ReplySound, BlankSound, HeldSound, ConnsSound;
    if k :| k in v.replies || k in v.written {
      RepliesMove(services, v, sending, k);
    }
    assert v.replies == map[];
    forall c | c in v.conns ensures v.conns[c].tasks == map[] {
      if i :| i in v.conns[c].tasks {
        TasksMove(services, v, c, i);
      }
    }
  }

  /**
    Nothing leaks. When no step is left but to accept a connection, every loop has closed its
    connection, every request was answered exactly once, and every header object that is not free
    is with nobody: no request, response or loop holds one.
   */
  lemma NothingLeaks(host: Host)
    requires host.Valid() && Settled(host.services, PlainOf(host.v))
    ensures host.v.blank == map[] && host.v.held == map[] && host.v.replies == map[] && host.v.written == {}
    ensures forall c :: c in host.v.conns ==> host.v.conns[c].reader.Closed?
    ensures forall c, i: nat :: c in host.v.conns && i < |host.v.conns[c].headers| ==>
              Conn.AnswersTo(host.v.conns[c].answers, i) == 1
  {
    var v, inUse, sending := host.v, host.server.inUse, host.server.sending;
    AllTasksDone(host.services, v, inUse, sending);
    hide Settled, PlainOf, CodecsFit, Server.ValidRequests, Server.ValidResponses;
    forall c | c in v.conns ensures v.conns[c].reader.Closed? {
      Conn.ReachableInv(host.services, v.conns[c]);
      if !v.conns[c].reader.Closed? {
        ReaderMoves(host.services, v, inUse, c);
      }
    }
    if k :| k in v.held {
      HeldMoves(host.services, v, inUse, k);
    }
    if c :| c in v.blank {
      BlankFacts(v, inUse, sending, c);
    }
    forall c, i: nat | c in v.conns && i < |v.conns[c].headers| ensures Conn.AnswersTo(v.conns[c].answers, i) == 1 {
      Conn.ExactlyOneAnswer(host.services, v.conns[c], i);
    }
  }
}
