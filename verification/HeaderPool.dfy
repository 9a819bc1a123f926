/**
  The free lists of request and response headers (server.go), shared by all the connections of a
  server: real linked lists threaded through the `next` fields of the objects themselves.
 */
module HeaderPool {
  import opened Basics

  class RpcRequest {
    var serviceMethod: string
    var number: nat
    var next: RpcRequest?

    constructor ()
      ensures Zero()
    {
      serviceMethod, number, next := "", 0, null;
    }

    predicate Zero()
      reads this
    {
      serviceMethod == "" && number == 0 && next == null
    }
  }

  class RpcResponse {
    var serviceMethod: string
    var number: nat
    var error: string
    var next: RpcResponse?

    constructor ()
      ensures Zero()
    {
      serviceMethod, number, error, next := "", 0, "", null;
    }

    predicate Zero()
      reads this
    {
      serviceMethod == "" && number == 0 && error == "" && next == null
    }
  }

  function At<T>(list: seq<T>, i: nat): Option<T> {
    if i < |list| then Some(list[i]) else None
  }

  function Ref(r: RpcRequest?): Option<RpcRequest> {
    if r == null then None else Some(r)
  }

  function ResponseRef(r: RpcResponse?): Option<RpcResponse> {
    if r == null then None else Some(r)
  }

  /** The list that starts at `head` is exactly `list`, without repetition: it is acyclic. */
  ghost predicate RequestsFrom(head: RpcRequest?, list: seq<RpcRequest>)
    reads list
  {
    && Ref(head) == At(list, 0)
    && (forall i {:trigger list[i].next} :: 0 <= i < |list| ==> Ref(list[i].next) == At(list, i + 1))
    && (forall i, j :: 0 <= i < j < |list| ==> list[i] != list[j])
  }

  ghost predicate ResponsesFrom(head: RpcResponse?, list: seq<RpcResponse>)
    reads list
  {
    && ResponseRef(head) == At(list, 0)
    && (forall i {:trigger list[i].next} :: 0 <= i < |list| ==> ResponseRef(list[i].next) == At(list, i + 1))
    && (forall i, j :: 0 <= i < j < |list| ==> list[i] != list[j])
  }

  /** Taking the first object off a list leaves the rest of it, without that object. */
  lemma PopRequests(head: RpcRequest, list: seq<RpcRequest>)
    requires RequestsFrom(head, list)
    ensures list != [] && list[0] == head && head !in list[1..] && RequestsFrom(head.next, list[1..])
  {
    assert forall i :: 0 <= i < |list[1..]| ==> list[1..][i] == list[i + 1];
  }

  lemma PopResponses(head: RpcResponse, list: seq<RpcResponse>)
    requires ResponsesFrom(head, list)
    ensures list != [] && list[0] == head && head !in list[1..] && ResponsesFrom(head.next, list[1..])
  {
    assert forall i :: 0 <= i < |list[1..]| ==> list[1..][i] == list[i + 1];
  }

  /** Who holds a request object: a reading loop that has no header yet, or a request. */
  datatype Owner = Reader(c: nat) | Serving(key: Key)

  /** A request, by its connection and its index there. */
  datatype Key = Key(c: nat, i: nat)

  /** What the holder of an object has put into it. */
  datatype Tag = Tag(owner: Owner, number: nat, name: string)

  datatype ReplyTag = ReplyTag(key: Key, number: nat, name: string, error: string)

  /**
    The part of `Server` that serves objects out. `inUse` and `sending` are ghost ownership records:
    who holds each object that was handed out and not given back, and what it must contain.
   */
  class Server {
    var freeReq: RpcRequest?
    var freeResp: RpcResponse?
    ghost var requests: seq<RpcRequest>            // what is reachable from freeReq
    ghost var responses: seq<RpcResponse>          // what is reachable from freeResp
    ghost var inUse: map<RpcRequest, Tag>
    ghost var sending: map<RpcResponse, ReplyTag>

    ghost var pool: set<RpcRequest>                // every request object ever handed out
    ghost var replyPool: set<RpcResponse>

    /** The list is well formed, no object in use is on it, and each holds what its holder put there. */
    ghost predicate ValidRequests()
      reads this`freeReq, this`requests, this`inUse, this`pool, pool
    {
      && (forall r :: r in requests ==> r in pool)
      && inUse.Keys <= pool
      && RequestsFrom(freeReq, requests)
      && (forall r :: r in inUse ==> r !in requests)
      && (forall r :: r in inUse ==> r.number == inUse[r].number && r.serviceMethod == inUse[r].name)
    }

    ghost predicate ValidResponses()
      reads this`freeResp, this`responses, this`sending, this`replyPool, replyPool
    {
      && (forall r :: r in responses ==> r in replyPool)
      && sending.Keys <= replyPool
      && ResponsesFrom(freeResp, responses)
      && (forall r :: r in sending ==> r !in responses)
      && (forall r :: r in sending ==>
            r.number == sending[r].number && r.serviceMethod == sending[r].name && r.error == sending[r].error)
    }

    constructor ()
      ensures ValidRequests() && ValidResponses()
      ensures requests == [] && responses == [] && inUse == map[] && sending == map[] && pool == {} && replyPool == {}
    {
      freeReq, freeResp, requests, responses, inUse, sending := null, null, [], [], map[], map[];
      pool, replyPool := {}, {};
    }

    /** The first free object, wiped, or a new one; nobody else holds it. */
    method GetRequest(ghost owner: Owner) returns (r: RpcRequest)
      requires ValidRequests()
      modifies this`freeReq, this`requests, this`inUse, this`pool, pool
      ensures ValidRequests() && r.Zero() && pool == old(pool) + {r} && fresh(pool - old(pool))
      ensures r !in old(inUse) && inUse == old(inUse)[r := Tag(owner, 0, "")]
      ensures old(requests) == [] ==> fresh(r) && requests == []
      ensures old(requests) != [] ==> old(requests) == [r] + requests
    {
      if freeReq == null {
        r := new RpcRequest();
      } else {
        r := freeReq;
        PopRequests(r, requests);
        freeReq := r.next;
        requests := requests[1..];
        hide RequestsFrom;
        r.serviceMethod, r.number, r.next := "", 0, null;
      }
      inUse := inUse[r := Tag(owner, 0, "")];
      pool := pool + {r};
    }

    /** ReadRequestHeader fills in the object, which now belongs to the request. */
    method FillRequest(r: RpcRequest, number: nat, name: string, ghost key: Key)
      requires ValidRequests() && r in inUse
      modifies this`inUse, r`number, r`serviceMethod
      ensures ValidRequests()
      ensures inUse == old(inUse)[r := Tag(Serving(key), number, name)]
    {
      r.serviceMethod, r.number := name, number;
      inUse := inUse[r := Tag(Serving(key), number, name)];
    }

    /** Puts an object in front of the list. Its fields keep their stale values until it is reused. */
    method FreeRequest(r: RpcRequest)
      requires ValidRequests() && r in inUse
      modifies this`freeReq, this`requests, this`inUse, r`next
      ensures ValidRequests() && requests == [r] + old(requests) && inUse == old(inUse) - {r}
    {
      r.next := freeReq;
      freeReq := r;
      ghost var list := requests;
      requests := [r] + requests;
      assert forall i :: 1 <= i < |requests| ==> requests[i] == list[i - 1] && requests[i] != r;
      inUse := inUse - {r};
    }

    /** A header that could not be read: its object goes to the garbage collector. */
    ghost method ForgetRequest(r: RpcRequest)
      requires ValidRequests()
      modifies this`inUse
      ensures ValidRequests() && inUse == old(inUse) - {r}
    {
      inUse := inUse - {r};
    }

    method GetResponse(ghost key: Key) returns (p: RpcResponse)
      requires ValidResponses()
      modifies this`freeResp, this`responses, this`sending, this`replyPool, replyPool
      ensures ValidResponses() && p.Zero() && replyPool == old(replyPool) + {p} && fresh(replyPool - old(replyPool))
      ensures p !in old(sending) && sending == old(sending)[p := ReplyTag(key, 0, "", "")]
      ensures old(responses) == [] ==> fresh(p) && responses == []
      ensures old(responses) != [] ==> old(responses) == [p] + responses
    {
      if freeResp == null {
        p := new RpcResponse();
      } else {
        p := freeResp;
        PopResponses(p, responses);
        freeResp := p.next;
        responses := responses[1..];
        hide ResponsesFrom;
        p.serviceMethod, p.number, p.error, p.next := "", 0, "", null;
      }
      sending := sending[p := ReplyTag(key, 0, "", "")];
      replyPool := replyPool + {p};
    }

    /** `sendResponse` fills in the response from the request object. */
    method FillResponse(p: RpcResponse, r: RpcRequest, error: string)
      requires ValidResponses() && p in sending && sending[p].error == ""
      modifies this`sending, p`number, p`serviceMethod, p`error
      ensures ValidResponses()
      ensures sending == old(sending)[p := ReplyTag(old(sending)[p].key, r.number, r.serviceMethod, error)]
    {
      p.serviceMethod := r.serviceMethod;
      if error != "" {
        p.error := error;
      }
      p.number := r.number;
      sending := sending[p := ReplyTag(sending[p].key, r.number, r.serviceMethod, error)];
    }

    /** The first half of `sendResponse`: a response object that names the request it answers. */
    method PrepareResponse(r: RpcRequest, error: string, ghost key: Key) returns (p: RpcResponse)
      requires ValidResponses()
      modifies this`freeResp, this`responses, this`sending, this`replyPool, replyPool
      ensures ValidResponses() && replyPool == old(replyPool) + {p} && fresh(replyPool - old(replyPool))
      ensures p !in old(sending)
      ensures old(responses) != [] ==> [p] + responses == old(responses)
      ensures sending == old(sending)[p := ReplyTag(key, old(r.number), old(r.serviceMethod), error)]
    {
      p := GetResponse(key);
      FillResponse(p, r, error);
    }

    method FreeResponse(p: RpcResponse)
      requires ValidResponses() && p in sending
      modifies this`freeResp, this`responses, this`sending, p`next
      ensures ValidResponses() && responses == [p] + old(responses) && sending == old(sending) - {p}
    {
      p.next := freeResp;
      freeResp := p;
      ghost var list := responses;
      responses := [p] + responses;
      assert forall i :: 1 <= i < |responses| ==> responses[i] == list[i - 1] && responses[i] != p;
      sending := sending - {p};
    }
  }
}
