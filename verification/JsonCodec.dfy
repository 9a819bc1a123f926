/**
  The JSON codecs of json_codec.go. Messages have the shape of the Request and Response sections
  (1.1 and 1.2) of the JSON-RPC 1.0 specification; their text form is not modelled.
 */
module JsonCodec {
  import opened Basics
  import Calls

  /** A request id as it came in. A missing or `null` id is `None` in the messages below. */
  datatype RawId = Number(n: nat) | Opaque(text: string)

  /** `params` is the single element of the JSON array, `None` when it is missing or `null`. */
  datatype WireRequest = WireRequest(name: string, params: Option<Json>, id: Option<RawId>)

  /** `ErrorValue`: anything but a string or null, as `%v` shows it. */
  datatype ErrorField = NoError | ErrorText(text: string) | ErrorValue(shown: string)

  datatype WireResponse = WireResponse(id: Option<RawId>, result: Json, error: ErrorField)

  /** What a stream carries: a message, or the torn remains of a write that failed half way. */
  datatype Item<+T> = Whole(message: T) | Torn

  // ------------------------------------------------------------------ server side

  /** The server codec numbers requests itself and remembers the client's id under that number. */
  datatype ServerIndex = ServerIndex(number: nat, pending: map<nat, Option<RawId>>)

  const EMPTY_INDEX: ServerIndex := ServerIndex(0, map[])

  function Accepted(x: ServerIndex, id: Option<RawId>): ServerIndex {
    var n := (x.number + 1) % TWO_TO_THE_64;
    ServerIndex(n, x.pending[n := id])
  }

  function EncodeResponse(id: Option<RawId>, error: string, reply: Json): WireResponse {
    if error == "" then WireResponse(id, reply, NoError)
    else WireResponse(id, Null, ErrorText(error))
  }

  datatype Params = Decoded(args: Json) | Undecodable(text: string)

  /** The arguments that a request carries, or why it has none. */
  function DecodeParams(params: Option<Json>, failure: Option<string>): Params {
    match params
    case None => Undecodable("illegal argument for request params")
    case Some(value) => if failure.Some? then Undecodable(failure.value) else Decoded(value)
  }

  class JsonServerCodec {
    var number: nat
    var pending: map<nat, Option<RawId>>
    var params: Option<Json>

    ghost function View(): ServerIndex
      reads this
    {
      ServerIndex(number, pending)
    }

    constructor ()
      ensures View() == EMPTY_INDEX
    {
      number, pending, params := 0, map[], None;
    }

    method ReadRequestHeader(item: Item<WireRequest>) returns (header: Option<(string, nat)>)
      modifies this
      ensures header.None? <==> item.Torn?
      ensures header.None? ==> View() == old(View())
      ensures header.Some? ==>
                && View() == Accepted(old(View()), item.message.id)
                && header.value == (item.message.name, number)
                && params == item.message.params
    {
      params := None;
      match item {
        case Torn => header := None;
        case Whole(m) =>
          params := m.params;
          number := (number + 1) % TWO_TO_THE_64;
          pending := pending[number := m.id];
          header := Some((m.name, number));
      }
    }

    /**
      `wanted` is false for `ReadRequestBody(nil)`; `failure` is the verdict of json.Unmarshal on the
      params, which is asked for only when there are any.
     */
    method ReadRequestBody(wanted: bool, failure: Option<string>) returns (body: Params)
      ensures body == if wanted then DecodeParams(params, failure) else Decoded(Null)
    {
      if !wanted {
        return Decoded(Null);
      }
      match params {
        case None => return Undecodable("illegal argument for request params");
        case Some(value) =>
          match failure {
            case Some(text) => return Undecodable(text);
            case None => return Decoded(value);
          }
      }
    }

    /** `None` is the "invalid sequence number in response" error. */
    method WriteResponse(number: nat, error: string, reply: Json) returns (message: Option<WireResponse>)
      modifies this`pending
      ensures message.Some? <==> number in old(pending)
      ensures message.Some? ==> message.value == EncodeResponse(old(pending)[number], error, reply)
      ensures pending == old(pending) - {number}
    {
      if number !in pending {
        return None;
      }
      var id := pending[number];
      pending := pending - {number};
      if error == "" {
        message := Some(WireResponse(id, reply, NoError));
      } else {
        message := Some(WireResponse(id, Null, ErrorText(error)));
      }
    }
  }

  // ------------------------------------------------------------------ client side

  datatype HeaderResult = Good(header: Calls.Header) | Bad(error: Error)

  /** An absent id leaves the field at 0; an id that is not a uint64 fails to decode. */
  function ResponseNumber(id: Option<RawId>): Option<nat> {
    match id
    case None => Some(0)
    case Some(Number(n)) => if n < TWO_TO_THE_64 then Some(n) else None
    case Some(Opaque(_)) => None
  }

  function ErrorOf(m: WireResponse): Option<string> {
    if m.error == NoError && m.result != Null then Some("")
    else
      match m.error
      case ErrorText(x) => Some(if x == "" then "unspecified error" else x)
      case _ => None
  }

  function InvalidError(error: ErrorField): Error {
    match error
    case ErrorValue(shown) => Other("invalid error " + shown)
    case _ => Other("invalid error <nil>")
  }

  /** The header that ReadResponseHeader makes of a message, and the codec index afterwards. */
  function ReadHeader(index: map<nat, string>, m: WireResponse): (map<nat, string>, HeaderResult) {
    match ResponseNumber(m.id)
    case None => (index, Bad(Other("cannot unmarshal id")))
    case Some(n) =>
      var name := if n in index then index[n] else "";
      var result :=
        match ErrorOf(m)
        case None => Bad(InvalidError(m.error))
        case Some(text) => Good(Calls.Header(n, name, text));
      (index - {n}, result)
  }

  const TORN: Error := Other("unexpected end of JSON input")

  function ReadItem(index: map<nat, string>, item: Item<WireResponse>): (map<nat, string>, HeaderResult) {
    match item
    case Whole(m) => ReadHeader(index, m)
    case Torn => (index, Bad(TORN))
  }

  const NO_RESPONSE: WireResponse := WireResponse(None, Null, NoError)

  /** What is written for a call: its number goes out as the id. */
  function EncodeRequest(number: nat, serviceMethod: string, args: Json): WireRequest {
    WireRequest(serviceMethod, Some(args), Some(Number(number)))
  }

  class JsonClientCodec {
    var index: map<nat, string>
    var response: WireResponse

    constructor ()
      ensures index == map[] && response == NO_RESPONSE
    {
      index, response := map[], NO_RESPONSE;
    }

    /** The locked section at the start of WriteRequest. */
    method Note(number: nat, serviceMethod: string)
      modifies this`index
      ensures index == old(index)[number := serviceMethod]
    {
      index := index[number := serviceMethod];
    }

    /** A torn message leaves the zero response behind; it fails before the index is looked at. */
    method ReadResponseHeader(item: Item<WireResponse>) returns (result: HeaderResult)
      modifies this
      ensures (index, result) == ReadItem(old(index), item)
      ensures response == if item.Whole? then item.message else NO_RESPONSE
    {
      response := NO_RESPONSE;
      if item.Torn? {
        return Bad(TORN);
      }
      var m := item.message;
      response := m;
      var n: nat;
      match m.id {
        case None => n := 0;
        case Some(Number(k)) =>
          if k >= TWO_TO_THE_64 {
            return Bad(Other("cannot unmarshal id"));
          }
          n := k;
        case Some(Opaque(_)) => return Bad(Other("cannot unmarshal id"));
      }
      var name := if n in index then index[n] else "";
      index := index - {n};
      var text := "";
      if m.error != NoError || m.result == Null {
        match m.error {
          case ErrorText(x) => text := if x == "" then "unspecified error" else x;
          case ErrorValue(shown) => return Bad(Other("invalid error " + shown));
          case NoError => return Bad(Other("invalid error <nil>"));
        }
      }
      result := Good(Calls.Header(n, name, text));
    }

    /**
      A nil result would be dereferenced here, so the header read before must have been free of
      errors; `failure` is the verdict of json.Unmarshal.
     */
    method ReadResponseBody(failure: Option<Error>) returns (body: Calls.Body)
      requires ErrorOf(response) == Some("")
      ensures response.result != Null
      ensures body == match failure case None => Calls.BodyOk(response.result) case Some(x) => Calls.BodyErr(x)
    {
      match failure {
        case None => body := Calls.BodyOk(response.result);
        case Some(x) => body := Calls.BodyErr(x);
      }
    }
  }

  // ------------------------------------------------------------------ transport

  /**
    The shape that section 1.2 of the JSON-RPC 1.0 specification asks for: the id of the request,
    and a result or an error but not both.
   */
  lemma ResponseShape(id: Option<RawId>, error: string, reply: Json)
    ensures var m := EncodeResponse(id, error, reply);
            && m.id == id
            && (error == "" ==> m.error == NoError && m.result == reply)
            && (error != "" ==> m.error == ErrorText(error) && m.result == Null)
  {
  }

  /**
    What the service method returned, as the client sees it. Non-empty text arrives as that error;
    empty text with a non-null reply arrives as success; empty text with a null reply cannot be
    told from a malformed response and ends the receive loop.
   */
  lemma Transport(index: map<nat, string>, n: nat, error: string, reply: Json)
    requires n < TWO_TO_THE_64
    ensures var m := EncodeResponse(Some(Number(n)), error, reply);
            var (index', result) := ReadHeader(index, m);
            && index' == index - {n}
            && (result.Bad? <==> error == "" && reply == Null)
            && (result.Good? ==> result.header.number == n && result.header.error == error)
            && (result.Good? && error == "" ==> m.result == reply)
  {
  }

  /** The number that a response carries: an absent id counts as 0. */
  predicate Carries(m: WireResponse, n: nat) {
    n < TWO_TO_THE_64 && (m.id == Some(Number(n)) || (m.id == None && n == 0))
  }

  /**
    Any response at all. Its header reads exactly when its id is absent or a uint64 and it has an
    error text or, without an error, a result. It then names the method noted under its number, and
    an empty error text becomes one that is not.
   */
  lemma AnyResponse(index: map<nat, string>, m: WireResponse)
    ensures ReadHeader(index, m).1.Good? <==>
              && (exists n :: Carries(m, n))
              && (m.error.ErrorText? || (m.error.NoError? && m.result != Null))
    ensures forall n :: Carries(m, n) && ReadHeader(index, m).1.Good? ==>
              var h := ReadHeader(index, m).1.header;
              && h.number == n && h.serviceMethod == (if n in index then index[n] else "")
              && h.error == match m.error
                            case ErrorText(x) => if x == "" then "unspecified error" else x
                            case _ => ""
    ensures forall n :: Carries(m, n) ==> ReadHeader(index, m).0 == index - {n}
    ensures forall n :: Carries(m, n) && m.error == NoError && m.result == Null ==>
              ReadHeader(index, m).1 == Bad(Other("invalid error <nil>"))
    ensures forall n :: Carries(m, n) && m.error.ErrorValue? ==>
              ReadHeader(index, m).1 == Bad(Other("invalid error " + m.error.shown))
    ensures (forall n :: !Carries(m, n)) ==> ReadHeader(index, m).0 == index
  {
    if ResponseNumber(m.id).Some? {
      assert Carries(m, ResponseNumber(m.id).value);
    }
  }

  /** Reading undoes noting: the response to a request names the method of that request. */
  lemma NotedName(index: map<nat, string>, n: nat, name: string, m: WireResponse)
    requires n < TWO_TO_THE_64 && m.id == Some(Number(n))
    ensures var (index', result) := ReadHeader(index[n := name], m);
            index' == index - {n} && (result.Good? ==> result.header.serviceMethod == name)
  {
  }
}
