/**
  The `Client` and `Call` objects of client.go. Each method is the code that runs under one hold
  of `mutex`, or between two of them. Module `ClientHost` runs them.
 */
module Client {
  import opened Basics
  import Calls

  /** What `call.Error` may be: an error of the client, or the text of a ServerError. */
  datatype Fault = Local(error: Error) | FromServer(text: string)

  /**
    What a caller can see of its call: the values waiting in the Done channel, how often the
    default branch of `done` ran, and the fields that hold the outcome.
   */
  datatype Seen = Seen(queued: nat, discarded: nat, error: Option<Fault>, reply: Option<Json>)

  const UNSEEN: Seen := Seen(0, 0, None, None)

  function OutcomeOf(fault: Fault): Calls.Outcome {
    match fault
    case Local(x) => Calls.Failed(x)
    case FromServer(text) => Calls.ServerFault(text)
  }

  /** An outcome is written into the call; a reply leaves the error field alone. */
  function Filled(s: Seen, o: Calls.Outcome): Seen {
    match o
    case Reply(v) => s.(reply := Some(v))
    case ServerFault(text) => s.(error := Some(FromServer(text)))
    case Failed(x) => s.(error := Some(Local(x)))
  }

  /** An outcome is written into the call and `done` runs. */
  function Signalled(s: Seen, capacity: nat, o: Calls.Outcome): Seen {
    var filled := Filled(s, o);
    if s.queued < capacity then filled.(queued := s.queued + 1) else filled.(discarded := s.discarded + 1)
  }

  class Call {
    const serviceMethod: string
    const args: Json
    const capacity: nat // of the Done channel
    var queued: nat
    var discarded: nat
    var error: Option<Fault>
    var reply: Option<Json>

    constructor (serviceMethod: string, args: Json, capacity: nat)
      ensures this.serviceMethod == serviceMethod && this.args == args && this.capacity == capacity
      ensures Look() == UNSEEN
    {
      this.serviceMethod, this.args, this.capacity := serviceMethod, args, capacity;
      queued, discarded, error, reply := 0, 0, None, None;
    }

    function Look(): Seen
      reads this
    {
      Seen(queued, discarded, error, reply)
    }

    /** Sends on the Done channel when there is room, and never blocks. */
    method Done()
      modifies this`queued, this`discarded
      ensures queued == old(queued) + One(old(queued) < capacity)
      ensures discarded == old(discarded) + One(old(queued) >= capacity)
    {
      if queued < capacity {
        queued := queued + 1;
      } else {
        discarded := discarded + 1;
      }
    }

    method Fail(fault: Fault)
      modifies this
      ensures Look() == Signalled(old(Look()), capacity, OutcomeOf(fault))
    {
      error := Some(fault);
      Done();
    }
  }

  class Client {
    var number: nat
    var pending: map<nat, Call>
    var closing: bool
    var shutdown: bool
    var requestNumber: nat     // the reused request header
    var requestMethod: string

    ghost function View(): Calls.Table<Call>
      reads this
    {
      Calls.Table(number, pending, closing, shutdown)
    }

    ghost predicate Valid()
      reads this
    {
      && number < TWO_TO_THE_64
      && (forall s, s' :: s in pending && s' in pending && s != s' ==> pending[s] != pending[s'])
    }

    constructor ()
      ensures Valid() && View() == Calls.Table(0, map[], false, false)
    {
      number, pending, closing, shutdown := 0, map[], false, false;
      requestNumber, requestMethod := 0, "";
    }

    /** True when this call closed the client; otherwise the answer is ErrShutdown. */
    method Close() returns (first: bool)
      requires Valid()
      modifies this`closing
      ensures Valid() && first == !old(closing) && View() == old(View()).(closing := true)
    {
      first := !closing;
      closing := true;
    }

    /** The locked section of `send`, and what follows it up to the write. */
    method Register(call: Call) returns (slot: Option<nat>)
      requires Valid() && (Calls.Refuses(View()) || forall s :: s in pending ==> pending[s] != call)
      modifies this, call
      ensures Valid()
      ensures slot.None? <==> Calls.Refuses(old(View()))
      ensures slot.Some? ==>
                && slot.value == old(number) && View() == Calls.Registered(old(View()), call)
                && requestNumber == slot.value && requestMethod == call.serviceMethod
                && call.Look() == old(call.Look())
      ensures slot.None? ==>
                && View() == old(View())
                && call.Look() == Signalled(old(call.Look()), call.capacity, Calls.Failed(Shutdown))
    {
      if shutdown || closing {
        call.Fail(Local(Shutdown));
        return None;
      }
      slot := Some(number);
      pending := pending[number := call];
      number := (number + 1) % TWO_TO_THE_64;
      requestNumber, requestMethod := slot.value, call.serviceMethod;
    }

    /** `pending[number]`, then `delete`: the locked section of `receive` and of a failed write. */
    method Take(number: nat) returns (call: Option<Call>)
      requires Valid()
      modifies this`pending
      ensures Valid() && View() == Calls.Removed(old(View()), number)
      ensures call == Calls.Lookup(old(View()), number)
    {
      call := if number in pending then Some(pending[number]) else None;
      pending := pending - {number};
    }

    /**
      The end of `receive`: every call still pending gets the final error and is signalled exactly
      once, in the order in which the map is ranged over, and `pending` is left as it is.
     */
    method Terminate(order: seq<nat>, error: Error)
      requires Valid() && Calls.Enumerates(order, pending)
      modifies this`shutdown, pending.Values
      ensures Valid() && View() == old(View()).(shutdown := true)
      ensures forall s :: s in pending ==>
                pending[s].Look() == Signalled(old(pending[s].Look()), pending[s].capacity,
                                               Calls.Failed(if error != EOF then error
                                                            else if closing then Shutdown
                                                            else UnexpectedEOF))
    {
      shutdown := true;
      var final := if error == EOF then (if closing then Shutdown else UnexpectedEOF) else error;
      for i := 0 to |order|
        invariant shutdown
        invariant forall m :: i <= m < |order| ==> pending[order[m]].Look() == old(pending[order[m]].Look())
        invariant forall m :: 0 <= m < i ==>
                    pending[order[m]].Look() == Signalled(old(pending[order[m]].Look()), pending[order[m]].capacity,
                                                          Calls.Failed(final))
      {
        var call := pending[order[i]];
        assert call in pending.Values;
        call.Fail(Local(final));
      }
      assert forall s :: s in pending ==> s in order;
    }

    /**
      The `switch` of `receive`, given the call taken from `pending`, what the body read and the
      PostReadResponse hook return, and whether the loop goes on (`None`).
     */
    method Finish(header: Calls.Header, call: Option<Call>, body: Calls.Body, post: Option<Error>)
      returns (stop: Option<Error>)
      modifies if call.Some? then {call.value} else {}
      ensures call.Some? ==>
                call.value.Look()
                == Signalled(old(call.value.Look()), call.value.capacity, Calls.OutcomeOf(header, body))
      ensures stop == Calls.StopError(call.Some?, header, body, post)
    {
      stop := None;
      if call.None? || header.error != "" {
        if body.BodyErr? {
          stop := Some(Calls.ReadingError("reading error body: ", body.error));
        }
        if call.Some? {
          call.value.Fail(FromServer(header.error));
        }
      } else {
        if post.Some? {
          stop := Some(Calls.ReadingError("execute client PostReadResponse error:", post.value));
        }
        match body {
          case BodyOk(v) =>
            call.value.reply := Some(v);
            call.value.Done();
          case BodyErr(x) =>
            call.value.Fail(Local(Calls.ReadingError("reading body ", x)));
        }
      }
    }
  }
}
