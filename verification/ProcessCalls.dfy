/** One process handling one message, on the node's own request table. A handler is any
    script of respond, respondError and forward calls; what it returns is answered after it.
    Whether a send gets through is part of the script. */
module ProcessCalls {
  import opened Wrappers
  import opened Refs
  import opened Requests

  datatype Error = AlreadyResponded | NoRequest | ErrorNil | SendFailed | NotPending

  /** A handler's call. `sent` is what a send to another node, or a push, would come to. */
  datatype Call<+V> = Respond(v: V, sent: bool) | RespondError(given: bool, sent: bool) | Forward(sent: bool)

  /** How a handler ends: an Ask's response and error, with what sending each would come
      to, or a panic and the calls that the actor's Panic then makes. */
  datatype End<+V> =
    | Returned(response: Option<V>, failed: bool, errorSent: bool, responseSent: bool)
    | Panicked(script: seq<Call<V>>)

  class Process<V> {
    const node: NodeId
    const requests: RequestManager<V>
    var current: Option<Ref>
    var responded: bool
    var wire: seq<(Ref, Answer<V>)>   // responses handed to the sender for other nodes
    var forwards: seq<Option<Ref>>    // references passed on in forwarded envelopes

    constructor (node: NodeId, requests: RequestManager<V>)
      ensures this.node == node && this.requests == requests
      ensures current.None? && !responded && wire == [] && forwards == []
    {
      this.node, this.requests := node, requests;
      current, responded, wire, forwards := None, false, [], [];
    }

    /** Everything that went out for messages so far. */
    function Out(): nat
      reads this, requests
    {
      |wire| + |requests.called| + |forwards|
    }

    predicate CanAnswer(sent: bool)
      reads this, requests
    {
      current.Some? && if current.value.node != node then sent else current.value.id in requests.pending
    }

    /** Succeeds exactly for an unanswered message whose request can still be reached, and
        then answers that request and no other. */
    method Answer(answer: Answer<V>, sent: bool) returns (e: Option<Error>)
      requires requests.Valid()
      modifies this`responded, this`wire, requests`pending, requests`called
      ensures requests.Valid()
      ensures e.None? <==> !old(responded) && old(CanAnswer(sent))
      ensures old(responded) ==> e == Some(AlreadyResponded)
      ensures !old(responded) && current.None? ==> e == Some(NoRequest)
      ensures responded == (old(responded) || e.None?)
      ensures if e.None? && current.value.node != node
        then wire == old(wire) + [(current.value, answer)] && requests.called == old(requests.called)
              && requests.pending == old(requests.pending)
        else if e.None?
        then wire == old(wire) && requests.called == old(requests.called) + [(current.value.id, answer)]
              && requests.pending == old(requests.pending) - {current.value.id}
        else wire == old(wire) && requests.called == old(requests.called) && requests.pending == old(requests.pending)
    {
      if responded {
        return Some(AlreadyResponded);
      }
      if current.None? {
        return Some(NoRequest);
      }
      if current.value.node != node {
        if !sent {
          return Some(SendFailed);
        }
        wire := wire + [(current.value, answer)];
      } else {
        var found := requests.Complete(current.value.id, answer);
        if !found {
          return Some(NotPending);
        }
      }
      responded := true;
      return None;
    }

    method Do(c: Call<V>) returns (e: Option<Error>)
      requires requests.Valid()
      modifies this`responded, this`wire, this`forwards, requests`pending, requests`called
      ensures requests.Valid()
      ensures old(responded) ==> e == Some(AlreadyResponded)
      ensures responded == (old(responded) || e.None?)
      ensures Out() == old(Out()) + if e.None? then 1 else 0
      ensures forwards == old(forwards) + if e.None? && c.Forward? then [current] else []
    {
      match c
      case Respond(v, sent) => e := Answer(Value(v), sent);
      case RespondError(given, sent) =>
        if responded {
          return Some(AlreadyResponded);
        }
        if !given {
          return Some(ErrorNil);
        }
        e := Answer(Failed, sent);
      case Forward(sent) =>
        if responded {
          return Some(AlreadyResponded);
        }
        if !sent {
          return Some(SendFailed);
        }
        forwards := forwards + [current];
        responded := true;
        e := None;
    }

    /** What follows an Ask's handler: its error, and then its response, are sent unless
        something was sent already. A handler that returns neither leaves the Ask open. */
    method FinishAsk(response: Option<V>, failed: bool, errorSent: bool, responseSent: bool)
      requires requests.Valid()
      modifies this`responded, this`wire, requests`pending, requests`called
      ensures requests.Valid()
      ensures responded == (old(responded)
        || (failed && old(CanAnswer(errorSent))) || (response.Some? && old(CanAnswer(responseSent))))
      ensures Out() == old(Out()) + if responded && !old(responded) then 1 else 0
    {
      if responded {
        return;
      }
      if failed {
        var e := Answer(Failed, errorSent);
      }
      if response.Some? {
        var e := Answer(Value(response.value), responseSent);
      }
    }

    /** A run of calls, of the handler or of Panic. */
    method DoAll(script: seq<Call<V>>) returns (results: seq<Option<Error>>)
      requires requests.Valid()
      modifies this`responded, this`wire, this`forwards, requests`pending, requests`called
      ensures requests.Valid() && |results| == |script|
      ensures Out() == old(Out()) + if responded && !old(responded) then 1 else 0
      ensures responded <==> old(responded) || None in results
      ensures forall i :: 0 <= i < |results| && old(responded) ==> results[i] == Some(AlreadyResponded)
      ensures forall i, j :: 0 <= i < j < |results| && results[i].None? ==> results[j] == Some(AlreadyResponded)
    {
      results := [];
      for i := 0 to |script|
        invariant requests.Valid() && |results| == i
        invariant Out() == old(Out()) + if responded && !old(responded) then 1 else 0
        invariant responded <==> old(responded) || None in results
        invariant forall j :: 0 <= j < i && old(responded) ==> results[j] == Some(AlreadyResponded)
        invariant forall j, k :: 0 <= j < k < i && results[j].None? ==> results[k] == Some(AlreadyResponded)
      {
        var e := Do(script[i]);
        results := results + [e];
      }
    }

    /** Handles one message: whatever its handler calls and returns, and whatever Panic
        calls after a panic, at most one reply or forward goes out for it, and the message
        counts as answered exactly if one did. Nothing is returned by a handler that
        panics, so only its calls and those of Panic answer. */
    method Invoke(request: Option<Ref>, script: seq<Call<V>>, end: End<V>) returns (results: seq<Option<Error>>)
      requires requests.Valid()
      modifies this, requests`pending, requests`called
      ensures requests.Valid() && current == request
      ensures Out() == old(Out()) + if responded then 1 else 0
      ensures |results| == |script| + if end.Panicked? then |end.script| else 0
      ensures forall i, j :: 0 <= i < j < |results| && results[i].None? ==> results[j] == Some(AlreadyResponded)
      ensures None in results ==> responded
      ensures end.Panicked? || request.None? || request.value.id == 0 ==> (responded <==> None in results)
    {
      current := request;
      responded := false;
      results := DoAll(script);
      match end
      case Panicked(calls) =>
        var more := DoAll(calls);
        results := results + more;
      case Returned(response, failed, errorSent, responseSent) =>
        if request.Some? && request.value.id > 0 {
          FinishAsk(response, failed, errorSent, responseSent);
        }
    }
  }
}
