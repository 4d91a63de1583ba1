/** The channel as the program has it: two queues of bare values and a mutex flag, without
    tickets. Each method is one poll of the corresponding future. */
module RequestResponseChannel {
  import opened RequestResponse
  import opened Wrappers

  function Values<T>(items: seq<Tagged<T>>): (values: seq<T>)
    ensures |values| == |items|
  {
    seq(|items|, i requires 0 <= i < |items| => items[i].value)
  }

  class Channel<Req, Resp> {
    const capacity: nat
    var reqQueue: seq<Req>
    var respQueue: seq<Resp>
    var locked: bool
    ghost var model: System<Req, Resp>

    ghost predicate Represents()
      reads this
    {
      && Inv(model)
      && model.capacity == capacity
      && model.locked == locked
      && Values(model.requests) == reqQueue
      && Values(model.responses) == respQueue
    }

    constructor (capacity: nat, ghost clients: nat)
      requires capacity > 0
      ensures Represents() && model == Initial(capacity, clients)
    {
      this.capacity := capacity;
      reqQueue, respQueue, locked := [], [], false;
      model := Initial(capacity, clients);
    }

    ghost method Advance(step: Step<Req, Resp>)
      requires Inv(model)
      modifies `model
      ensures Inv(model) && model == Next(old(model), step)
    {
      NextKeepsInv(model, step);
      model := Next(model, step);
    }

    /** A client calls `transact`. */
    ghost method BeginTransact(client: nat, request: Req)
      requires Represents() && Enabled(model, Begin(client, request))
      modifies `model
      ensures Represents() && model == Next(old(model), Begin(client, request))
    {
      Advance(Begin(client, request));
    }

    method LockMutex(ghost client: nat) returns (acquired: bool)
      requires Represents() && client < |model.clients| && model.clients[client].Locking?
      modifies `locked, `model
      ensures Represents() && model == Next(old(model), Lock(client))
      ensures acquired <==> !old(locked)
    {
      Advance(Lock(client));
      acquired := !locked;
      if acquired {
        locked := true;
      }
    }

    /** The request queue has room whenever a client reaches it. */
    method SendClientRequest(request: Req, ghost client: nat) returns (sent: bool)
      requires Represents() && client < |model.clients|
      requires model.clients[client].Sending? && model.clients[client].request == request
      modifies `reqQueue, `model
      ensures Represents() && model == Next(old(model), SendRequest(client))
      ensures sent && reqQueue == old(reqQueue) + [request]
    {
      Advance(SendRequest(client));
      sent := |reqQueue| < capacity;
      if sent {
        reqQueue := reqQueue + [request];
      }
    }

    /** A response taken by a client is the one the server computed for its own request;
        returning drops the guard of the mutex. */
    method RecvResponse(ghost client: nat) returns (response: Option<Resp>)
      requires Represents() && client < |model.clients| && model.clients[client].Awaiting?
      modifies `respQueue, `locked, `model
      ensures Represents() && model == Next(old(model), ReceiveResponse(client))
      ensures response.Some? <==> old(respQueue) != []
      ensures response.Some? ==>
                var c := old(model).clients[client];
                Exchange(c.ticket, c.request, response.value) in old(model).served && !locked
    {
      Advance(ReceiveResponse(client));
      if respQueue == [] {
        response := None;
      } else {
        response := Some(respQueue[0]);
        respQueue := respQueue[1..];
        locked := false;
      }
    }

    method RecvRequest() returns (request: Option<Req>)
      requires Represents() && model.server.Receiving?
      modifies `reqQueue, `model
      ensures Represents() && model == Next(old(model), ServerReceive)
      ensures request == if old(reqQueue) == [] then None else Some(old(reqQueue)[0])
      ensures request.Some? ==> model.server.Handling? && model.server.request.value == request.value
    {
      Advance(ServerReceive);
      if reqQueue == [] {
        request := None;
      } else {
        request := Some(reqQueue[0]);
        reqQueue := reqQueue[1..];
      }
    }

    /** The server never has to wait for room to answer. */
    method SendResponse(response: Resp) returns (sent: bool)
      requires Represents() && model.server.Handling?
      modifies `respQueue, `model
      ensures Represents() && model == Next(Next(old(model), ServerHandle(response)), ServerSend)
      ensures sent && respQueue == old(respQueue) + [response]
    {
      Advance(ServerHandle(response));
      Advance(ServerSend);
      sent := |respQueue| < capacity;
      if sent {
        respQueue := respQueue + [response];
      }
    }
  }
}
