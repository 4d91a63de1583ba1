/** The request/response channel: any number of clients, one server, two bounded queues
    and a mutex that is held from before the request is sent until the response arrived.

    Tickets number the transactions. They are auxiliary: no step looks at them. */
module RequestResponse {

  datatype Tagged<T> = Tagged(ticket: nat, value: T)

  /** Where a client is suspended inside `transact`, or the response it returned with. */
  datatype Client<Req, Resp> =
    | Resting
    | Locking(ticket: nat, request: Req)
    | Sending(ticket: nat, request: Req)
    | Awaiting(ticket: nat, request: Req)
    | Answered(ticket: nat, response: Resp)

  datatype Server<Req, Resp> =
    | Receiving
    | Handling(request: Tagged<Req>)
    | Responding(response: Tagged<Resp>)

  /** A transaction begun by `client`. */
  datatype Begun<Req> = Begun(client: nat, request: Req)

  /** What the server computed, and what a client returned with. */
  datatype Exchange<Req, Resp> = Exchange(ticket: nat, request: Req, response: Resp)

  datatype System<Req, Resp> = System(
    capacity: nat,
    locked: bool,
    requests: seq<Tagged<Req>>,
    responses: seq<Tagged<Resp>>,
    clients: seq<Client<Req, Resp>>,
    server: Server<Req, Resp>,
    begun: seq<Begun<Req>>,
    served: seq<Exchange<Req, Resp>>,
    returned: seq<Exchange<Req, Resp>>,
    holder: nat)

  datatype Step<Req, Resp> =
    | Begin(client: nat, request: Req)
    | Lock(client: nat)
    | SendRequest(client: nat)
    | ReceiveResponse(client: nat)
    | ServerReceive
    | ServerHandle(response: Resp)
    | ServerSend

  function Initial<Req, Resp>(capacity: nat, clients: nat): System<Req, Resp> {
    System(capacity, false, [], [], seq(clients, _ => Resting), Receiving, [], [], [], 0)
  }

  predicate Enabled<Req, Resp>(s: System<Req, Resp>, step: Step<Req, Resp>) {
    match step
    case Begin(i, _) => i < |s.clients| && (s.clients[i].Resting? || s.clients[i].Answered?)
    case Lock(i) => i < |s.clients| && s.clients[i].Locking? && !s.locked
    case SendRequest(i) => i < |s.clients| && s.clients[i].Sending? && |s.requests| < s.capacity
    case ReceiveResponse(i) => i < |s.clients| && s.clients[i].Awaiting? && s.responses != []
    case ServerReceive => s.server.Receiving? && s.requests != []
    case ServerHandle(_) => s.server.Handling?
    case ServerSend => s.server.Responding? && |s.responses| < s.capacity
  }

  /** A step that is not enabled leaves its task suspended. */
  function Next<Req, Resp>(s: System<Req, Resp>, step: Step<Req, Resp>): System<Req, Resp> {
    if !Enabled(s, step) then s
    else
      match step
      case Begin(i, request) =>
        s.(clients := s.clients[i := Locking(|s.begun|, request)], begun := s.begun + [Begun(i, request)])
      case Lock(i) =>
        var c := s.clients[i];
        s.(locked := true, holder := i, clients := s.clients[i := Sending(c.ticket, c.request)])
      case SendRequest(i) =>
        var c := s.clients[i];
        s.(requests := s.requests + [Tagged(c.ticket, c.request)],
           clients := s.clients[i := Awaiting(c.ticket, c.request)])
      case ReceiveResponse(i) =>
        var c := s.clients[i];
        var r := s.responses[0].value;
        s.(locked := false, responses := s.responses[1..], clients := s.clients[i := Answered(c.ticket, r)],
           returned := s.returned + [Exchange(c.ticket, c.request, r)])
      case ServerReceive =>
        s.(server := Handling(s.requests[0]), requests := s.requests[1..])
      case ServerHandle(response) =>
        var q := s.server.request;
        s.(server := Responding(Tagged(q.ticket, response)),
           served := s.served + [Exchange(q.ticket, q.value, response)])
      case ServerSend =>
        s.(server := Receiving, responses := s.responses + [s.server.response])
  }

  function Run<Req, Resp>(s: System<Req, Resp>, steps: seq<Step<Req, Resp>>): System<Req, Resp>
    decreases |steps|
  {
    if steps == [] then s else Run(Next(s, steps[0]), steps[1..])
  }

  // ---------------------------------------------------------------------------
  // The inductive invariant
  // ---------------------------------------------------------------------------

  ghost predicate Holding<Req, Resp>(c: Client<Req, Resp>) {
    c.Sending? || c.Awaiting?
  }

  /** The mutex is held by exactly the client between taking it and its response. */
  ghost predicate MutexSound<Req, Resp>(locked: bool, holder: nat, clients: seq<Client<Req, Resp>>) {
    && (locked ==> holder < |clients|)
    && (forall i :: 0 <= i < |clients| ==> (Holding(clients[i]) <==> locked && i == holder))
  }

  ghost predicate Quiet<Req, Resp>(s: System<Req, Resp>) {
    s.requests == [] && s.responses == [] && s.server.Receiving?
  }

  /** The holder's request or its response is the only item in flight. */
  ghost predicate InFlight<Req, Resp>(s: System<Req, Resp>, ticket: nat, request: Req) {
    || (s.requests == [Tagged(ticket, request)] && s.responses == [] && s.server.Receiving?)
    || (s.requests == [] && s.responses == [] && s.server == Handling(Tagged(ticket, request)))
    || (&& s.requests == [] && s.responses == [] && s.server.Responding?
        && s.server.response.ticket == ticket
        && Exchange(ticket, request, s.server.response.value) in s.served)
    || (&& s.requests == [] && |s.responses| == 1 && s.server.Receiving?
        && s.responses[0].ticket == ticket
        && Exchange(ticket, request, s.responses[0].value) in s.served)
  }

  ghost predicate FlightSound<Req, Resp>(s: System<Req, Resp>) {
    if s.locked && s.holder < |s.clients| && s.clients[s.holder].Awaiting?
    then InFlight(s, s.clients[s.holder].ticket, s.clients[s.holder].request)
    else Quiet(s)
  }

  /** A client that has begun works on the transaction its ticket numbers. */
  ghost predicate TicketSound<Req, Resp>(begun: seq<Begun<Req>>, i: nat, c: Client<Req, Resp>) {
    match c
    case Locking(ticket, request) => ticket < |begun| && begun[ticket] == Begun(i, request)
    case Sending(ticket, request) => ticket < |begun| && begun[ticket] == Begun(i, request)
    case Awaiting(ticket, request) => ticket < |begun| && begun[ticket] == Begun(i, request)
    case _ => true
  }

  ghost predicate TicketsSound<Req, Resp>(begun: seq<Begun<Req>>, clients: seq<Client<Req, Resp>>) {
    forall i :: 0 <= i < |clients| ==> TicketSound(begun, i, clients[i])
  }

  /** The server answered each transaction at most once, and none that is still waiting
      for the mutex or the request queue. */
  ghost predicate ServedOnce<Req, Resp>(s: System<Req, Resp>) {
    && (forall k :: 0 <= k < |s.served| ==>
          s.served[k].ticket < |s.begun| && s.served[k].request == s.begun[s.served[k].ticket].request)
    && (forall k, l :: 0 <= k < l < |s.served| ==> s.served[k].ticket != s.served[l].ticket)
    && (forall i, k :: 0 <= i < |s.clients| && 0 <= k < |s.served| &&
                       (s.clients[i].Locking? || s.clients[i].Sending?) ==>
          s.served[k].ticket != s.clients[i].ticket)
    && (forall k :: 0 <= k < |s.served| ==>
          (s.requests != [] ==> s.served[k].ticket != s.requests[0].ticket) &&
          (s.server.Handling? ==> s.served[k].ticket != s.server.request.ticket))
  }

  ghost predicate ReturnedSound<Req, Resp>(s: System<Req, Resp>) {
    forall k :: 0 <= k < |s.returned| ==> s.returned[k] in s.served
  }

  ghost predicate Inv<Req, Resp>(s: System<Req, Resp>) {
    && s.capacity > 0
    && MutexSound(s.locked, s.holder, s.clients)
    && FlightSound(s)
    && TicketsSound(s.begun, s.clients)
    && ServedOnce(s)
    && ReturnedSound(s)
  }

  lemma NextKeepsFlight<Req, Resp>(s: System<Req, Resp>, step: Step<Req, Resp>)
    requires s.capacity > 0 && MutexSound(s.locked, s.holder, s.clients) && FlightSound(s)
    ensures var t := Next(s, step);
            t.capacity > 0 && MutexSound(t.locked, t.holder, t.clients) && FlightSound(t)
  {
  }

  lemma NextKeepsTickets<Req, Resp>(s: System<Req, Resp>, step: Step<Req, Resp>)
    requires TicketsSound(s.begun, s.clients)
    ensures TicketsSound(Next(s, step).begun, Next(s, step).clients)
  {
  }

  lemma NextKeepsServed<Req, Resp>(s: System<Req, Resp>, step: Step<Req, Resp>)
    requires Inv(s)
    ensures ServedOnce(Next(s, step))
  {
    if step.ServerHandle? {
      HandleKeepsServed(s, step.response);
    } else {
      hide TicketsSound, ReturnedSound;
    }
  }

  lemma HandleKeepsServed<Req, Resp>(s: System<Req, Resp>, response: Resp)
    requires Inv(s)
    ensures ServedOnce(Next(s, ServerHandle(response)))
  {
    hide ReturnedSound;
  }

  lemma NextKeepsReturned<Req, Resp>(s: System<Req, Resp>, step: Step<Req, Resp>)
    requires MutexSound(s.locked, s.holder, s.clients) && FlightSound(s) && ReturnedSound(s)
    ensures ReturnedSound(Next(s, step))
  {
  }

  lemma NextKeepsInv<Req, Resp>(s: System<Req, Resp>, step: Step<Req, Resp>)
    requires Inv(s)
    ensures Inv(Next(s, step)) && Next(s, step).capacity == s.capacity
  {
    NextKeepsFlight(s, step);
    NextKeepsTickets(s, step);
    NextKeepsServed(s, step);
    NextKeepsReturned(s, step);
    hide MutexSound, FlightSound, TicketsSound, ServedOnce, ReturnedSound;
  }

  lemma {:induction false} RunKeepsInv<Req, Resp>(s: System<Req, Resp>, steps: seq<Step<Req, Resp>>)
    requires Inv(s)
    ensures Inv(Run(s, steps)) && Run(s, steps).capacity == s.capacity
    decreases |steps|
  {
    hide Inv, Next;
    if steps != [] {
      NextKeepsInv(s, steps[0]);
      RunKeepsInv(Next(s, steps[0]), steps[1..]);
    }
  }

  lemma Boot<Req, Resp>(capacity: nat, clients: nat)
    requires capacity > 0
    ensures Inv(Initial<Req, Resp>(capacity, clients))
  {
  }

  /** A client that is not inside `transact` can always call it, and there are as many clients
      as were asked for. The ticket is new and the request is its own. */
  lemma AnyoneCanBegin<Req, Resp>(capacity: nat, clients: nat, steps: seq<Step<Req, Resp>>, i: nat, request: Req)
    requires capacity > 0 && i < clients
    ensures var s := Run(Initial<Req, Resp>(capacity, clients), steps);
            && |s.clients| == clients
            && (s.clients[i].Resting? || s.clients[i].Answered? ==>
                  Next(s, Begin(i, request)) ==
                  s.(clients := s.clients[i := Locking(|s.begun|, request)], begun := s.begun + [Begun(i, request)]))
  {
    RunKeepsClients(Initial<Req, Resp>(capacity, clients), steps);
  }

  lemma {:induction false} RunKeepsClients<Req, Resp>(s: System<Req, Resp>, steps: seq<Step<Req, Resp>>)
    ensures |Run(s, steps).clients| == |s.clients|
    decreases |steps|
  {
    if steps != [] {
      assert |Next(s, steps[0]).clients| == |s.clients|;
      hide Next;
      RunKeepsClients(Next(s, steps[0]), steps[1..]);
    }
  }

  /** Over every run with any number of clients, a `transact` that returns does so with the
      response the server computed for that very request, and the server computed only one. */
  lemma ResponsesArePaired<Req, Resp>(capacity: nat, clients: nat, steps: seq<Step<Req, Resp>>, k: nat)
    requires capacity > 0
    requires k < |Run(Initial<Req, Resp>(capacity, clients), steps).returned|
    ensures var s := Run(Initial<Req, Resp>(capacity, clients), steps);
            var r := s.returned[k];
            && r.ticket < |s.begun| && s.begun[r.ticket].request == r.request
            && (exists j :: 0 <= j < |s.served| && s.served[j] == r &&
                            forall l :: 0 <= l < |s.served| && s.served[l].ticket == r.ticket ==> l == j)
  {
    Boot<Req, Resp>(capacity, clients);
    RunKeepsInv(Initial(capacity, clients), steps);
    var s := Run(Initial(capacity, clients), steps);
    var r := s.returned[k];
    assert r in s.served;
    var j :| 0 <= j < |s.served| && s.served[j] == r;
  }

  /** At most one request or response exists anywhere between the clients, so the response
      queue always has room when the server answers. */
  lemma OneItemInFlight<Req, Resp>(capacity: nat, clients: nat, steps: seq<Step<Req, Resp>>)
    requires capacity > 0
    ensures var s := Run(Initial<Req, Resp>(capacity, clients), steps);
            && |s.requests| + |s.responses| + (if s.server.Receiving? then 0 else 1) <= 1
            && (s.server.Responding? ==> |s.responses| < s.capacity)
            && (forall i :: 0 <= i < |s.clients| && s.clients[i].Sending? ==> |s.requests| < s.capacity)
  {
    Boot<Req, Resp>(capacity, clients);
    RunKeepsInv(Initial(capacity, clients), steps);
  }

  // ---------------------------------------------------------------------------
  // Progress
  // ---------------------------------------------------------------------------

  function Weight<Req, Resp>(c: Client<Req, Resp>): nat {
    match c
    case Locking(_, _) => 6
    case Sending(_, _) => 5
    case Awaiting(_, _) => 1
    case _ => 0
  }

  function TotalWeight<Req, Resp>(clients: seq<Client<Req, Resp>>): nat {
    if clients == [] then 0 else Weight(clients[0]) + TotalWeight(clients[1..])
  }

  /** The number of steps still to be taken before every begun `transact` has returned. */
  function Work<Req, Resp>(s: System<Req, Resp>): nat {
    TotalWeight(s.clients) + 3 * |s.requests| +
    (match s.server case Receiving => 0 case Handling(_) => 2 case Responding(_) => 1)
  }

  lemma {:induction false} ReplacedWeight<Req, Resp>(clients: seq<Client<Req, Resp>>, i: nat, c: Client<Req, Resp>)
    requires i < |clients|
    ensures TotalWeight(clients[i := c]) + Weight(clients[i]) == TotalWeight(clients) + Weight(c)
  {
    if i > 0 {
      assert clients[i := c][1..] == clients[1..][i - 1 := c];
      ReplacedWeight(clients[1..], i - 1, c);
    } else {
      assert clients[0 := c][1..] == clients[1..];
    }
  }

  lemma {:induction false} WeighsSomething<Req, Resp>(clients: seq<Client<Req, Resp>>) returns (i: nat)
    requires TotalWeight(clients) > 0
    ensures i < |clients| && Weight(clients[i]) > 0
  {
    if Weight(clients[0]) > 0 {
      i := 0;
    } else {
      var j := WeighsSomething(clients[1..]);
      i := j + 1;
    }
  }

  /** Every enabled step but a new `transact` is one step of progress. */
  lemma StepsReduceWork<Req, Resp>(s: System<Req, Resp>, step: Step<Req, Resp>)
    requires Enabled(s, step) && !step.Begin?
    ensures Work(Next(s, step)) + 1 == Work(s)
  {
    match step
    case Lock(i) => ReplacedWeight(s.clients, i, Next(s, step).clients[i]);
    case SendRequest(i) => ReplacedWeight(s.clients, i, Next(s, step).clients[i]);
    case ReceiveResponse(i) => ReplacedWeight(s.clients, i, Next(s, step).clients[i]);
    case _ =>
  }

  /** Nothing blocks for ever: while work is left some task can take a step. */
  lemma SomeStepEnabled<Req, Resp>(s: System<Req, Resp>, response: Resp) returns (step: Step<Req, Resp>)
    requires Inv(s) && Work(s) > 0
    ensures Enabled(s, step) && !step.Begin?
  {
    if s.requests != [] {
      step := ServerReceive;
    } else if s.server.Handling? {
      step := ServerHandle(response);
    } else if s.server.Responding? {
      step := ServerSend;
    } else if s.locked {
      step := if s.clients[s.holder].Sending? then SendRequest(s.holder) else ReceiveResponse(s.holder);
    } else {
      var i := WeighsSomething(s.clients);
      step := Lock(i);
    }
  }

  lemma {:induction false} NoWorkNoWaiting<Req, Resp>(clients: seq<Client<Req, Resp>>, i: nat)
    requires TotalWeight(clients) == 0 && i < |clients|
    ensures clients[i].Resting? || clients[i].Answered?
  {
    if i > 0 {
      NoWorkNoWaiting(clients[1..], i - 1);
    }
  }

  // ---------------------------------------------------------------------------
  // Every ticket is accounted for
  // ---------------------------------------------------------------------------

  /** How often a `transact` with this ticket has returned. */
  function Returns<Req, Resp>(returned: seq<Exchange<Req, Resp>>, ticket: nat): nat {
    if returned == [] then 0
    else
      var n := |returned| - 1;
      Returns(returned[..n], ticket) + (if returned[n].ticket == ticket then 1 else 0)
  }

  lemma ReturnsOneMore<Req, Resp>(returned: seq<Exchange<Req, Resp>>, e: Exchange<Req, Resp>, ticket: nat)
    ensures Returns(returned + [e], ticket) == Returns(returned, ticket) + (if e.ticket == ticket then 1 else 0)
  {
    assert (returned + [e])[..|returned|] == returned;
  }

  predicate WaitsFor<Req, Resp>(c: Client<Req, Resp>, ticket: nat) {
    (c.Locking? || c.Sending? || c.Awaiting?) && c.ticket == ticket
  }

  /** A begun ticket has been returned once or is held by the client that began it. */
  ghost predicate Accounted<Req, Resp>(s: System<Req, Resp>, ticket: nat)
    requires ticket < |s.begun|
  {
    && s.begun[ticket].client < |s.clients|
    && Returns(s.returned, ticket) == if WaitsFor(s.clients[s.begun[ticket].client], ticket) then 0 else 1
  }

  ghost predicate AllAccounted<Req, Resp>(s: System<Req, Resp>) {
    && (forall ticket :: 0 <= ticket < |s.begun| ==> Accounted(s, ticket))
    && Returns(s.returned, |s.begun|) == 0
    && (forall k :: 0 <= k < |s.returned| ==> s.returned[k].ticket < |s.begun|)
  }

  lemma {:induction false} NeverReturned<Req, Resp>(returned: seq<Exchange<Req, Resp>>, ticket: nat)
    requires forall k :: 0 <= k < |returned| ==> returned[k].ticket < ticket
    ensures Returns(returned, ticket) == 0
    decreases |returned|
  {
    if returned != [] {
      NeverReturned(returned[..|returned| - 1], ticket);
    }
  }

  lemma BeginKeepsAccounts<Req, Resp>(s: System<Req, Resp>, i: nat, request: Req)
    requires AllAccounted(s) && Enabled(s, Begin(i, request))
    ensures AllAccounted(Next(s, Begin(i, request)))
  {
    var t := Next(s, Begin(i, request));
    NeverReturned(s.returned, |t.begun|);
    hide Returns;
    forall ticket | 0 <= ticket < |t.begun|
      ensures Accounted(t, ticket)
    {
      if ticket < |s.begun| {
        assert Accounted(s, ticket);
      }
    }
  }

  lemma ReceiveAccountsFor<Req, Resp>(s: System<Req, Resp>, i: nat, ticket: nat)
    requires Enabled(s, ReceiveResponse(i)) && TicketSound(s.begun, i, s.clients[i])
    requires ticket < |s.begun| && Accounted(s, ticket)
    ensures Accounted(Next(s, ReceiveResponse(i)), ticket)
  {
    hide Returns;
    var c := s.clients[i];
    var e := Exchange(c.ticket, c.request, s.responses[0].value);
    ReturnsOneMore(s.returned, e, ticket);
    var t := Next(s, ReceiveResponse(i));
    assert t.returned == s.returned + [e] && t.begun == s.begun;
    assert t.clients == s.clients[i := Answered(c.ticket, e.response)];
    hide Next;
  }

  lemma ReceiveKeepsAccounts<Req, Resp>(s: System<Req, Resp>, i: nat)
    requires AllAccounted(s) && Enabled(s, ReceiveResponse(i)) && TicketSound(s.begun, i, s.clients[i])
    ensures AllAccounted(Next(s, ReceiveResponse(i)))
  {
    var c := s.clients[i];
    ReturnsOneMore(s.returned, Exchange(c.ticket, c.request, s.responses[0].value), |s.begun|);
    hide Returns, Accounted;
    var t := Next(s, ReceiveResponse(i));
    assert t.begun == s.begun;
    forall ticket | 0 <= ticket < |t.begun|
      ensures Accounted(t, ticket)
    {
      ReceiveAccountsFor(s, i, ticket);
    }
  }

  lemma NextKeepsAccounts<Req, Resp>(s: System<Req, Resp>, step: Step<Req, Resp>)
    requires AllAccounted(s) && TicketsSound(s.begun, s.clients)
    ensures AllAccounted(Next(s, step))
  {
    if Enabled(s, step) {
      if step.Begin? {
        BeginKeepsAccounts(s, step.client, step.request);
      } else if step.ReceiveResponse? {
        assert TicketSound(s.begun, step.client, s.clients[step.client]);
        ReceiveKeepsAccounts(s, step.client);
      } else {
        hide Returns;
        var t := Next(s, step);
        forall ticket | 0 <= ticket < |t.begun|
          ensures Accounted(t, ticket)
        {
          assert Accounted(s, ticket);
        }
      }
    }
  }

  ghost predicate Sound<Req, Resp>(s: System<Req, Resp>) {
    Inv(s) && AllAccounted(s)
  }

  lemma NextKeepsSound<Req, Resp>(s: System<Req, Resp>, step: Step<Req, Resp>)
    requires Sound(s)
    ensures Sound(Next(s, step))
  {
    NextKeepsInv(s, step);
    NextKeepsAccounts(s, step);
    hide Next, AllAccounted, FlightSound, MutexSound, TicketsSound, ServedOnce, ReturnedSound;
  }

  lemma {:induction false} RunKeepsSound<Req, Resp>(s: System<Req, Resp>, steps: seq<Step<Req, Resp>>)
    requires Sound(s)
    ensures Sound(Run(s, steps))
    decreases |steps|
  {
    hide Sound, Next;
    if steps != [] {
      NextKeepsSound(s, steps[0]);
      RunKeepsSound(Next(s, steps[0]), steps[1..]);
    }
  }

  lemma ReachableSound<Req, Resp>(capacity: nat, clients: nat, steps: seq<Step<Req, Resp>>)
    requires capacity > 0
    ensures Sound(Run(Initial<Req, Resp>(capacity, clients), steps))
  {
    Boot<Req, Resp>(capacity, clients);
    hide Run, Inv;
    RunKeepsSound(Initial(capacity, clients), steps);
  }

  /** Over every run each `transact` that was begun either has returned exactly once, or has
      not returned and its client still waits for it. */
  lemma TicketsAreAccountedFor<Req, Resp>(capacity: nat, clients: nat, steps: seq<Step<Req, Resp>>, ticket: nat)
    requires capacity > 0
    requires ticket < |Run(Initial<Req, Resp>(capacity, clients), steps).begun|
    ensures var s := Run(Initial<Req, Resp>(capacity, clients), steps);
            && s.begun[ticket].client < |s.clients|
            && Returns(s.returned, ticket) == if WaitsFor(s.clients[s.begun[ticket].client], ticket) then 0 else 1
  {
    ReachableSound<Req, Resp>(capacity, clients, steps);
    hide Run, Inv;
    assert Accounted(Run(Initial<Req, Resp>(capacity, clients), steps), ticket);
  }

  // ---------------------------------------------------------------------------
  // Every schedule lets every transact return
  // ---------------------------------------------------------------------------

  /** Each step is enabled when it is taken and none begins a new transaction. */
  ghost predicate Progressing<Req, Resp>(s: System<Req, Resp>, steps: seq<Step<Req, Resp>>)
    decreases |steps|
  {
    steps == [] || (Enabled(s, steps[0]) && !steps[0].Begin? && Progressing(Next(s, steps[0]), steps[1..]))
  }

  /** No task can take a step. */
  ghost predicate Stuck<Req, Resp>(s: System<Req, Resp>) {
    && !Enabled(s, ServerReceive) && !s.server.Handling? && !Enabled(s, ServerSend)
    && forall i :: 0 <= i < |s.clients| ==>
         !Enabled(s, Lock(i)) && !Enabled(s, SendRequest(i)) && !Enabled(s, ReceiveResponse(i))
  }

  /** All clients are at rest and every ticket was returned exactly once. */
  ghost predicate AllReturned<Req, Resp>(s: System<Req, Resp>) {
    && (forall i :: 0 <= i < |s.clients| ==> s.clients[i].Resting? || s.clients[i].Answered?)
    && (forall ticket :: 0 <= ticket < |s.begun| ==> Returns(s.returned, ticket) == 1)
  }

  lemma NoWorkAllReturned<Req, Resp>(s: System<Req, Resp>)
    requires Sound(s) && Work(s) == 0
    ensures AllReturned(s)
  {
    forall i | 0 <= i < |s.clients|
      ensures s.clients[i].Resting? || s.clients[i].Answered?
    {
      NoWorkNoWaiting(s.clients, i);
    }
    hide Returns, Inv, TotalWeight;
    forall ticket | 0 <= ticket < |s.begun|
      ensures Returns(s.returned, ticket) == 1
    {
      assert Accounted(s, ticket);
    }
  }

  lemma {:induction false} ProgressSpendsWork<Req, Resp>(s: System<Req, Resp>, steps: seq<Step<Req, Resp>>)
    requires Sound(s) && Progressing(s, steps)
    ensures Work(Run(s, steps)) + |steps| == Work(s)
    ensures Sound(Run(s, steps)) && Run(s, steps).begun == s.begun
    decreases |steps|
  {
    if steps != [] {
      StepsReduceWork(s, steps[0]);
      NextKeepsSound(s, steps[0]);
      assert Next(s, steps[0]).begun == s.begun;
      hide Sound, Next, Work;
      ProgressSpendsWork(Next(s, steps[0]), steps[1..]);
    }
  }

  lemma EnabledIsNotStuck<Req, Resp>(s: System<Req, Resp>, step: Step<Req, Resp>)
    requires Enabled(s, step) && !step.Begin?
    ensures !Stuck(s)
  {
  }

  lemma StuckHasNoWork<Req, Resp>(s: System<Req, Resp>, response: Resp)
    requires Inv(s) && Stuck(s)
    ensures Work(s) == 0
  {
    if Work(s) > 0 {
      var step := SomeStepEnabled(s, response);
      EnabledIsNotStuck(s, step);
    }
  }

  /** After any run, under any schedule: the enabled steps taken without beginning new
      transactions are at most `Work` many, and when no such step is left every client is
      at rest and every `transact` begun has returned exactly once. */
  lemma EveryScheduleReturns<Req, Resp>(capacity: nat, clients: nat, before: seq<Step<Req, Resp>>,
                                        steps: seq<Step<Req, Resp>>, response: Resp)
    requires capacity > 0
    requires Progressing(Run(Initial<Req, Resp>(capacity, clients), before), steps)
    ensures var s := Run(Initial<Req, Resp>(capacity, clients), before);
            var t := Run(s, steps);
            && |steps| <= Work(s) && t.begun == s.begun
            && (Stuck(t) ==> AllReturned(t))
  {
    ReachableSound<Req, Resp>(capacity, clients, before);
    hide Run, Progressing, Work, Inv, AllAccounted, Stuck, AllReturned;
    var s := Run(Initial<Req, Resp>(capacity, clients), before);
    ProgressSpendsWork(s, steps);
    if Stuck(Run(s, steps)) {
      StuckHasNoWork(Run(s, steps), response);
      NoWorkAllReturned(Run(s, steps));
    }
  }

  /** From every sound state such a schedule exists, so every begun `transact` can return. */
  lemma {:induction false} EveryTransactReturns<Req, Resp>(s: System<Req, Resp>, response: Resp)
    returns (steps: seq<Step<Req, Resp>>)
    requires Sound(s)
    ensures Progressing(s, steps) && |steps| == Work(s)
    ensures var t := Run(s, steps);
            Sound(t) && |t.clients| == |s.clients| && t.begun == s.begun && AllReturned(t)
    decreases Work(s)
  {
    if Work(s) == 0 {
      steps := [];
      NoWorkAllReturned(s);
    } else {
      var step := SomeStepEnabled(s, response);
      StepsReduceWork(s, step);
      NextKeepsSound(s, step);
      hide Sound, Work, AllReturned;
      var rest := EveryTransactReturns(Next(s, step), response);
      steps := [step] + rest;
      assert steps[1..] == rest;
    }
  }
}
