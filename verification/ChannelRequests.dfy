// packages/rpc/src/channelClient.ts: the client's table of requests, as functions on its state.
// The server, the transport and the callers' cancellations are arbitrary.

module ChannelRequests {
  import opened Wrappers

  // What a handler is for; both kinds share one map and one sequence of ids.
  datatype Kind = ForPromise | ForEvent

  datatype Entry =
    | Issued(id: nat)
    | RequestSent(id: nat)
    // a queued request whose argument cannot be serialized: its handler is there, its frame is not
    | Unsent(id: nat)
    // a call that threw because of its argument: its promise is rejected, its table entries stay
    | Threw(id: nat)
    | CancelSent(id: nat)
    | Resolved(id: nat)
    | Rejected(id: nat)
    // an error response that could not be read: its handler threw after it had forgotten the request
    | Swallowed(id: nat)

  // What a body can be deserialized to.
  datatype Body =
    | Undefined
    | Null
    | Boolean(b: bool)
    | Number(n: real)
    | Text(text: string)
    | Bytes(length: nat)
    | List(items: seq<Body>)
    | Object(fields: map<string, Body>)

  datatype Response =
    | Initialize
    | Success(id: nat)
    | Error(id: nat, body: Body)
    | ErrorObject(id: nat)
    | EventFire(id: nat)

  // ---------------------------------------------------------------------------------------
  // Bodies of errors
  // ---------------------------------------------------------------------------------------

  predicate Truthy(v: Body) {
    match v
    case Undefined => false
    case Null => false
    case Boolean(b) => b
    case Number(n) => n != 0.0
    case Text(text) => text != ""
    case _ => true
  }

  // Whether the value can become a string: a field of this name hides the method an object needs.
  predicate Stringable(v: Body) {
    match v
    case List(items) => forall x <- items :: Stringable(x)
    case Object(fields) => "toString" !in fields
    case _ => true
  }

  // Only lists and bytes have the method that puts the lines of a stack together.
  predicate Joinable(v: Body) {
    v.Bytes? || (v.List? && Stringable(v))
  }

  function Field(v: Body, name: string): (field: Body) {
    if v.Object? && name in v.fields then v.fields[name] else Undefined
  }

  // The handler throws on such a body: it has no fields, its message cannot become a string, or
  // its stack is there and cannot be joined.
  predicate Unreadable(body: Body) {
    || body.Undefined? || body.Null?
    || !Stringable(Field(body, "message"))
    || (Truthy(Field(body, "stack")) && !Joinable(Field(body, "stack")))
  }

  // ---------------------------------------------------------------------------------------
  // The table of requests
  // ---------------------------------------------------------------------------------------

  // Pending requests in the order of their ids; queued ones wait for Initialize, each with whether
  // its argument can be serialized; active ones listen to their cancellation tokens. (A token that
  // is still listened to after its request was settled finds the request no longer pending.)
  datatype Client = Client(
    idle: bool,
    disposed: bool,
    nextId: nat,
    handlers: map<nat, Kind>,
    pending: seq<nat>,
    queued: map<nat, bool>,
    active: set<nat>,
    log: seq<Entry>)

  function Initial(): (c: Client) {
    Client(false, false, 0, map[], [], map[], {}, [])
  }

  function Without(ids: seq<nat>, id: nat): (rest: seq<nat>) {
    if ids == [] then []
    else (if ids[0] == id then [] else [ids[0]]) + Without(ids[1..], id)
  }

  function Note(c: Client, e: Entry): (c': Client) {
    c.(log := c.log + [e])
  }

  function Forget(c: Client, id: nat): (c': Client) {
    c.(handlers := c.handlers - {id}, pending := Without(c.pending, id))
  }

  // doRequest up to the writing of the frame: nothing is done for a request that was settled in the
  // meantime.
  predicate Skipped(c: Client, id: nat) {
    c.disposed || id !in c.pending
  }

  function Handled(c: Client, id: nat): (c': Client) {
    c.(handlers := c.handlers[id := ForPromise])
  }

  // call(): after dispose the promise is rejected without an id. When the channel is idle, an
  // argument that cannot be serialized throws before the cancellation token is listened to.
  function Call(c: Client, cancelled: bool, serializable: bool): (c': Client) {
    if c.disposed then c else
    var id := c.nextId;
    var issued := Note(c.(nextId := id + 1), Issued(id));
    if cancelled then Note(issued, Rejected(id)) else
    var waiting := issued.(pending := issued.pending + [id]);
    if !c.idle then waiting.(queued := waiting.queued[id := serializable], active := waiting.active + {id})
    else if serializable then Note(Handled(waiting, id), RequestSent(id)).(active := waiting.active + {id})
    else Note(Handled(waiting, id), Threw(id))
  }

  // A request that waited for Initialize has its turn. When it throws, nobody is told.
  function RunQueued(c: Client, id: nat): (c': Client) {
    if !c.idle || id !in c.queued then c else
    var turn := c.(queued := c.queued - {id});
    if Skipped(turn, id) then turn
    else Note(Handled(turn, id), if c.queued[id] then RequestSent(id) else Unsent(id))
  }

  // listen(), up to the first listener.
  function Listen(c: Client): (c': Client) {
    if c.disposed then c else c.(nextId := c.nextId + 1, handlers := c.handlers[c.nextId := ForEvent])
  }

  // The last listener of an event goes.
  function StopListening(c: Client, id: nat): (c': Client) {
    if id in c.handlers && c.handlers[id] == ForEvent then c.(handlers := c.handlers - {id}) else c
  }

  // Unknown, late and repeated responses find no handler.
  function Respond(c: Client, r: Response): (c': Client) {
    if c.disposed then c
    else if r.Initialize? then c.(idle := true)
    else if r.id !in c.handlers || c.handlers[r.id] == ForEvent then c
    else
      match r
      case Success(id) => Note(Forget(c, id), Resolved(id))
      case Error(id, body) => Note(Forget(c, id), if Unreadable(body) then Swallowed(id) else Rejected(id))
      case ErrorObject(id) => Note(Forget(c, id), Rejected(id))
      case _ => c
  }

  function Cancel(c: Client, id: nat): (c': Client) {
    if id !in c.active || id !in c.pending then c else Note(Forget(Note(c, CancelSent(id)), id), Rejected(id))
  }

  function RejectAll(c: Client): (c': Client)
    decreases |c.pending|
  {
    if c.pending == [] then c else
    var id := c.pending[0];
    RejectAll(Note(c.(handlers := c.handlers - {id}, pending := c.pending[1..]), Rejected(id)))
  }

  function Dispose(c: Client): (c': Client) {
    if c.disposed then c else RejectAll(c.(disposed := true)).(active := {})
  }

  // ---------------------------------------------------------------------------------------
  // The object
  // ---------------------------------------------------------------------------------------

  class ChannelClient {
    var stateIsIdle: bool
    var isDisposed: bool
    var lastRequestId: nat
    var handlers: map<nat, Kind>
    var pendingRejections: seq<nat>
    var waitingForInitialize: map<nat, bool>
    var activeRequests: set<nat>
    var log: seq<Entry>

    ghost function State(): (c: Client)
      reads this
    {
      Client(stateIsIdle, isDisposed, lastRequestId, handlers, pendingRejections, waitingForInitialize,
             activeRequests, log)
    }

    constructor ()
      ensures State() == Initial()
    {
      stateIsIdle, isDisposed, lastRequestId := false, false, 0;
      handlers, pendingRejections, waitingForInitialize, activeRequests, log := map[], [], map[], {}, [];
    }

    method RequestPromise(cancellationRequested: bool, serializable: bool)
      modifies this
      ensures State() == Call(old(State()), cancellationRequested, serializable)
    {
      if isDisposed {
        return;
      }
      var id := lastRequestId;
      lastRequestId := lastRequestId + 1;
      log := log + [Issued(id)];
      if cancellationRequested {
        log := log + [Rejected(id)];
        return;
      }
      pendingRejections := pendingRejections + [id];
      if stateIsIdle {
        var thrown := Send(id, serializable);
        if thrown {
          log := log + [Threw(id)];
          return;
        }
      } else {
        waitingForInitialize := waitingForInitialize[id := serializable];
      }
      activeRequests := activeRequests + {id};
    }

    method Send(id: nat, serializable: bool) returns (thrown: bool)
      modifies this
      ensures thrown <==> !Skipped(old(State()), id) && !serializable
      ensures State() ==
                if Skipped(old(State()), id) then old(State())
                else if serializable then Note(Handled(old(State()), id), RequestSent(id))
                else Handled(old(State()), id)
    {
      if isDisposed || id !in pendingRejections {
        return false;
      }
      handlers := handlers[id := ForPromise];
      if !serializable {
        return true;
      }
      log := log + [RequestSent(id)];
      return false;
    }

    method Initialized(id: nat)
      requires id in waitingForInitialize && stateIsIdle
      modifies this
      ensures State() == RunQueued(old(State()), id)
    {
      var serializable := waitingForInitialize[id];
      waitingForInitialize := waitingForInitialize - {id};
      var thrown := Send(id, serializable);
      if thrown {
        log := log + [Unsent(id)];
      }
    }

    method RequestEvent()
      modifies this
      ensures State() == Listen(old(State()))
    {
      if isDisposed {
        return;
      }
      var id := lastRequestId;
      lastRequestId := lastRequestId + 1;
      handlers := handlers[id := ForEvent];
    }

    // The last listener of an event goes: its handler goes with it.
    method RemoveLastListener(id: nat)
      requires id in handlers && handlers[id] == ForEvent
      modifies this
      ensures State() == StopListening(old(State()), id)
    {
      handlers := handlers - {id};
    }

    method OnResponse(response: Response)
      modifies this
      ensures State() == Respond(old(State()), response)
    {
      if isDisposed {
        return;
      }
      if response.Initialize? {
        stateIsIdle := true;
        return;
      }
      if response.id in handlers && handlers[response.id] == ForPromise {
        HandlePromise(response);
      }
    }

    // The handler of a promise request.
    method HandlePromise(response: Response)
      requires !isDisposed && !response.Initialize?
      requires response.id in handlers && handlers[response.id] == ForPromise
      modifies this
      ensures State() == Respond(old(State()), response)
    {
      var id := response.id;
      match response
      case Success(_) =>
        DeleteRequest(id);
        log := log + [Resolved(id)];
      case Error(_, body) =>
        DeleteRequest(id);
        var unreadable := CannotBeRead(body);
        log := log + [if unreadable then Swallowed(id) else Rejected(id)];
      case ErrorObject(_) =>
        DeleteRequest(id);
        log := log + [Rejected(id)];
      case EventFire(_) =>
    }

    // Building the error from its body, field by field: whether that throws.
    method CannotBeRead(body: Body) returns (throws: bool)
      ensures throws <==> Unreadable(body)
    {
      if body.Undefined? || body.Null? {
        return true;
      }
      if !Stringable(Field(body, "message")) {
        return true;
      }
      var stack := Field(body, "stack");
      if Truthy(stack) {
        return !Joinable(stack);
      }
      return false;
    }

    method DeleteRequest(id: nat)
      modifies this
      ensures State() == Forget(old(State()), id)
    {
      handlers := handlers - {id};
      var kept: seq<nat> := [];
      for i := 0 to |pendingRejections|
        invariant kept + Without(pendingRejections[i..], id) == Without(old(pendingRejections), id)
        invariant pendingRejections == old(pendingRejections)
        invariant State() == old(State()).(handlers := old(handlers) - {id})
      {
        assert pendingRejections[i..][1..] == pendingRejections[i + 1..];
        if pendingRejections[i] != id {
          kept := kept + [pendingRejections[i]];
        }
      }
      assert pendingRejections[|pendingRejections|..] == [];
      assert kept + [] == kept;
      pendingRejections := kept;
    }

    method OnCancellationRequested(id: nat)
      modifies this
      ensures State() == Cancel(old(State()), id)
    {
      if id !in activeRequests || id !in pendingRejections {
        return;
      }
      log := log + [CancelSent(id)];
      DeleteRequest(id);
      log := log + [Rejected(id)];
    }

    method DisposeClient()
      modifies this
      ensures State() == Dispose(old(State()))
    {
      if isDisposed {
        return;
      }
      isDisposed := true;
      while pendingRejections != []
        invariant RejectAll(State()).(active := {}) == Dispose(old(State()))
        decreases |pendingRejections|
      {
        var id := pendingRejections[0];
        pendingRejections := pendingRejections[1..];
        handlers := handlers - {id};
        log := log + [Rejected(id)];
      }
      activeRequests := {};
    }
  }
}
