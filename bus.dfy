/**
 The dispatch side of the event bus (message.go): the routing key of a
 message, the fan-out step of `call`, and the buffered channel `msgChan`
 that `Send` fills and the `listen` loop drains.

 A message is an arbitrary Go value; here it is abstracted as the package
 path and name of its runtime type, which is all routing looks at, plus an
 opaque payload that is handed to the handlers unchanged.
 */
module Bus {
  import opened Event

  datatype Message = Message(pkgPath: string, typeName: string, payload: string)

  /** One `go method.Call(...)`: the handler started and its sole argument. */
  datatype Invocation = Invocation(handler: Handler, arg: Message)

  /** The capacity of `msgChan`. */
  const Capacity: nat := 100

  /** getParamName: the routing key of a message's runtime type. */
  function GetParamName(msg: Message): (key: string)
    ensures '.' in key
    ensures '.' !in msg.typeName ==>
      TypeNameOf(key) == msg.typeName && PkgPathOf(key) == msg.pkgPath
  {
    assert '.' !in msg.typeName ==>
      TypeNameOf(TypeKey(msg.pkgPath, msg.typeName)) == msg.typeName &&
      PkgPathOf(TypeKey(msg.pkgPath, msg.typeName)) == msg.pkgPath
    by {
      if '.' !in msg.typeName {
        KeyRoundTrip(msg.pkgPath, msg.typeName);
      }
    }
    TypeKey(msg.pkgPath, msg.typeName)
  }

  /** The key a message is dispatched under equals the key a handler is filed
      under exactly when the message's type is the handler's parameter type. */
  lemma ParameterNameAgreement(h: Handler, msg: Message)
    requires h.isFunc && h.numIn >= 1
    requires '.' !in h.paramTypeName && '.' !in msg.typeName
    ensures GetParamName(msg) == GenerateParameterName(h) <==>
            msg.pkgPath == h.paramPkgPath && msg.typeName == h.paramTypeName
  {
  }

  /**
   The invocations `call(msg)` starts: one per handler in the inner table of
   the message's key, each with the message as argument; none when the key
   is not registered. Go's map order is unspecified, so this is a set.
   */
  function Fanout(listeners: Listeners, msg: Message): (r: set<Invocation>)
    ensures GetParamName(msg) !in listeners ==> r == {}
    ensures forall inv | inv in r ::
      && inv.arg == msg
      && GetParamName(msg) in listeners
      && exists name :: name in listeners[GetParamName(msg)] && listeners[GetParamName(msg)][name] == inv.handler
    ensures forall name | GetParamName(msg) in listeners && name in listeners[GetParamName(msg)] ::
      Invocation(listeners[GetParamName(msg)][name], msg) in r
  {
    var key := GetParamName(msg);
    if key in listeners then
      set name | name in listeners[key] :: Invocation(listeners[key][name], msg)
    else {}
  }

  /** A handler accepted by Register receives every later message of its
      parameter type: in any registry that still holds every entry the
      registry held right after the call, as every later Register keeps. */
  lemma RegisteredHandlerReceives(listeners: Listeners, h: Handler, later: Listeners, msg: Message)
    requires RegisterSpec(listeners, h).err == None
    requires Extends(RegisterSpec(listeners, h).listeners, later)
    requires msg.pkgPath == h.paramPkgPath && msg.typeName == h.paramTypeName
    ensures Invocation(h, msg) in Fanout(later, msg)
  {
  }

  /** In a well-formed registry a message reaches only handlers registered for
      its own type, each with the message itself as argument. */
  lemma FanoutOnlyMatching(listeners: Listeners, msg: Message, inv: Invocation)
    requires WellFormed(listeners)
    requires inv in Fanout(listeners, msg)
    requires '.' !in msg.typeName && '.' !in inv.handler.paramTypeName
    ensures inv.arg == msg && Accepted(inv.handler)
    ensures inv.handler.paramPkgPath == msg.pkgPath && inv.handler.paramTypeName == msg.typeName
    ensures listeners[GetParamName(msg)][inv.handler.funcName] == inv.handler
  {
    var key := GetParamName(msg);
    var name :| name in listeners[key] && listeners[key][name] == inv.handler;
    ParameterNameAgreement(inv.handler, msg);
  }

  /** The invocations in `launched` are pairwise distinct and are exactly the
      members of `fanout`: every one of them is started once. */
  ghost predicate LaunchedOnce(launched: seq<Invocation>, fanout: set<Invocation>)
  {
    && (forall i, j | 0 <= i < j < |launched| :: launched[i] != launched[j])
    && (forall i | 0 <= i < |launched| :: launched[i] in fanout)
    && (forall inv | inv in fanout :: inv in launched)
  }

  /**
   The `for _, method := range funcMap` loop of `call`: start one invocation
   of each handler in the inner table, in whatever order the table is
   walked. The result lists them in the order they were started.
   */
  method LaunchAll(funcMap: map<string, Handler>, msg: Message) returns (launched: seq<Invocation>)
    requires forall name | name in funcMap :: funcMap[name].funcName == name
    ensures |launched| == |funcMap|
    ensures LaunchedOnce(launched, set name | name in funcMap :: Invocation(funcMap[name], msg))
  {
    launched := [];
    var unvisited := funcMap.Keys;
    while unvisited != {}
      invariant unvisited <= funcMap.Keys
      invariant |launched| + |unvisited| == |funcMap|
      invariant forall i | 0 <= i < |launched| ::
        && launched[i].handler.funcName in funcMap.Keys - unvisited
        && launched[i] == Invocation(funcMap[launched[i].handler.funcName], msg)
      invariant forall i, j | 0 <= i < j < |launched| :: launched[i] != launched[j]
      invariant forall name | name in funcMap.Keys - unvisited ::
        Invocation(funcMap[name], msg) in launched
      decreases |unvisited|
    {
      var name :| name in unvisited;
      launched := launched + [Invocation(funcMap[name], msg)];
      unvisited := unvisited - {name};
    }
  }

  /**
   call: look the message's key up and start every handler filed under it.
   The registry is only read.
   */
  method Call(registry: Registry, msg: Message) returns (launched: seq<Invocation>)
    requires registry.Valid()
    ensures GetParamName(msg) !in registry.listeners ==> launched == []
    ensures GetParamName(msg) in registry.listeners ==>
      |launched| == |registry.listeners[GetParamName(msg)]|
    ensures LaunchedOnce(launched, Fanout(registry.listeners, msg))
  {
    launched := [];
    var paramName := GetParamName(msg);
    if paramName in registry.listeners {
      var funcMap := registry.listeners[paramName];
      launched := LaunchAll(funcMap, msg);
    }
  }

  /** `msgChan`: a buffered channel of Capacity messages, kept as a ring
      buffer of `count` messages starting at slot `head`. */
  class MessageQueue {
    const buf: array<Message>
    var head: nat
    var count: nat

    ghost predicate Valid()
      reads this
    {
      buf.Length == Capacity && head < Capacity && count <= Capacity
    }

    /** The pending messages, oldest first. */
    function Pending(): (s: seq<Message>)
      reads this, buf
      requires Valid()
      ensures |s| == count <= Capacity
    {
      if head + count <= Capacity then buf[head..head + count]
      else buf[head..] + buf[..head + count - Capacity]
    }

    constructor ()
      ensures Valid() && fresh(buf) && Pending() == []
    {
      buf := new Message[Capacity](_ => Message("", "", ""));
      head, count := 0, 0;
    }

    /**
     Send: `msgChan <- msg`. On a full channel the Go send blocks; here that
     is a `false` result with the queue unchanged (the sender is still
     waiting), otherwise the message joins the back of the queue.
     */
    method Send(msg: Message) returns (accepted: bool)
      requires Valid()
      modifies this, buf
      ensures Valid()
      ensures accepted <==> |old(Pending())| < Capacity
      ensures Pending() == if accepted then old(Pending()) + [msg] else old(Pending())
    {
      if count == Capacity {
        return false;
      }
      var tail := if head + count < Capacity then head + count else head + count - Capacity;
      buf[tail] := msg;
      count := count + 1;
      accepted := true;
    }

    /**
     One `select` of the `listen` loop: the oldest pending message if there
     is one (`case msg := <-msgChan`), nothing otherwise (`default`).
     */
    method Receive() returns (m: Option<Message>)
      requires Valid()
      modifies this
      ensures Valid()
      ensures old(Pending()) == [] ==> m == None && Pending() == []
      ensures old(Pending()) != [] ==> m == Some(old(Pending())[0]) && Pending() == old(Pending())[1..]
    {
      if count == 0 {
        return None;
      }
      m := Some(buf[head]);
      head := if head + 1 == Capacity then 0 else head + 1;
      count := count - 1;
    }
  }

  /** The package-level state message.go works on: `msgChan` and the
      registry `call` reads. */
  class EventBus {
    const queue: MessageQueue
    const registry: Registry

    ghost predicate Valid()
      reads this, queue, registry
    {
      queue.Valid() && registry.Valid()
    }

    constructor (registry: Registry)
      requires registry.Valid()
      ensures Valid() && this.registry == registry
      ensures fresh(queue) && fresh(queue.buf) && queue.Pending() == []
    {
      this.registry := registry;
      queue := new MessageQueue();
    }

    /** Send: enqueue the message; no check of its type is made. */
    method Send(msg: Message) returns (accepted: bool)
      requires Valid()
      modifies queue, queue.buf
      ensures Valid()
      ensures accepted <==> |old(queue.Pending())| < Capacity
      ensures queue.Pending() == if accepted then old(queue.Pending()) + [msg] else old(queue.Pending())
    {
      accepted := queue.Send(msg);
    }

    /** One iteration of `listen`: take the oldest message, if any, and fan it
        out to the handlers registered for its type. */
    method ListenStep() returns (launched: seq<Invocation>)
      requires Valid()
      modifies queue
      ensures Valid()
      ensures old(queue.Pending()) == [] ==> launched == [] && queue.Pending() == []
      ensures old(queue.Pending()) != [] ==>
        && queue.Pending() == old(queue.Pending())[1..]
        && LaunchedOnce(launched, Fanout(registry.listeners, old(queue.Pending())[0]))
        && (GetParamName(old(queue.Pending())[0]) in registry.listeners ==>
              |launched| == |registry.listeners[GetParamName(old(queue.Pending())[0])]|)
    {
      var m := queue.Receive();
      match m
      case None => launched := [];
      case Some(msg) => launched := Call(registry, msg);
    }
  }
}
