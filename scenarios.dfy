/**
 Client code verified against the contracts alone. It covers the cases of
 event/register_test.go, the scenario of message_test.go, and the capacity
 of the message channel.
 */
module Scenarios {
  import opened Event
  import opened Bus

  const EventPkg := "github.com/kakisong/eventbus-go/event"

  /** The handler shapes of register_test.go. */
  function OneParamFunc(): Handler
  {
    Handler(true, 1, EventPkg, "TestEvent", EventPkg + ".OneParamFunc")
  }

  function BoundOneParamFunc(): Handler
  {
    Handler(true, 1, EventPkg, "TestEvent", EventPkg + ".(*TestEvent).OneParamFunc-fm")
  }

  function ZeroParamFunc(): Handler
  {
    Handler(true, 0, "", "", EventPkg + ".ZeroParamFunc")
  }

  function TwoParamsFunc(): Handler
  {
    Handler(true, 2, EventPkg, "TestEvent", EventPkg + ".TwoParamsFunc")
  }

  /** TestRegister, in the order its cases run against the shared registry.
      The duplicate case registers OneParamFunc twice; both calls are
      rejected, since the first case already filed it. */
  method RegisterTest()
  {
    var registry := new Registry();
    var err := registry.Register(OneParamFunc());
    assert err == None;
    err := registry.Register(BoundOneParamFunc());
    assert err == None;
    var filed := registry.listeners;
    err := registry.Register(ZeroParamFunc());
    assert err == Some(ZeroArity) && registry.listeners == filed;
    err := registry.Register(TwoParamsFunc());
    assert err == Some(TooManyParameters) && registry.listeners == filed;
    err := registry.Register(OneParamFunc());
    assert err == Some(DuplicateHandler) && registry.listeners == filed;
    err := registry.Register(OneParamFunc());
    assert err == Some(DuplicateHandler) && registry.listeners == filed;
    err := registry.Register(Handler(false, 0, "", "", ""));
    assert err == Some(NotCallable) && registry.listeners == filed;
    assert filed[TypeKey(EventPkg, "TestEvent")].Keys ==
           {OneParamFunc().funcName, BoundOneParamFunc().funcName};
  }

  /** TestSend: a handler registered for TestEvent is started once with the
      message sent. The repeated registration is the duplicate case of
      TestRegister: it changes nothing, so the handler still runs once. */
  method SendTest()
  {
    var registry := new Registry();
    var printFunc := Handler(true, 1, EventPkg, "TestEvent", "github.com/kakisong/eventbus-go.PrintFunc");
    var err := registry.Register(printFunc);
    assert err == None;
    err := registry.Register(printFunc);
    assert err == Some(DuplicateHandler);
    var bus := new EventBus(registry);
    var msg := Message(EventPkg, "TestEvent", "{0 hello}");
    var accepted := bus.Send(msg);
    assert accepted;
    var launched := bus.ListenStep();
    assert Fanout(registry.listeners, msg) == {Invocation(printFunc, msg)};
    assert launched == [Invocation(printFunc, msg)];
    launched := bus.ListenStep();
    assert launched == [];
  }

  /** The capacity of make(chan interface{}, 100): 100 sends go through, the
      next one cannot proceed and leaves the channel as it was, and once the
      consumer takes the oldest message a send goes through again. */
  method CapacityTest(msg: Message, extra: Message)
  {
    var q := new MessageQueue();
    var i := 0;
    while i < Capacity
      invariant q.Valid() && 0 <= i <= Capacity
      invariant q.Pending() == seq(i, _ => msg)
    {
      var ok := q.Send(msg);
      assert ok;
      i := i + 1;
    }
    var before := q.Pending();
    var ok := q.Send(extra);
    assert !ok && q.Pending() == before;
    var m := q.Receive();
    assert m == Some(msg);
    ok := q.Send(extra);
    assert ok && q.Pending()[Capacity - 1] == extra;
  }
}
