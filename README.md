# eventbus-go: handler registry and dispatch, modelled in Dafny

eventbus-go is an in-process publish/subscribe bus. A handler is a Go
function of exactly one parameter. `Register` files it under the routing key
of that parameter's type, `package path + "." + type name`. `Send` puts a
message into a buffered channel of capacity 100. A background `listen` loop
takes each message, derives the same key from the message's runtime type,
and starts every handler filed under that key with the message as its
argument.

The model has three files:

- `event.dfy` (module `Event`) covers event/register.go. It has the handler
  record, `checkFunc`, the routing key and its inverse, the nested
  `listeners` table, and a `Registry` class whose `Register` method updates
  that table in place. `RegisterSpec` is the pure function the method is
  proved against.
- `bus.dfy` (module `Bus`) covers message.go. It has `getParamName`, the
  fan-out of `call` (a set-valued `Fanout` plus a `Call` method whose loop over
  the inner table is `LaunchAll`), the channel `msgChan` as a 100-slot ring buffer, and an
  `EventBus` class. `EventBus` holds the queue and the registry that `call`
  reads, and performs one iteration of `listen`.
- `scenarios.dfy` (module `Scenarios`) is client code verified against the
  contracts. `RegisterTest` runs the cases of `TestRegister`
  (event/register_test.go:13-38) in order (the fifth case registers `OneParamFunc` twice, and both calls are rejected as duplicates), plus a non-function value.
  `SendTest` follows `TestSend` (message_test.go:9-16): register a handler,
  send one message, and show that the next loop iteration starts that handler
  once with that message. `TestSend` itself only sleeps and prints. `SendTest`
  adds a repeated registration, which is rejected and changes nothing.
  `CapacityTest` follows the channel's capacity (message.go:5, 12-14): 100
  sends go through, the 101st cannot proceed, and a send goes through again
  once one message is taken.

A handler is the record `(isFunc, numIn, paramPkgPath, paramTypeName,
funcName)`. Its fields stand for what `reflect.TypeOf(h).Kind()`, `NumIn()`,
`In(0).PkgPath()`, `In(0).Name()` and `runtime.FuncForPC(...).Name()`
return. A message is the package path and name of its runtime type, plus an
opaque payload.

As written, message.go does not compile, and the model reads it as follows:

- message.go is in package `eventbus_go` but uses `registerMu` and `listeners`
  from package `event`. The model treats `call` as reading the same
  registry that `Register` writes.
- message.go:35 calls `method.Call(...)` on an `interface{}` value. The model
  reads this as calling the stored handler with the message as its argument.

Two facts about the code shape what the model can promise:

- The routing key is `PkgPath() + "." + Name()` (event/register.go:62,
  message.go:43). `reflect` gives every unnamed type (`[]int`,
  `*TestEvent`, `map[string]int`) an empty name and an empty package
  path. So all unnamed types share the key `"."`. The handler record
  carries only those two strings, so the model inherits this.
  `TypeKeyInjective`, `ParameterNameAgreement` and `FanoutOnlyMatching` are therefore stated over
  (package path, name) pairs. They assume the name has no dot, which holds
  for every named non-generic Go type.
- An arity failure is not logged. Only a successful registration and a
  duplicate are (event/register.go:32, 37, 39). Logging is not modelled.

## Model

| member | source | states |
|---|---|---|
| Event.CheckFunc | event/register.go:46-56 | the checks run in a fixed order: kind, then zero parameters, then more than one. A handler passes exactly when it is a function of one parameter. A rejected handler gets exactly one error: NotCallable iff it is not a function, ZeroArity iff it takes none, TooManyParameters iff it takes more than one. There is never a duplicate error here |
| Event.TypeNameOf | event/register.go:60-63 | the type-name part of a routing key: a dot-free suffix of the key, preceded by a dot whenever it is shorter than the key |
| Event.PkgPathOf | event/register.go:60-63 | the package-path part of a routing key: when the key has a dot, the key is this part, a dot, and TypeNameOf(key) |
| Event.KeyRoundTrip | event/register.go:60-63 | splitting the key `PkgPath + "." + Name` gives back the package path and the name, for a dot-free name |
| Event.TypeKeyInjective | event/register.go:60-63 | two types with dot-free names get the same routing key iff they have the same package path and the same name |
| Event.GenerateParameterName | event/register.go:60-63 | the key `PkgPath + "." + Name` of the parameter's type. For a dot-free name it splits back into that package path and that name |
| Event.RegisterSpec | event/register.go:17-43 | shape errors come first, in checkFunc's order. A well-shaped handler is rejected as DuplicateHandler iff its function name is already filed under its parameter key. Any rejection leaves the registry unchanged. On success the handler is filed under its parameter's key and its own name; a new key gets an inner table holding just that entry. No other key, and no other name under the key, changes. No entry is ever removed or overwritten |
| Event.RegisterPreservesWellFormed | event/register.go:25-41 | Register keeps the registry invariant: every inner table is non-empty, and every entry is an accepted handler filed under its own parameter key and its own name |
| Event.RegisterTwiceRejected | event/register.go:29-34 | once a handler is accepted, registering it again returns DuplicateHandler and leaves the registry unchanged |
| Event.DistinctNameAccepted | event/register.go:27-37 | a second, differently named handler for the same parameter type (a bound method) is accepted. Both handlers remain filed under the shared key |
| Event.Registry.constructor | event/register.go:13 | the registry starts empty and well-formed |
| Event.Registry.Register | event/register.go:17-43 | the in-place update returns RegisterSpec's error and leaves `listeners` equal to RegisterSpec's table. It keeps the invariant |
| Bus.ParameterNameAgreement | message.go:41-44 | a message's dispatch key equals a handler's registration key iff the message's type is the handler's parameter type, for dot-free names |
| Bus.GetParamName | message.go:41-44 | the key `PkgPath + "." + Name` of the message's type. For a dot-free name it splits back into that package path and that name |
| Bus.Fanout | message.go:28-38 | an unregistered key starts nothing. Every handler in the key's inner table is started with the message. Every start is of such a handler, with the message as its argument |
| Bus.RegisteredHandlerReceives | message.go:31-36 | a handler accepted by Register is started for every later message of its parameter type: this holds in any later registry that still holds every entry the registry had right after the call, which every later Register keeps (RegisterSpec's no-removal clause) |
| Bus.FanoutOnlyMatching | message.go:31-36 | in a well-formed registry, a message reaches only accepted handlers filed for its own type, with the message itself as argument, for dot-free type names |
| Bus.LaunchAll | message.go:34-36 | the loop over an inner table starts each of its handlers exactly once with the message: the starts are pairwise distinct, there is one per entry, and they are exactly the invocations of the table's handlers. The order is whatever order the table is walked in |
| Bus.Call | message.go:28-38 | looks up the message's key with GetParamName. Each handler filed under the key is started exactly once: the starts are pairwise distinct and are exactly Fanout's set, and there is one per entry of the inner table. An unregistered key starts none. The registry is only read |
| Bus.MessageQueue.Pending | message.go:5 | the channel never holds more than 100 pending messages |
| Bus.MessageQueue.constructor | message.go:5 | the channel starts empty with 100 slots |
| Bus.MessageQueue.Send | message.go:12-14 | a send succeeds iff fewer than 100 messages are pending, and the message joins the back of the queue. On a full channel the send cannot proceed and the queue is unchanged |
| Bus.MessageQueue.Receive | message.go:18-23 | an empty channel yields nothing (the `default` branch). Otherwise the oldest message leaves, and the rest keep their order |
| Bus.EventBus.constructor | message.go:5-9 | the bus starts with an empty channel over a given registry |
| Bus.EventBus.Send | message.go:12-14 | Send enqueues any message without looking at its type, within the capacity of 100 |
| Bus.EventBus.ListenStep | message.go:17-25 | one loop iteration takes the oldest message, if there is one, and starts each handler of its type exactly once. The registry is not changed |

## Left out

- Goroutines, `sync.RWMutex` locking, `init` and the busy-polling `for { select … default: }` loop. These are concurrency and liveness. `EventBus.ListenStep` is one iteration of that loop, and handler starts are recorded, not run.
- The internals of `reflect` and `runtime.FuncForPC`. These are foreign library calls; the handler and message records carry their results. `getFunctionName` is the record's `funcName` field.
- Running handler bodies and `reflect.Value.Call`. The model records which (handler, message) invocations are started, not what they do. A handler that panics is likewise not modelled.
- `logrus` logging on registration. It has no effect on the registry.
- The untyped `nil` value. `Register(nil)` panics: `checkFunc` calls `Kind()` on the nil `Type` that `reflect.TypeOf(nil)` returns. `Send(nil)` itself succeeds. The later `listen` iteration then panics in `getParamName`, which calls `PkgPath()` on that nil `Type` (message.go:42-43), and this ends the process. The records have no nil case.
- MessageQueue.Send: a Go send on a full channel blocks the caller until the consumer frees a slot. The model returns `false` with the queue unchanged, which stands for the still-waiting sender. Waking it later is a liveness matter and is not modelled.
- TypeKeyInjective: stated only for dot-free type names. `reflect` puts type arguments, and with them package paths containing dots, into the names of instantiated generic types. Distinct unnamed types all share the key `"."` (see above).
- FanoutOnlyMatching: stated only for dot-free type names, for the same reason. Without the restriction it fails: a handler for ("a.b", "c") and a message of type ("a", "b.c") share the key "a.b.c", so the message reaches that handler.
- The order in which `call` walks an inner table. Go's map order is unspecified, so `LaunchAll` picks the next name nondeterministically, and its contract does not fix an order.
