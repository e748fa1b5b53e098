/**
 The handler registry of the event bus (event/register.go).

 A Go handler is an arbitrary `interface{}` value inspected with `reflect`;
 here it is abstracted as the record of the facts `Register` asks `reflect`
 and `runtime.FuncForPC` about it. The registry is a two-level table: the
 routing key of the sole parameter's type maps to a table from the handler's
 function name to the handler itself.
 */
module Event {

  datatype Option<T> = None | Some(value: T)

  /** A handler value as `reflect` and `runtime.FuncForPC` describe it. */
  datatype Handler = Handler(
    isFunc: bool,          // reflect.TypeOf(h).Kind() == reflect.Func
    numIn: nat,            // reflect.TypeOf(h).NumIn()
    paramPkgPath: string,  // reflect.TypeOf(h).In(0).PkgPath()
    paramTypeName: string, // reflect.TypeOf(h).In(0).Name()
    funcName: string       // runtime.FuncForPC(...).Name()
  )

  /** The errors `Register` returns, one per `errors.New` site. */
  datatype RegisterError =
    | NotCallable        // the value is not a function
    | ZeroArity          // the function takes no parameter
    | TooManyParameters  // the function takes more than one parameter
    | DuplicateHandler   // the same function name is already registered for the type

  /** Routing key -> function name -> handler (the `listeners` variable). */
  type Listeners = map<string, map<string, Handler>>

  /** The routing key of a type: its package path, a dot, and its name. */
  function TypeKey(pkgPath: string, name: string): string
  {
    pkgPath + "." + name
  }

  /**
   The part of a routing key after its last dot: the type name. This splits a
   key back into its parts; it inverts TypeKey for names without a dot (every
   named non-generic Go type has such a name).
   */
  function TypeNameOf(key: string): (name: string)
    ensures '.' !in name
    ensures |name| <= |key| && name == key[|key| - |name|..]
    ensures |name| < |key| ==> key[|key| - |name| - 1] == '.'
  {
    if key == [] || key[|key| - 1] == '.' then []
    else TypeNameOf(key[..|key| - 1]) + [key[|key| - 1]]
  }

  /** The part of a routing key before its last dot: the package path. */
  function PkgPathOf(key: string): (pkgPath: string)
    ensures |TypeNameOf(key)| < |key| ==> key == pkgPath + "." + TypeNameOf(key)
  {
    var name := TypeNameOf(key);
    if |name| < |key| then key[..|key| - |name| - 1] else []
  }

  /** Splitting a routing key undoes TypeKey when the type name has no dot. */
  lemma {:induction false} KeyRoundTrip(pkgPath: string, name: string)
    requires '.' !in name
    ensures TypeNameOf(TypeKey(pkgPath, name)) == name
    ensures PkgPathOf(TypeKey(pkgPath, name)) == pkgPath
  {
    NameOfKey(pkgPath, name);
    var key := TypeKey(pkgPath, name);
    assert key[..|key| - |name| - 1] == pkgPath;
  }

  lemma {:induction false} NameOfKey(pkgPath: string, name: string)
    requires '.' !in name
    ensures TypeNameOf(TypeKey(pkgPath, name)) == name
    decreases |name|
  {
    var key := TypeKey(pkgPath, name);
    if name == [] {
      assert key[|key| - 1] == '.';
    } else {
      var init := name[..|name| - 1];
      assert key[..|key| - 1] == TypeKey(pkgPath, init);
      assert key[|key| - 1] == name[|name| - 1];
      NameOfKey(pkgPath, init);
      assert init + [name[|name| - 1]] == name;
    }
  }

  /** Two types with dot-free names get the same routing key exactly when they
      have the same package path and the same name. */
  lemma TypeKeyInjective(p1: string, n1: string, p2: string, n2: string)
    requires '.' !in n1 && '.' !in n2
    ensures TypeKey(p1, n1) == TypeKey(p2, n2) <==> p1 == p2 && n1 == n2
  {
    KeyRoundTrip(p1, n1);
    KeyRoundTrip(p2, n2);
  }

  /** A handler that passes validation: a function of exactly one parameter. */
  predicate Accepted(h: Handler)
  {
    h.isFunc && h.numIn == 1
  }

  /**
   checkFunc: the shape checks, in the source's order — kind first, then the
   zero-parameter check, then the too-many check. Exactly one error applies
   to each rejected handler, and a duplicate is never reported here.
   */
  function CheckFunc(h: Handler): (r: Option<RegisterError>)
    ensures r == None <==> Accepted(h)
    ensures r == Some(NotCallable) <==> !h.isFunc
    ensures r == Some(ZeroArity) <==> h.isFunc && h.numIn == 0
    ensures r == Some(TooManyParameters) <==> h.isFunc && h.numIn > 1
    ensures r != Some(DuplicateHandler)
  {
    if !h.isFunc then Some(NotCallable)
    else if h.numIn < 1 then Some(ZeroArity)
    else if h.numIn > 1 then Some(TooManyParameters)
    else None
  }

  /** generateParameterName: the routing key of the first parameter's type.
      `t.In(0)` panics on a non-function or a function without parameters. */
  function GenerateParameterName(h: Handler): (key: string)
    requires h.isFunc && h.numIn >= 1
    ensures '.' in key
    ensures '.' !in h.paramTypeName ==>
      TypeNameOf(key) == h.paramTypeName && PkgPathOf(key) == h.paramPkgPath
  {
    assert '.' !in h.paramTypeName ==>
      TypeNameOf(TypeKey(h.paramPkgPath, h.paramTypeName)) == h.paramTypeName &&
      PkgPathOf(TypeKey(h.paramPkgPath, h.paramTypeName)) == h.paramPkgPath
    by {
      if '.' !in h.paramTypeName {
        KeyRoundTrip(h.paramPkgPath, h.paramTypeName);
      }
    }
    TypeKey(h.paramPkgPath, h.paramTypeName)
  }

  /** The registry's invariant: every inner table is non-empty, and every entry
      is an accepted handler filed under its own parameter key and its own
      function name. */
  ghost predicate WellFormed(listeners: Listeners)
  {
    && (forall key | key in listeners :: listeners[key] != map[])
    && forall key, name | key in listeners && name in listeners[key] ::
      && Accepted(listeners[key][name])
      && listeners[key][name].funcName == name
      && TypeKey(listeners[key][name].paramPkgPath, listeners[key][name].paramTypeName) == key
  }

  /** Every (key, name, handler) entry of `before` is still in `after`. */
  ghost predicate Extends(before: Listeners, after: Listeners)
  {
    forall key, name | key in before && name in before[key] ::
      key in after && name in after[key] && after[key][name] == before[key][name]
  }

  datatype RegisterOutcome = RegisterOutcome(err: Option<RegisterError>, listeners: Listeners)

  /**
   Register as a function of the registry before the call: the error it
   returns and the registry after it.
   */
  function RegisterSpec(listeners: Listeners, h: Handler): (r: RegisterOutcome)
    // a rejected handler leaves the registry as it was
    ensures r.err != None ==> r.listeners == listeners
    // shape errors come first, in checkFunc's order
    ensures CheckFunc(h) != None ==> r.err == CheckFunc(h)
    // a well-shaped handler is rejected exactly when its name is taken under its key
    ensures Accepted(h) ==>
      (r.err == Some(DuplicateHandler) <==>
         GenerateParameterName(h) in listeners && h.funcName in listeners[GenerateParameterName(h)])
    ensures Accepted(h) && r.err != Some(DuplicateHandler) ==> r.err == None
    // on success: the handler is filed under its parameter key and its name ...
    ensures r.err == None ==>
      && Accepted(h)
      && GenerateParameterName(h) in r.listeners
      && h.funcName in r.listeners[GenerateParameterName(h)]
      && r.listeners[GenerateParameterName(h)][h.funcName] == h
    // ... a new key gets an inner table holding just that entry ...
    ensures r.err == None && GenerateParameterName(h) !in listeners ==>
      r.listeners[GenerateParameterName(h)] == map[h.funcName := h]
    // ... and nothing else changes: no other key, no other name under the key
    ensures r.err == None ==>
      && r.listeners.Keys == listeners.Keys + {GenerateParameterName(h)}
      && (forall key | key in listeners && key != GenerateParameterName(h) ::
            r.listeners[key] == listeners[key])
      && (GenerateParameterName(h) in listeners ==>
            r.listeners[GenerateParameterName(h)].Keys ==
              listeners[GenerateParameterName(h)].Keys + {h.funcName}
            && (forall name | name in listeners[GenerateParameterName(h)] && name != h.funcName ::
                  r.listeners[GenerateParameterName(h)][name] == listeners[GenerateParameterName(h)][name]))
    // nothing is ever removed or overwritten
    ensures Extends(listeners, r.listeners)
  {
    match CheckFunc(h)
    case Some(e) => RegisterOutcome(Some(e), listeners)
    case None =>
      var paramName := GenerateParameterName(h);
      var funcName := h.funcName;
      if paramName in listeners then
        var funcMap := listeners[paramName];
        if funcName in funcMap then RegisterOutcome(Some(DuplicateHandler), listeners)
        else RegisterOutcome(None, listeners[paramName := funcMap[funcName := h]])
      else
        RegisterOutcome(None, listeners[paramName := map[funcName := h]])
  }

  /** Register keeps the registry's invariant. */
  lemma RegisterPreservesWellFormed(listeners: Listeners, h: Handler)
    requires WellFormed(listeners)
    ensures WellFormed(RegisterSpec(listeners, h).listeners)
  {
  }

  /** A second registration of a handler that was just accepted is rejected as a
      duplicate and changes nothing; so is every later one. */
  lemma RegisterTwiceRejected(listeners: Listeners, h: Handler)
    requires RegisterSpec(listeners, h).err == None
    ensures RegisterSpec(RegisterSpec(listeners, h).listeners, h) ==
            RegisterOutcome(Some(DuplicateHandler), RegisterSpec(listeners, h).listeners)
  {
  }

  /** A handler with a different function name but the same parameter type (a
      bound method, say) is accepted after the first one and both stay filed. */
  lemma DistinctNameAccepted(listeners: Listeners, h1: Handler, h2: Handler)
    requires RegisterSpec(listeners, h1).err == None
    requires Accepted(h2) && h2.funcName != h1.funcName
    requires h2.paramPkgPath == h1.paramPkgPath && h2.paramTypeName == h1.paramTypeName
    requires GenerateParameterName(h2) !in listeners || h2.funcName !in listeners[GenerateParameterName(h2)]
    ensures RegisterSpec(RegisterSpec(listeners, h1).listeners, h2).err == None
    ensures var after := RegisterSpec(RegisterSpec(listeners, h1).listeners, h2).listeners;
            after[GenerateParameterName(h1)][h1.funcName] == h1 &&
            after[GenerateParameterName(h1)][h2.funcName] == h2
  {
  }

  /** The `listeners` table, updated in place by Register under the lock. */
  class Registry {
    var listeners: Listeners

    ghost predicate Valid()
      reads this
    {
      WellFormed(listeners)
    }

    constructor ()
      ensures Valid() && listeners == map[]
    {
      listeners := map[];
    }

    /** Register: validate the shape, derive the key, reject a duplicate name
        or insert the handler. */
    method Register(h: Handler) returns (err: Option<RegisterError>)
      requires Valid()
      modifies this
      ensures Valid()
      ensures err == RegisterSpec(old(listeners), h).err
      ensures listeners == RegisterSpec(old(listeners), h).listeners
    {
      RegisterPreservesWellFormed(listeners, h);
      err := CheckFunc(h);
      if err != None {
        return;
      }
      var paramName := GenerateParameterName(h);
      var funcName := h.funcName;
      if paramName in listeners {
        var funcMap := listeners[paramName];
        if funcName in funcMap {
          return Some(DuplicateHandler);
        }
        funcMap := funcMap[funcName := h];
        listeners := listeners[paramName := funcMap];
      } else {
        listeners := listeners[paramName := map[funcName := h]];
      }
      return None;
    }
  }
}
