/** The invocation protocol of `InterpretedFunction`: `call` and `exec` decide
    between entering through a new top-level call and handing the frame to
    the interpreter directly. The interpreter loop itself is outside this
    model; an `Invocation` records which entry point is taken, with what. */
module Invocation {
  import opened Wrappers
  import opened JavaLang
  import opened Units
  import opened RuntimeFunctions

  /** An argument value handed to the interpreter. */
  datatype JsValue = JsValue(id: nat)

  /** `ScriptRuntime.doTopCall` (with the strict-mode flag it is given) or
      `Interpreter.interpret`. */
  datatype Invocation =
    | DoTopCall(fn: RuntimeFunction, scope: ObjRef, thisObj: ObjRef, args: seq<JsValue>, isStrict: bool)
    | Interpret(fn: RuntimeFunction, scope: ObjRef, thisObj: ObjRef, args: seq<JsValue>)

  /** `call`: a new top-level call, carrying the unit's strictness, exactly
      when none is active on the context; otherwise straight to the interpreter.
      Scope, `this` and the arguments are passed through unchanged. */
  function Call(f: RuntimeFunction, hasTopCall: bool, scope: ObjRef, thisObj: ObjRef, args: seq<JsValue>): (r: Invocation)
    ensures r.DoTopCall? <==> !hasTopCall
    ensures r.fn == f && r.scope == scope && r.thisObj == thisObj && r.args == args
    ensures r.DoTopCall? ==> r.isStrict == f.unit.isStrict
  {
    if !hasTopCall then DoTopCall(f, scope, thisObj, args, f.unit.isStrict)
    else Interpret(f, scope, thisObj, args)
  }

  /** What `exec` does when it does not throw: one invocation, then the
      context's pending microtasks are processed. */
  datatype ExecPlan = ExecPlan(invocation: Invocation, processesMicrotasks: bool)

  /** `exec`: only a script may be executed; it runs with the scope as `this`
      and no arguments — the same entry point `call` would take — and then
      drains the microtask queue. */
  function Exec(f: RuntimeFunction, hasTopCall: bool, scope: ObjRef): (r: Result<ExecPlan, JavaException>)
    ensures r.Failure? <==> f.unit.functionType != 0
    ensures r.Failure? ==> r.error == IllegalStateException
    ensures r.Success? ==> r.value.invocation == Call(f, hasTopCall, scope, scope, [])
    ensures r.Success? ==> r.value.processesMicrotasks
  {
    if !IsScript(f.unit) then Failure(IllegalStateException)
    else
      var invocation :=
        if !hasTopCall then DoTopCall(f, scope, scope, [], f.unit.isStrict)
        else Interpret(f, scope, scope, []);
      Success(ExecPlan(invocation, true))
  }
}
