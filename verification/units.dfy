/** The compiled unit (`InterpreterData`): the immutable result of compiling a
    script, function or class, with its table of nested compiled units, and the
    read-only accessors `InterpretedFunction` offers over it. */
module Units {
  import opened Wrappers
  import opened JavaLang

  /** Only the fields the modelled code reads. `name` is `itsName`, `functionType`
      is `itsFunctionType` (0 for a script), `nested` is `itsNestedFunctions`. */
  datatype Unit = Unit(
    name: Option<string>,
    functionType: int,
    argCount: Int32,
    argsHasRest: bool,
    argsHasDefaults: bool,
    argNames: seq<string>,
    argIsConst: seq<bool>,
    isStrict: bool,
    isES6Generator: bool,
    isStaticMethod: bool,
    declaredAsFunctionExpression: bool,
    languageVersion: int,
    nested: seq<Unit>)

  /** The name a function reports: a missing name reads as the empty string. */
  function FunctionName(u: Unit): (r: string)
    ensures u.name.Some? ==> r == u.name.value
    ensures r == "" <==> u.name.None? || u.name == Some("")
  {
    if u.name.None? then "" else u.name.value
  }

  /** The declared parameter count: a rest parameter is not counted. */
  function ParamCount(u: Unit): (r: Int32)
    ensures u.argCount > MIN_INT ==> r + (if u.argsHasRest then 1 else 0) == u.argCount
    ensures u.argCount == MIN_INT && u.argsHasRest ==> r == MAX_INT
    ensures !u.argsHasRest ==> r == u.argCount
  {
    if u.argsHasRest then Wrap(u.argCount - 1) else u.argCount
  }

  /** Size of the parameter-and-variable name table: every slot below it has
      a name, and it is itself the first slot without one. */
  function ParamAndVarCount(u: Unit): (r: nat)
    ensures forall i :: 0 <= i < r ==> ParamOrVarName(u, i).Success?
    ensures ParamOrVarName(u, r).Failure?
  {
    |u.argNames|
  }

  /** Name of slot `index` of the parameter-and-variable table; out of range
      is an array-index failure. */
  function ParamOrVarName(u: Unit, index: int): (r: Result<string, JavaException>)
    ensures r.Success? <==> 0 <= index < |u.argNames|
    ensures r.Success? ==> r.value == u.argNames[index]
    ensures r.Failure? ==> r.error == ArrayIndexOutOfBoundsException
  {
    if 0 <= index < |u.argNames| then Success(u.argNames[index]) else Failure(ArrayIndexOutOfBoundsException)
  }

  /** Whether slot `index` is a `const`; out of range is an array-index failure. */
  function ParamOrVarConst(u: Unit, index: int): (r: Result<bool, JavaException>)
    ensures r.Success? <==> 0 <= index < |u.argIsConst|
    ensures r.Success? ==> r.value == u.argIsConst[index]
    ensures r.Failure? ==> r.error == ArrayIndexOutOfBoundsException
  {
    if 0 <= index < |u.argIsConst| then Success(u.argIsConst[index]) else Failure(ArrayIndexOutOfBoundsException)
  }

  predicate IsScript(u: Unit) {
    u.functionType == 0
  }

  predicate HasDefaultParameters(u: Unit) {
    u.argsHasDefaults
  }

  /** `v` is a function declaration (not a function expression) named `name`;
      a unit without a name matches no name. */
  predicate IsDeclarationNamed(v: Unit, name: string) {
    !v.declaredAsFunctionExpression && v.name == Some(name)
  }

  /** Some nested unit of `u` is a function declaration named `name`. */
  predicate DeclaresFunctionNamed(u: Unit, name: string) {
    exists i :: 0 <= i < |u.nested| && IsDeclarationNamed(u.nested[i], name)
  }

  /** `hasFunctionNamed`, as written: it answers false exactly when a nested
      function declaration carries the name, and true otherwise. */
  method HasFunctionNamed(u: Unit, name: string) returns (r: bool)
    ensures r <==> !DeclaresFunctionNamed(u, name)
  {
    var f := 0;
    while f < |u.nested|
      invariant 0 <= f <= |u.nested|
      invariant forall i :: 0 <= i < f ==> !IsDeclarationNamed(u.nested[i], name)
    {
      if IsDeclarationNamed(u.nested[f], name) {
        return false;
      }
      f := f + 1;
    }
    return true;
  }
}
