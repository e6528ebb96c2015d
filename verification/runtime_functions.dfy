/** `InterpretedFunction` instances: one compiled unit bound to the security
    controller and domain captured at creation and, once initialised, to a scope.
    The four creation paths (script, top-level function, nested function, class
    constructor) all produce this one record. */
module RuntimeFunctions {
  import opened Wrappers
  import opened JavaLang
  import opened Units

  /** A `SecurityController`. */
  datatype Controller = Controller(id: nat)

  /** A security domain object. */
  datatype Domain = Domain(id: nat)

  /** A `Scriptable` handle (a scope or a `this` object). */
  datatype ObjRef = ObjRef(id: nat)

  /** `SecurityController.getDynamicSecurityDomain`, supplied by the embedding. */
  type DomainDeriver = (Controller, Option<Domain>) -> Option<Domain>

  /** What `initScriptFunction` recorded: nothing yet, or the scope and the
      generator flag. */
  datatype Binding = Unbound | Bound(scope: ObjRef, isGenerator: bool)

  /** An own property: its value and whether it was installed READONLY. */
  datatype Property = Property(value: RuntimeFunction, readOnly: bool)

  /** An object made by `cx.newObject(scope)` together with its own properties. */
  datatype PlainObject = PlainObject(parentScope: ObjRef, props: map<string, Property>)

  /** `ownProps` and `prototypeProperty` are the only parts of the general
      object model the class construction protocol touches. */
  datatype RuntimeFunction = RuntimeFunction(
    unit: Unit,
    controller: Option<Controller>,
    domain: Option<Domain>,
    binding: Binding,
    ownProps: map<string, Property>,
    prototypeProperty: Option<PlainObject>)

  /** A newly constructed instance: not yet bound, no properties of its own. */
  function Fresh(unit: Unit, controller: Option<Controller>, domain: Option<Domain>): RuntimeFunction {
    RuntimeFunction(unit, controller, domain, Unbound, map[], None)
  }

  /** No controller in the current thread's context, but a static domain was
      supplied: the combination the first constructor refuses. */
  predicate RejectsStaticDomain(staticDomain: Option<Domain>, ambient: Option<Controller>) {
    ambient.None? && staticDomain.Some?
  }

  /** The private constructor for top-level code. `ambient` is the controller
      of the context of the current thread — never one supplied by the caller. */
  function FromCompiled(unit: Unit, staticDomain: Option<Domain>, ambient: Option<Controller>, derive: DomainDeriver)
    : (r: Result<RuntimeFunction, JavaException>)
    ensures r.Failure? <==> RejectsStaticDomain(staticDomain, ambient)
    ensures r.Failure? ==> r.error == IllegalArgumentException
    ensures r.Success? ==> r.value.unit == unit && r.value.controller == ambient
    ensures r.Success? && ambient.None? ==> r.value.domain.None?
    ensures ambient.Some? ==> r.Success? && r.value.domain == derive(ambient.value, staticDomain)
    ensures r.Success? ==> r.value.binding.Unbound? && r.value.ownProps == map[] && r.value.prototypeProperty.None?
  {
    if ambient.Some? then
      Success(Fresh(unit, ambient, derive(ambient.value, staticDomain)))
    else if staticDomain.Some? then
      Failure(IllegalArgumentException)
    else
      Success(Fresh(unit, None, None))
  }

  /** Nested unit `index` of `parent`, inheriting the parent's controller and domain. */
  function Child(parent: RuntimeFunction, index: nat): RuntimeFunction
    requires index < |parent.unit.nested|
  {
    Fresh(parent.unit.nested[index], parent.controller, parent.domain)
  }

  /** The private constructor for nested code: indexes the parent's nested
      table and copies the parent's controller and domain without re-deriving them. */
  function FromParent(parent: RuntimeFunction, index: int): (r: Result<RuntimeFunction, JavaException>)
    ensures r.Success? <==> 0 <= index < |parent.unit.nested|
    ensures r.Failure? ==> r.error == ArrayIndexOutOfBoundsException
    ensures r.Success? ==> r.value.unit == parent.unit.nested[index]
    ensures r.Success? ==> r.value.controller == parent.controller && r.value.domain == parent.domain
    ensures r.Success? ==> r.value.binding.Unbound? && r.value.ownProps == map[] && r.value.prototypeProperty.None?
  {
    if 0 <= index < |parent.unit.nested| then Success(Child(parent, index))
    else Failure(ArrayIndexOutOfBoundsException)
  }

  /** `initScriptFunction`: records the scope and the generator flag. */
  function InitScriptFunction(f: RuntimeFunction, scope: ObjRef, isGenerator: bool): (r: RuntimeFunction)
    ensures r.binding == Bound(scope, isGenerator)
    ensures r.(binding := f.binding) == f
  {
    f.(binding := Bound(scope, isGenerator))
  }

  /** `createScript`: a top-level script; it is not bound to a scope. */
  function CreateScript(unit: Unit, staticDomain: Option<Domain>, ambient: Option<Controller>, derive: DomainDeriver)
    : (r: Result<RuntimeFunction, JavaException>)
    ensures r.Failure? <==> RejectsStaticDomain(staticDomain, ambient)
    ensures r.Failure? ==> r.error == IllegalArgumentException
    ensures r.Success? ==> r.value.unit == unit && r.value.controller == ambient && r.value.binding.Unbound?
    ensures r.Success? ==> r.value.domain == if ambient.Some? then derive(ambient.value, staticDomain) else None
  {
    FromCompiled(unit, staticDomain, ambient, derive)
  }

  /** `createFunction` for a function compiled from the `Function(...)`
      constructor: bound to `scope` at once, a generator iff the unit is one. */
  function CreateFunction(scope: ObjRef, unit: Unit, staticDomain: Option<Domain>, ambient: Option<Controller>, derive: DomainDeriver)
    : (r: Result<RuntimeFunction, JavaException>)
    ensures r.Failure? <==> RejectsStaticDomain(staticDomain, ambient)
    ensures r.Failure? ==> r.error == IllegalArgumentException
    ensures r.Success? ==> r.value.unit == unit && r.value.controller == ambient
    ensures r.Success? ==> r.value.domain == if ambient.Some? then derive(ambient.value, staticDomain) else None
    ensures r.Success? ==> r.value.binding == Bound(scope, unit.isES6Generator)
  {
    var f :- FromCompiled(unit, staticDomain, ambient, derive);
    Success(InitScriptFunction(f, scope, f.unit.isES6Generator))
  }

  /** `createFunction` for a function nested in a script or another function. */
  function CreateNestedFunction(scope: ObjRef, parent: RuntimeFunction, index: int)
    : (r: Result<RuntimeFunction, JavaException>)
    ensures r.Success? <==> 0 <= index < |parent.unit.nested|
    ensures r.Failure? ==> r.error == ArrayIndexOutOfBoundsException
    ensures r.Success? ==> r.value.unit == parent.unit.nested[index]
    ensures r.Success? ==> r.value.controller == parent.controller && r.value.domain == parent.domain
    ensures r.Success? ==> r.value.binding == Bound(scope, parent.unit.nested[index].isES6Generator)
  {
    var f :- FromParent(parent, index);
    Success(InitScriptFunction(f, scope, f.unit.isES6Generator))
  }

  /** The unit reached from `u` by following the nested-table indices in `path`. */
  function UnitAt(u: Unit, path: seq<int>): Option<Unit>
    decreases |path|
  {
    if path == [] then Some(u)
    else if 0 <= path[0] < |u.nested| then UnitAt(u.nested[path[0]], path[1..])
    else None
  }

  /** Instantiating nested functions along `path`, each inside the previous one. */
  function Descend(f: RuntimeFunction, path: seq<int>): Result<RuntimeFunction, JavaException>
    decreases |path|
  {
    if path == [] then Success(f)
    else
      var child :- FromParent(f, path[0]);
      Descend(child, path[1..])
  }

  /** However deeply functions are nested, each one runs the unit found along
      its index path under exactly the controller and domain of the outermost
      one: trust is derived once, at top level, and never re-derived. */
  lemma {:induction false} DescendInheritsTrust(f: RuntimeFunction, path: seq<int>)
    ensures Descend(f, path).Success? <==> UnitAt(f.unit, path).Some?
    ensures Descend(f, path).Success? ==>
              && Descend(f, path).value.unit == UnitAt(f.unit, path).value
              && Descend(f, path).value.controller == f.controller
              && Descend(f, path).value.domain == f.domain
    decreases |path|
  {
    if path != [] && 0 <= path[0] < |f.unit.nested| {
      DescendInheritsTrust(Child(f, path[0]), path[1..]);
    }
  }
}
