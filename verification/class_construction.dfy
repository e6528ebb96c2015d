/** The class construction protocol of `createClassConstructor`: locate the
    class wrapper unit in the parent's nested table, instantiate its nested
    unit 0 as the constructor, and install every other nested unit READONLY
    as a method, on the constructor when static and otherwise on a new
    prototype object that becomes the constructor's `prototype`. */
module ClassConstruction {
  import opened Wrappers
  import opened JavaLang
  import opened Units
  import opened RuntimeFunctions

  /** Slot of the class wrapper in a nested table of `length` entries, given
      the class's index: the slots are taken in reverse, so index 0 selects
      the last slot. Computed in Java `int` arithmetic. */
  function ClassIndex(length: nat, index: Int32): (r: Int32)
    ensures length <= MAX_INT ==> (0 <= r < length <==> 0 <= index < length)
    ensures 0 <= index < length <= MAX_INT ==> r == length - 1 - index
    ensures 0 < length <= MAX_INT && index == 0 ==> r == length - 1
  {
    Wrap(length - 1 - index)
  }

  /** Reversal is its own inverse on in-bounds indices, so every slot of the
      table is the wrapper of exactly one class index. */
  lemma ClassIndexInvolution(length: nat, index: Int32)
    requires 0 <= index < length <= MAX_INT
    ensures ClassIndex(length, ClassIndex(length, index)) == index
  {
  }

  /** Method `i` of the class wrapper as the protocol instantiates it: with
      the wrapper's trust, bound to `scope`, never a generator. */
  function MethodInstance(wrapper: RuntimeFunction, scope: ObjRef, i: nat): RuntimeFunction
    requires 1 <= i < |wrapper.unit.nested|
  {
    InitScriptFunction(Child(wrapper, i), scope, false)
  }

  /** One `ScriptableObject.defineProperty` call of the protocol: which nested
      unit, onto the constructor or the prototype, under which name, which
      function, and whether READONLY. */
  datatype Install = Install(index: nat, onConstructor: bool, name: string, fn: RuntimeFunction, readOnly: bool)

  function MethodInstall(wrapper: RuntimeFunction, scope: ObjRef, i: nat): Install
    requires 1 <= i < |wrapper.unit.nested|
  {
    var fn := MethodInstance(wrapper, scope, i);
    Install(i, fn.unit.isStaticMethod, FunctionName(fn.unit), fn, true)
  }

  /** Number of methods of a class wrapper: all nested units but unit 0. */
  function MethodCount(wrapper: RuntimeFunction): nat {
    if |wrapper.unit.nested| == 0 then 0 else |wrapper.unit.nested| - 1
  }

  /** The protocol's `defineProperty` calls, in the order it makes them:
      nested units 1 .. count-1 once each, in declaration order, never unit 0
      (the constructor); each READONLY, under the unit's function name, onto
      the constructor exactly when the unit is a static method (so never onto
      both objects). */
  function MethodInstalls(wrapper: RuntimeFunction, scope: ObjRef): (log: seq<Install>)
    ensures forall k :: 0 <= k < |log| ==> log[k].index == k + 1 && 1 <= log[k].index < |wrapper.unit.nested|
    ensures forall k, k' :: 0 <= k < |log| && 0 <= k' < |log| && log[k].index == log[k'].index ==> k == k'
    ensures forall i :: 1 <= i < |wrapper.unit.nested| ==> i - 1 < |log| && log[i - 1] == MethodInstall(wrapper, scope, i)
    ensures forall k :: 0 <= k < |log| ==>
      && log[k].readOnly
      && log[k].onConstructor == wrapper.unit.nested[log[k].index].isStaticMethod
      && log[k].name == FunctionName(wrapper.unit.nested[log[k].index])
      && log[k].fn == MethodInstance(wrapper, scope, log[k].index)
  {
    seq(MethodCount(wrapper), k requires 0 <= k < MethodCount(wrapper) => MethodInstall(wrapper, scope, k + 1))
  }

  /** The own properties an object gains from the calls in `log` aimed at it
      (the constructor when `onConstructor`, else the prototype), starting
      from none. A repeated name is resolved by the general object model; this
      model lets the later call win, and the lemmas below only state facts
      that hold whichever call wins. */
  function Installed(log: seq<Install>, onConstructor: bool): map<string, Property>
    decreases |log|
  {
    if log == [] then map[]
    else
      var before := Installed(log[..|log| - 1], onConstructor);
      var last := log[|log| - 1];
      if last.onConstructor == onConstructor then before[last.name := Property(last.fn, last.readOnly)]
      else before
  }

  predicate Targets(x: Install, onConstructor: bool, name: string) {
    x.onConstructor == onConstructor && x.name == name
  }

  /** An object holds a property exactly under the names some call aimed at
      it, and each such property is what one of those calls installed. */
  lemma {:induction false} InstalledKeysAndValues(log: seq<Install>, onConstructor: bool)
    ensures forall name :: name in Installed(log, onConstructor) <==>
              exists j :: 0 <= j < |log| && Targets(log[j], onConstructor, name)
    ensures forall name :: name in Installed(log, onConstructor) ==>
              exists j :: 0 <= j < |log| && Targets(log[j], onConstructor, name)
                && Installed(log, onConstructor)[name] == Property(log[j].fn, log[j].readOnly)
    decreases |log|
  {
    if log != [] {
      var prefix := log[..|log| - 1];
      var last := log[|log| - 1];
      InstalledKeysAndValues(prefix, onConstructor);
      var m := Installed(log, onConstructor);
      var before := Installed(prefix, onConstructor);
      assert m == if last.onConstructor == onConstructor then before[last.name := Property(last.fn, last.readOnly)] else before;
      forall name
        ensures name in m <==> exists j :: 0 <= j < |log| && Targets(log[j], onConstructor, name)
      {
        if name in m && !Targets(last, onConstructor, name) {
          assert name in Installed(prefix, onConstructor);
          var j :| 0 <= j < |prefix| && Targets(prefix[j], onConstructor, name);
          assert log[j] == prefix[j];
        }
        if exists j :: 0 <= j < |log| && Targets(log[j], onConstructor, name) {
          var j :| 0 <= j < |log| && Targets(log[j], onConstructor, name);
          if j < |log| - 1 {
            assert Targets(prefix[j], onConstructor, name);
            assert name in before;
          }
        }
      }
      forall name | name in m
        ensures exists j :: 0 <= j < |log| && Targets(log[j], onConstructor, name)
                  && m[name] == Property(log[j].fn, log[j].readOnly)
      {
        if Targets(last, onConstructor, name) {
          assert Targets(log[|log| - 1], onConstructor, name);
        } else {
          assert name in Installed(prefix, onConstructor) && m[name] == Installed(prefix, onConstructor)[name];
          var j :| 0 <= j < |prefix| && Targets(prefix[j], onConstructor, name)
                   && Installed(prefix, onConstructor)[name] == Property(prefix[j].fn, prefix[j].readOnly);
          assert log[j] == prefix[j];
        }
      }
    }
  }

  /** No other method of the same placement shares the name of method `i`. */
  predicate UniqueMethodName(w: Unit, i: nat)
    requires i < |w.nested|
  {
    forall j :: 1 <= j < |w.nested| && j != i && w.nested[j].isStaticMethod == w.nested[i].isStaticMethod ==>
      FunctionName(w.nested[j]) != FunctionName(w.nested[i])
  }

  /** The names under which `props` holds properties are exactly the names of
      the wrapper's methods whose static flag is `isStatic`. */
  ghost predicate KeysAreMethodNames(props: map<string, Property>, w: Unit, isStatic: bool)
  {
    forall name :: name in props <==>
      exists i :: 1 <= i < |w.nested| && w.nested[i].isStaticMethod == isStatic && FunctionName(w.nested[i]) == name
  }

  /** Each property of `props` is READONLY and is one of those methods,
      installed under its own name. */
  ghost predicate ValuesAreMethods(props: map<string, Property>, wrapper: RuntimeFunction, scope: ObjRef, isStatic: bool)
  {
    forall name :: name in props ==>
      && props[name].readOnly
      && exists i :: 1 <= i < |wrapper.unit.nested| && wrapper.unit.nested[i].isStaticMethod == isStatic
           && FunctionName(wrapper.unit.nested[i]) == name && props[name].value == MethodInstance(wrapper, scope, i)
  }

  /** A method whose name no other method of the same placement shares is
      found under that name, READONLY. */
  ghost predicate UniqueNamesExact(props: map<string, Property>, wrapper: RuntimeFunction, scope: ObjRef, isStatic: bool)
  {
    var w := wrapper.unit;
    forall i :: 1 <= i < |w.nested| && w.nested[i].isStaticMethod == isStatic && UniqueMethodName(w, i) ==>
      FunctionName(w.nested[i]) in props
      && props[FunctionName(w.nested[i])] == Property(MethodInstance(wrapper, scope, i), true)
  }

  /** `props` holds exactly the methods of the class wrapper whose static flag
      is `isStatic`. */
  ghost predicate HoldsMethods(props: map<string, Property>, wrapper: RuntimeFunction, scope: ObjRef, isStatic: bool)
  {
    && KeysAreMethodNames(props, wrapper.unit, isStatic)
    && ValuesAreMethods(props, wrapper, scope, isStatic)
    && UniqueNamesExact(props, wrapper, scope, isStatic)
  }

  lemma InstalledKeysAreMethodNames(wrapper: RuntimeFunction, scope: ObjRef, isStatic: bool)
    ensures KeysAreMethodNames(Installed(MethodInstalls(wrapper, scope), isStatic), wrapper.unit, isStatic)
  {
    var w := wrapper.unit;
    var log := MethodInstalls(wrapper, scope);
    var props := Installed(log, isStatic);
    InstalledKeysAndValues(log, isStatic);
    forall name
      ensures name in props <==>
        exists i :: 1 <= i < |w.nested| && w.nested[i].isStaticMethod == isStatic && FunctionName(w.nested[i]) == name
    {
      if name in props {
        var j :| 0 <= j < |log| && Targets(log[j], isStatic, name);
        assert w.nested[j + 1].isStaticMethod == isStatic && FunctionName(w.nested[j + 1]) == name;
      }
      if exists i :: 1 <= i < |w.nested| && w.nested[i].isStaticMethod == isStatic && FunctionName(w.nested[i]) == name {
        var i :| 1 <= i < |w.nested| && w.nested[i].isStaticMethod == isStatic && FunctionName(w.nested[i]) == name;
        assert log[i - 1] == MethodInstall(wrapper, scope, i);
        assert Targets(log[i - 1], isStatic, name);
      }
    }
  }

  lemma InstalledValuesAreMethods(wrapper: RuntimeFunction, scope: ObjRef, isStatic: bool)
    ensures ValuesAreMethods(Installed(MethodInstalls(wrapper, scope), isStatic), wrapper, scope, isStatic)
  {
    var log := MethodInstalls(wrapper, scope);
    var props := Installed(log, isStatic);
    InstalledKeysAndValues(log, isStatic);
    forall name | name in props
      ensures props[name].readOnly
      ensures exists i :: 1 <= i < |wrapper.unit.nested| && wrapper.unit.nested[i].isStaticMethod == isStatic
                && FunctionName(wrapper.unit.nested[i]) == name && props[name].value == MethodInstance(wrapper, scope, i)
    {
      var j :| 0 <= j < |log| && Targets(log[j], isStatic, name) && props[name] == Property(log[j].fn, log[j].readOnly);
      assert log[j].index == j + 1;
    }
  }

  lemma InstalledUniqueNamesExact(wrapper: RuntimeFunction, scope: ObjRef, isStatic: bool)
    ensures UniqueNamesExact(Installed(MethodInstalls(wrapper, scope), isStatic), wrapper, scope, isStatic)
  {
    var w := wrapper.unit;
    var log := MethodInstalls(wrapper, scope);
    var props := Installed(log, isStatic);
    InstalledKeysAndValues(log, isStatic);
    forall i | 1 <= i < |w.nested| && w.nested[i].isStaticMethod == isStatic && UniqueMethodName(w, i)
      ensures FunctionName(w.nested[i]) in props
      ensures props[FunctionName(w.nested[i])] == Property(MethodInstance(wrapper, scope, i), true)
    {
      var name := FunctionName(w.nested[i]);
      assert log[i - 1] == MethodInstall(wrapper, scope, i);
      assert Targets(log[i - 1], isStatic, name);
      var j :| 0 <= j < |log| && Targets(log[j], isStatic, name) && props[name] == Property(log[j].fn, log[j].readOnly);
      assert log[j].index == j + 1;
      assert log[j] == MethodInstall(wrapper, scope, j + 1);
    }
  }

  /** The installs aimed at one object give it exactly that object's methods. */
  lemma InstalledHoldsMethods(wrapper: RuntimeFunction, scope: ObjRef, isStatic: bool)
    ensures HoldsMethods(Installed(MethodInstalls(wrapper, scope), isStatic), wrapper, scope, isStatic)
  {
    InstalledKeysAreMethodNames(wrapper, scope, isStatic);
    InstalledValuesAreMethods(wrapper, scope, isStatic);
    InstalledUniqueNamesExact(wrapper, scope, isStatic);
  }

  /** The object graph `createClassConstructor` builds, as one value: the
      constructor carrying its static methods and linked to a prototype
      carrying the instance methods. */
  function AssembledClass(scope: ObjRef, parent: RuntimeFunction, index: Int32): (r: Result<RuntimeFunction, JavaException>)
    ensures |parent.unit.nested| <= MAX_INT ==>
      (r.Success? <==> 0 <= index < |parent.unit.nested|
                       && |parent.unit.nested[|parent.unit.nested| - 1 - index].nested| > 0)
    ensures r.Failure? ==> r.error == ArrayIndexOutOfBoundsException
  {
    var wrapper :- FromParent(parent, ClassIndex(|parent.unit.nested|, index));
    var ctor :- FromParent(wrapper, 0);
    var log := MethodInstalls(wrapper, scope);
    Success(InitScriptFunction(ctor, scope, false).(
      ownProps := Installed(log, true),
      prototypeProperty := Some(PlainObject(scope, Installed(log, false)))))
  }

  /** What the protocol guarantees of a class it assembles: the constructor
      runs nested unit 0 of the wrapper found at the reversed index, is bound
      to `scope` and is not a generator, keeps the parent's trust, carries
      exactly the static methods, and its `prototype` is a new object of
      `scope` carrying exactly the instance methods. */
  lemma ClassAssemblyPlacement(scope: ObjRef, parent: RuntimeFunction, index: Int32)
    requires |parent.unit.nested| <= MAX_INT
    requires AssembledClass(scope, parent, index).Success?
    ensures 0 <= index < |parent.unit.nested|
    ensures var wrapper := Child(parent, |parent.unit.nested| - 1 - index);
      var ctor := AssembledClass(scope, parent, index).value;
      && |wrapper.unit.nested| > 0
      && ctor.unit == wrapper.unit.nested[0]
      && ctor.controller == parent.controller && ctor.domain == parent.domain
      && ctor.binding == Bound(scope, false)
      && HoldsMethods(ctor.ownProps, wrapper, scope, true)
      && ctor.prototypeProperty.Some?
      && ctor.prototypeProperty.value.parentScope == scope
      && HoldsMethods(ctor.prototypeProperty.value.props, wrapper, scope, false)
  {
    var wrapper := Child(parent, |parent.unit.nested| - 1 - index);
    InstalledHoldsMethods(wrapper, scope, true);
    InstalledHoldsMethods(wrapper, scope, false);
  }

  /** Every method the protocol installs keeps the parent's controller and
      domain and is not a generator. */
  lemma InstalledMethodsInheritTrust(scope: ObjRef, parent: RuntimeFunction, index: Int32)
    requires |parent.unit.nested| <= MAX_INT
    requires AssembledClass(scope, parent, index).Success?
    ensures var ctor := AssembledClass(scope, parent, index).value;
      forall name :: name in ctor.ownProps ==>
        var m := ctor.ownProps[name].value;
        m.controller == parent.controller && m.domain == parent.domain && m.binding == Bound(scope, false)
    ensures var ctor := AssembledClass(scope, parent, index).value;
      forall name :: ctor.prototypeProperty.Some? && name in ctor.prototypeProperty.value.props ==>
        var m := ctor.prototypeProperty.value.props[name].value;
        m.controller == parent.controller && m.domain == parent.domain && m.binding == Bound(scope, false)
  {
    ClassAssemblyPlacement(scope, parent, index);
  }

  /** `defines` is one `defineProperty` call per method unit `1 .. count-1`
      of the wrapper, in declaration order (so never unit 0, the constructor):
      each READONLY, under the unit's function name, aimed at the constructor
      exactly when the unit is a static method and otherwise at the prototype. */
  predicate DefinesEachMethodOnce(defines: seq<Install>, wrapper: RuntimeFunction, scope: ObjRef)
  {
    && |defines| + 1 == |wrapper.unit.nested|
    && forall k :: 0 <= k < |defines| ==>
         && defines[k].index == k + 1
         && defines[k].readOnly
         && defines[k].onConstructor == wrapper.unit.nested[k + 1].isStaticMethod
         && defines[k].name == FunctionName(wrapper.unit.nested[k + 1])
         && defines[k].fn == MethodInstance(wrapper, scope, k + 1)
  }

  /** `createClassConstructor` step by step: the loop over nested units
      `1 .. count-1` with a `defineProperty` per method, aimed at the
      constructor or the prototype by the branch on the static flag.
      `defines` records those calls in the order the loop makes them. */
  method CreateClassConstructor(scope: ObjRef, parent: RuntimeFunction, index: Int32)
    returns (r: Result<RuntimeFunction, JavaException>, defines: seq<Install>)
    ensures r == AssembledClass(scope, parent, index)
    ensures r.Failure? ==> defines == []
    ensures r.Success? ==>
      && 0 <= ClassIndex(|parent.unit.nested|, index) < |parent.unit.nested|
      && DefinesEachMethodOnce(defines, Child(parent, ClassIndex(|parent.unit.nested|, index)), scope)
  {
    defines := [];
    var classIndex := ClassIndex(|parent.unit.nested|, index);
    var wrapperOr := FromParent(parent, classIndex);
    if wrapperOr.Failure? {
      return Failure(wrapperOr.error), defines;
    }
    var wrapper := wrapperOr.value;
    var ctorOr := FromParent(wrapper, 0);
    if ctorOr.Failure? {
      return Failure(ctorOr.error), defines;
    }
    var ctor := InitScriptFunction(ctorOr.value, scope, false);
    var proto := PlainObject(scope, map[]);
    var i := 1;
    while i < |wrapper.unit.nested|
      invariant 1 <= i <= |wrapper.unit.nested|
      invariant |defines| == i - 1
      invariant forall k :: 0 <= k < |defines| ==>
         && defines[k].index == k + 1
         && defines[k].readOnly
         && defines[k].onConstructor == wrapper.unit.nested[k + 1].isStaticMethod
         && defines[k].name == FunctionName(wrapper.unit.nested[k + 1])
         && defines[k].fn == MethodInstance(wrapper, scope, k + 1)
      invariant ctor == InitScriptFunction(ctorOr.value, scope, false).(ownProps := Installed(defines, true))
      invariant proto == PlainObject(scope, Installed(defines, false))
    {
      var fn := InitScriptFunction(Child(wrapper, i), scope, false);
      var call: Install;
      if fn.unit.isStaticMethod {
        call := Install(i, true, FunctionName(fn.unit), fn, true);
        ctor := ctor.(ownProps := ctor.ownProps[call.name := Property(call.fn, call.readOnly)]);
      } else {
        call := Install(i, false, FunctionName(fn.unit), fn, true);
        proto := proto.(props := proto.props[call.name := Property(call.fn, call.readOnly)]);
      }
      assert (defines + [call])[..|defines|] == defines;
      defines := defines + [call];
      i := i + 1;
    }
    assert defines == MethodInstalls(wrapper, scope);
    ctor := ctor.(prototypeProperty := Some(proto));
    return Success(ctor), defines;
  }
}
