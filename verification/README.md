# Rhino class construction and interpreted-function instantiation, in Dafny

This project models the part of the Rhino JavaScript engine that turns compiled
code into live function objects and assembles ES6 classes from it:

- `InterpretedFunction` — the runtime function bound to a compiled unit
  (`InterpreterData`): the two private constructors (security-domain
  derivation for top-level code, inheritance for nested code), `createScript`,
  both `createFunction` overloads, `createClassConstructor`, the `call`/`exec`
  dispatch and the small accessors over the compiled unit;
- the class AST holders `ClassDefNode`, `MethodNode` and `FieldNode`.

Everything is immutable data and pure functions. A compiled unit is the
datatype `Units.Unit`, whose `nested` sequence is the nested function table.
A runtime function is `RuntimeFunctions.RuntimeFunction`: the unit, the
security controller and domain captured at creation, what
`initScriptFunction` recorded (scope and generator flag), and the two pieces
of the object model the class protocol touches. Those two pieces are the
function's own properties (a map from name to value and READONLY flag) and
its `prototype` link. Java `null` is `Wrappers.Option.None`. A Java call that
may throw returns `Wrappers.Result`, whose failure carries the exception
(`IllegalArgumentException`, `IllegalStateException`,
`ArrayIndexOutOfBoundsException`).

The controller of the current thread's context (`Context.getContext()`) is
the explicit parameter `ambient`. `SecurityController.getDynamicSecurityDomain`
is the function parameter `derive`. No caller-supplied context is ever
consulted for trust, and a nested function copies its parent's controller and
domain rather than re-deriving them. `DescendInheritsTrust` extends this to
any depth of nesting.

The class wrapper of class `index` sits at slot `length - 1 - index` of the
parent's nested table. That subtraction is computed in 32-bit Java `int`
arithmetic (`JavaLang.Wrap`). `ClassIndex` proves the slot is in bounds
exactly when `0 <= index < length`, for every `int` index including those
that overflow. `ClassConstruction.AssembledClass` is the object graph as a
single value. The method `ClassConstruction.CreateClassConstructor` follows
the source loop over nested units `1 .. count-1` and is proved to build that
same graph. The placement lemmas then state what the graph holds.

`hasFunctionNamed` is modelled as written: it answers `false` when some
nested function declaration carries the name, and `true` otherwise, whatever
its name suggests.

The errors are the Java exceptions the code throws:
`IllegalArgumentException` from the top-level constructor,
`IllegalStateException` from `exec`, and `ArrayIndexOutOfBoundsException`
for an index outside a nested table or a parameter table. The class wrapper
is instantiated but never bound to a scope; only the constructor and the
methods are.

`Units.IsScript` and `Units.HasDefaultParameters` are plain reads of the unit
with no contract of their own. The contract of `Invocation.Exec` states what
`IsScript` means.
`getLanguageVersion` is the field `Unit.languageVersion`. The AST getters are
the datatype fields.

## Model

| member | source | states |
|---|---|---|
| RuntimeFunctions.FromCompiled | rhino/src/main/java/org/mozilla/javascript/InterpretedFunction.java:18-38 | fails with IllegalArgumentException exactly when the current thread has no controller and a static domain is given; with no controller the domain is null; with a controller that controller is recorded and the domain is what it derives from the static domain |
| RuntimeFunctions.FromParent | rhino/src/main/java/org/mozilla/javascript/InterpretedFunction.java:40-44 | succeeds exactly for an in-bounds index; the unit is the parent's nested unit at that index and controller and domain are the parent's, unchanged |
| RuntimeFunctions.CreateScript | rhino/src/main/java/org/mozilla/javascript/InterpretedFunction.java:46-49 | the security-domain rule of the top-level constructor; the script is left unbound to any scope |
| RuntimeFunctions.CreateFunction | rhino/src/main/java/org/mozilla/javascript/InterpretedFunction.java:51-57 | the security-domain rule; on success bound to the given scope and a generator exactly when the unit is an ES6 generator |
| RuntimeFunctions.CreateNestedFunction | rhino/src/main/java/org/mozilla/javascript/InterpretedFunction.java:59-65 | succeeds exactly for an in-bounds index; inherits the parent's controller and domain; bound to the scope with the nested unit's generator flag |
| RuntimeFunctions.DescendInheritsTrust | rhino/src/main/java/org/mozilla/javascript/InterpretedFunction.java:40-44 | a chain of nested instantiations succeeds exactly when the index path exists in the unit tree, runs the unit at the end of the path, and keeps the outermost controller and domain |
| ClassConstruction.ClassIndex | rhino/src/main/java/org/mozilla/javascript/InterpretedFunction.java:69-71 | the wrapper slot, in Java int arithmetic, is in bounds exactly when 0 <= index < length, equals length - 1 - index then, and index 0 selects the last slot |
| ClassConstruction.ClassIndexInvolution | rhino/src/main/java/org/mozilla/javascript/InterpretedFunction.java:70 | reversing an in-bounds index twice gives it back, so each slot belongs to exactly one class index |
| ClassConstruction.InstalledKeysAndValues | rhino/src/main/java/org/mozilla/javascript/InterpretedFunction.java:82-88 | an object has a property under exactly the names some call aimed at it used, and each property is what one of those calls installed |
| ClassConstruction.InstalledKeysAreMethodNames | rhino/src/main/java/org/mozilla/javascript/InterpretedFunction.java:78-89 | the constructor's (prototype's) property names are exactly the names of the static (instance) methods |
| ClassConstruction.InstalledValuesAreMethods | rhino/src/main/java/org/mozilla/javascript/InterpretedFunction.java:78-89 | every installed property is READONLY and holds a method of the right placement, under that method's name |
| ClassConstruction.InstalledUniqueNamesExact | rhino/src/main/java/org/mozilla/javascript/InterpretedFunction.java:78-89 | a method whose name no other method of its placement shares is found under that name, READONLY |
| ClassConstruction.InstalledHoldsMethods | rhino/src/main/java/org/mozilla/javascript/InterpretedFunction.java:78-89 | the three facts above together, for constructor and prototype |
| ClassConstruction.AssembledClass | rhino/src/main/java/org/mozilla/javascript/InterpretedFunction.java:67-94 | succeeds exactly when the class index is in bounds and the wrapper has a unit 0; fails otherwise with an array-index exception |
| ClassConstruction.ClassAssemblyPlacement | rhino/src/main/java/org/mozilla/javascript/InterpretedFunction.java:67-94 | the constructor runs the wrapper's unit 0, keeps the parent's trust, is bound to the scope and is not a generator, holds exactly the static methods; its prototype is a new object of the scope holding exactly the instance methods |
| ClassConstruction.InstalledMethodsInheritTrust | rhino/src/main/java/org/mozilla/javascript/InterpretedFunction.java:78-89 | every installed method keeps the parent's controller and domain, is bound to the scope and is not a generator |
| ClassConstruction.CreateClassConstructor | rhino/src/main/java/org/mozilla/javascript/InterpretedFunction.java:67-94 | the source loop builds exactly the assembled class graph; its defineProperty calls cover nested units 1 .. count-1 once each in order, never unit 0, each READONLY under the unit's function name, aimed at the constructor exactly when the unit is a static method; a failed construction makes no calls |
| Units.FunctionName | rhino/src/main/java/org/mozilla/javascript/InterpretedFunction.java:96-99 | a present name is returned as is; the result is empty exactly when the name is null or empty |
| Invocation.Call | rhino/src/main/java/org/mozilla/javascript/InterpretedFunction.java:111-117 | a new top-level call, carrying the unit's strictness, exactly when none is active; otherwise the interpreter directly; scope, this and arguments pass through unchanged |
| Invocation.Exec | rhino/src/main/java/org/mozilla/javascript/InterpretedFunction.java:119-140 | fails with IllegalStateException exactly when the unit is not a script; otherwise takes the same path as call with the scope as this and no arguments, then processes microtasks |
| Units.ParamCount | rhino/src/main/java/org/mozilla/javascript/InterpretedFunction.java:163-169 | without a rest parameter the count is argCount; with one, the count plus one is argCount, and at the int minimum the subtraction wraps |
| Units.ParamAndVarCount | rhino/src/main/java/org/mozilla/javascript/InterpretedFunction.java:171-179 | every slot below the count has a name, and the count is the first slot without one |
| Units.ParamOrVarName | rhino/src/main/java/org/mozilla/javascript/InterpretedFunction.java:171-179 | succeeds exactly for an index below the name-table size, giving that name; otherwise an array-index exception |
| Units.ParamOrVarConst | rhino/src/main/java/org/mozilla/javascript/InterpretedFunction.java:181-184 | succeeds exactly for an in-bounds index of the const table, giving that flag; otherwise an array-index exception |
| Units.HasFunctionNamed | rhino/src/main/java/org/mozilla/javascript/InterpretedFunction.java:186-195 | false exactly when some nested unit not declared as a function expression has that very name; true otherwise |
| FieldNodes.NewField | rhino/src/main/java/org/mozilla/javascript/ast/FieldNode.java:5-13 | stores name and initializer, and the field is not static |
| FieldNodes.NewFieldWithStatic | rhino/src/main/java/org/mozilla/javascript/ast/FieldNode.java:15-18 | stores name and initializer, and the static flag as given |
| FieldNodes.SetStatic | rhino/src/main/java/org/mozilla/javascript/ast/FieldNode.java:20-26 | afterwards isStatic reads back the flag; name and initializer unchanged |
| FieldNodes.SetName | rhino/src/main/java/org/mozilla/javascript/ast/FieldNode.java:28-34 | afterwards getName reads back the name; flag and initializer unchanged |
| FieldNodes.SetInitExpr | rhino/src/main/java/org/mozilla/javascript/ast/FieldNode.java:36-42 | afterwards getInitExpr reads back the initializer; name and flag unchanged |
| FieldNodes.StaticConstructorIsSetStatic | rhino/src/main/java/org/mozilla/javascript/ast/FieldNode.java:15-18 | the three-argument constructor equals the two-argument one followed by setStatic, and it can produce every field node |
| MethodNodes.NewMethod | rhino/src/main/java/org/mozilla/javascript/ast/MethodNode.java:7-21 | stores the function node; not static; no lowered form yet |
| MethodNodes.NewMethodWithStatic | rhino/src/main/java/org/mozilla/javascript/ast/MethodNode.java:23-26 | stores the function node and the static flag as given; no lowered form yet |
| MethodNodes.SetStatic | rhino/src/main/java/org/mozilla/javascript/ast/MethodNode.java:11-17 | afterwards isStatic reads back the flag; function node and lowered form unchanged |
| MethodNodes.SetMethodIR | rhino/src/main/java/org/mozilla/javascript/ast/MethodNode.java:28-38 | afterwards getMethodIR reads back the node; function node and flag unchanged |
| MethodNodes.StaticConstructorIsSetStatic | rhino/src/main/java/org/mozilla/javascript/ast/MethodNode.java:23-26 | the two-argument constructor equals the one-argument one followed by setStatic |
| ClassDefNodes.NewClassDef | rhino/src/main/java/org/mozilla/javascript/ast/ClassDefNode.java:16-31 | stores position, name, constructor, methods and fields as given; the node type is CLASS; both lowered slots are null |
| ClassDefNodes.SetConstructorIR | rhino/src/main/java/org/mozilla/javascript/ast/ClassDefNode.java:45-51 | afterwards getTransformedConstructor reads back the node; every other slot unchanged |
| ClassDefNodes.SetFields | rhino/src/main/java/org/mozilla/javascript/ast/ClassDefNode.java:53-59 | afterwards getFields reads back the list; every other slot unchanged |
| ClassDefNodes.EditsPreserveDeclaration | rhino/src/main/java/org/mozilla/javascript/ast/ClassDefNode.java:8-59 | no sequence of setter calls changes the node type, class name, constructor, method list or the setter-less lowered-method slot |
| ClassDefNodes.TransformedConstructorIsLastSet | rhino/src/main/java/org/mozilla/javascript/ast/ClassDefNode.java:45-51 | after any sequence of setter calls the transformed constructor is the one the last setConstructorIR stored, or the earlier value if there was none |
| ClassDefNodes.BuiltNodeIsClass | rhino/src/main/java/org/mozilla/javascript/ast/ClassDefNode.java:12-31 | every node made by the constructor and then edited only through its setters has type CLASS and a null lowered-method slot |

## Left out

- ClassConstruction.InstalledValuesAreMethods: when several methods of one placement share a name, it states only that the property is one of them, because which defineProperty call wins is decided by the general object model, which is not part of this model.
- ClassConstruction.ClassAssemblyPlacement: states the same weaker fact for shared names, for the same reason; it also assumes the parent's nested table is no longer than a Java array can be.
- ClassConstruction.AssembledClass: its success condition is stated for nested tables no longer than a Java array can be.
- `Interpreter.interpret`, `ScriptRuntime.doTopCall` and `ScriptRuntime.hasTopCall` are the interpreter loop: whether a top call is active is a parameter, and `call`/`exec` return which entry point they take as an `Invocation` value.
- `cx.processMicrotasks()` is recorded only as a flag of the `exec` outcome.
- `resumeGenerator`, `getRawSource` and `getDebuggableView` only forward to the interpreter or return the unit, so there is no logic to model.
- `initScriptFunction`, `cx.newObject`, `ScriptableObject.defineProperty` and `setPrototypeProperty` belong to the general object model. Only the recorded scope and generator flag, a name-to-property map and the prototype link are modelled. The effect of READONLY on later writes is not modelled.
- Object identity is not modelled: the prototype is a new empty object of the scope, but two assemblies of one class give equal values, not distinct objects.
- The `Context` argument of the creation and invocation operations is not modelled. The security controller comes from the thread's context, which is a parameter.
- RuntimeFunctions.FromParent: a null nested function table is modelled as an empty one, so where the source throws `NullPointerException` the model fails with `ArrayIndexOutOfBoundsException`.
- RuntimeFunctions.CreateNestedFunction: the same substitution of exception for a null nested function table.
- ClassConstruction.AssembledClass: the same substitution of exception for a null nested function table of the parent or of the class wrapper.
- ClassConstruction.AssembledClass: when two methods of one placement share a name, the later definition wins. The code that decides this (`ScriptableObject.defineProperty` on a READONLY property) is not part of this model, and it may keep the first one instead. The placement lemmas state only facts that hold under either outcome.
- ClassConstruction.CreateClassConstructor: is proved equal to `AssembledClass`, so it inherits the same later-definition-wins choice and the same exception substitution.
- The AST holders are values, while the Java objects are shared references. `ClassDefNode` keeps the caller's method and field lists, and its getters return those same lists. A later `MethodNode.setMethodIR` or `FieldNode.setStatic` on a list element is therefore visible through the class node in Java. In the model the class node keeps the old element. `ClassDefNodes.EditsPreserveDeclaration` covers only the node's own two setters.
- A null `name` argument to `hasFunctionNamed`, which would throw, is not modelled.
- Class lowering and the compiler's `generateClasses` are not part of this model. The order of the wrapper's nested units is taken as given. The lowered-method slot of `ClassDefNode` has no setter.
- Serialization (`serialVersionUID`), concurrency and generator suspension are not modelled.
- The numeric value of `Token.CLASS` is not part of this model.
