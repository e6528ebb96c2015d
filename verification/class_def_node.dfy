/** `ClassDefNode`: a parsed class declaration — its name, constructor function,
    methods and fields, plus the slots the lowering stage fills in. */
module ClassDefNodes {
  import opened Wrappers
  import opened AstRefs
  import FieldNodes
  import MethodNodes

  /** `position` is the source offset handed to the `ScriptNode` super
      constructor; `nodeType` is the `Node.type` code every node carries.
      `transformedMethods` has no setter. */
  datatype ClassDefNode = ClassDefNode(
    position: int,
    nodeType: Token,
    className: Option<Name>,
    ctor: Option<FunctionNode>,
    methods: Option<seq<MethodNodes.MethodNode>>,
    fields: Option<seq<FieldNodes.FieldNode>>,
    transformedConstructor: Option<Node>,
    transformedMethods: Option<seq<Node>>)

  /** The constructor together with the instance initializer that sets the
      node type. */
  function NewClassDef(
    pos: int,
    name: Option<Name>,
    ctor: Option<FunctionNode>,
    methods: Option<seq<MethodNodes.MethodNode>>,
    fields: Option<seq<FieldNodes.FieldNode>>): (c: ClassDefNode)
    ensures c.position == pos
    ensures c.className == name && c.ctor == ctor
    ensures c.methods == methods && c.fields == fields
    ensures c.nodeType == CLASS
    ensures c.transformedConstructor.None? && c.transformedMethods.None?
  {
    ClassDefNode(pos, CLASS, name, ctor, methods, fields, None, None)
  }

  function SetConstructorIR(c: ClassDefNode, ctorIR: Option<Node>): (r: ClassDefNode)
    ensures r.transformedConstructor == ctorIR
    ensures r.className == c.className && r.ctor == c.ctor
    ensures r.methods == c.methods && r.fields == c.fields
    ensures r.position == c.position && r.nodeType == c.nodeType
    ensures r.transformedMethods == c.transformedMethods
  {
    c.(transformedConstructor := ctorIR)
  }

  function SetFields(c: ClassDefNode, fields: Option<seq<FieldNodes.FieldNode>>): (r: ClassDefNode)
    ensures r.fields == fields
    ensures r.className == c.className && r.ctor == c.ctor
    ensures r.methods == c.methods && r.transformedConstructor == c.transformedConstructor
    ensures r.position == c.position && r.nodeType == c.nodeType
    ensures r.transformedMethods == c.transformedMethods
  {
    c.(fields := fields)
  }

  /** One call of one of the node's two setters. */
  datatype Edit = SetConstructorIRCall(ctorIR: Option<Node>) | SetFieldsCall(fields: Option<seq<FieldNodes.FieldNode>>)

  /** The node after a sequence of setter calls, in order. */
  function ApplyEdits(c: ClassDefNode, edits: seq<Edit>): ClassDefNode
    decreases |edits|
  {
    if edits == [] then c
    else
      var c' := match edits[0]
        case SetConstructorIRCall(ir) => SetConstructorIR(c, ir)
        case SetFieldsCall(fs) => SetFields(c, fs);
      ApplyEdits(c', edits[1..])
  }

  /** No sequence of setter calls changes the node type, the class name, the
      constructor function, the method list or the (setter-less) lowered-method slot. */
  lemma {:induction false} EditsPreserveDeclaration(c: ClassDefNode, edits: seq<Edit>)
    ensures ApplyEdits(c, edits).nodeType == c.nodeType
    ensures ApplyEdits(c, edits).className == c.className
    ensures ApplyEdits(c, edits).ctor == c.ctor
    ensures ApplyEdits(c, edits).methods == c.methods
    ensures ApplyEdits(c, edits).transformedMethods == c.transformedMethods
    decreases |edits|
  {
    if edits != [] {
      var c' := match edits[0]
        case SetConstructorIRCall(ir) => SetConstructorIR(c, ir)
        case SetFieldsCall(fs) => SetFields(c, fs);
      EditsPreserveDeclaration(c', edits[1..]);
    }
  }

  /** The transformed-constructor slot holds whatever the last `setConstructorIR`
      call stored, and keeps its earlier value while no such call has happened. */
  function LastConstructorIR(initial: Option<Node>, edits: seq<Edit>): Option<Node>
    decreases |edits|
  {
    if edits == [] then initial
    else
      var next := if edits[0].SetConstructorIRCall? then edits[0].ctorIR else initial;
      LastConstructorIR(next, edits[1..])
  }

  lemma {:induction false} TransformedConstructorIsLastSet(c: ClassDefNode, edits: seq<Edit>)
    ensures ApplyEdits(c, edits).transformedConstructor == LastConstructorIR(c.transformedConstructor, edits)
    ensures (forall k :: 0 <= k < |edits| ==> edits[k].SetFieldsCall?) ==>
              ApplyEdits(c, edits).transformedConstructor == c.transformedConstructor
    decreases |edits|
  {
    if edits != [] {
      var c' := match edits[0]
        case SetConstructorIRCall(ir) => SetConstructorIR(c, ir)
        case SetFieldsCall(fs) => SetFields(c, fs);
      TransformedConstructorIsLastSet(c', edits[1..]);
    }
  }

  /** Every node built by the constructor and then only touched through its
      setters is a `CLASS` node whose lowered-method slot is still null. */
  lemma BuiltNodeIsClass(
    pos: int,
    name: Option<Name>,
    ctor: Option<FunctionNode>,
    methods: Option<seq<MethodNodes.MethodNode>>,
    fields: Option<seq<FieldNodes.FieldNode>>,
    edits: seq<Edit>)
    ensures ApplyEdits(NewClassDef(pos, name, ctor, methods, fields), edits).nodeType == CLASS
    ensures ApplyEdits(NewClassDef(pos, name, ctor, methods, fields), edits).transformedMethods.None?
  {
    EditsPreserveDeclaration(NewClassDef(pos, name, ctor, methods, fields), edits);
  }
}
