/** `MethodNode`: a class method declaration — the method's function node, a
    static/instance flag and a slot for its lowered form. */
module MethodNodes {
  import opened Wrappers
  import opened AstRefs

  datatype MethodNode = MethodNode(
    functionNode: Option<FunctionNode>,
    isStatic: bool,
    transformedFunction: Option<Node>)

  /** The one-argument constructor: an instance method with no lowered form yet. */
  function NewMethod(f: Option<FunctionNode>): (m: MethodNode)
    ensures m.functionNode == f
    ensures !m.isStatic
    ensures m.transformedFunction.None?
  {
    MethodNode(f, false, None)
  }

  /** The two-argument constructor, which delegates to the one-argument one and
      then overwrites the flag. */
  function NewMethodWithStatic(f: Option<FunctionNode>, isStatic: bool): (m: MethodNode)
    ensures m.functionNode == f
    ensures m.isStatic == isStatic
    ensures m.transformedFunction.None?
  {
    NewMethod(f).(isStatic := isStatic)
  }

  function SetStatic(m: MethodNode, aStatic: bool): (r: MethodNode)
    ensures r.isStatic == aStatic
    ensures r.functionNode == m.functionNode && r.transformedFunction == m.transformedFunction
  {
    m.(isStatic := aStatic)
  }

  function SetMethodIR(m: MethodNode, ir: Option<Node>): (r: MethodNode)
    ensures r.transformedFunction == ir
    ensures r.functionNode == m.functionNode && r.isStatic == m.isStatic
  {
    m.(transformedFunction := ir)
  }

  /** The two-argument constructor is the one-argument one followed by
      `setStatic`. */
  lemma StaticConstructorIsSetStatic(f: Option<FunctionNode>, isStatic: bool)
    ensures NewMethodWithStatic(f, isStatic) == SetStatic(NewMethod(f), isStatic)
  {
  }
}
