/** `FieldNode`: a class field declaration as the parser hands it over — a name,
    an optional initializer and a static/instance flag. */
module FieldNodes {
  import opened Wrappers
  import opened AstRefs

  datatype FieldNode = FieldNode(isStatic: bool, name: Option<Name>, initExpr: Option<Node>)

  /** The two-argument constructor: an instance field unless made static later. */
  function NewField(fieldName: Option<Name>, initExpr: Option<Node>): (f: FieldNode)
    ensures f.name == fieldName && f.initExpr == initExpr
    ensures !f.isStatic
  {
    FieldNode(false, fieldName, initExpr)
  }

  /** The three-argument constructor, which delegates to the two-argument one
      and then overwrites the flag. */
  function NewFieldWithStatic(fieldName: Option<Name>, initExpr: Option<Node>, isStatic: bool): (f: FieldNode)
    ensures f.name == fieldName && f.initExpr == initExpr
    ensures f.isStatic == isStatic
  {
    NewField(fieldName, initExpr).(isStatic := isStatic)
  }

  function SetStatic(f: FieldNode, aStatic: bool): (r: FieldNode)
    ensures r.isStatic == aStatic
    ensures r.name == f.name && r.initExpr == f.initExpr
  {
    f.(isStatic := aStatic)
  }

  function SetName(f: FieldNode, name: Option<Name>): (r: FieldNode)
    ensures r.name == name
    ensures r.isStatic == f.isStatic && r.initExpr == f.initExpr
  {
    f.(name := name)
  }

  function SetInitExpr(f: FieldNode, initExpr: Option<Node>): (r: FieldNode)
    ensures r.initExpr == initExpr
    ensures r.name == f.name && r.isStatic == f.isStatic
  {
    f.(initExpr := initExpr)
  }

  /** The three-argument constructor is the two-argument one followed by
      `setStatic`, and every field node is reachable that way. */
  lemma StaticConstructorIsSetStatic(fieldName: Option<Name>, initExpr: Option<Node>, isStatic: bool, f: FieldNode)
    ensures NewFieldWithStatic(fieldName, initExpr, isStatic) == SetStatic(NewField(fieldName, initExpr), isStatic)
    ensures f == NewFieldWithStatic(f.name, f.initExpr, f.isStatic)
  {
  }
}
