/** Handles for the parser's tree objects that the class AST holders only store
    and hand back; their own contents are not part of this model. */
module AstRefs {

  /** `org.mozilla.javascript.ast.Name`: an identifier node. */
  datatype Name = Name(identifier: string)

  /** Any `org.mozilla.javascript.Node` (also used for `AstNode` values). */
  datatype Node = Node(id: nat)

  /** `org.mozilla.javascript.ast.FunctionNode`. */
  datatype FunctionNode = FunctionNode(id: nat)

  /** Node type codes of `org.mozilla.javascript.Token`. Only `CLASS` is named;
      its numeric value is not part of this model. */
  datatype Token = CLASS | OtherToken(code: int)
}
