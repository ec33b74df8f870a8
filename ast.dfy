/** The syntax the rewriter reads and the template it builds.

    Input: the arguments of a styling call, each a `Value`; an object literal
    is `Obj`, a list of `Prop`s in source order.  Output: a template literal,
    `Template`, whose fragments ("quasis") and interpolated expressions are
    kept in two separate lists, optionally preceded by a tag.  Any node the
    rewriter never looks inside (an identifier, a member or call expression,
    a block body, a parameter) is an `Opaque` node, known only by identity. */
module Ast {

  datatype Option<+T> = None | Some(value: T)

  /** Identity of a syntax node that is carried along but never inspected. */
  type NodeId = nat

  /** The key of an object property. */
  datatype Key =
    | Ident(name: string)       // `{ color: ... }`
    | StrKey(value: string)     // `{ "&:hover": ... }`
    | Computed(expr: Value)     // `{ [expr]: ... }`

  /** An expression in argument or property-value position. */
  datatype Value =
    | StrLit(value: string)
    | NumLit(digits: string)    // a numeric literal, carried as the text JavaScript prints for it
    | Obj(props: seq<Prop>)
    /** `concise` is set when the body is an expression (`x => ({...})`);
        otherwise `body` stands for the block and is never looked at. */
    | Arrow(params: seq<NodeId>, concise: bool, body: Value)
    | Opaque(id: NodeId)

  datatype Prop = Prop(key: Key, value: Value)

  /** An expression interpolated into, or tagging, a template. */
  datatype Expr =
    | Source(node: Value)                             // an input node, interpolated as it is
    | CssArrow(params: seq<NodeId>, body: Template)   // an arrow whose object body became a template
    | CssTag                                          // the identifier `css`

  datatype Template = Template(quasis: seq<string>, exprs: seq<Expr>, tag: Option<Expr>)
}
