/** The value and expression vocabulary shared by the element tree, the identifier
    resolution chain and the rule cascade.

    The rule language's expression classes and the value classes are outside this model;
    they appear here as closed datatypes with structural equality, which is how the
    element tree uses them: as dictionary keys, as dependency-edge halves and as things
    compared with Equals. */
module UiDomValues {

  datatype Option<T> = None | Some(value: T)

  /** An operation that either succeeds or raises one of the source's exceptions. */
  datatype Outcome = Pass | Fail(error: Error)

  datatype Error =
    | IndexOutOfRange        // IndexOutOfRangeException from a child-list bound check
    | AlreadyHasParent       // InvalidOperationException: the child already has a parent
    | DuplicateKey           // ArgumentException: the keys list has a duplicate entry

  /** Elements live in an arena and are named by their slot. */
  type ElemId = nat

  datatype BinaryOp = Dot | And | Or | Equal | NotEqual | OtherOp(code: nat)

  /** Rule-language expressions: identifiers, applications, binary operators; anything
      else is an opaque constant distinguished by a tag. */
  datatype Expr =
    | Identifier(name: string)
    | Apply(callee: Expr, args: seq<Expr>)
    | Binary(left: Expr, op: BinaryOp, right: Expr)
    | OtherExpr(tag: nat)

  /** The structural queries a relationship value stands for. */
  datatype RelationshipKind =
    | ThisOrAncestor | ThisOrDescendent | Ancestor | Descendent
    | Child | Parent | LastChild | NextSibling | PreviousSibling

  datatype IsRelationshipKind = IsChild | IsParent | IsAncestor | IsDescendent | IsSibling

  /** Values. Element references compare by identity, which in the arena is the slot. */
  datatype Value =
    | Undefined
    | Bool(b: bool)
    | Int(i: int)
    | Str(s: string)
    | Enum(names: seq<string>)
    | Element(id: ElemId)
    | Relationship(owner: ElemId, kind: RelationshipKind)
    | IsRelationship(subject: ElemId, relation: IsRelationshipKind)
    | Method(name: string)
    | OpaqueValue(tag: nat)

  /** Truthiness: Undefined, false, zero and the empty string are false. */
  function ToBool(v: Value): (r: bool)
    ensures v.Undefined? ==> !r
    ensures v.Bool? ==> r == v.b
    ensures v.Int? ==> (r <==> v.i != 0)
    ensures v.Str? ==> (r <==> v.s != "")
  {
    match v
    case Undefined => false
    case Bool(b) => b
    case Int(i) => i != 0
    case Str(s) => s != ""
    case _ => true
  }

  /** A declaration `property: value` of a rule block, with its position in the rule text. */
  datatype Declaration = Declaration(property: string, value: Expr, position: nat)

  /** A rule block: an optional condition and its declarations, in sheet order. */
  datatype Block = Block(condition: Option<Expr>, declarations: seq<Declaration>)

  /** A dependency edge: a property (expression) of an element. */
  type Edge = (ElemId, Expr)

  /** The result of evaluating something: a value and the dependency edges it read. */
  datatype Lookup = Lookup(value: Value, deps: set<Edge>)

  /** The names a relationship constructor can be applied as, with their kinds
      (the table the watcher factory consults). */
  const RelationshipNames: map<string, RelationshipKind> := map[
    "this_or_ancestor_matches" := ThisOrAncestor,
    "this_or_descendent_matches" := ThisOrDescendent,
    "ancestor_matches" := Ancestor,
    "descendent_matches" := Descendent,
    "child_matches" := Child,
    "first_child_matches" := Child,
    "parent_matches" := Parent,
    "last_child_matches" := LastChild,
    "next_sibling_matches" := NextSibling,
    "previous_sibling_matches" := PreviousSibling
  ]
}
