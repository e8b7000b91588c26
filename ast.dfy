/**
 * What a generic type node sees of the rest of the shader AST: its base classes
 * TypeBase and Node, and the nodes it holds as parameters. Their code is not
 * part of this model, so their behaviour is given as function values, and
 * `Valid()` collects what the model assumes of them.
 */
module Ast {

  import opened Options

  /**
   * A 32-bit hash code as its two's complement bit pattern: C#'s unchecked
   * `*` and `^` on `int` compute exactly `bv32`'s `*` and `^`.
   */
  type HashCode = bv32

  /** How a parameter node appears in a rendered type name. */
  datatype NodeKind =
    | TypeBaseNode(name: Option<string>)  // a TypeBase, shown by its Name (which may be null)
    | OtherNode(text: string)             // any other node, shown by its own ToString()

  /**
   * The behaviour of the unseen classes. `N` stands for a (non-null) node
   * reference held in a parameter slot, `B` for the state a generic type node
   * inherits from TypeBase and Node.
   */
  datatype Hierarchy<!N(!new), !B(!new)> = Hierarchy(
    newTypeBase: Option<string> -> B,  // the state TypeBase's constructor builds from a name
    nameOf: B -> Option<string>,       // TypeBase.Name
    baseEquals: (B, B) -> bool,        // TypeBase's equality, the `base.Equals` call
    baseHash: B -> HashCode,           // TypeBase's hash, the `base.GetHashCode` call
    nodeEquals: (N, N) -> bool,        // Node.Equals between two non-null nodes
    nodeHash: N -> HashCode,           // Node.GetHashCode
    kind: N -> NodeKind)               // `is TypeBase` and that Name, or the node's text
  {
    /**
     * The contract the unseen classes are assumed to keep: the constructor of
     * TypeBase stores the name it is given, both equalities are equivalence
     * relations and both hashes agree on equal values.
     */
    ghost predicate Valid()
    {
      && (forall name :: nameOf(newTypeBase(name)) == name)
      && (forall b :: baseEquals(b, b))
      && (forall b, c :: baseEquals(b, c) ==> baseEquals(c, b))
      && (forall b, c, d :: baseEquals(b, c) && baseEquals(c, d) ==> baseEquals(b, d))
      && (forall b, c :: baseEquals(b, c) ==> baseHash(b) == baseHash(c))
      && (forall x :: nodeEquals(x, x))
      && (forall x, y :: nodeEquals(x, y) ==> nodeEquals(y, x))
      && (forall x, y, z :: nodeEquals(x, y) && nodeEquals(y, z) ==> nodeEquals(x, z))
      && (forall x, y :: nodeEquals(x, y) ==> nodeHash(x) == nodeHash(y))
    }
  }
}
