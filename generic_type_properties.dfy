/**
 * What the GenericType members promise together: equality is structural and
 * an equivalence, equal nodes hash alike, the operators are each other's
 * negation, and Childrens can be called again with the same result.
 */
module GenericTypeProperties {

  import opened Ast
  import opened ParameterLists
  import opened GenericTypes

  /**
   * `Equals(GenericType)` is structural: apart from null it holds exactly when
   * the TypeBase parts are equal and the parameters are equal position by
   * position. The shortcut for the very same node agrees with this.
   */
  lemma EqualsIsStructural<N(!new), B(!new)>(h: Hierarchy<N, B>, g: GenericType<N, B>, other: GenericType?<N, B>)
    requires h.Valid()
    ensures g.Equals(h, other) <==>
      other != null && h.baseEquals(g.typeBase, other.typeBase) && PositionallyEqual(h, g.parameters, other.parameters)
  {
    if other != null {
      SequenceEqualIsPositional(h, g.parameters, other.parameters);
      if other == g {
        SequenceEqualIsEquivalence(h, g.parameters, g.parameters, g.parameters);
        assert h.baseEquals(g.typeBase, g.typeBase);
      }
    }
  }

  /** `Equals(GenericType)` is reflexive, symmetric and transitive. */
  lemma EqualsIsEquivalence<N(!new), B(!new)>(h: Hierarchy<N, B>, a: GenericType<N, B>, b: GenericType<N, B>, c: GenericType<N, B>)
    requires h.Valid()
    ensures a.Equals(h, a)
    ensures a.Equals(h, b) ==> b.Equals(h, a)
    ensures a.Equals(h, b) && b.Equals(h, c) ==> a.Equals(h, c)
  {
    EqualsIsStructural(h, a, b);
    EqualsIsStructural(h, b, a);
    EqualsIsStructural(h, b, c);
    EqualsIsStructural(h, a, c);
    SequenceEqualIsPositional(h, a.parameters, b.parameters);
    SequenceEqualIsPositional(h, b.parameters, a.parameters);
    SequenceEqualIsPositional(h, b.parameters, c.parameters);
    SequenceEqualIsPositional(h, a.parameters, c.parameters);
    SequenceEqualIsEquivalence(h, a.parameters, b.parameters, c.parameters);
    if a.Equals(h, b) {
      assert h.baseEquals(b.typeBase, a.typeBase);
      if b.Equals(h, c) {
        assert h.baseEquals(a.typeBase, c.typeBase);
      }
    }
  }

  /**
   * ParameterTypes takes no part in equality: two distinct nodes with the same
   * TypeBase part and the same parameters are equal whatever their
   * ParameterTypes.
   */
  lemma EqualsIgnoresParameterTypes<N(!new), B(!new)>(h: Hierarchy<N, B>, a: GenericType<N, B>, b: GenericType<N, B>)
    requires h.Valid()
    requires a.typeBase == b.typeBase && a.parameters == b.parameters
    ensures a.Equals(h, b) && b.Equals(h, a)
  {
    SequenceEqualIsEquivalence(h, a.parameters, a.parameters, a.parameters);
    assert h.baseEquals(a.typeBase, a.typeBase);
  }

  /**
   * `Equals(object)` is false for null and for an object of any other class,
   * and agrees with `Equals(GenericType)` on generic type nodes.
   */
  lemma EqualsObjectAgrees<N(!new), B(!new)>(h: Hierarchy<N, B>, g: GenericType<N, B>, obj: AnyObject<N, B>)
    ensures g.EqualsObject(h, obj) <==> obj.OfGenericType? && g.Equals(h, obj.node)
  {
  }

  /** Nodes that are equal have equal hash codes. */
  lemma EqualNodesHashAlike<N(!new), B(!new)>(h: Hierarchy<N, B>, a: GenericType<N, B>, b: GenericType<N, B>)
    requires h.Valid()
    requires a.Equals(h, b)
    ensures HashCodeOf(h, a.typeBase, a.parameters) == HashCodeOf(h, b.typeBase, b.parameters)
  {
    if a != b {
      EqualPartsHashEqual(h, a.typeBase, a.parameters, b.typeBase, b.parameters);
    }
  }

  /**
   * `==` holds for two nulls and for two structurally equal nodes, and for
   * nothing else; it is symmetric; `!=` is its exact negation.
   */
  lemma OperatorsAreStructural<N(!new), B(!new)>(h: Hierarchy<N, B>, left: GenericType?<N, B>, right: GenericType?<N, B>)
    requires h.Valid()
    ensures GenericType.OperatorEquals(h, left, right) <==>
      || (left == null && right == null)
      || (left != null && right != null && h.baseEquals(left.typeBase, right.typeBase)
          && PositionallyEqual(h, left.parameters, right.parameters))
    ensures GenericType.OperatorEquals(h, left, right) <==> GenericType.OperatorEquals(h, right, left)
    ensures GenericType.OperatorNotEquals(h, left, right) <==> !GenericType.OperatorEquals(h, left, right)
  {
    if left != null && right != null {
      EqualsIsStructural(h, left, right);
      EqualsIsEquivalence(h, left, right, right);
      EqualsIsEquivalence(h, right, left, left);
      EqualsObjectAgrees(h, left, OfGenericType(right));
      EqualsObjectAgrees(h, right, OfGenericType(left));
    }
  }

  /**
   * Childrens rebuilds ChildrenList from the parameters alone: a second call
   * returns the same list as the first, and the parameters are untouched.
   */
  method ChildrensTwice<N(!new), B(!new)>(g: GenericType<N, B>) returns (first: seq<N>, second: seq<N>)
    modifies g`childrenList
    ensures first == second == NonNullNodes(g.parameters)
    ensures g.parameters == old(g.parameters)
  {
    first := g.Childrens();
    second := g.Childrens();
  }
}
