/**
 * The shader AST node for a generic type (`Name<p1,p2,...>`): a TypeBase with
 * an ordered list of parameter slots, its rendering, its structural equality
 * and hash, and its child nodes. The arity-1, -2 and -3 subclasses differ from
 * the base class only in their constructors, which are named constructors here.
 */
module GenericTypes {

  import opened Options
  import opened Text
  import opened Ast
  import opened ParameterLists

  /** A `System.Type` obtained with `typeof`, as an opaque token. */
  datatype RuntimeType = RuntimeType(id: nat)

  /** The argument of `Equals(object)`: null, a generic type node, or an object of any other class. */
  datatype AnyObject<N(!new), B(!new)> =
    | Null
    | OfGenericType(node: GenericType<N, B>)
    | OfOtherClass(id: nat)

  class GenericType<N(!new), B(!new)> {
    /** The state inherited from TypeBase and Node, among it the Name. */
    var typeBase: B
    /** `ParameterTypes`: the runtime types of the parameters, as the arity subclasses declare them. */
    var parameterTypes: seq<RuntimeType>
    /** `Parameters`: one slot per parameter, null until a node is put in it. */
    var parameters: seq<Option<N>>
    /** Node's `ChildrenList`, refilled by Childrens. */
    var childrenList: seq<N>

    /** TypeBase.Name. */
    function Name(h: Hierarchy<N, B>): Option<string>
      reads this
    {
      h.nameOf(typeBase)
    }

    /** `GenericType(name, parameterCount)`: `parameterCount` null slots and no parameter types. */
    constructor (h: Hierarchy<N, B>, name: Option<string>, parameterCount: int)
      ensures typeBase == h.newTypeBase(name) && (h.Valid() ==> Name(h) == name)
      ensures parameters == NullSlots(parameterCount)
      ensures |parameters| == (if parameterCount > 0 then parameterCount else 0)
      ensures parameterTypes == [] && childrenList == []
    {
      typeBase := h.newTypeBase(name);
      parameterTypes := [];
      parameters := [];
      childrenList := [];
      new;
      AddNullSlots(parameterCount);
    }

    /** The constructor's loop: appends `parameterCount` nulls to `Parameters`. */
    method AddNullSlots(parameterCount: int)
      modifies this`parameters
      ensures parameters == old(parameters) + NullSlots(parameterCount)
    {
      var i := 0;
      while i < parameterCount
        invariant 0 <= i && (i <= parameterCount || i == 0)
        invariant parameters == old(parameters) + NullSlots(i)
      {
        parameters := parameters + [None];
        i := i + 1;
      }
    }

    /** The protected `GenericType<T1>(name, parameterCount)`. */
    constructor WithTypes1(h: Hierarchy<N, B>, name: Option<string>, parameterCount: int, t1: RuntimeType)
      ensures typeBase == h.newTypeBase(name) && (h.Valid() ==> Name(h) == name)
      ensures parameters == NullSlots(parameterCount)
      ensures parameterTypes == [t1] && childrenList == []
    {
      typeBase := h.newTypeBase(name);
      parameterTypes := [t1];
      parameters := [];
      childrenList := [];
      new;
      AddNullSlots(parameterCount);
    }

    /** The protected `GenericType<T1, T2>(name, parameterCount)`. */
    constructor WithTypes2(h: Hierarchy<N, B>, name: Option<string>, parameterCount: int, t1: RuntimeType, t2: RuntimeType)
      ensures typeBase == h.newTypeBase(name) && (h.Valid() ==> Name(h) == name)
      ensures parameters == NullSlots(parameterCount)
      ensures parameterTypes == [t1, t2] && childrenList == []
    {
      typeBase := h.newTypeBase(name);
      parameterTypes := [t1, t2];
      parameters := [];
      childrenList := [];
      new;
      AddNullSlots(parameterCount);
    }

    /** The protected `GenericType<T1, T2, T3>(name, parameterCount)`. */
    constructor WithTypes3(h: Hierarchy<N, B>, name: Option<string>, parameterCount: int, t1: RuntimeType, t2: RuntimeType, t3: RuntimeType)
      ensures typeBase == h.newTypeBase(name) && (h.Valid() ==> Name(h) == name)
      ensures parameters == NullSlots(parameterCount)
      ensures parameterTypes == [t1, t2, t3] && childrenList == []
    {
      typeBase := h.newTypeBase(name);
      parameterTypes := [t1, t2, t3];
      parameters := [];
      childrenList := [];
      new;
      AddNullSlots(parameterCount);
    }

    /** `GenericType<T1>(name)`, and with `name` None the parameterless `GenericType<T1>()`: one null slot. */
    constructor Arity1(h: Hierarchy<N, B>, name: Option<string>, t1: RuntimeType)
      ensures typeBase == h.newTypeBase(name) && (h.Valid() ==> Name(h) == name)
      ensures parameters == [None]
      ensures parameterTypes == [t1] && |parameterTypes| == |parameters|
      ensures childrenList == []
    {
      typeBase := h.newTypeBase(name);
      parameterTypes := [t1];
      parameters := [];
      childrenList := [];
      new;
      AddNullSlots(1);
    }

    /** `GenericType<T1, T2>(name)` and `GenericType<T1, T2>()`: two null slots. */
    constructor Arity2(h: Hierarchy<N, B>, name: Option<string>, t1: RuntimeType, t2: RuntimeType)
      ensures typeBase == h.newTypeBase(name) && (h.Valid() ==> Name(h) == name)
      ensures parameters == [None, None]
      ensures parameterTypes == [t1, t2] && |parameterTypes| == |parameters|
      ensures childrenList == []
    {
      typeBase := h.newTypeBase(name);
      parameterTypes := [t1, t2];
      parameters := [];
      childrenList := [];
      new;
      AddNullSlots(2);
    }

    /** `GenericType<T1, T2, T3>(name)` and `GenericType<T1, T2, T3>()`: three null slots. */
    constructor Arity3(h: Hierarchy<N, B>, name: Option<string>, t1: RuntimeType, t2: RuntimeType, t3: RuntimeType)
      ensures typeBase == h.newTypeBase(name) && (h.Valid() ==> Name(h) == name)
      ensures parameters == [None, None, None]
      ensures parameterTypes == [t1, t2, t3] && |parameterTypes| == |parameters|
      ensures childrenList == []
    {
      typeBase := h.newTypeBase(name);
      parameterTypes := [t1, t2, t3];
      parameters := [];
      childrenList := [];
      new;
      AddNullSlots(3);
    }

    /**
     * ToString: the name, "<", the text of each parameter with a comma before
     * every one but the first, and ">".
     */
    method ToString(h: Hierarchy<N, B>) returns (s: string)
      ensures s == Rendered(h, Name(h), parameters)
    {
      var prefix := OrEmpty(Name(h)) + "<";
      var body := "";
      var i := 0;
      while i < |parameters|
        invariant 0 <= i <= |parameters|
        invariant body == CommaJoin(SlotTexts(h, parameters[..i]))
      {
        var parameter := parameters[i];
        if i > 0 {
          body := body + ",";
        }
        body := body + SlotText(h, parameter);
        CommaJoinSnoc(SlotTexts(h, parameters[..i]), SlotText(h, parameter));
        assert SlotTexts(h, parameters[..i + 1]) == SlotTexts(h, parameters[..i]) + [SlotText(h, parameter)];
        i := i + 1;
      }
      assert parameters[..i] == parameters;
      s := prefix + body + ">";
    }

    /**
     * `Equals(GenericType)`: false for null, true for this very node, and
     * otherwise equal TypeBase parts and SequenceEqual parameter lists.
     * ParameterTypes takes no part.
     */
    predicate Equals(h: Hierarchy<N, B>, other: GenericType?<N, B>)
      reads this, other
      ensures Equals(h, other) ==> other != null
      ensures other == this ==> Equals(h, other)
    {
      if other == null then false
      else if this == other then true
      else h.baseEquals(typeBase, other.typeBase) && SequenceEqual(h, parameters, other.parameters)
    }

    /** `Equals(object)`: false for null, true for this very node, and otherwise `Equals(obj as GenericType)`. */
    predicate EqualsObject(h: Hierarchy<N, B>, obj: AnyObject<N, B>)
      reads this, if obj.OfGenericType? then {obj.node} else {}
      ensures EqualsObject(h, obj) ==> obj.OfGenericType?
      ensures obj == OfGenericType(this) ==> EqualsObject(h, obj)
    {
      match obj
      case Null => false
      case OfGenericType(node) => if this == node then true else Equals(h, node)
      case OfOtherClass(_) => Equals(h, null)
    }

    /** The static `object.Equals(left, right)` that both operators call. */
    static predicate StaticEquals(h: Hierarchy<N, B>, left: GenericType?<N, B>, right: GenericType?<N, B>)
      reads left, right
      ensures left == right ==> StaticEquals(h, left, right)
      ensures (left == null) != (right == null) ==> !StaticEquals(h, left, right)
    {
      if left == right then true
      else if left == null || right == null then false
      else left.EqualsObject(h, OfGenericType(right))
    }

    /** `operator ==`. */
    static predicate OperatorEquals(h: Hierarchy<N, B>, left: GenericType?<N, B>, right: GenericType?<N, B>)
      reads left, right
      ensures left == right ==> OperatorEquals(h, left, right)
      ensures left == null ==> (OperatorEquals(h, left, right) <==> right == null)
    {
      StaticEquals(h, left, right)
    }

    /** `operator !=`. */
    static predicate OperatorNotEquals(h: Hierarchy<N, B>, left: GenericType?<N, B>, right: GenericType?<N, B>)
      reads left, right
      ensures left == right ==> !OperatorNotEquals(h, left, right)
      ensures OperatorNotEquals(h, left, right) <==> !OperatorEquals(h, left, right)
    {
      !StaticEquals(h, left, right)
    }

    /**
     * Childrens: empties ChildrenList, then appends every non-null parameter
     * in order, and returns the list. Parameters are left as they were.
     */
    method Childrens() returns (children: seq<N>)
      modifies this`childrenList
      ensures childrenList == NonNullNodes(parameters)
      ensures children == childrenList
      ensures parameters == old(parameters)
    {
      childrenList := [];
      var i := 0;
      while i < |parameters|
        invariant 0 <= i <= |parameters|
        invariant childrenList == NonNullNodes(parameters[..i])
      {
        var parameter := parameters[i];
        assert parameters[..i + 1][..i] == parameters[..i];
        if parameter.Some? {
          childrenList := childrenList + [parameter.value];
        }
        i := i + 1;
      }
      assert parameters[..i] == parameters;
      children := childrenList;
    }

    /**
     * GetHashCode: the TypeBase hash times 397, then for each parameter in
     * order the running hash times 397, xor the parameter's hash (0 for null),
     * all in unchecked 32-bit arithmetic.
     */
    method GetHashCode(h: Hierarchy<N, B>) returns (hashCode: HashCode)
      ensures hashCode == HashCodeOf(h, typeBase, parameters)
    {
      hashCode := Times397(h.baseHash(typeBase));
      var i := 0;
      while i < |parameters|
        invariant 0 <= i <= |parameters|
        invariant hashCode == HashFold(h, Times397(h.baseHash(typeBase)), parameters[..i])
      {
        var parameter := parameters[i];
        assert parameters[..i + 1][..i] == parameters[..i];
        hashCode := Mix(hashCode, if parameter.Some? then h.nodeHash(parameter.value) else 0);
        i := i + 1;
      }
      assert parameters[..i] == parameters;
    }
  }
}
