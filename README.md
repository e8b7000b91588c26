# Generic type nodes of the shader AST, in Dafny

This project models `GenericType`, the node of the shader-language syntax tree
(namespace `SiliconStudio.Shaders.Ast`) that stands for a generic type written
`Name<p1,p2,...>`, together with its fixed-arity subclasses `GenericType<T1>`,
`GenericType<T1,T2>` and `GenericType<T1,T2,T3>`. A generic type node

- carries a name, inherited from `TypeBase`;
- holds an ordered list of parameter slots, `Parameters`, created with
  `parameterCount` null entries, and a list of runtime types, `ParameterTypes`;
- renders itself as `Name<p1,p2,...>`;
- compares structurally (TypeBase part and the parameter sequence, position by
  position) and hashes consistently with that comparison;
- lists its non-null parameters as its child nodes.

Files:

- `options.dfy` (module `Options`): a possibly-null value.
- `text.dfy` (module `Text`): comma-separated lists of strings — the reference
  definition of joining (`CommaJoin`), the way the rendering loop builds it
  (`CommaJoinSnoc`), how many commas it holds, and splitting it back.
- `ast.dfy` (module `Ast`): what a generic type node sees of `TypeBase`, `Node`
  and the nodes it holds. Their code is not part of this model, so their
  behaviour is a record of function values, `Hierarchy<N, B>` (N is a node
  reference held in a slot, B the state inherited from TypeBase and Node), and
  `Hierarchy.Valid()` states what is assumed of them: TypeBase's constructor
  keeps the name, both equalities are equivalence relations, and both hashes
  agree on equal values. Hash codes are `bv32`, the bit pattern of a C# `int`,
  so the unchecked `*` and `^` of the source wrap around at 32 bits exactly as
  they do there.
- `parameter_lists.dfy` (module `ParameterLists`): the parameter list as a
  value and everything computed from it — the initial null slots, slot and
  sequence equality, the hash fold, the rendering, the child list — with the
  properties of each.
- `generic_type.dfy` (module `GenericTypes`): the class `GenericType` with the
  fields the source updates (`typeBase`, `parameterTypes`, `parameters`,
  `childrenList`), its seven constructors, the loops of the constructor,
  `ToString`, `Childrens` and `GetHashCode` as methods proved against the
  specification functions, and `Equals`, `Equals(object)`, `object.Equals` and
  the two operators as predicates.
- `generic_type_properties.dfy` (module `GenericTypeProperties`): what the
  members promise together — equality is structural and an equivalence,
  ParameterTypes is ignored, equal nodes hash alike, `==` and `!=` are exact
  negations, and `Childrens` gives the same list when called again.

The arity subclasses are named constructors of the one class: `WithTypes1..3`
are their protected `(name, parameterCount)` constructors and `Arity1..3` their
public ones (with `name` None for the parameterless form, which passes null).

## Model

| member | source | states |
|---|---|---|
| ParameterLists.NullSlots | sources/common/shaders/SiliconStudio.Shaders/Ast/GenericType.cs:32-35 | the initial parameter list has exactly `parameterCount` entries, all null, and none for a count below one |
| GenericTypes.GenericType.AddNullSlots | sources/common/shaders/SiliconStudio.Shaders/Ast/GenericType.cs:32-35 | the constructor's loop appends exactly the null slots of `NullSlots(parameterCount)` to `Parameters` and touches nothing else |
| GenericTypes.GenericType.constructor | sources/common/shaders/SiliconStudio.Shaders/Ast/GenericType.cs:27-36 | a new node has the given name, `max(0, parameterCount)` null parameter slots and an empty `ParameterTypes` |
| GenericTypes.GenericType.WithTypes1 | sources/common/shaders/SiliconStudio.Shaders/Ast/GenericType.cs:237-241 | `parameterCount` null slots and `ParameterTypes` = [T1] |
| GenericTypes.GenericType.WithTypes2 | sources/common/shaders/SiliconStudio.Shaders/Ast/GenericType.cs:293-297 | `parameterCount` null slots and `ParameterTypes` = [T1, T2] |
| GenericTypes.GenericType.WithTypes3 | sources/common/shaders/SiliconStudio.Shaders/Ast/GenericType.cs:354-358 | `parameterCount` null slots and `ParameterTypes` = [T1, T2, T3] |
| GenericTypes.GenericType.Arity1 | sources/common/shaders/SiliconStudio.Shaders/Ast/GenericType.cs:215-226 | exactly one null slot and a `ParameterTypes` of matching length, [T1]; the name is the given one or null |
| GenericTypes.GenericType.Arity2 | sources/common/shaders/SiliconStudio.Shaders/Ast/GenericType.cs:271-282 | exactly two null slots and `ParameterTypes` = [T1, T2] |
| GenericTypes.GenericType.Arity3 | sources/common/shaders/SiliconStudio.Shaders/Ast/GenericType.cs:330-343 | exactly three null slots and `ParameterTypes` = [T1, T2, T3] |
| GenericTypes.GenericType.ToString | sources/common/shaders/SiliconStudio.Shaders/Ast/GenericType.cs:48-66 | the loop with its `if (i > 0)` comma produces the name, "<", the comma-joined parameter texts (a TypeBase parameter by its Name, a null by nothing, any other node by its own text) and ">" |
| Text.CommaJoinSnoc | sources/common/shaders/SiliconStudio.Shaders/Ast/GenericType.cs:52-61 | appending a part puts a comma before it exactly when a part came before, so the loop builds the standard comma-joined list |
| Text.SplitCommaJoin | sources/common/shaders/SiliconStudio.Shaders/Ast/GenericType.cs:52-61 | splitting the joined list at its commas gives back the parts, when they hold no commas themselves |
| ParameterLists.RenderedSeparators | sources/common/shaders/SiliconStudio.Shaders/Ast/GenericType.cs:51-63 | n parameters add exactly n - 1 separating commas (none for n = 0) beyond the commas inside the name and the parameter texts |
| ParameterLists.RenderedFields | sources/common/shaders/SiliconStudio.Shaders/Ast/GenericType.cs:48-66 | the rendering is the name, "<", ">" around a list that splits back, one field per slot, into the slot texts, when there is at least one slot and no slot text contains a comma |
| ParameterLists.RenderedNullSlots | sources/common/shaders/SiliconStudio.Shaders/Ast/GenericType.cs:48-66 | a node with n null slots renders as `Name<` followed by n - 1 commas and `>`; with no slots as `Name<>` |
| ParameterLists.SequenceEqualIsPositional | sources/common/shaders/SiliconStudio.Shaders/Ast/GenericType.cs:110 | `SequenceEqual` on the parameters holds exactly when the lengths match and the slots are equal position by position (null equals only null) |
| ParameterLists.SequenceEqualIsEquivalence | sources/common/shaders/SiliconStudio.Shaders/Ast/GenericType.cs:110 | `SequenceEqual` is reflexive, symmetric and transitive when node equality is |
| GenericTypes.GenericType.Equals | sources/common/shaders/SiliconStudio.Shaders/Ast/GenericType.cs:97-111 | false for a null argument, true for the node itself, otherwise equal TypeBase parts and `SequenceEqual` parameters; its contract states that only a non-null argument can be equal and that a node equals itself |
| GenericTypes.GenericType.EqualsObject | sources/common/shaders/SiliconStudio.Shaders/Ast/GenericType.cs:114-127 | false for null and for objects of other classes, true for the node itself, otherwise `Equals(obj as GenericType)`; its contract states that only a generic type node can be equal and that a node equals itself |
| GenericTypes.GenericType.StaticEquals | sources/common/shaders/SiliconStudio.Shaders/Ast/GenericType.cs:172-175 | `object.Equals(left, right)` as the operators call it: true for the same reference (two nulls included), false when exactly one is null, otherwise `left.Equals(object)` |
| GenericTypes.GenericType.OperatorEquals | sources/common/shaders/SiliconStudio.Shaders/Ast/GenericType.cs:172-175 | `==` is `object.Equals(left, right)`: true for the same reference, and with a null left operand true exactly when the right one is null |
| GenericTypes.GenericType.OperatorNotEquals | sources/common/shaders/SiliconStudio.Shaders/Ast/GenericType.cs:185-188 | `!=` is the negation of `==`, and never holds for the same reference |
| GenericTypeProperties.EqualsIsStructural | sources/common/shaders/SiliconStudio.Shaders/Ast/GenericType.cs:97-111 | `Equals(GenericType)` is false for null and otherwise holds exactly when the TypeBase parts are equal and the parameters are positionally equal; the same-reference shortcut agrees with this |
| GenericTypeProperties.EqualsIsEquivalence | sources/common/shaders/SiliconStudio.Shaders/Ast/GenericType.cs:97-111 | `Equals(GenericType)` is reflexive, symmetric and transitive |
| GenericTypeProperties.EqualsIgnoresParameterTypes | sources/common/shaders/SiliconStudio.Shaders/Ast/GenericType.cs:109-110 | two nodes with the same TypeBase part and parameters are equal both ways whatever their `ParameterTypes` |
| GenericTypeProperties.EqualsObjectAgrees | sources/common/shaders/SiliconStudio.Shaders/Ast/GenericType.cs:114-127 | `Equals(object)` is false for null and for any object that is not a generic type node, and otherwise agrees with `Equals(GenericType)` |
| GenericTypeProperties.OperatorsAreStructural | sources/common/shaders/SiliconStudio.Shaders/Ast/GenericType.cs:172-188 | `==` holds for two nulls and for structurally equal nodes and for nothing else, it is symmetric, and `!=` is its exact negation |
| GenericTypes.GenericType.GetHashCode | sources/common/shaders/SiliconStudio.Shaders/Ast/GenericType.cs:149-158 | the loop computes the left fold: base hash times 397, then for each slot in order the running hash times 397 xor the slot's hash (0 for null), wrapping at 32 bits |
| ParameterLists.HashOfNullSlots | sources/common/shaders/SiliconStudio.Shaders/Ast/GenericType.cs:152-155 | n null slots multiply the running hash by 397 n times and change nothing else |
| ParameterLists.HashFoldRespectsEquality | sources/common/shaders/SiliconStudio.Shaders/Ast/GenericType.cs:152-155 | positionally equal slot lists fold to the same hash from the same seed |
| ParameterLists.EqualPartsHashEqual | sources/common/shaders/SiliconStudio.Shaders/Ast/GenericType.cs:149-158 | equal TypeBase parts and `SequenceEqual` parameter lists give equal hash codes |
| GenericTypeProperties.EqualNodesHashAlike | sources/common/shaders/SiliconStudio.Shaders/Ast/GenericType.cs:97-158 | two nodes equal under `Equals(GenericType)` have equal hash codes |
| GenericTypes.GenericType.Childrens | sources/common/shaders/SiliconStudio.Shaders/Ast/GenericType.cs:134-146 | `ChildrenList` is cleared and refilled with exactly the non-null parameters in order, returned, and `Parameters` is unchanged |
| ParameterLists.NonNullNodesConcat | sources/common/shaders/SiliconStudio.Shaders/Ast/GenericType.cs:137-143 | the child list is an order-preserving filter: the children of a concatenation are the concatenated children |
| ParameterLists.NonNullNodesAllPresent | sources/common/shaders/SiliconStudio.Shaders/Ast/GenericType.cs:137-143 | when every slot holds a node the children are exactly those nodes, in slot order |
| ParameterLists.NonNullNodesOfNullSlots | sources/common/shaders/SiliconStudio.Shaders/Ast/GenericType.cs:137-143 | null slots yield no children, so a freshly constructed node has none |
| GenericTypeProperties.ChildrensTwice | sources/common/shaders/SiliconStudio.Shaders/Ast/GenericType.cs:134-146 | calling `Childrens` twice gives the same list, since it is rebuilt from the parameters alone |

## Left out

- The Cecil extension methods `GenerateTypeCecil` and
  `ConvertAssemblyQualifiedName` (Cecil type reference to assembly-qualified
  name), exercised by
  `sources/common/core/SiliconStudio.AssemblyProcessor.Tests/TestCecilExtensions.cs`,
  are not modelled.
- `TypeBase`, `Node` and the parameter nodes: their equality, hash, `Name` and
  text are function values in `Ast.Hierarchy`, and the lemmas assume
  `Hierarchy.Valid()` of them. `base.Equals(other)` is modelled as a relation
  on the two TypeBase parts alone.
- `Name` is modelled as the text of the name (None for null); a null name and a
  null parameter contribute nothing to the rendering, as `StringBuilder.Append`
  does with null.
- `ParameterTypes` holds `System.Type` values as opaque `RuntimeType` tokens.
  In the source the arity subclasses share one static list per closed type, so
  all their nodes alias the same list; here each node holds a value.
- `Childrens` returns the node's own `ChildrenList` object in the source, so a
  caller's earlier result changes on the next call; here it returns a value.
- `ChildrenList` is created by Node's constructor, which is not part of this
  model; new nodes start with an empty one here.
- Virtual dispatch: `Equals(object)` and `Equals(GenericType)` are taken as
  written in this class, not as a further subclass might override them.
- The public `Parameters` and `ParameterTypes` setters are the class's public
  fields. A caller's in-place update of the `Parameters` list (an indexer set,
  `Add`) is modelled as assigning a new sequence to `parameters`. Two nodes
  sharing one `Parameters` list through the setter (aliasing) is not modelled:
  each node holds its own value.
- A null `Parameters` list is not modelled: `parameters` is a sequence and
  cannot be null. In the source the public setter accepts null, after which
  `ToString`, `Childrens` and `GetHashCode` throw `NullReferenceException`
  and `Equals(GenericType)` throws `ArgumentNullException` from
  `SequenceEqual`; those exceptions are not modelled either.
- GenericTypes.GenericType.Equals, EqualsObject, StaticEquals, OperatorEquals,
  OperatorNotEquals: their own contracts state only the null and
  same-reference cases; the full characterisation is proved separately in
  `EqualsIsStructural`, `EqualsObjectAgrees` and `OperatorsAreStructural`.
