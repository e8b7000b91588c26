/**
 * The parameter list of a generic type node as a value: a sequence of slots,
 * each null or a node. Everything GenericType computes from its parameters is
 * specified here, over values, together with the properties it has.
 */
module ParameterLists {

  import opened Options
  import opened Text
  import opened Ast

  // ---------------------------------------------------------------------------
  // Construction

  /** The slots a new node starts with: `count` nulls, none at all for a count below one. */
  function NullSlots<N>(count: int): (slots: seq<Option<N>>)
    ensures |slots| == if count > 0 then count else 0
    ensures forall i :: 0 <= i < |slots| ==> slots[i].None?
    decreases count
  {
    if count <= 0 then [] else NullSlots(count - 1) + [None]
  }

  // ---------------------------------------------------------------------------
  // Equality

  /**
   * The default equality comparer on nodes: two nulls are equal, a null never
   * equals a node, and two nodes are compared by Node.Equals.
   */
  predicate SlotEquals<N(!new), B(!new)>(h: Hierarchy<N, B>, p: Option<N>, q: Option<N>)
  {
    match (p, q)
    case (Some(x), Some(y)) => h.nodeEquals(x, y)
    case (None, None) => true
    case _ => false
  }

  /**
   * `Enumerable.SequenceEqual`: the two lists are walked together; they must
   * agree at every step and run out at the same time.
   */
  predicate SequenceEqual<N(!new), B(!new)>(h: Hierarchy<N, B>, ps: seq<Option<N>>, qs: seq<Option<N>>)
    decreases |ps|
  {
    if |ps| == 0 then |qs| == 0
    else |qs| > 0 && SlotEquals(h, ps[0], qs[0]) && SequenceEqual(h, ps[1..], qs[1..])
  }

  /** Position-by-position equality: same length, equal slots at every index. */
  ghost predicate PositionallyEqual<N(!new), B(!new)>(h: Hierarchy<N, B>, ps: seq<Option<N>>, qs: seq<Option<N>>)
  {
    |ps| == |qs| && forall i :: 0 <= i < |ps| ==> SlotEquals(h, ps[i], qs[i])
  }

  /** SequenceEqual is exactly positional equality: order matters and lengths must match. */
  lemma {:induction false} SequenceEqualIsPositional<N(!new), B(!new)>(h: Hierarchy<N, B>, ps: seq<Option<N>>, qs: seq<Option<N>>)
    ensures SequenceEqual(h, ps, qs) <==> PositionallyEqual(h, ps, qs)
    decreases |ps|
  {
    if |ps| > 0 && |qs| > 0 {
      SequenceEqualIsPositional(h, ps[1..], qs[1..]);
      if PositionallyEqual(h, ps, qs) {
        forall i | 0 <= i < |ps| - 1 ensures SlotEquals(h, ps[1..][i], qs[1..][i]) {
          assert ps[1..][i] == ps[i + 1] && qs[1..][i] == qs[i + 1];
        }
      }
      if SequenceEqual(h, ps, qs) {
        forall i | 0 <= i < |ps| ensures SlotEquals(h, ps[i], qs[i]) {
          if i > 0 {
            assert ps[1..][i - 1] == ps[i] && qs[1..][i - 1] == qs[i];
          }
        }
      }
    }
  }

  /** With the node equality an equivalence relation, so is SequenceEqual. */
  lemma SequenceEqualIsEquivalence<N(!new), B(!new)>(h: Hierarchy<N, B>, ps: seq<Option<N>>, qs: seq<Option<N>>, rs: seq<Option<N>>)
    requires h.Valid()
    ensures SequenceEqual(h, ps, ps)
    ensures SequenceEqual(h, ps, qs) ==> SequenceEqual(h, qs, ps)
    ensures SequenceEqual(h, ps, qs) && SequenceEqual(h, qs, rs) ==> SequenceEqual(h, ps, rs)
  {
    SequenceEqualIsPositional(h, ps, ps);
    SequenceEqualIsPositional(h, ps, qs);
    SequenceEqualIsPositional(h, qs, ps);
    SequenceEqualIsPositional(h, qs, rs);
    SequenceEqualIsPositional(h, ps, rs);
    forall i | 0 <= i < |ps| ensures SlotEquals(h, ps[i], ps[i]) {
      if ps[i].Some? {
        assert h.nodeEquals(ps[i].value, ps[i].value);
      }
    }
    if SequenceEqual(h, ps, qs) {
      forall i | 0 <= i < |ps| ensures SlotEquals(h, qs[i], ps[i]) {
        assert SlotEquals(h, ps[i], qs[i]);
        if ps[i].Some? {
          assert h.nodeEquals(ps[i].value, qs[i].value);
        }
      }
      if SequenceEqual(h, qs, rs) {
        forall i | 0 <= i < |ps| ensures SlotEquals(h, ps[i], rs[i]) {
          assert SlotEquals(h, ps[i], qs[i]) && SlotEquals(h, qs[i], rs[i]);
          if ps[i].Some? {
            assert h.nodeEquals(ps[i].value, qs[i].value) && h.nodeEquals(qs[i].value, rs[i].value);
          }
        }
      }
    }
  }

  // ---------------------------------------------------------------------------
  // Hashing

  /** What one slot mixes into the hash: 0 for null, otherwise the node's own hash. */
  function SlotHash<N(!new), B(!new)>(h: Hierarchy<N, B>, p: Option<N>): HashCode
  {
    match p
    case None => 0
    case Some(x) => h.nodeHash(x)
  }

  /**
   * The hash accumulated over the slots from left to right: each slot
   * multiplies the running hash by 397 (wrapping at 32 bits) and mixes its own
   * hash in with exclusive-or.
   */
  function HashFold<N(!new), B(!new)>(h: Hierarchy<N, B>, seed: HashCode, ps: seq<Option<N>>): HashCode
    decreases |ps|
  {
    if |ps| == 0 then seed else Mix(HashFold(h, seed, ps[..|ps| - 1]), SlotHash(h, ps[|ps| - 1]))
  }

  /** One step of the hash: `(hashCode * 397) ^ slotHash` in unchecked 32-bit arithmetic. */
  function Mix(hashCode: HashCode, slotHash: HashCode): HashCode
  {
    Times397(hashCode) ^ slotHash
  }

  /** Unchecked multiplication by 397: the product modulo 2^32. */
  function Times397(hashCode: HashCode): HashCode
  {
    hashCode * 397
  }

  /** Mixing in the hash of a null slot only multiplies. */
  lemma MixNull(hashCode: HashCode)
    ensures Mix(hashCode, 0) == Times397(hashCode)
  {
  }

  /** The hash of a generic type node whose TypeBase part is `b` and whose slots are `ps`. */
  function HashCodeOf<N(!new), B(!new)>(h: Hierarchy<N, B>, b: B, ps: seq<Option<N>>): HashCode
  {
    HashFold(h, Times397(h.baseHash(b)), ps)
  }

  lemma {:induction false} HashFoldRespectsEquality<N(!new), B(!new)>(h: Hierarchy<N, B>, seed: HashCode, ps: seq<Option<N>>, qs: seq<Option<N>>)
    requires h.Valid() && PositionallyEqual(h, ps, qs)
    ensures HashFold(h, seed, ps) == HashFold(h, seed, qs)
    decreases |ps|
  {
    if |ps| > 0 {
      var n := |ps| - 1;
      assert PositionallyEqual(h, ps[..n], qs[..n]) by {
        forall i | 0 <= i < n ensures SlotEquals(h, ps[..n][i], qs[..n][i]) {
          assert ps[..n][i] == ps[i] && qs[..n][i] == qs[i];
        }
      }
      HashFoldRespectsEquality(h, seed, ps[..n], qs[..n]);
      assert SlotEquals(h, ps[n], qs[n]);
      if ps[n].Some? {
        assert h.nodeEquals(ps[n].value, qs[n].value);
      }
      assert SlotHash(h, ps[n]) == SlotHash(h, qs[n]);
    }
  }

  /** Equal TypeBase parts and SequenceEqual slot lists give equal hashes. */
  lemma EqualPartsHashEqual<N(!new), B(!new)>(h: Hierarchy<N, B>, b: B, ps: seq<Option<N>>, c: B, qs: seq<Option<N>>)
    requires h.Valid()
    requires h.baseEquals(b, c) && SequenceEqual(h, ps, qs)
    ensures HashCodeOf(h, b, ps) == HashCodeOf(h, c, qs)
  {
    SequenceEqualIsPositional(h, ps, qs);
    HashFoldRespectsEquality(h, Times397(h.baseHash(b)), ps, qs);
  }

  /** `seed` multiplied n times by 397, wrapping at 32 bits. */
  function Scaled(seed: HashCode, n: nat): HashCode
    decreases n
  {
    if n == 0 then seed else Times397(Scaled(seed, n - 1))
  }

  /** Null slots mix in nothing: n of them only scale the running hash n times. */
  lemma {:induction false} HashOfNullSlots<N(!new), B(!new)>(h: Hierarchy<N, B>, seed: HashCode, n: nat)
    ensures HashFold(h, seed, NullSlots<N>(n)) == Scaled(seed, n)
    decreases n
  {
    if n > 0 {
      var slots := NullSlots<N>(n);
      assert slots[..n - 1] == NullSlots<N>(n - 1);
      HashOfNullSlots(h, seed, n - 1);
      assert SlotHash(h, slots[n - 1]) == 0;
      MixNull(Scaled(seed, n - 1));
    }
  }

  // ---------------------------------------------------------------------------
  // Rendering

  /** What one slot contributes to the rendered name: nothing for null, the Name of a TypeBase, otherwise the node's own text. */
  function SlotText<N(!new), B(!new)>(h: Hierarchy<N, B>, p: Option<N>): string
  {
    match p
    case None => ""
    case Some(x) =>
      match h.kind(x)
      case TypeBaseNode(name) => OrEmpty(name)
      case OtherNode(text) => text
  }

  /** The texts of all slots, in order. */
  function SlotTexts<N(!new), B(!new)>(h: Hierarchy<N, B>, ps: seq<Option<N>>): seq<string>
  {
    seq(|ps|, i requires 0 <= i < |ps| => SlotText(h, ps[i]))
  }

  /** The rendering of a generic type: its name, then its parameters comma-separated between angle brackets. */
  function Rendered<N(!new), B(!new)>(h: Hierarchy<N, B>, name: Option<string>, ps: seq<Option<N>>): string
  {
    OrEmpty(name) + "<" + CommaJoin(SlotTexts(h, ps)) + ">"
  }

  /**
   * The rendering reads back: it is the name, "<", the parameter texts that
   * splitting at the commas recovers one per slot, and ">". This holds when
   * the parameter texts have no commas of their own.
   */
  lemma RenderedFields<N(!new), B(!new)>(h: Hierarchy<N, B>, name: Option<string>, ps: seq<Option<N>>)
    requires |ps| > 0 && CommaFree(SlotTexts(h, ps))
    ensures var r, k := Rendered(h, name, ps), |OrEmpty(name)|;
      && |r| >= k + 2 && r[..k] == OrEmpty(name) && r[k] == '<' && r[|r| - 1] == '>'
      && SplitOnComma(r[k + 1..|r| - 1]) == SlotTexts(h, ps)
  {
    var r, k := Rendered(h, name, ps), |OrEmpty(name)|;
    var inner := CommaJoin(SlotTexts(h, ps));
    assert r == OrEmpty(name) + ("<" + inner + ">");
    assert r[k + 1..|r| - 1] == inner;
    SplitCommaJoin(SlotTexts(h, ps));
  }

  /**
   * n parameters are separated by exactly n - 1 commas: the rendering holds
   * those and, besides them, only the commas inside the name and inside the
   * parameter texts. With no parameters there is no separator at all.
   */
  lemma RenderedSeparators<N(!new), B(!new)>(h: Hierarchy<N, B>, name: Option<string>, ps: seq<Option<N>>)
    ensures Occurrences(',', Rendered(h, name, ps))
      == (if |ps| > 0 then |ps| - 1 else 0) + Occurrences(',', OrEmpty(name)) + OccurrencesIn(',', SlotTexts(h, ps))
  {
    var inner := CommaJoin(SlotTexts(h, ps));
    assert Rendered(h, name, ps) == OrEmpty(name) + ("<" + (inner + ">"));
    OccurrencesConcat(',', OrEmpty(name), "<" + (inner + ">"));
    OccurrencesConcat(',', "<", inner + ">");
    OccurrencesConcat(',', inner, ">");
    if |ps| > 0 {
      CommaJoinSeparators(SlotTexts(h, ps));
    }
  }

  /** A node whose n slots are all null renders as its name and n - 1 commas between angle brackets; with no slots, as `Name<>`. */
  lemma RenderedNullSlots<N(!new), B(!new)>(h: Hierarchy<N, B>, name: Option<string>, n: nat)
    ensures Rendered(h, name, NullSlots<N>(n)) == OrEmpty(name) + "<" + Commas(if n > 0 then n - 1 else 0) + ">"
  {
    var texts := SlotTexts(h, NullSlots<N>(n));
    assert texts == seq(n, _ => "");
    if n > 0 {
      CommaJoinOfEmpties(n);
    }
  }

  // ---------------------------------------------------------------------------
  // Children

  /** The nodes held in non-null slots, in slot order. */
  function NonNullNodes<N>(ps: seq<Option<N>>): seq<N>
    decreases |ps|
  {
    if |ps| == 0 then []
    else NonNullNodes(ps[..|ps| - 1]) + (match ps[|ps| - 1] case Some(x) => [x] case None => [])
  }

  /**
   * The child list is an order-preserving filter: it maps a concatenation of
   * slot lists to the concatenation of their child lists.
   */
  lemma {:induction false} NonNullNodesConcat<N>(ps: seq<Option<N>>, qs: seq<Option<N>>)
    ensures NonNullNodes(ps + qs) == NonNullNodes(ps) + NonNullNodes(qs)
    decreases |qs|
  {
    if |qs| == 0 {
      assert ps + qs == ps;
    } else {
      var n := |qs| - 1;
      assert (ps + qs)[..|ps + qs| - 1] == ps + qs[..n];
      NonNullNodesConcat(ps, qs[..n]);
    }
  }

  /** Null slots have no children: a freshly built node has none. */
  lemma {:induction false} NonNullNodesOfNullSlots<N>(n: nat)
    ensures NonNullNodes(NullSlots<N>(n)) == []
    decreases n
  {
    if n > 0 {
      assert NullSlots<N>(n)[..n - 1] == NullSlots<N>(n - 1);
      NonNullNodesOfNullSlots<N>(n - 1);
    }
  }

  /** When every slot holds a node, the children are exactly those nodes in slot order. */
  lemma {:induction false} NonNullNodesAllPresent<N>(ps: seq<Option<N>>)
    requires forall i :: 0 <= i < |ps| ==> ps[i].Some?
    ensures |NonNullNodes(ps)| == |ps|
    ensures forall i :: 0 <= i < |ps| ==> NonNullNodes(ps)[i] == ps[i].value
    decreases |ps|
  {
    if |ps| > 0 {
      var n := |ps| - 1;
      NonNullNodesAllPresent(ps[..n]);
    }
  }
}
