/**
 * Strings as they are put together when a generic type is rendered: the
 * comma-separated list of its parameters and the way such a list is read back.
 */
module Text {

  import opened Options

  /** The text a possibly-null string contributes to a StringBuilder: nothing for null. */
  function OrEmpty(s: Option<string>): string
  {
    match s
    case None => ""
    case Some(text) => text
  }

  /**
   * The reference definition of a comma-separated list, `string.Join(",", parts)`:
   * the parts in order with one comma between neighbours.
   */
  function CommaJoin(parts: seq<string>): string
    decreases |parts|
  {
    if |parts| == 0 then ""
    else if |parts| == 1 then parts[0]
    else parts[0] + "," + CommaJoin(parts[1..])
  }

  /**
   * Building the list one part at a time: a comma goes in front of the new
   * part exactly when some part came before it.
   */
  lemma {:induction false} CommaJoinSnoc(parts: seq<string>, last: string)
    ensures CommaJoin(parts + [last]) == CommaJoin(parts) + (if |parts| > 0 then "," else "") + last
    decreases |parts|
  {
    if |parts| == 0 {
      assert parts + [last] == [last];
    } else if |parts| == 1 {
      assert (parts + [last])[1..] == [last];
    } else {
      assert (parts + [last])[1..] == parts[1..] + [last];
      CommaJoinSnoc(parts[1..], last);
    }
  }

  /** The number of occurrences of `c` in `s`. */
  function Occurrences(c: char, s: string): nat
    decreases |s|
  {
    if |s| == 0 then 0 else (if s[0] == c then 1 else 0) + Occurrences(c, s[1..])
  }

  lemma {:induction false} OccurrencesConcat(c: char, s: string, t: string)
    ensures Occurrences(c, s + t) == Occurrences(c, s) + Occurrences(c, t)
    decreases |s|
  {
    if |s| > 0 {
      assert (s + t)[1..] == s[1..] + t;
      OccurrencesConcat(c, s[1..], t);
    } else {
      assert s + t == t;
    }
  }

  /** The occurrences of `c` in all the parts together. */
  function OccurrencesIn(c: char, parts: seq<string>): nat
    decreases |parts|
  {
    if |parts| == 0 then 0 else Occurrences(c, parts[0]) + OccurrencesIn(c, parts[1..])
  }

  /**
   * A list of n parts holds n - 1 separating commas besides the commas that
   * are inside the parts themselves.
   */
  lemma {:induction false} CommaJoinSeparators(parts: seq<string>)
    requires |parts| > 0
    ensures Occurrences(',', CommaJoin(parts)) == |parts| - 1 + OccurrencesIn(',', parts)
    decreases |parts|
  {
    if |parts| > 1 {
      CommaJoinSeparators(parts[1..]);
      OccurrencesConcat(',', parts[0], "," + CommaJoin(parts[1..]));
      OccurrencesConcat(',', ",", CommaJoin(parts[1..]));
      assert parts[0] + "," + CommaJoin(parts[1..]) == parts[0] + ("," + CommaJoin(parts[1..]));
    } else {
      assert parts[1..] == [];
    }
  }

  /** True when none of the parts contains a comma. */
  predicate CommaFree(parts: seq<string>)
  {
    forall i :: 0 <= i < |parts| ==> ',' !in parts[i]
  }

  /** Reading a comma-separated list back: the pieces between the commas. */
  function SplitOnComma(s: string): (pieces: seq<string>)
    ensures |pieces| > 0
    decreases |s|
  {
    if |s| == 0 then [""]
    else
      var rest := SplitOnComma(s[1..]);
      if s[0] == ',' then [""] + rest else [[s[0]] + rest[0]] + rest[1..]
  }

  lemma {:induction false} SplitCommaFree(t: string, rest: string)
    requires ',' !in t
    ensures SplitOnComma(t + rest) == [t + SplitOnComma(rest)[0]] + SplitOnComma(rest)[1..]
    decreases |t|
  {
    if |t| == 0 {
      var pieces := SplitOnComma(rest);
      assert t + rest == rest;
      assert t + pieces[0] == pieces[0];
      assert [pieces[0]] + pieces[1..] == pieces;
    } else {
      assert (t + rest)[1..] == t[1..] + rest;
      assert ',' !in t[1..] by {
        forall k | 0 <= k < |t[1..]| ensures t[1..][k] != ',' {
          assert t[1..][k] == t[k + 1];
        }
      }
      SplitCommaFree(t[1..], rest);
      assert [t[0]] + (t[1..] + SplitOnComma(rest)[0]) == t + SplitOnComma(rest)[0];
    }
  }

  /** Splitting undoes joining, provided no part contains a comma of its own. */
  lemma {:induction false} SplitCommaJoin(parts: seq<string>)
    requires |parts| > 0 && CommaFree(parts)
    ensures SplitOnComma(CommaJoin(parts)) == parts
    decreases |parts|
  {
    if |parts| == 1 {
      SplitCommaFree(parts[0], "");
      assert parts[0] + "" == parts[0];
    } else {
      var tail := CommaJoin(parts[1..]);
      assert CommaFree(parts[1..]) by {
        forall i | 0 <= i < |parts[1..]| ensures ',' !in parts[1..][i] {
          assert parts[1..][i] == parts[i + 1];
        }
      }
      SplitCommaJoin(parts[1..]);
      SplitCommaFree(parts[0], "," + tail);
      assert ("," + tail)[1..] == tail;
      assert SplitOnComma("," + tail) == [""] + parts[1..];
      assert parts[0] + "," + tail == parts[0] + ("," + tail);
      assert parts[0] + "" == parts[0];
      assert parts == [parts[0]] + parts[1..];
    }
  }

  /** A run of n commas. */
  function Commas(n: nat): string
  {
    seq(n, _ => ',')
  }

  /** A list of n empty parts is a run of n - 1 commas. */
  lemma {:induction false} CommaJoinOfEmpties(n: nat)
    requires n > 0
    ensures CommaJoin(seq(n, _ => "")) == Commas(n - 1)
    decreases n
  {
    var empties: seq<string> := seq(n, _ => "");
    if n > 1 {
      assert empties[1..] == seq(n - 1, _ => "");
      CommaJoinOfEmpties(n - 1);
      assert empties[0] + "," + Commas(n - 2) == Commas(n - 1);
    }
  }
}
