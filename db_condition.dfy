/** The condition builder (src/Component/DB/DBCondition.php): a growing list
    of (field, value, operator, chain) entries, rendered into an ordered list
    of `where` / `whereOr` calls on a query statement. */
module DBCondition {
  import opened PhpValues

  // Operator codes. The two NOT_BETWEEN codes reuse the BETWEEN values.
  const IS: int := 1
  const NOT: int := 2
  const LT: int := 3
  const GT: int := 4
  const LT_OR_EQ: int := 5
  const GT_OR_EQ: int := 6
  const BETWEEN: int := 7
  const BETWEEN_INCLUDE: int := 8
  const NOT_BETWEEN: int := 7
  const NOT_BETWEEN_INCLUDE: int := 8

  // Chain codes.
  const CHAIN_NULL: int := 10
  const CHAIN_OR: int := 11
  const CHAIN_AND: int := 12

  /** One `DBConditionEntry`. */
  datatype Entry = Entry(field: string, value: PhpValue, cond: int, chain: int)

  /** `DBConditionEntry::formatField` and `formatValue`, whose source is not
      part of this model: given as functions of the entry. */
  datatype EntryFormat = EntryFormat(field: Entry -> string, value: Entry -> PhpValue)

  /** One call on the statement: `where($fragment, $value)` or
      `whereOr($fragment, $value)`. */
  datatype Call = Where(fragment: string, value: PhpValue) | WhereOr(fragment: string, value: PhpValue)

  /** The range pair the between-family constructors store. */
  function Range(start: PhpValue, end: PhpValue): PhpValue {
    Arr([start, end])
  }

  // ------------------------------------------------------------ rendering

  /** `getConditionString`: the switch over the operator; a code without a
      case, the between family included, renders as "". */
  function ConditionString(field: string, cond: int, value: PhpValue): string {
    if cond == IS then field
    else if cond == NOT then (if value == Null then field + " IS NOT ?" else field + " NOT")
    else if cond == LT then field + " < ?"
    else if cond == GT then field + " > ?"
    else if cond == LT_OR_EQ then field + " <= ?"
    else if cond == GT_OR_EQ then field + " >= ?"
    else ""
  }

  /** The operator suffix each rendered comparison carries after the field. */
  function Suffix(cond: int, value: PhpValue): string {
    if cond == IS then ""
    else if cond == NOT then (if value == Null then " IS NOT ?" else " NOT")
    else if cond == LT then " < ?"
    else if cond == GT then " > ?"
    else if cond == LT_OR_EQ then " <= ?"
    else " >= ?"
  }

  /** The operators that have a case in the switch. */
  predicate Renders(cond: int) {
    IS <= cond <= GT_OR_EQ
  }

  /** Every rendered operator gives the field followed by its own suffix, and
      every other code (7, 8, anything else) gives "". */
  lemma ConditionStringShape(field: string, cond: int, value: PhpValue)
    ensures Renders(cond) ==> ConditionString(field, cond, value) == field + Suffix(cond, value)
    ensures !Renders(cond) ==> ConditionString(field, cond, value) == ""
  {
  }

  /** The table of renderings: IS gives the bare field, NOT gives
      "IS NOT ?" for null and "NOT" otherwise, and the four comparisons give
      their operator with a placeholder. */
  lemma ConditionStringTable(f: string, v: PhpValue)
    ensures ConditionString(f, IS, v) == f
    ensures ConditionString(f, NOT, Null) == f + " IS NOT ?"
    ensures v != Null ==> ConditionString(f, NOT, v) == f + " NOT"
    ensures ConditionString(f, LT, v) == f + " < ?"
    ensures ConditionString(f, GT, v) == f + " > ?"
    ensures ConditionString(f, LT_OR_EQ, v) == f + " <= ?"
    ensures ConditionString(f, GT_OR_EQ, v) == f + " >= ?"
  {
  }

  /** Between, between-include and their NOT twins render as "": the range
      wording of the doc comments is not implemented. */
  lemma BetweenRendersEmpty(f: string, v: PhpValue)
    ensures ConditionString(f, BETWEEN, v) == "" && ConditionString(f, BETWEEN_INCLUDE, v) == ""
    ensures ConditionString(f, NOT_BETWEEN, v) == "" && ConditionString(f, NOT_BETWEEN_INCLUDE, v) == ""
  {
  }

  /** Two suffixes of rendered operators that are equal come from the same
      operator (and, for NOT, from values on the same side of null). */
  lemma SuffixInjective(c1: int, v1: PhpValue, c2: int, v2: PhpValue)
    requires Renders(c1) && Renders(c2) && Suffix(c1, v1) == Suffix(c2, v2)
    ensures c1 == c2 && (c1 == NOT ==> (v1 == Null <==> v2 == Null))
  {
    var s := Suffix(c1, v1);
    if s == "" {
    } else if |s| == 4 {
      assert s[1] == Suffix(c2, v2)[1];
    } else if |s| == 5 {
      assert s[1] == Suffix(c2, v2)[1];
    }
  }

  /** For one field, the rendered fragment determines the operator: the six
      comparisons never render alike. */
  lemma ConditionStringDeterminesOperator(f: string, c1: int, v1: PhpValue, c2: int, v2: PhpValue)
    requires Renders(c1) && Renders(c2)
    requires ConditionString(f, c1, v1) == ConditionString(f, c2, v2)
    ensures c1 == c2 && (c1 == NOT ==> (v1 == Null <==> v2 == Null))
  {
    var a, b := ConditionString(f, c1, v1), ConditionString(f, c2, v2);
    assert a == f + Suffix(c1, v1) && b == f + Suffix(c2, v2);
    assert Suffix(c1, v1) == a[|f|..];
    assert Suffix(c2, v2) == b[|f|..];
    SuffixInjective(c1, v1, c2, v2);
  }

  // ---------------------------------------------------------- the calls

  /** The call the loop of `buildForSelectStatement` makes for one entry. */
  function CallFor(e: Entry, fmt: EntryFormat): (c: Call)
  {
    var value := fmt.value(e);
    var fragment := ConditionString(fmt.field(e), e.cond, value);
    var bound := if e.cond == NOT && value != Null then Arr([value]) else value;
    if e.chain == CHAIN_OR then WhereOr(fragment, bound) else Where(fragment, bound)
  }

  /** The calls for a list of entries: one per entry, in entry order. */
  function Calls(entries: seq<Entry>, fmt: EntryFormat): (cs: seq<Call>)
    ensures |cs| == |entries|
    ensures forall i :: 0 <= i < |entries| ==> cs[i] == CallFor(entries[i], fmt)
    decreases |entries|
  {
    if entries == [] then [] else Calls(entries[..|entries| - 1], fmt) + [CallFor(entries[|entries| - 1], fmt)]
  }

  /** The call is `whereOr` exactly for CHAIN_OR; CHAIN_NULL, CHAIN_AND and
      any other code use `where`. A NOT entry with a non-null value binds
      that value wrapped in a one-element list; every other entry binds the
      formatted value unchanged. The fragment is the rendering of the
      formatted field. */
  lemma CallForSpec(e: Entry, fmt: EntryFormat)
    ensures CallFor(e, fmt).WhereOr? <==> e.chain == CHAIN_OR
    ensures CallFor(e, fmt).fragment == ConditionString(fmt.field(e), e.cond, fmt.value(e))
    ensures e.cond == NOT && fmt.value(e) != Null ==> CallFor(e, fmt).value == Arr([fmt.value(e)])
    ensures !(e.cond == NOT && fmt.value(e) != Null) ==> CallFor(e, fmt).value == fmt.value(e)
  {
  }

  /** CHAIN_NULL and CHAIN_AND are not told apart: the same entry with either
      chain makes the same call. */
  lemma ChainNullActsAsAnd(f: string, v: PhpValue, cond: int, fmt: EntryFormat)
    requires fmt.field(Entry(f, v, cond, CHAIN_NULL)) == fmt.field(Entry(f, v, cond, CHAIN_AND))
    requires fmt.value(Entry(f, v, cond, CHAIN_NULL)) == fmt.value(Entry(f, v, cond, CHAIN_AND))
    ensures CallFor(Entry(f, v, cond, CHAIN_NULL), fmt) == CallFor(Entry(f, v, cond, CHAIN_AND), fmt)
    ensures CallFor(Entry(f, v, cond, CHAIN_AND), fmt).Where?
  {
  }

  /** The calls for entries put one after another are the calls for each
      part, one after another. */
  lemma {:induction false} CallsAppend(a: seq<Entry>, b: seq<Entry>, fmt: EntryFormat)
    ensures Calls(a + b, fmt) == Calls(a, fmt) + Calls(b, fmt)
  {
    var l, r := Calls(a + b, fmt), Calls(a, fmt) + Calls(b, fmt);
    assert |l| == |r|;
    forall i | 0 <= i < |l| ensures l[i] == r[i] {
      if i < |a| {
        assert (a + b)[i] == a[i];
      } else {
        assert (a + b)[i] == b[i - |a|];
      }
    }
  }

  // ------------------------------------------------------- the builder

  /** A `DBCondition`: the ordered list of entries, grown in place. */
  class Condition {
    var entries: seq<Entry>

    /** `new DBCondition($field, $value, $cond, $chain)`: one entry. */
    constructor(field: string, value: PhpValue, cond: int, chain: int)
      ensures entries == [Entry(field, value, cond, chain)]
    {
      entries := [Entry(field, value, cond, chain)];
    }

    /** `addCondition`: appends one entry at the end. */
    method AddCondition(field: string, value: PhpValue, cond: int, chain: int)
      modifies this
      ensures entries == old(entries) + [Entry(field, value, cond, chain)]
    {
      entries := entries + [Entry(field, value, cond, chain)];
    }

    // ---- static constructors: one entry, chained with CHAIN_NULL

    static method Lt(field: string, value: PhpValue) returns (c: Condition)
      ensures fresh(c) && c.entries == [Entry(field, value, LT, CHAIN_NULL)]
    {
      c := new Condition(field, value, LT, CHAIN_NULL);
    }

    static method LtOrEq(field: string, value: PhpValue) returns (c: Condition)
      ensures fresh(c) && c.entries == [Entry(field, value, LT_OR_EQ, CHAIN_NULL)]
    {
      c := new Condition(field, value, LT_OR_EQ, CHAIN_NULL);
    }

    static method Gt(field: string, value: PhpValue) returns (c: Condition)
      ensures fresh(c) && c.entries == [Entry(field, value, GT, CHAIN_NULL)]
    {
      c := new Condition(field, value, GT, CHAIN_NULL);
    }

    static method GtOrEq(field: string, value: PhpValue) returns (c: Condition)
      ensures fresh(c) && c.entries == [Entry(field, value, GT_OR_EQ, CHAIN_NULL)]
    {
      c := new Condition(field, value, GT_OR_EQ, CHAIN_NULL);
    }

    static method Is(field: string, value: PhpValue) returns (c: Condition)
      ensures fresh(c) && c.entries == [Entry(field, value, IS, CHAIN_NULL)]
    {
      c := new Condition(field, value, IS, CHAIN_NULL);
    }

    static method Not(field: string, value: PhpValue) returns (c: Condition)
      ensures fresh(c) && c.entries == [Entry(field, value, NOT, CHAIN_NULL)]
    {
      c := new Condition(field, value, NOT, CHAIN_NULL);
    }

    static method Between(field: string, start: PhpValue, end: PhpValue) returns (c: Condition)
      ensures fresh(c) && c.entries == [Entry(field, Range(start, end), BETWEEN, CHAIN_NULL)]
    {
      c := new Condition(field, Range(start, end), BETWEEN, CHAIN_NULL);
    }

    static method BetweenInclude(field: string, start: PhpValue, end: PhpValue) returns (c: Condition)
      ensures fresh(c) && c.entries == [Entry(field, Range(start, end), BETWEEN_INCLUDE, CHAIN_NULL)]
    {
      c := new Condition(field, Range(start, end), BETWEEN_INCLUDE, CHAIN_NULL);
    }

    /** Same entry as `Between`, because NOT_BETWEEN == BETWEEN. */
    static method NotBetween(field: string, start: PhpValue, end: PhpValue) returns (c: Condition)
      ensures fresh(c) && c.entries == [Entry(field, Range(start, end), BETWEEN, CHAIN_NULL)]
    {
      c := new Condition(field, Range(start, end), NOT_BETWEEN, CHAIN_NULL);
    }

    /** Same entry as `BetweenInclude`, because NOT_BETWEEN_INCLUDE == BETWEEN_INCLUDE. */
    static method NotBetweenInclude(field: string, start: PhpValue, end: PhpValue) returns (c: Condition)
      ensures fresh(c) && c.entries == [Entry(field, Range(start, end), BETWEEN_INCLUDE, CHAIN_NULL)]
    {
      c := new Condition(field, Range(start, end), NOT_BETWEEN_INCLUDE, CHAIN_NULL);
    }

    /** `notNull($field)` is `not($field, null)`. */
    static method NotNull(field: string) returns (c: Condition)
      ensures fresh(c) && c.entries == [Entry(field, Null, NOT, CHAIN_NULL)]
    {
      c := Not(field, Null);
    }

    // ---- chain methods: one entry appended, the same object returned

    method And(field: string, value: PhpValue) returns (self: Condition)
      modifies this
      ensures self == this && entries == old(entries) + [Entry(field, value, IS, CHAIN_AND)]
    {
      AddCondition(field, value, IS, CHAIN_AND);
      self := this;
    }

    method Or(field: string, value: PhpValue) returns (self: Condition)
      modifies this
      ensures self == this && entries == old(entries) + [Entry(field, value, IS, CHAIN_OR)]
    {
      AddCondition(field, value, IS, CHAIN_OR);
      self := this;
    }

    method AndNot(field: string, value: PhpValue) returns (self: Condition)
      modifies this
      ensures self == this && entries == old(entries) + [Entry(field, value, NOT, CHAIN_AND)]
    {
      AddCondition(field, value, NOT, CHAIN_AND);
      self := this;
    }

    method OrNot(field: string, value: PhpValue) returns (self: Condition)
      modifies this
      ensures self == this && entries == old(entries) + [Entry(field, value, NOT, CHAIN_OR)]
    {
      AddCondition(field, value, NOT, CHAIN_OR);
      self := this;
    }

    method AndBetween(field: string, start: PhpValue, end: PhpValue) returns (self: Condition)
      modifies this
      ensures self == this && entries == old(entries) + [Entry(field, Range(start, end), BETWEEN, CHAIN_AND)]
    {
      AddCondition(field, Range(start, end), BETWEEN, CHAIN_AND);
      self := this;
    }

    method AndBetweenInclude(field: string, start: PhpValue, end: PhpValue) returns (self: Condition)
      modifies this
      ensures self == this && entries == old(entries) + [Entry(field, Range(start, end), BETWEEN_INCLUDE, CHAIN_AND)]
    {
      AddCondition(field, Range(start, end), BETWEEN_INCLUDE, CHAIN_AND);
      self := this;
    }

    method OrBetween(field: string, start: PhpValue, end: PhpValue) returns (self: Condition)
      modifies this
      ensures self == this && entries == old(entries) + [Entry(field, Range(start, end), BETWEEN, CHAIN_OR)]
    {
      AddCondition(field, Range(start, end), BETWEEN, CHAIN_OR);
      self := this;
    }

    method OrBetweenInclude(field: string, start: PhpValue, end: PhpValue) returns (self: Condition)
      modifies this
      ensures self == this && entries == old(entries) + [Entry(field, Range(start, end), BETWEEN_INCLUDE, CHAIN_OR)]
    {
      AddCondition(field, Range(start, end), BETWEEN_INCLUDE, CHAIN_OR);
      self := this;
    }

    method AndNotBetween(field: string, start: PhpValue, end: PhpValue) returns (self: Condition)
      modifies this
      ensures self == this && entries == old(entries) + [Entry(field, Range(start, end), BETWEEN, CHAIN_AND)]
    {
      AddCondition(field, Range(start, end), NOT_BETWEEN, CHAIN_AND);
      self := this;
    }

    method AndNotBetweenInclude(field: string, start: PhpValue, end: PhpValue) returns (self: Condition)
      modifies this
      ensures self == this && entries == old(entries) + [Entry(field, Range(start, end), BETWEEN_INCLUDE, CHAIN_AND)]
    {
      AddCondition(field, Range(start, end), NOT_BETWEEN_INCLUDE, CHAIN_AND);
      self := this;
    }

    method OrNotBetween(field: string, start: PhpValue, end: PhpValue) returns (self: Condition)
      modifies this
      ensures self == this && entries == old(entries) + [Entry(field, Range(start, end), BETWEEN, CHAIN_OR)]
    {
      AddCondition(field, Range(start, end), NOT_BETWEEN, CHAIN_OR);
      self := this;
    }

    method OrNotBetweenInclude(field: string, start: PhpValue, end: PhpValue) returns (self: Condition)
      modifies this
      ensures self == this && entries == old(entries) + [Entry(field, Range(start, end), BETWEEN_INCLUDE, CHAIN_OR)]
    {
      AddCondition(field, Range(start, end), NOT_BETWEEN_INCLUDE, CHAIN_OR);
      self := this;
    }

    method OrLt(field: string, value: PhpValue) returns (self: Condition)
      modifies this
      ensures self == this && entries == old(entries) + [Entry(field, value, LT, CHAIN_OR)]
    {
      AddCondition(field, value, LT, CHAIN_OR);
      self := this;
    }

    method OrLtOrEq(field: string, value: PhpValue) returns (self: Condition)
      modifies this
      ensures self == this && entries == old(entries) + [Entry(field, value, LT_OR_EQ, CHAIN_OR)]
    {
      AddCondition(field, value, LT_OR_EQ, CHAIN_OR);
      self := this;
    }

    method AndLt(field: string, value: PhpValue) returns (self: Condition)
      modifies this
      ensures self == this && entries == old(entries) + [Entry(field, value, LT, CHAIN_AND)]
    {
      AddCondition(field, value, LT, CHAIN_AND);
      self := this;
    }

    method AndLtOrEq(field: string, value: PhpValue) returns (self: Condition)
      modifies this
      ensures self == this && entries == old(entries) + [Entry(field, value, LT_OR_EQ, CHAIN_AND)]
    {
      AddCondition(field, value, LT_OR_EQ, CHAIN_AND);
      self := this;
    }

    method OrGt(field: string, value: PhpValue) returns (self: Condition)
      modifies this
      ensures self == this && entries == old(entries) + [Entry(field, value, GT, CHAIN_OR)]
    {
      AddCondition(field, value, GT, CHAIN_OR);
      self := this;
    }

    method OrGtOrEq(field: string, value: PhpValue) returns (self: Condition)
      modifies this
      ensures self == this && entries == old(entries) + [Entry(field, value, GT_OR_EQ, CHAIN_OR)]
    {
      AddCondition(field, value, GT_OR_EQ, CHAIN_OR);
      self := this;
    }

    method AndGt(field: string, value: PhpValue) returns (self: Condition)
      modifies this
      ensures self == this && entries == old(entries) + [Entry(field, value, GT, CHAIN_AND)]
    {
      AddCondition(field, value, GT, CHAIN_AND);
      self := this;
    }

    method AndGtOrEq(field: string, value: PhpValue) returns (self: Condition)
      modifies this
      ensures self == this && entries == old(entries) + [Entry(field, value, GT_OR_EQ, CHAIN_AND)]
    {
      AddCondition(field, value, GT_OR_EQ, CHAIN_AND);
      self := this;
    }

    /** `buildForSelectStatement($stm)`: the statement's earlier calls `stm`,
        followed by one call per entry, in entry order. */
    method BuildForSelectStatement(stm: seq<Call>, fmt: EntryFormat) returns (r: seq<Call>)
      ensures r == stm + Calls(entries, fmt)
    {
      r := stm;
      var i := 0;
      while i < |entries|
        invariant 0 <= i <= |entries|
        invariant r == stm + Calls(entries[..i], fmt)
      {
        var e := entries[i];
        var value := fmt.value(e);
        var field := fmt.field(e);
        var condStr := ConditionString(field, e.cond, value);
        if e.cond == NOT && value != Null {
          value := Arr([value]);
        }
        if e.chain == CHAIN_OR {
          r := r + [WhereOr(condStr, value)];
        } else {
          r := r + [Where(condStr, value)];
        }
        assert entries[..i + 1] == entries[..i] + [e];
        i := i + 1;
      }
      assert entries[..i] == entries;
    }
  }

  /** A chain of conditions built step by step: `is(f, v)->or(g, w)` makes
      `where(f, v)` followed by `whereOr(g, w)`. */
  method IsThenOrExample(f: string, v: PhpValue, g: string, w: PhpValue, fmt: EntryFormat)
    returns (calls: seq<Call>)
    requires forall e: Entry :: fmt.field(e) == e.field && fmt.value(e) == e.value
    ensures calls == [Where(f, v), WhereOr(g, w)]
  {
    var c := Condition.Is(f, v);
    var c2 := c.Or(g, w);
    calls := c2.BuildForSelectStatement([], fmt);
    assert c2.entries == [Entry(f, v, IS, CHAIN_NULL), Entry(g, w, IS, CHAIN_OR)];
  }
}
