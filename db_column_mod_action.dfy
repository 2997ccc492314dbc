/** A column modification (src/Component/DB/DBColumnModAction.php): an
    operation code, an operand and a chained flag, fixed at construction. */
module DBColumnModAction {
  import opened PhpValues
  import DBModel

  const SUB: int := 1
  const ADD: int := 2
  const DIV: int := 3
  const MUL: int := 4
  const SUB_PERC: int := 5
  const ADD_PERC: int := 6

  /** The six operation codes, in declaration order. */
  const Codes: seq<int> := [SUB, ADD, DIV, MUL, SUB_PERC, ADD_PERC]

  /** The getters `getType`, `getValue` and `isChained` read these fields. */
  datatype ColumnModAction = ColumnModAction(modType: int, value: PhpValue, chained: bool)

  /** `formatValue`: a string operand names a column, so it is sanitised and
      put between backticks; any other operand is kept. */
  function FormatValue(v: PhpValue): PhpValue {
    if v.Str? then Str("`" + DBModel.FormatFieldName(v.s) + "`") else v
  }

  /** `new DBColumnModAction($type, $value, $chained)`; PHP's default for
      `$chained` is false. */
  function NewAction(modType: int, value: PhpValue, chained: bool): (a: ColumnModAction)
    ensures a.modType == modType && a.chained == chained
    ensures !value.Str? ==> a.value == value
    ensures value.Str? ==> a.value == Str("`" + DBModel.FormatFieldName(value.s) + "`")
  {
    ColumnModAction(modType, FormatValue(value), chained)
  }

  /** A stored string operand starts and ends with a backtick and holds only
      [A-Za-z0-9_] in between; it is a string exactly when the operand was. */
  lemma StoredValueShape(modType: int, value: PhpValue, chained: bool)
    ensures NewAction(modType, value, chained).value.Str? <==> value.Str?
    ensures var v := NewAction(modType, value, chained).value;
            v.Str? ==> |v.s| >= 2 && v.s[0] == '`' && v.s[|v.s| - 1] == '`'
                       && forall i :: 1 <= i < |v.s| - 1 ==> DBModel.IsNameChar(v.s[i])
  {
    if value.Str? {
      var n := DBModel.FormatFieldName(value.s);
      var s := "`" + n + "`";
      forall i | 1 <= i < |s| - 1 ensures DBModel.IsNameChar(s[i]) {
        assert s[i] == n[i - 1];
      }
    }
  }

  /** Sanitising the operand beforehand changes nothing: the stored value of
      a name and of its sanitised form are the same. */
  lemma SanitisedOperandSame(modType: int, name: string, chained: bool)
    ensures NewAction(modType, Str(name), chained) == NewAction(modType, Str(DBModel.FormatFieldName(name)), chained)
  {
    DBModel.FormatFieldNameIdempotent(name);
  }

  /** The operation codes are the distinct values 1 to 6. */
  lemma CodesAreOneToSix()
    ensures forall i :: 0 <= i < |Codes| ==> Codes[i] == i + 1
  {
  }
}
