/** The table schema (src/Component/DB/DBModel.php): an ordered list of field
    descriptors and the lifecycle flag, the lookups over them, the value
    formatting applied before insert and update, and the query each
    statement-building method would hand to the driver. */
module DBModel {
  import opened Wrappers
  import opened PhpValues
  import opened DBModelField
  import DBCondition

  const ID: string := "id"
  const CREATED_AT: string := "created_at"
  const UPDATED_AT: string := "updated_at"
  const REMOVED_AT: string := "removed_at"
  const ENABLED: string := "enabled"

  // --------------------------------------------------------------- names

  function Names(fs: seq<Field>): (ns: seq<string>)
    ensures |ns| == |fs| && forall i :: 0 <= i < |fs| ==> ns[i] == fs[i].name
  {
    seq(|fs|, i requires 0 <= i < |fs| => fs[i].name)
  }

  /** The schema's field names are distinct. Nothing in the code enforces
      this (`Schema.AddField` appends a repeated name as readily as a new
      one); it is a precondition of the lemmas that characterise the
      formatted rows. */
  predicate UniqueNames(fs: seq<Field>) {
    forall i, j :: 0 <= i < j < |fs| ==> fs[i].name != fs[j].name
  }

  /** Position of the last field called `name`. */
  function LastIndex(fs: seq<Field>, name: string): (r: Option<nat>)
    ensures r.Some? ==> r.value < |fs| && fs[r.value].name == name
                        && forall j :: r.value < j < |fs| ==> fs[j].name != name
    ensures r.None? ==> forall j :: 0 <= j < |fs| ==> fs[j].name != name
    decreases |fs|
  {
    if fs == [] then None
    else if fs[|fs| - 1].name == name then Some(|fs| - 1)
    else LastIndex(fs[..|fs| - 1], name)
  }

  /** `getFieldByName`: the last field with that name, or null. */
  function FieldByName(fs: seq<Field>, name: string): Option<Field> {
    match LastIndex(fs, name)
    case None => None
    case Some(i) => Some(fs[i])
  }

  /** A field is found exactly when the name is a field name, and the one
      found is the last field with that name. */
  lemma FieldByNameSpec(fs: seq<Field>, name: string)
    ensures FieldByName(fs, name).Some? <==> name in Names(fs)
    ensures FieldByName(fs, name).Some? ==>
              exists i :: 0 <= i < |fs| && fs[i] == FieldByName(fs, name).value && fs[i].name == name
                          && forall j :: i < j < |fs| ==> fs[j].name != name
  {
    var r := LastIndex(fs, name);
    if r.None? {
      assert forall j :: 0 <= j < |fs| ==> Names(fs)[j] != name;
    } else {
      assert Names(fs)[r.value] == name;
    }
  }

  /** The names of `names` that are not field names, in request order. */
  function Missing(fs: seq<Field>, names: seq<string>): (m: seq<string>)
    ensures |m| <= |names|
    ensures forall x :: x in m ==> x in names && x !in Names(fs)
    ensures forall x :: x in names && x !in Names(fs) ==> x in m
    decreases |names|
  {
    if names == [] then []
    else
      var n := names[|names| - 1];
      assert names == names[..|names| - 1] + [n];
      Missing(fs, names[..|names| - 1]) + (if n in Names(fs) then [] else [n])
  }

  /** One step of `Missing` along a prefix of the requested names. */
  lemma MissingLast(fs: seq<Field>, names: seq<string>, i: nat)
    requires i < |names|
    ensures Missing(fs, names[..i + 1])
            == Missing(fs, names[..i]) + (if names[i] in Names(fs) then [] else [names[i]])
  {
    var prefix := names[..i + 1];
    assert prefix[..i] == names[..i] && prefix[i] == names[i];
  }

  /** What `hasFields` answers: success, or failure with the missing names. */
  datatype FieldCheck = AllPresent | MissingFields(message: string, names: seq<string>)

  function HasFieldsResult(fs: seq<Field>, names: seq<string>): FieldCheck {
    var m := Missing(fs, names);
    if |m| > 0 then MissingFields("Model has missing fields", m) else AllPresent
  }

  /** `hasFields` succeeds exactly when every requested name is a field
      name; on failure the payload holds exactly the missing names. */
  lemma HasFieldsSpec(fs: seq<Field>, names: seq<string>)
    ensures HasFieldsResult(fs, names).AllPresent? <==> forall x :: x in names ==> x in Names(fs)
    ensures HasFieldsResult(fs, names).MissingFields? ==>
              HasFieldsResult(fs, names).message == "Model has missing fields"
              && forall x :: x in HasFieldsResult(fs, names).names <==> x in names && x !in Names(fs)
  {
    var m := Missing(fs, names);
    if |m| > 0 {
      assert m[0] in m;
    }
  }

  /** `getFieldEnumValues`: the length of the field found when it is an
      array, `[]` for any other length; with no such field the call on null
      is a PHP error. */
  function FieldEnumValues(fs: seq<Field>, name: string): Result<seq<PhpValue>, string> {
    match FieldByName(fs, name)
    case None => Err("Call to a member function getLength() on null")
    case Some(f) => Ok(if f.length.Arr? then f.length.items else [])
  }

  /** A field added last decides the enum values for its name. */
  lemma FieldEnumValuesLastAdded(fs: seq<Field>, f: Field)
    ensures FieldEnumValues(fs + [f], f.name) == Ok(if f.length.Arr? then f.length.items else [])
  {
  }

  /** Asking for a name that is not a field name is an error. */
  lemma FieldEnumValuesMissing(fs: seq<Field>, name: string)
    ensures FieldEnumValues(fs, name).Err? <==> name !in Names(fs)
  {
    FieldByNameSpec(fs, name);
  }

  // --------------------------------------------------- formatFieldName

  predicate IsNameChar(c: char) {
    ('a' <= c <= 'z') || ('A' <= c <= 'Z') || ('0' <= c <= '9') || c == '_'
  }

  /** `formatFieldName`: every character outside [A-Za-z0-9_] removed. */
  function FormatFieldName(name: string): (r: string)
    ensures |r| <= |name|
    ensures forall i :: 0 <= i < |r| ==> IsNameChar(r[i])
    decreases |name|
  {
    if name == [] then []
    else (if IsNameChar(name[0]) then [name[0]] else []) + FormatFieldName(name[1..])
  }

  /** `a` is `b` with some characters left out, the rest in their order. */
  predicate IsSubsequence(a: string, b: string)
    decreases |b|
  {
    if a == [] then true
    else if b == [] then false
    else if a[0] == b[0] then IsSubsequence(a[1..], b[1..])
    else IsSubsequence(a, b[1..])
  }

  function NameCharCount(s: string): nat
    decreases |s|
  {
    if s == [] then 0 else (if IsNameChar(s[0]) then 1 else 0) + NameCharCount(s[1..])
  }

  /** The sanitised name keeps every allowed character, in order, and
      nothing else. */
  lemma {:induction false} FormatFieldNameKeepsOrder(name: string)
    ensures IsSubsequence(FormatFieldName(name), name)
    ensures |FormatFieldName(name)| == NameCharCount(name)
    decreases |name|
  {
    if name != [] {
      FormatFieldNameKeepsOrder(name[1..]);
      var r := FormatFieldName(name);
      if IsNameChar(name[0]) {
        assert r[0] == name[0] && r[1..] == FormatFieldName(name[1..]);
      } else {
        assert r == FormatFieldName(name[1..]);
        if r != [] {
          assert r[0] != name[0];
        }
      }
    }
  }

  /** A name that is already clean is left as it is, and only such names are. */
  lemma {:induction false} FormatFieldNameFixpoint(name: string)
    ensures FormatFieldName(name) == name <==> forall i :: 0 <= i < |name| ==> IsNameChar(name[i])
    decreases |name|
  {
    if name != [] {
      FormatFieldNameFixpoint(name[1..]);
      if !IsNameChar(name[0]) {
        assert |FormatFieldName(name)| < |name|;
      } else {
        assert forall i :: 1 <= i < |name| ==> name[i] == name[1..][i - 1];
      }
    }
  }

  /** Sanitising twice is sanitising once. */
  lemma FormatFieldNameIdempotent(name: string)
    ensures FormatFieldName(FormatFieldName(name)) == FormatFieldName(name)
  {
    FormatFieldNameFixpoint(FormatFieldName(name));
  }

  // ----------------------------------------------------- formatBoolean

  /** `formatBoolean`: 1 for "1" and "on" after trimming, 0 otherwise (its
      parameter is a string, so the `=== 1` test never holds). */
  function FormatBoolean(s: string): int {
    var t := Trim(s);
    if t == "1" || t == "on" then 1 else 0
  }

  /** The text of a PHP boolean reads back as that boolean. */
  lemma FormatBooleanOfBool(b: bool)
    ensures FormatBoolean(Strval(Bool(b))) == (if b then 1 else 0)
  {
    if b {
      assert Strval(Bool(b)) == "1";
      TrimUnpadded("1");
    } else {
      assert Strval(Bool(b)) == "";
    }
  }

  /** The words are case-sensitive, and "true", the text `toBooleanString`
      writes, reads as 0. */
  lemma FormatBooleanOtherWords()
    ensures FormatBoolean("true") == 0
    ensures FormatBoolean("ON") == 0
  {
    TrimUnpadded("true");
    TrimUnpadded("ON");
  }

  // ------------------------------------------------- formatFieldValues

  /** What the formatting consults besides the field: the descriptor's
      `typeIsString` (not part of this model), and the clock's
      `DBHandler::datetime()` and `DBHandler::year()` values. */
  datatype Env = Env(typeIsString: string -> bool, now: PhpValue, year: PhpValue)

  /** The value stored for one field present in the input, or `None` when
      the field is dropped: steps (a) to (f) of the loop body. */
  function FormattedValue(f: Field, v: PhpValue, removeNull: bool, env: Env): Option<PhpValue> {
    var v1 := if TrimsToEmpty(v) && env.typeIsString(f.fieldType) && f.nullable then Null else v;
    var v2 := if v1 == Null && (f.fieldType == DATETIME || f.fieldType == DATE) && !f.nullable then env.now else v1;
    var v3 := if v2 == Null && f.fieldType == YEAR && !f.nullable then env.year else v2;
    var v4 := if v3 == Null && f.default.DefaultValue? && !f.nullable then f.default.v else v3;
    if v4 == Null && removeNull then None
    else if v4.Bool? && f.fieldType == BOOLEAN then Some(Int(if v4.b then 1 else 0))
    else Some(v4)
  }

  // The substitution rules of the loop body, one lemma each.

  /** A blank value on a nullable string-typed field becomes null (and is
      then dropped when nulls are removed). */
  lemma FormattedBlankIsNull(f: Field, v: PhpValue, removeNull: bool, env: Env)
    requires f.nullable && env.typeIsString(f.fieldType) && TrimsToEmpty(v)
    ensures FormattedValue(f, v, removeNull, env) == (if removeNull then None else Some(Null))
  {
  }

  /** Null on a required DATETIME or DATE field becomes the current time. */
  lemma FormattedDateIsNow(f: Field, v: PhpValue, removeNull: bool, env: Env)
    requires !f.nullable && v == Null && (f.fieldType == DATETIME || f.fieldType == DATE) && env.now != Null
    ensures FormattedValue(f, v, removeNull, env) == Some(env.now)
  {
  }

  /** Null on a required YEAR field becomes the current year. */
  lemma FormattedYearIsCurrent(f: Field, v: PhpValue, removeNull: bool, env: Env)
    requires !f.nullable && v == Null && f.fieldType == YEAR && env.year != Null
    ensures FormattedValue(f, v, removeNull, env) == Some(env.year)
  {
  }

  /** Null on another required field with a literal default becomes that
      default (a PHP bool default on a BOOLEAN field as 0 or 1). */
  lemma FormattedNullTakesDefault(f: Field, v: PhpValue, removeNull: bool, env: Env)
    requires !f.nullable && v == Null && f.default.DefaultValue? && f.default.v != Null
    requires f.fieldType != DATETIME && f.fieldType != DATE && f.fieldType != YEAR
    ensures FormattedValue(f, v, removeNull, env)
            == Some(if f.default.v.Bool? && f.fieldType == BOOLEAN then Int(if f.default.v.b then 1 else 0)
                    else f.default.v)
  {
  }

  /** A PHP bool on a BOOLEAN field becomes 0 or 1, unless it is a `false`
      that the blank rule turns into null first. */
  lemma FormattedBooleanIsInt(f: Field, v: PhpValue, removeNull: bool, env: Env)
    requires v.Bool? && f.fieldType == BOOLEAN && !(f.nullable && env.typeIsString(BOOLEAN) && !v.b)
    ensures FormattedValue(f, v, removeNull, env) == Some(Int(if v.b then 1 else 0))
  {
    TrimsToEmptyIff(v);
    var v1 := if TrimsToEmpty(v) && env.typeIsString(f.fieldType) && f.nullable then Null else v;
    assert v1 == v;
  }

  /** Any other non-null value passes unchanged. */
  lemma FormattedOtherUnchanged(f: Field, v: PhpValue, removeNull: bool, env: Env)
    requires v != Null && !(f.nullable && env.typeIsString(f.fieldType) && TrimsToEmpty(v))
    requires !(v.Bool? && f.fieldType == BOOLEAN)
    ensures FormattedValue(f, v, removeNull, env) == Some(v)
  {
  }

  /** Dropping happens only when nulls are removed, and then no null is kept. */
  lemma FormattedValueNulls(f: Field, v: PhpValue, removeNull: bool, env: Env)
    ensures !removeNull ==> FormattedValue(f, v, removeNull, env).Some?
    ensures removeNull ==> FormattedValue(f, v, removeNull, env) != Some(Null)
  {
  }

  /** The output key for a field: its name between backticks. */
  function Quote(name: string): string {
    "`" + name + "`"
  }

  lemma QuoteInjective(a: string, b: string)
    ensures Quote(a) == Quote(b) ==> a == b
  {
    if Quote(a) == Quote(b) {
      assert a == Quote(a)[1..|a| + 1];
      assert b == Quote(b)[1..|b| + 1];
    }
  }

  function QuoteAll(ns: seq<string>): (qs: seq<string>)
    ensures |qs| == |ns| && forall i :: 0 <= i < |ns| ==> qs[i] == Quote(ns[i])
  {
    seq(|ns|, i requires 0 <= i < |ns| => Quote(ns[i]))
  }

  /** A name is in a list exactly when its backticked key is among the list's
      keys, and distinct names give distinct keys. */
  lemma QuoteAllSpec(ns: seq<string>)
    ensures forall n :: Quote(n) in QuoteAll(ns) <==> n in ns
    ensures (forall i, j :: 0 <= i < j < |ns| ==> ns[i] != ns[j]) ==>
              forall i, j :: 0 <= i < j < |ns| ==> QuoteAll(ns)[i] != QuoteAll(ns)[j]
  {
    forall n | Quote(n) in QuoteAll(ns) ensures n in ns {
      var i :| 0 <= i < |ns| && QuoteAll(ns)[i] == Quote(n);
      QuoteInjective(ns[i], n);
    }
    forall i, j | 0 <= i < j < |ns| && ns[i] != ns[j] ensures QuoteAll(ns)[i] != QuoteAll(ns)[j] {
      QuoteInjective(ns[i], ns[j]);
    }
  }

  lemma QuoteNotIn(ns: seq<string>, n: string)
    requires n !in ns
    ensures Quote(n) !in QuoteAll(ns)
  {
    forall i | 0 <= i < |ns| ensures QuoteAll(ns)[i] != Quote(n) {
      QuoteInjective(ns[i], n);
    }
  }

  /** `formatFieldValues`: the fields in schema order, each one present in
      the input stored under its quoted name after `FormattedValue`. */
  function FormatValues(fs: seq<Field>, input: Dict, removeNull: bool, env: Env): Dict
    decreases |fs|
  {
    if fs == [] then []
    else
      var acc := FormatValues(fs[..|fs| - 1], input, removeNull, env);
      var f := fs[|fs| - 1];
      if !HasKey(input, f.name) then acc
      else
        match FormattedValue(f, Get(input, f.name), removeNull, env)
        case None => acc
        case Some(v) => Put(acc, Quote(f.name), v)
  }

  /** The names of the fields that reach the output, in schema order. */
  function Kept(fs: seq<Field>, input: Dict, removeNull: bool, env: Env): (r: seq<string>)
    ensures forall n :: n in r ==> n in Names(fs) && HasKey(input, n)
    decreases |fs|
  {
    if fs == [] then []
    else
      var f := fs[|fs| - 1];
      assert Names(fs) == Names(fs[..|fs| - 1]) + [f.name];
      Kept(fs[..|fs| - 1], input, removeNull, env)
      + (if HasKey(input, f.name) && FormattedValue(f, Get(input, f.name), removeNull, env).Some?
         then [f.name] else [])
  }

  /** The names of the fields whose name is a key of `d` (and is one of
      `only`, when given), in schema order. */
  function Selected(fs: seq<Field>, d: Dict, only: Option<seq<string>>): (r: seq<string>)
    ensures forall n :: n in r ==> n in Names(fs) && HasKey(d, n) && (only.None? || n in only.value)
    decreases |fs|
  {
    if fs == [] then []
    else
      var f := fs[|fs| - 1];
      assert Names(fs) == Names(fs[..|fs| - 1]) + [f.name];
      Selected(fs[..|fs| - 1], d, only)
      + (if HasKey(d, f.name) && (only.None? || f.name in only.value) then [f.name] else [])
  }

  lemma UniqueNamesInit(fs: seq<Field>)
    requires UniqueNames(fs) && fs != []
    ensures UniqueNames(fs[..|fs| - 1]) && fs[|fs| - 1].name !in Names(fs[..|fs| - 1])
  {
    var init := fs[..|fs| - 1];
    forall i | 0 <= i < |init| ensures Names(init)[i] != fs[|fs| - 1].name {
      assert init[i] == fs[i];
    }
  }

  /** Output keys are the quoted names of the kept fields, in schema order,
      without repetition. */
  lemma {:induction false} FormatValuesKeys(fs: seq<Field>, input: Dict, removeNull: bool, env: Env)
    requires UniqueNames(fs)
    ensures Keys(FormatValues(fs, input, removeNull, env)) == QuoteAll(Kept(fs, input, removeNull, env))
    ensures UniqueKeys(FormatValues(fs, input, removeNull, env))
    decreases |fs|
  {
    if fs != [] {
      var init, f := fs[..|fs| - 1], fs[|fs| - 1];
      UniqueNamesInit(fs);
      FormatValuesKeys(init, input, removeNull, env);
      var acc := FormatValues(init, input, removeNull, env);
      var kept := Kept(init, input, removeNull, env);
      if HasKey(input, f.name) && FormattedValue(f, Get(input, f.name), removeNull, env).Some? {
        var v := FormattedValue(f, Get(input, f.name), removeNull, env).value;
        assert f.name !in kept;
        QuoteNotIn(kept, f.name);
        PutSpec(acc, Quote(f.name), v);
        assert QuoteAll(kept + [f.name]) == QuoteAll(kept) + [Quote(f.name)];
      }
    }
  }

  /** A field's name is kept exactly when it is a key of the input and the
      formatting does not drop it. */
  lemma {:induction false} KeptMember(fs: seq<Field>, input: Dict, removeNull: bool, env: Env, i: nat)
    requires UniqueNames(fs) && i < |fs|
    ensures fs[i].name in Kept(fs, input, removeNull, env) <==>
              HasKey(input, fs[i].name) && FormattedValue(fs[i], Get(input, fs[i].name), removeNull, env).Some?
    decreases |fs|
  {
    var init := fs[..|fs| - 1];
    UniqueNamesInit(fs);
    if i < |fs| - 1 {
      assert init[i] == fs[i];
      KeptMember(init, input, removeNull, env, i);
      assert fs[i].name != fs[|fs| - 1].name;
    } else {
      assert fs[i].name !in Kept(init, input, removeNull, env);
    }
  }

  /** One step of `FormatValues`: the last field is put into the result of
      the others when it is present and not dropped. */
  lemma FormatValuesLast(fs: seq<Field>, input: Dict, removeNull: bool, env: Env)
    requires fs != []
    ensures var f := fs[|fs| - 1];
            var acc := FormatValues(fs[..|fs| - 1], input, removeNull, env);
            FormatValues(fs, input, removeNull, env)
              == if !HasKey(input, f.name) then acc
                 else if FormattedValue(f, Get(input, f.name), removeNull, env).None? then acc
                 else Put(acc, Quote(f.name), FormattedValue(f, Get(input, f.name), removeNull, env).value)
  {
  }

  /** The value stored under a kept field's quoted name is its formatted value. */
  lemma {:induction false} FormatValuesGet(fs: seq<Field>, input: Dict, removeNull: bool, env: Env, i: nat)
    requires UniqueNames(fs) && i < |fs| && HasKey(input, fs[i].name)
    requires FormattedValue(fs[i], Get(input, fs[i].name), removeNull, env).Some?
    ensures HasKey(FormatValues(fs, input, removeNull, env), Quote(fs[i].name))
    ensures Get(FormatValues(fs, input, removeNull, env), Quote(fs[i].name))
            == FormattedValue(fs[i], Get(input, fs[i].name), removeNull, env).value
    decreases |fs|
  {
    var init, f := fs[..|fs| - 1], fs[|fs| - 1];
    UniqueNamesInit(fs);
    FormatValuesLast(fs, input, removeNull, env);
    var acc := FormatValues(init, input, removeNull, env);
    if i == |fs| - 1 {
      PutSpec(acc, Quote(f.name), FormattedValue(f, Get(input, f.name), removeNull, env).value);
    } else {
      assert init[i] == fs[i];
      FormatValuesGet(init, input, removeNull, env, i);
      if HasKey(input, f.name) && FormattedValue(f, Get(input, f.name), removeNull, env).Some? {
        QuoteInjective(f.name, fs[i].name);
        assert f.name != fs[i].name;
        PutSpec(acc, Quote(f.name), FormattedValue(f, Get(input, f.name), removeNull, env).value);
      }
    }
  }

  /** `$d[$k] = $v` stores only `v` besides the values already there. */
  lemma PutValues(d: Dict, k: string, v: PhpValue)
    ensures forall i :: 0 <= i < |Put(d, k, v)| ==> Put(d, k, v)[i].1 == v || exists j :: 0 <= j < |d| && Put(d, k, v)[i].1 == d[j].1
  {
    var r := Put(d, k, v);
    forall i | 0 <= i < |r| ensures r[i].1 == v || exists j :: 0 <= j < |d| && r[i].1 == d[j].1 {
      if i < |d| && r[i] == d[i] {
        assert r[i].1 == d[i].1;
      }
    }
  }

  /** No output value is null once nulls are removed. */
  lemma {:induction false} FormatValuesNoNull(fs: seq<Field>, input: Dict, env: Env)
    ensures forall i :: 0 <= i < |FormatValues(fs, input, true, env)| ==> FormatValues(fs, input, true, env)[i].1 != Null
    decreases |fs|
  {
    if fs != [] {
      var init, f := fs[..|fs| - 1], fs[|fs| - 1];
      FormatValuesNoNull(init, input, env);
      FormatValuesLast(fs, input, true, env);
      if HasKey(input, f.name) {
        FormattedValueNulls(f, Get(input, f.name), true, env);
        var fv := FormattedValue(f, Get(input, f.name), true, env);
        if fv.Some? {
          PutValues(FormatValues(init, input, true, env), Quote(f.name), fv.value);
        }
      }
    }
  }

  /** With nulls kept, every field present in the input is kept. */
  lemma {:induction false} KeptAllWhenNullsKept(fs: seq<Field>, input: Dict, env: Env)
    ensures Kept(fs, input, false, env) == Selected(fs, input, None)
    decreases |fs|
  {
    if fs != [] {
      var f := fs[|fs| - 1];
      KeptAllWhenNullsKept(fs[..|fs| - 1], input, env);
      if HasKey(input, f.name) {
        FormattedValueNulls(f, Get(input, f.name), false, env);
      }
    }
  }

  /** The properties of `formatFieldValues` on a schema with distinct names:
      keys are the quoted names of fields present in the input, in schema
      order (all of them when nulls are kept); a field absent from the input
      never appears; with nulls removed no value is null; each stored value
      is the field's formatted value. */
  lemma FormatFieldValuesSpec(fs: seq<Field>, input: Dict, removeNull: bool, env: Env)
    requires UniqueNames(fs)
    ensures var out := FormatValues(fs, input, removeNull, env);
            UniqueKeys(out) && Keys(out) == QuoteAll(Kept(fs, input, removeNull, env))
            && (!removeNull ==> Keys(out) == QuoteAll(Selected(fs, input, None)))
            && (removeNull ==> forall i :: 0 <= i < |out| ==> out[i].1 != Null)
    ensures forall i :: 0 <= i < |fs| && !HasKey(input, fs[i].name) ==>
              !HasKey(FormatValues(fs, input, removeNull, env), Quote(fs[i].name))
    ensures forall i :: 0 <= i < |fs| && HasKey(input, fs[i].name)
                        && FormattedValue(fs[i], Get(input, fs[i].name), removeNull, env).Some? ==>
              HasKey(FormatValues(fs, input, removeNull, env), Quote(fs[i].name))
              && Get(FormatValues(fs, input, removeNull, env), Quote(fs[i].name))
                 == FormattedValue(fs[i], Get(input, fs[i].name), removeNull, env).value
  {
    var out := FormatValues(fs, input, removeNull, env);
    FormatValuesKeys(fs, input, removeNull, env);
    if !removeNull {
      KeptAllWhenNullsKept(fs, input, env);
    } else {
      FormatValuesNoNull(fs, input, env);
    }
    forall i | 0 <= i < |fs| && !HasKey(input, fs[i].name)
      ensures !HasKey(out, Quote(fs[i].name))
    {
      KeptMember(fs, input, removeNull, env, i);
      QuoteNotIn(Kept(fs, input, removeNull, env), fs[i].name);
    }
    forall i | 0 <= i < |fs| && HasKey(input, fs[i].name)
                && FormattedValue(fs[i], Get(input, fs[i].name), removeNull, env).Some?
      ensures HasKey(out, Quote(fs[i].name))
              && Get(out, Quote(fs[i].name)) == FormattedValue(fs[i], Get(input, fs[i].name), removeNull, env).value
    {
      FormatValuesGet(fs, input, removeNull, env, i);
    }
  }

  // ------------------------------------------- getFieldValuesFromEntity

  /** `getFieldValuesFromEntity`: the entity's values for the schema's
      fields, in schema order, restricted to `only` when it is given. */
  function Project(fs: seq<Field>, entity: Dict, only: Option<seq<string>>): Dict
    decreases |fs|
  {
    if fs == [] then []
    else
      var acc := Project(fs[..|fs| - 1], entity, only);
      var f := fs[|fs| - 1];
      if HasKey(entity, f.name) && (only.None? || f.name in only.value)
      then Put(acc, f.name, Get(entity, f.name))
      else acc
  }

  /** The keys are the selected names in schema order, and each value is
      copied unchanged from the entity. */
  lemma {:induction false} ProjectSpec(fs: seq<Field>, entity: Dict, only: Option<seq<string>>)
    requires UniqueNames(fs)
    ensures Keys(Project(fs, entity, only)) == Selected(fs, entity, only)
    ensures UniqueKeys(Project(fs, entity, only))
    ensures forall n :: n in Selected(fs, entity, only) ==>
              HasKey(Project(fs, entity, only), n) && Get(Project(fs, entity, only), n) == Get(entity, n)
    decreases |fs|
  {
    if fs != [] {
      var init, f := fs[..|fs| - 1], fs[|fs| - 1];
      UniqueNamesInit(fs);
      ProjectSpec(init, entity, only);
      var acc := Project(init, entity, only);
      if HasKey(entity, f.name) && (only.None? || f.name in only.value) {
        assert !HasKey(acc, f.name);
        PutSpec(acc, f.name, Get(entity, f.name));
      }
    }
  }

  /** A schema name is selected exactly when it is a key of the dictionary
      and, when a selection is given, one of its names. */
  lemma {:induction false} SelectedMember(fs: seq<Field>, d: Dict, only: Option<seq<string>>, n: string)
    ensures n in Selected(fs, d, only) <==> n in Names(fs) && HasKey(d, n) && (only.None? || n in only.value)
    decreases |fs|
  {
    if fs != [] {
      var init, f := fs[..|fs| - 1], fs[|fs| - 1];
      assert Names(fs) == Names(init) + [f.name];
      SelectedMember(init, d, only, n);
    }
  }

  /** When the dictionary has a key for every field, every field is selected. */
  lemma {:induction false} SelectedAll(fs: seq<Field>, d: Dict)
    requires forall i :: 0 <= i < |fs| ==> HasKey(d, fs[i].name)
    ensures Selected(fs, d, None) == Names(fs)
    decreases |fs|
  {
    if fs != [] {
      var init := fs[..|fs| - 1];
      assert forall i :: 0 <= i < |init| ==> init[i] == fs[i];
      SelectedAll(init, d);
      assert Names(fs) == Names(init) + [fs[|fs| - 1].name];
    }
  }

  /** The round trip insert and bulk insert make: projecting an entity that
      has every schema field and formatting the result with nulls kept gives
      exactly the quoted schema names, in schema order. */
  lemma ProjectThenFormat(fs: seq<Field>, entity: Dict, env: Env)
    requires UniqueNames(fs)
    requires forall i :: 0 <= i < |fs| ==> HasKey(entity, fs[i].name)
    ensures Keys(FormatValues(fs, Project(fs, entity, None), false, env)) == QuoteAll(Names(fs))
  {
    var p := Project(fs, entity, None);
    ProjectSpec(fs, entity, None);
    SelectedAll(fs, entity);
    forall i | 0 <= i < |fs| ensures HasKey(p, fs[i].name) {
      assert Keys(p)[i] == fs[i].name;
    }
    SelectedAll(fs, p);
    FormatFieldValuesSpec(fs, p, false, env);
  }

  // ------------------------------------------------------ the schema

  /** The lifecycle fields `addStateFields` appends, as its qualifier chains
      leave them. */
  function StateFields(enabledByDefault: bool): seq<Field> {
    [ CurrentTimestampByDefault(NewField(CREATED_AT, DATETIME, Bool(false))),
      NullByDefault(CurrentTimestampOnUpdate(NewField(UPDATED_AT, DATETIME, Bool(false)))),
      NullByDefault(NewField(REMOVED_AT, DATETIME, Bool(false))),
      WithDefault(NewField(ENABLED, BOOLEAN, Bool(false)), Bool(enabledByDefault)) ]
  }

  /** created_at, updated_at, removed_at (DATETIME) and enabled (BOOLEAN),
      in that order, with their defaults; a schema that had none of these
      names keeps distinct names after them. */
  lemma StateFieldsSpec(fs: seq<Field>, enabledByDefault: bool)
    ensures Names(StateFields(enabledByDefault)) == [CREATED_AT, UPDATED_AT, REMOVED_AT, ENABLED]
    ensures forall i :: 0 <= i < 3 ==> StateFields(enabledByDefault)[i].fieldType == DATETIME
    ensures StateFields(enabledByDefault)[3].fieldType == BOOLEAN
    ensures StateFields(enabledByDefault)[0].default == DefaultCurrentTimestamp
    ensures StateFields(enabledByDefault)[1].default == DefaultNull && StateFields(enabledByDefault)[1].updateTimestamp
    ensures StateFields(enabledByDefault)[2].default == DefaultNull
    ensures StateFields(enabledByDefault)[3].default == DefaultValue(Bool(enabledByDefault))
    ensures UniqueNames(fs) && (forall n :: n in Names(fs) ==> n !in Names(StateFields(enabledByDefault))) ==>
              UniqueNames(fs + StateFields(enabledByDefault))
  {
    var st := StateFields(enabledByDefault);
    assert Names(st) == [CREATED_AT, UPDATED_AT, REMOVED_AT, ENABLED];
    if UniqueNames(fs) && (forall n :: n in Names(fs) ==> n !in Names(st)) {
      var all := fs + st;
      forall i, j | 0 <= i < j < |all| ensures all[i].name != all[j].name {
        if j < |fs| {
          assert all[i] == fs[i] && all[j] == fs[j];
        } else if i < |fs| {
          assert Names(fs)[i] == all[i].name;
          assert all[i].name in Names(fs);
          assert all[j] == st[j - |fs|];
          assert Names(st)[j - |fs|] == all[j].name;
          assert all[j].name in Names(st);
        } else {
          assert all[i] == st[i - |fs|] && all[j] == st[j - |fs|];
        }
      }
    }
  }

  /** A `DBModel`: the table name, the ordered field list and the lifecycle
      flag. The descriptor's `typeIsString` is kept with the schema. */
  class Schema {
    const tableName: string
    const typeIsString: string -> bool
    var fields: seq<Field>
    var stateFieldsEnabled: bool

    /** A schema before its `setFields` adds anything. */
    constructor(tableName: string, typeIsString: string -> bool)
      ensures this.tableName == tableName && this.typeIsString == typeIsString
      ensures fields == [] && !stateFieldsEnabled
    {
      this.tableName := tableName;
      this.typeIsString := typeIsString;
      fields := [];
      stateFieldsEnabled := false;
    }

    /** `addField`: one new descriptor appended at the end and returned. */
    method AddField(name: string, fieldType: string, length: PhpValue) returns (f: Field)
      modifies this
      ensures f == NewField(name, fieldType, length)
      ensures fields == old(fields) + [f] && stateFieldsEnabled == old(stateFieldsEnabled)
    {
      f := NewField(name, fieldType, length);
      fields := fields + [f];
    }

    /** The qualifier chain applied to the field just added: the descriptor
        in the list is the object the chain updates. */
    method QualifyLast(q: Field)
      requires fields != []
      modifies this
      ensures fields == old(fields[..|fields| - 1]) + [q] && stateFieldsEnabled == old(stateFieldsEnabled)
    {
      fields := fields[..|fields| - 1] + [q];
    }

    function HasStateFields(): bool
      reads this
    {
      stateFieldsEnabled
    }

    /** `addStateFields`: the four lifecycle fields appended, then the flag set. */
    method AddStateFields(enabledByDefault: bool)
      modifies this
      ensures fields == old(fields) + StateFields(enabledByDefault)
      ensures HasStateFields()
    {
      var f := AddField(CREATED_AT, DATETIME, Bool(false));
      QualifyLast(CurrentTimestampByDefault(f));
      f := AddField(UPDATED_AT, DATETIME, Bool(false));
      QualifyLast(NullByDefault(CurrentTimestampOnUpdate(f)));
      f := AddField(REMOVED_AT, DATETIME, Bool(false));
      QualifyLast(NullByDefault(f));
      f := AddField(ENABLED, BOOLEAN, Bool(false));
      QualifyLast(WithDefault(f, Bool(enabledByDefault)));
      stateFieldsEnabled := true;
    }

    /** `getFieldByName`: the loop keeps the last match. */
    method GetFieldByName(name: string) returns (found: Option<Field>)
      ensures found == FieldByName(fields, name)
    {
      found := None;
      var i := 0;
      while i < |fields|
        invariant 0 <= i <= |fields|
        invariant found == FieldByName(fields[..i], name)
      {
        assert fields[..i + 1][..i] == fields[..i];
        if fields[i].name == name {
          found := Some(fields[i]);
        }
        i := i + 1;
      }
      assert fields[..i] == fields;
    }

    /** `getFieldNames`: the names in insertion order. */
    method GetFieldNames() returns (names: seq<string>)
      ensures names == Names(fields)
    {
      names := [];
      var i := 0;
      while i < |fields|
        invariant 0 <= i <= |fields|
        invariant names == Names(fields[..i])
      {
        names := names + [fields[i].name];
        i := i + 1;
      }
      assert fields[..i] == fields;
    }

    /** `hasFields`: the missing names collected in request order. */
    method HasFields(fieldNames: seq<string>) returns (r: FieldCheck)
      ensures r == HasFieldsResult(fields, fieldNames)
    {
      var missing := MissingFieldNames(fieldNames);
      if |missing| > 0 {
        r := MissingFields("Model has missing fields", missing);
      } else {
        r := AllPresent;
      }
    }

    /** The loop of `hasFields`: each requested name looked up in the
        current field names. */
    method MissingFieldNames(fieldNames: seq<string>) returns (missing: seq<string>)
      ensures missing == Missing(fields, fieldNames)
    {
      var fs := fields;
      missing := [];
      var i := 0;
      while i < |fieldNames|
        invariant 0 <= i <= |fieldNames|
        invariant missing == Missing(fs, fieldNames[..i])
      {
        var names := GetFieldNames();
        assert names == Names(fs);
        MissingLast(fs, fieldNames, i);
        if fieldNames[i] !in names {
          missing := missing + [fieldNames[i]];
        }
        i := i + 1;
      }
      assert fieldNames[..i] == fieldNames;
    }

    /** `getFieldEnumValues`. */
    method GetFieldEnumValues(name: string) returns (r: Result<seq<PhpValue>, string>)
      ensures r == FieldEnumValues(fields, name)
    {
      var field := GetFieldByName(name);
      if field.None? {
        return Err("Call to a member function getLength() on null");
      }
      var length := field.value.length;
      r := Ok(if length.Arr? then length.items else []);
    }

    /** `formatFieldValues($fieldValues, $removeNullFields)`, with the clock's
        two readings passed in. */
    method FormatFieldValues(fieldValues: Dict, removeNullFields: bool, now: PhpValue, year: PhpValue)
      returns (formatted: Dict)
      ensures formatted == FormatValues(fields, fieldValues, removeNullFields, Env(typeIsString, now, year))
    {
      formatted := FormatEach(fields, fieldValues, removeNullFields, Env(typeIsString, now, year));
    }

    /** The loop of `formatFieldValues` over the schema's fields. */
    static method FormatEach(fs: seq<Field>, fieldValues: Dict, removeNullFields: bool, env: Env)
      returns (formatted: Dict)
      ensures formatted == FormatValues(fs, fieldValues, removeNullFields, env)
    {
      formatted := [];
      var i := 0;
      while i < |fs|
        invariant 0 <= i <= |fs|
        invariant formatted == FormatValues(fs[..i], fieldValues, removeNullFields, env)
      {
        var field := fs[i];
        assert fs[..i + 1][..i] == fs[..i];
        assert fs[..i + 1][i] == field;
        FormatValuesLast(fs[..i + 1], fieldValues, removeNullFields, env);
        var value: Option<PhpValue> := None;
        if HasKey(fieldValues, field.name) {
          value := FormatOne(field, Get(fieldValues, field.name), removeNullFields, env);
        }
        if value.Some? {
          formatted := Put(formatted, Quote(field.name), value.value);
        }
        i := i + 1;
      }
      assert fs[..i] == fs;
    }

    /** The body of the `formatFieldValues` loop for one field present in
        the input: `None` where the loop `continue`s. */
    static method FormatOne(field: Field, v: PhpValue, removeNullFields: bool, env: Env)
      returns (r: Option<PhpValue>)
      ensures r == FormattedValue(field, v, removeNullFields, env)
    {
      var value := v;
      if TrimsToEmpty(value) && env.typeIsString(field.fieldType) && field.nullable {
        value := Null;
      }
      if value == Null && (field.fieldType == DATETIME || field.fieldType == DATE) && !field.nullable {
        value := env.now;
      }
      if value == Null && field.fieldType == YEAR && !field.nullable {
        value := env.year;
      }
      if value == Null && field.default.DefaultValue? && !field.nullable {
        value := field.default.v;
      }
      if value == Null && removeNullFields {
        return None;
      }
      if value.Bool? && field.fieldType == BOOLEAN {
        value := Int(if value.b then 1 else 0);
      }
      r := Some(value);
    }

    /** `getFieldValuesFromEntity`, given what the entity's `toArray` returns. */
    method GetFieldValuesFromEntity(entityFields: Dict, onlySelectedFields: Option<seq<string>>)
      returns (fieldValues: Dict)
      ensures fieldValues == Project(fields, entityFields, onlySelectedFields)
    {
      fieldValues := [];
      var i := 0;
      while i < |fields|
        invariant 0 <= i <= |fields|
        invariant fieldValues == Project(fields[..i], entityFields, onlySelectedFields)
      {
        var field := fields[i];
        assert fields[..i + 1][..i] == fields[..i];
        if HasKey(entityFields, field.name)
           && (onlySelectedFields.None? || field.name in onlySelectedFields.value) {
          fieldValues := Put(fieldValues, field.name, Get(entityFields, field.name));
        }
        i := i + 1;
      }
      assert fields[..i] == fields;
    }
  }

  // ---------------------------------------------------- query plans

  /** `$columns`: one column name or a list of them. */
  datatype Columns = Column(name: string) | ColumnList(names: seq<string>)

  /** A `DBOrder`: ascending on a column, or an order the caller built
      (whose class is not part of this model). */
  datatype Order = OrderAsc(column: string) | OrderGiven(handle: nat)

  /** What `doSelect` sets on the statement before fetching. */
  datatype SelectQuery = SelectQuery(
    table: string,
    limit: Option<int>,
    groupBy: Option<string>,
    offset: Option<int>,
    columns: seq<string>,
    wheres: seq<DBCondition.Call>,
    order: Option<Order>)

  /** The soft-delete filter: `where('removed_at', null)`. */
  const RemovedAtIsNull: DBCondition.Call := DBCondition.Where(REMOVED_AT, Null)

  /** `doSelect`: the condition's calls, then the soft-delete filter unless
      removed rows are asked for or the schema has no removed_at field. */
  function SelectPlan(fs: seq<Field>, table: string, condition: Option<seq<DBCondition.Entry>>,
                      fmt: DBCondition.EntryFormat, columns: Columns, order: Option<Order>,
                      limit: Option<int>, offset: Option<int>, groupBy: Option<string>,
                      returnRemoved: bool): SelectQuery
  {
    var cols := match columns case Column(c) => [c] case ColumnList(cs) => cs;
    var condCalls := if condition.Some? then DBCondition.Calls(condition.value, fmt) else [];
    var softDelete := if !returnRemoved && HasFieldsResult(fs, [REMOVED_AT]).AllPresent? then [RemovedAtIsNull] else [];
    SelectQuery(table, limit, groupBy, offset, cols, condCalls + softDelete, order)
  }

  /** Asking without removed rows adds exactly one `removed_at IS NULL`
      filter after the caller's condition when the schema has removed_at,
      and nothing otherwise; asking with removed rows adds nothing. */
  lemma SelectSoftDelete(fs: seq<Field>, table: string, condition: Option<seq<DBCondition.Entry>>,
                         fmt: DBCondition.EntryFormat, columns: Columns, order: Option<Order>,
                         limit: Option<int>, offset: Option<int>, groupBy: Option<string>)
    ensures var with := SelectPlan(fs, table, condition, fmt, columns, order, limit, offset, groupBy, true);
            var without := SelectPlan(fs, table, condition, fmt, columns, order, limit, offset, groupBy, false);
            with.wheres == (if condition.Some? then DBCondition.Calls(condition.value, fmt) else [])
            && without == with.(wheres := with.wheres + (if REMOVED_AT in Names(fs) then [RemovedAtIsNull] else []))
  {
    HasFieldsSpec(fs, [REMOVED_AT]);
  }

  /** `doSelectUnique`: grouped by the column, ordered by id ascending unless
      an order is given. */
  function SelectUniquePlan(fs: seq<Field>, table: string, column: string,
                            condition: Option<seq<DBCondition.Entry>>, fmt: DBCondition.EntryFormat,
                            columns: Columns, order: Option<Order>, limit: Option<int>,
                            offset: Option<int>, returnRemoved: bool): SelectQuery
  {
    var o := if order.None? then Some(OrderAsc(ID)) else order;
    SelectPlan(fs, table, condition, fmt, columns, o, limit, offset, Some(column), returnRemoved)
  }

  lemma SelectUniqueDefaults(fs: seq<Field>, table: string, column: string,
                             condition: Option<seq<DBCondition.Entry>>, fmt: DBCondition.EntryFormat,
                             columns: Columns, order: Option<Order>, limit: Option<int>,
                             offset: Option<int>, returnRemoved: bool)
    ensures var q := SelectUniquePlan(fs, table, column, condition, fmt, columns, order, limit, offset, returnRemoved);
            q.groupBy == Some(column)
            && q.order == (if order.None? then Some(OrderAsc(ID)) else order)
            && q.wheres == SelectPlan(fs, table, condition, fmt, columns, order, limit, offset, None, returnRemoved).wheres
  {
  }

  /** What `doUpdate` hands to the driver. */
  datatype UpdateQuery = UpdateQuery(table: string, data: Dict, wheres: seq<DBCondition.Call>)

  /** `doUpdate($condition, $fields)`: the entity built from the given map
      (`entityFields` is what its `toArray` returns), projected on the
      given keys and formatted with nulls kept. */
  function UpdatePlan(fs: seq<Field>, table: string, env: Env, condition: seq<DBCondition.Entry>,
                      fmt: DBCondition.EntryFormat, given: Dict, entityFields: Dict): UpdateQuery
  {
    var data := FormatValues(fs, Project(fs, entityFields, Some(Keys(given))), false, env);
    UpdateQuery(table, data, DBCondition.Calls(condition, fmt))
  }

  /** The update touches exactly the schema fields that were given and that
      the entity reports, in schema order, nulls included, each with its
      formatted value; the condition's calls restrict it. */
  lemma UpdatePlanSpec(fs: seq<Field>, table: string, env: Env, condition: seq<DBCondition.Entry>,
                       fmt: DBCondition.EntryFormat, given: Dict, entityFields: Dict)
    requires UniqueNames(fs)
    ensures var q := UpdatePlan(fs, table, env, condition, fmt, given, entityFields);
            Keys(q.data) == QuoteAll(Selected(fs, entityFields, Some(Keys(given))))
            && q.wheres == DBCondition.Calls(condition, fmt)
    ensures var q := UpdatePlan(fs, table, env, condition, fmt, given, entityFields);
            forall i :: 0 <= i < |fs| && HasKey(entityFields, fs[i].name) && fs[i].name in Keys(given) ==>
              HasKey(q.data, Quote(fs[i].name))
              && Get(q.data, Quote(fs[i].name)) == FormattedValue(fs[i], Get(entityFields, fs[i].name), false, env).value
  {
    var p := Project(fs, entityFields, Some(Keys(given)));
    ProjectSpec(fs, entityFields, Some(Keys(given)));
    FormatFieldValuesSpec(fs, p, false, env);
    assert Selected(fs, p, None) == Selected(fs, entityFields, Some(Keys(given))) by {
      SelectedOfProject(fs, entityFields, Some(Keys(given)));
    }
    forall i | 0 <= i < |fs| && HasKey(entityFields, fs[i].name) && fs[i].name in Keys(given)
      ensures HasKey(p, fs[i].name) && Get(p, fs[i].name) == Get(entityFields, fs[i].name)
    {
      assert Names(fs)[i] == fs[i].name;
      SelectedMember(fs, entityFields, Some(Keys(given)), fs[i].name);
    }
    forall i | 0 <= i < |fs| && HasKey(p, fs[i].name)
      ensures FormattedValue(fs[i], Get(p, fs[i].name), false, env).Some?
    {
      FormattedValueNulls(fs[i], Get(p, fs[i].name), false, env);
    }
  }

  /** Selecting again from a projection selects the same names. */
  lemma {:induction false} SelectedOfProject(fs: seq<Field>, entity: Dict, only: Option<seq<string>>)
    requires UniqueNames(fs)
    ensures Selected(fs, Project(fs, entity, only), None) == Selected(fs, entity, only)
    decreases |fs|
  {
    if fs != [] {
      var init, f := fs[..|fs| - 1], fs[|fs| - 1];
      UniqueNamesInit(fs);
      var p := Project(fs, entity, only);
      var pInit := Project(init, entity, only);
      ProjectSpec(init, entity, only);
      assert f.name !in Selected(init, entity, only);
      if HasKey(entity, f.name) && (only.None? || f.name in only.value) {
        PutSpec(pInit, f.name, Get(entity, f.name));
        assert HasKey(p, f.name);
      } else {
        assert p == pInit && !HasKey(p, f.name);
      }
      assert forall n :: n != f.name ==> (HasKey(p, n) <==> HasKey(pInit, n));
      SelectedOfProject(init, entity, only);
      SelectedSameKeys(init, p, pInit, f.name);
    }
  }

  /** Two dictionaries that agree on keys other than `k`, where `k` is not
      a field name, select the same names. */
  lemma {:induction false} SelectedSameKeys(fs: seq<Field>, d1: Dict, d2: Dict, k: string)
    requires k !in Names(fs)
    requires forall n :: n != k ==> (HasKey(d1, n) <==> HasKey(d2, n))
    ensures Selected(fs, d1, None) == Selected(fs, d2, None)
    decreases |fs|
  {
    if fs != [] {
      var init := fs[..|fs| - 1];
      assert Names(fs) == Names(init) + [fs[|fs| - 1].name];
      SelectedSameKeys(init, d1, d2, k);
    }
  }

  /** `doUpdateById($id, $fields, $idField)`: an update restricted by
      `is($idField, $id)`. */
  function UpdateByIdPlan(fs: seq<Field>, table: string, env: Env, id: PhpValue, given: Dict,
                          idField: string, fmt: DBCondition.EntryFormat, entityFields: Dict): UpdateQuery
  {
    UpdatePlan(fs, table, env, [DBCondition.Entry(idField, id, DBCondition.IS, DBCondition.CHAIN_NULL)], fmt, given, entityFields)
  }

  /** The by-id update has one `where` call: the formatted id field,
      bare, bound to the formatted id. */
  lemma UpdateByIdSpec(fs: seq<Field>, table: string, env: Env, id: PhpValue, given: Dict,
                       idField: string, fmt: DBCondition.EntryFormat, entityFields: Dict)
    ensures var e := DBCondition.Entry(idField, id, DBCondition.IS, DBCondition.CHAIN_NULL);
            UpdateByIdPlan(fs, table, env, id, given, idField, fmt, entityFields).wheres
              == [DBCondition.Where(fmt.field(e), fmt.value(e))]
  {
  }

  /** What `doDelete` hands to the driver. */
  datatype DeleteQuery = DeleteQuery(table: string, wheres: seq<DBCondition.Call>)

  function DeletePlan(table: string, condition: seq<DBCondition.Entry>, fmt: DBCondition.EntryFormat): DeleteQuery {
    DeleteQuery(table, DBCondition.Calls(condition, fmt))
  }

  function DeleteByIdPlan(table: string, id: PhpValue, idField: string, fmt: DBCondition.EntryFormat): DeleteQuery {
    DeletePlan(table, [DBCondition.Entry(idField, id, DBCondition.IS, DBCondition.CHAIN_NULL)], fmt)
  }

  /** The by-id delete has one `where` call on the formatted id field, bound
      to the formatted id, and no other restriction. */
  lemma DeleteByIdSpec(table: string, id: PhpValue, idField: string, fmt: DBCondition.EntryFormat)
    ensures var e := DBCondition.Entry(idField, id, DBCondition.IS, DBCondition.CHAIN_NULL);
            DeleteByIdPlan(table, id, idField, fmt) == DeleteQuery(table, [DBCondition.Where(fmt.field(e), fmt.value(e))])
  {
  }

  /** The row `doInsert` sends: the entity's schema fields, formatted with
      nulls removed. */
  function InsertData(fs: seq<Field>, entityFields: Dict, env: Env): Dict {
    FormatValues(fs, Project(fs, entityFields, None), true, env)
  }

  /** The rows `doBulkInsert` sends: each entity's schema fields, formatted
      with nulls kept. */
  function BulkInsertData(fs: seq<Field>, entities: seq<Dict>, env: Env): (rows: seq<Dict>)
    ensures |rows| == |entities|
  {
    seq(|entities|, i requires 0 <= i < |entities| => FormatValues(fs, Project(fs, entities[i], None), false, env))
  }

  /** An inserted row holds no null and only quoted schema names; a bulk row
      for an entity with every field holds exactly the quoted schema names. */
  lemma InsertDataSpec(fs: seq<Field>, entities: seq<Dict>, entity: Dict, env: Env)
    requires UniqueNames(fs)
    ensures forall i :: 0 <= i < |InsertData(fs, entity, env)| ==> InsertData(fs, entity, env)[i].1 != Null
    ensures forall k :: k in Keys(InsertData(fs, entity, env)) ==> exists n :: n in Names(fs) && k == Quote(n)
    ensures forall j :: 0 <= j < |entities| && (forall i :: 0 <= i < |fs| ==> HasKey(entities[j], fs[i].name)) ==>
              Keys(BulkInsertData(fs, entities, env)[j]) == QuoteAll(Names(fs))
  {
    var p := Project(fs, entity, None);
    FormatFieldValuesSpec(fs, p, true, env);
    var kept := Kept(fs, p, true, env);
    forall k | k in Keys(InsertData(fs, entity, env)) ensures exists n :: n in Names(fs) && k == Quote(n) {
      var i :| 0 <= i < |kept| && QuoteAll(kept)[i] == k;
      assert kept[i] in Names(fs);
    }
    forall j | 0 <= j < |entities| && (forall i :: 0 <= i < |fs| ==> HasKey(entities[j], fs[i].name))
      ensures Keys(BulkInsertData(fs, entities, env)[j]) == QuoteAll(Names(fs))
    {
      ProjectThenFormat(fs, entities[j], env);
    }
  }
}
