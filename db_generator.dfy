/** The model and entity code generator (src/Component/CP/DB/DBGenerator.php):
    from a table description to the PHP source of a schema class and of an
    entity class. The JSON decoding and the file system are not part of this
    model: the description arrives decoded, whether a target file exists is
    an input, and the generated text is returned instead of written. */
module DBGenerator {
  import opened Wrappers
  import opened PhpValues
  import Field = DBModelField

  const T: string := "    "
  const T2: string := T + T
  const CRLF: string := "\r\n"

  // ------------------------------------------------------------- types

  /** `isTypeInteger`. */
  predicate IsTypeInteger(t: string) {
    t in [Field.INT, Field.TINYINT, Field.SMALLINT, Field.MEDIUMINT, Field.BIGINT, Field.SERIAL, Field.BIT]
  }

  /** `isTypeFloat`. */
  predicate IsTypeFloat(t: string) {
    t in [Field.DECIMAL, Field.FLOAT, Field.DOUBLE, Field.REAL]
  }

  /** The property type `createEntity` writes: "string", overwritten by
      "integer", then "float", then "boolean" as the tests succeed. */
  function EntityType(t: string): string {
    var a := "string";
    var b := if IsTypeInteger(t) then "integer" else a;
    var c := if IsTypeFloat(t) then "float" else b;
    if t == Field.BOOLEAN then "boolean" else c
  }

  /** The integer and float families and BOOLEAN are disjoint, so each type
      gets the property type of its own family, and "string" when it has
      none. */
  lemma EntityTypeSpec(t: string)
    ensures !(IsTypeInteger(t) && IsTypeFloat(t))
    ensures !IsTypeInteger(Field.BOOLEAN) && !IsTypeFloat(Field.BOOLEAN)
    ensures EntityType(t) == "integer" <==> IsTypeInteger(t)
    ensures EntityType(t) == "float" <==> IsTypeFloat(t)
    ensures EntityType(t) == "boolean" <==> t == Field.BOOLEAN
    ensures EntityType(t) == "string" <==> !IsTypeInteger(t) && !IsTypeFloat(t) && t != Field.BOOLEAN
  {
  }

  // --------------------------------------------------- field description

  /** The `index` entry: one of the two index constants, or anything else. */
  datatype IndexSpec = IndexPrimary | IndexUnique | IndexOther

  /** The `attr` entry: one of the four attribute constants, or anything else. */
  datatype AttrSpec = AttrUnsigned | AttrBinary | AttrUnsignedZerofill | AttrOnUpdateCurrentTimestamp | AttrOther

  /** JSON gives scalars or lists; a list as a length or a default is not
      part of this model. */
  type Scalar = v: PhpValue | IsScalarOrNull(v) witness Null

  /** The `default` entry: one of the three default constants or a literal. */
  datatype DefaultSpec = DefaultNull | DefaultCurrentTimestamp | DefaultNone | DefaultLiteral(v: Scalar)

  /** One element of the `fields` list. */
  datatype FieldSpec = FieldSpec(
    name: string,
    fieldType: string,
    length: Scalar,
    default: DefaultSpec,
    attr: AttrSpec,
    isNull: PhpValue,
    index: IndexSpec,
    autoIncrement: PhpValue)


  // ---------------------------------------------------- field rendering

  /** The length argument of `field(...)`, or `None` when it is left out. For
      DECIMAL and ENUM the text is split at commas and written as a list,
      the ENUM items single-quoted. */
  function LengthArg(f: FieldSpec): Option<string>
  {
    if f.fieldType == Field.DECIMAL || f.fieldType == Field.ENUM then
      var q := if f.fieldType == Field.DECIMAL then "" else "'";
      Some("[" + q + Join(q + ", " + q, Explode(',', Strval(f.length))) + q + "]")
    else if f.length == Bool(false) then None
    else Some(Strval(f.length))
  }

  /** `explode(',', "10,2")`. */
  lemma ExplodeTenTwo()
    ensures Explode(',', "10,2") == ["10", "2"]
  {
    assert Explode(',', "") == [""];
    ExplodeStep(',', "2");
    assert "2"[1..] == "";
    assert ['2'] + [] == "2";
    assert Explode(',', "2") == ["2"];
    ExplodeStep(',', ",2");
    assert ",2"[1..] == "2";
    assert Explode(',', ",2") == ["", "2"];
    ExplodeStep(',', "0,2");
    assert "0,2"[1..] == ",2";
    assert ['0'] + "" == "0";
    assert Explode(',', "0,2") == ["0", "2"];
    ExplodeStep(',', "10,2");
    assert "10,2"[1..] == "0,2";
    assert ['1'] + "0" == "10";
  }

  /** `explode(',', "S,M")`. */
  lemma ExplodeSM()
    ensures Explode(',', "S,M") == ["S", "M"]
  {
    assert Explode(',', "") == [""];
    ExplodeStep(',', "M");
    assert "M"[1..] == "";
    assert ['M'] + [] == "M";
    assert Explode(',', "M") == ["M"];
    ExplodeStep(',', ",M");
    assert ",M"[1..] == "M";
    assert Explode(',', ",M") == ["", "M"];
    ExplodeStep(',', "S,M");
    assert "S,M"[1..] == ",M";
    assert ['S'] + "" == "S";
  }

  /** A DECIMAL length "10,2" is written as the list `[10, 2]`. */
  lemma DecimalLengthExample()
    ensures LengthArg(FieldSpec("price", Field.DECIMAL, Str("10,2"), DefaultNone, AttrOther, Null, IndexOther, Null))
              == Some("[10, 2]")
  {
    ExplodeTenTwo();
    assert Join(", ", ["10", "2"]) == "10, 2";
    assert "" + ", " + "" == ", ";
    assert "[" + "" + "10, 2" + "" + "]" == "[10, 2]";
  }

  /** An ENUM length "S,M" is written as the quoted list `['S', 'M']`. */
  lemma EnumLengthExample()
    ensures LengthArg(FieldSpec("size", Field.ENUM, Str("S,M"), DefaultNone, AttrOther, Null, IndexOther, Null))
              == Some("['S', 'M']")
  {
    ExplodeSM();
    assert Join("', '", ["S", "M"]) == "S', 'M";
    assert "'" + ", " + "'" == "', '";
    assert "[" + "'" + "S', 'M" + "'" + "]" == "['S', 'M']";
  }

  /** A missing ENUM length still becomes a list, `['']`, while a missing
      length of another type is left out. */
  lemma MissingLengthExamples()
    ensures LengthArg(FieldSpec("size", Field.ENUM, Bool(false), DefaultNone, AttrOther, Null, IndexOther, Null))
              == Some("['']")
    ensures LengthArg(FieldSpec("id", Field.INT, Bool(false), DefaultNone, AttrOther, Null, IndexOther, Null)) == None
  {
    assert Explode(',', "") == [""];
    assert Join("', '", [""]) == "";
    var e := FieldSpec("size", Field.ENUM, Bool(false), DefaultNone, AttrOther, Null, IndexOther, Null);
    assert Strval(e.length) == "";
    assert e.fieldType != Field.DECIMAL;
    assert LengthArg(e) == Some("[" + "'" + "" + "'" + "]");
    assert "[" + "'" + "" + "'" + "]" == "['']";
  }

  /** One step of `Explode` on a literal: the first character and the rest. */
  lemma ExplodeStep(sep: char, s: string)
    requires s != []
    ensures Explode(sep, s) == if s[0] == sep then [[]] + Explode(sep, s[1..])
                               else [[s[0]] + Explode(sep, s[1..])[0]] + Explode(sep, s[1..])[1..]
  {
  }

  /** Each part between `q` and `q`. */
  function Wrap(q: string, ps: seq<string>): (r: seq<string>)
    ensures |r| == |ps|
    decreases |ps|
  {
    if ps == [] then [] else [q + ps[0] + q] + Wrap(q, ps[1..])
  }

  /** Joining with `q, q` inside an outer pair of `q` is joining the wrapped
      parts with `, `. */
  lemma {:induction false} JoinWrapped(q: string, ps: seq<string>)
    requires |ps| >= 1
    ensures q + Join(q + ", " + q, ps) + q == Join(", ", Wrap(q, ps))
    decreases |ps|
  {
    var w := Wrap(q, ps);
    assert w[0] == q + ps[0] + q && w[1..] == Wrap(q, ps[1..]);
    if |ps| > 1 {
      JoinWrapped(q, ps[1..]);
      var g := q + ", " + q;
      var rest := Join(g, ps[1..]);
      calc {
        q + Join(g, ps) + q;
        q + (ps[0] + g + rest) + q;
        { assert q + (ps[0] + g + rest) + q == (q + ps[0] + q) + ", " + (q + rest + q); }
        (q + ps[0] + q) + ", " + (q + rest + q);
        (q + ps[0] + q) + ", " + Join(", ", Wrap(q, ps[1..]));
      }
    }
  }

  /** For a DECIMAL or ENUM field the length is always written, as a
      bracketed list of the comma-separated parts of the length text, each
      single-quoted for ENUM and bare for DECIMAL; for other types it is
      written exactly when it is not `false`. */
  lemma LengthArgShape(f: FieldSpec)
    ensures (f.fieldType == Field.DECIMAL || f.fieldType == Field.ENUM) ==>
              LengthArg(f).Some? && LengthArg(f).value[0] == '['
              && LengthArg(f).value[|LengthArg(f).value| - 1] == ']'
    ensures f.fieldType == Field.DECIMAL ==>
              LengthArg(f) == Some("[" + Join(", ", Wrap("", Explode(',', Strval(f.length)))) + "]")
    ensures f.fieldType == Field.ENUM ==>
              LengthArg(f) == Some("[" + Join(", ", Wrap("'", Explode(',', Strval(f.length)))) + "]")
    ensures !(f.fieldType == Field.DECIMAL || f.fieldType == Field.ENUM) ==>
              (LengthArg(f).None? <==> f.length == Bool(false))
  {
    if f.fieldType == Field.DECIMAL || f.fieldType == Field.ENUM {
      var q := if f.fieldType == Field.DECIMAL then "" else "'";
      var ps := Explode(',', Strval(f.length));
      JoinWrapped(q, ps);
      assert "[" + q + Join(q + ", " + q, ps) + q + "]" == "[" + (q + Join(q + ", " + q, ps) + q) + "]";
    }
  }

  /** The qualifiers `createModel` can append. */
  datatype Qualifier =
    | Primary | Unique
    | Unsigned | Binary | UnsignedZeroFill | CurrentTimestampOnUpdate
    | AutoIncrement
    | NullByDefault | CurrentTimestampByDefault | DefaultTo(literal: string)
    | AllowNull

  function RenderQualifier(q: Qualifier): string {
    match q
    case Primary => "->primary()"
    case Unique => "->unique()"
    case Unsigned => "->unsigned()"
    case Binary => "->binary()"
    case UnsignedZeroFill => "->unsignedZeroFill()"
    case CurrentTimestampOnUpdate => "->currentTimestampOnUpdate()"
    case AutoIncrement => "->autoIncrement()"
    case NullByDefault => "->nullByDefault()"
    case CurrentTimestampByDefault => "->currentTimestampByDefault()"
    case DefaultTo(literal) => "->default(" + literal + ")"
    case AllowNull => "->null()"
  }

  predicate IsIndexQualifier(q: Qualifier) {
    q.Primary? || q.Unique?
  }

  predicate IsAttrQualifier(q: Qualifier) {
    q.Unsigned? || q.Binary? || q.UnsignedZeroFill? || q.CurrentTimestampOnUpdate?
  }

  predicate IsDefaultQualifier(q: Qualifier) {
    q.NullByDefault? || q.CurrentTimestampByDefault? || q.DefaultTo?
  }

  /** The literal inside `->default(...)`: quoted unless the type is an
      integer or float type. */
  function DefaultLiteralText(t: string, v: PhpValue): string
    requires IsScalarOrNull(v)
  {
    if !IsTypeFloat(t) && !IsTypeInteger(t) then "'" + Strval(v) + "'" else Strval(v)
  }

  /** The index part of the chain: `->primary()` or `->unique()`. */
  function IndexPart(f: FieldSpec): (qs: seq<Qualifier>)
    ensures |qs| <= 1 && forall q :: q in qs ==> IsIndexQualifier(q)
  {
    match f.index
    case IndexPrimary => [Primary]
    case IndexUnique => [Unique]
    case IndexOther => []
  }

  /** The attribute part of the chain. */
  function AttrPart(f: FieldSpec): (qs: seq<Qualifier>)
    ensures |qs| <= 1 && forall q :: q in qs ==> IsAttrQualifier(q)
  {
    match f.attr
    case AttrUnsigned => [Unsigned]
    case AttrBinary => [Binary]
    case AttrUnsignedZerofill => [UnsignedZeroFill]
    case AttrOnUpdateCurrentTimestamp => [CurrentTimestampOnUpdate]
    case AttrOther => []
  }

  /** The auto-increment part: written only for a flag that is `true` itself. */
  function AutoPart(f: FieldSpec): (qs: seq<Qualifier>)
    ensures qs == [AutoIncrement] || qs == []
  {
    if f.autoIncrement == Bool(true) then [AutoIncrement] else []
  }

  /** The default part of the chain. */
  function DefaultPart(f: FieldSpec): (qs: seq<Qualifier>)
    ensures |qs| <= 1 && forall q :: q in qs ==> IsDefaultQualifier(q)
    ensures qs == [] <==> f.default.DefaultNone?
  {
    match f.default
    case DefaultNull => [NullByDefault]
    case DefaultCurrentTimestamp => [CurrentTimestampByDefault]
    case DefaultNone => []
    case DefaultLiteral(v) => [DefaultTo(DefaultLiteralText(f.fieldType, v))]
  }

  /** The null part: a truthy null flag, unless the default is DEFAULT_NULL. */
  function NullPart(f: FieldSpec): (qs: seq<Qualifier>)
    ensures qs == [AllowNull] || qs == []
  {
    if Truthy(f.isNull) && !f.default.DefaultNull? then [AllowNull] else []
  }

  /** The qualifier chain for one field, in the order the code appends it:
      index, attribute, auto-increment, default, null. */
  function Qualifiers(f: FieldSpec): seq<Qualifier>
  {
    IndexPart(f) + AttrPart(f) + AutoPart(f) + DefaultPart(f) + NullPart(f)
  }

  /** How many qualifiers of a list satisfy `p`. */
  function CountIf(qs: seq<Qualifier>, p: Qualifier -> bool): nat
    decreases |qs|
  {
    if qs == [] then 0 else (if p(qs[0]) then 1 else 0) + CountIf(qs[1..], p)
  }

  lemma {:induction false} CountIfAppend(a: seq<Qualifier>, b: seq<Qualifier>, p: Qualifier -> bool)
    ensures CountIf(a + b, p) == CountIf(a, p) + CountIf(b, p)
    decreases |a|
  {
    if a == [] {
      assert a + b == b;
    } else {
      assert (a + b)[0] == a[0];
      assert (a + b)[1..] == a[1..] + b;
      CountIfAppend(a[1..], b, p);
    }
  }

  /** A list of at most one element counts 1 exactly when it holds an
      element satisfying `p`. */
  lemma CountIfShort(qs: seq<Qualifier>, p: Qualifier -> bool)
    requires |qs| <= 1
    ensures CountIf(qs, p) == if exists q :: q in qs && p(q) then 1 else 0
  {
    if qs != [] {
      assert qs[1..] == [];
      assert qs[0] in qs;
    }
  }

  lemma CountIfParts(f: FieldSpec, p: Qualifier -> bool)
    ensures CountIf(Qualifiers(f), p) == CountIf(IndexPart(f), p) + CountIf(AttrPart(f), p) + CountIf(AutoPart(f), p)
                                         + CountIf(DefaultPart(f), p) + CountIf(NullPart(f), p)
  {
    var a, b, c, d, e := IndexPart(f), AttrPart(f), AutoPart(f), DefaultPart(f), NullPart(f);
    CountIfAppend(a + b + c + d, e, p);
    CountIfAppend(a + b + c, d, p);
    CountIfAppend(a + b, c, p);
    CountIfAppend(a, b, p);
  }

  /** At most one index qualifier, at most one attribute qualifier and at
      most one default qualifier: each entry selects one branch of its
      if-chain. */
  lemma QualifierCounts(f: FieldSpec)
    ensures CountIf(Qualifiers(f), IsIndexQualifier) <= 1
    ensures CountIf(Qualifiers(f), IsAttrQualifier) <= 1
    ensures CountIf(Qualifiers(f), IsDefaultQualifier) <= 1
  {
    QualifierCount(f, IsIndexQualifier);
    QualifierCount(f, IsAttrQualifier);
    QualifierCount(f, IsDefaultQualifier);
  }

  lemma QualifierCount(f: FieldSpec, p: Qualifier -> bool)
    requires p == IsIndexQualifier || p == IsAttrQualifier || p == IsDefaultQualifier
    ensures CountIf(Qualifiers(f), p) <= 1
  {
    CountIfParts(f, p);
    CountIfShort(IndexPart(f), p);
    CountIfShort(AttrPart(f), p);
    CountIfShort(AutoPart(f), p);
    CountIfShort(DefaultPart(f), p);
    CountIfShort(NullPart(f), p);
  }

  /** Primary and unique follow the index entry; auto-increment is written
      exactly when the flag is `true`; `->null()` exactly when the null flag
      is truthy and the default is not DEFAULT_NULL; and `->nullByDefault()`
      exactly for DEFAULT_NULL. */
  lemma QualifierPresence(f: FieldSpec)
    ensures Primary in Qualifiers(f) <==> f.index == IndexPrimary
    ensures Unique in Qualifiers(f) <==> f.index == IndexUnique
    ensures AutoIncrement in Qualifiers(f) <==> f.autoIncrement == Bool(true)
    ensures AllowNull in Qualifiers(f) <==> Truthy(f.isNull) && f.default != DefaultNull
    ensures NullByDefault in Qualifiers(f) <==> f.default == DefaultNull
    ensures CurrentTimestampByDefault in Qualifiers(f) <==> f.default == DefaultCurrentTimestamp
    ensures (exists q :: q in Qualifiers(f) && IsDefaultQualifier(q)) <==> !f.default.DefaultNone?
    ensures Unsigned in Qualifiers(f) <==> f.attr == AttrUnsigned
    ensures Binary in Qualifiers(f) <==> f.attr == AttrBinary
    ensures UnsignedZeroFill in Qualifiers(f) <==> f.attr == AttrUnsignedZerofill
    ensures CurrentTimestampOnUpdate in Qualifiers(f) <==> f.attr == AttrOnUpdateCurrentTimestamp
  {
    InQualifiers(f, Primary);
    InQualifiers(f, Unique);
    InQualifiers(f, AutoIncrement);
    InQualifiers(f, AllowNull);
    InQualifiers(f, NullByDefault);
    InQualifiers(f, CurrentTimestampByDefault);
    InQualifiers(f, Unsigned);
    InQualifiers(f, Binary);
    InQualifiers(f, UnsignedZeroFill);
    InQualifiers(f, CurrentTimestampOnUpdate);
    if !f.default.DefaultNone? {
      InQualifiers(f, DefaultPart(f)[0]);
    } else {
      forall q | q in Qualifiers(f) ensures !IsDefaultQualifier(q) {
        InQualifiers(f, q);
      }
    }
  }

  /** A qualifier is in the chain exactly when it is in one of its parts. */
  lemma InQualifiers(f: FieldSpec, q: Qualifier)
    ensures q in Qualifiers(f) <==> q in IndexPart(f) || q in AttrPart(f) || q in AutoPart(f)
                                    || q in DefaultPart(f) || q in NullPart(f)
  {
  }

  /** The default part renders as the code writes it: `->default('v')` for
      a literal on a non-numeric type, `->default(v)` on an integer or float
      type. */
  lemma DefaultRendering(f: FieldSpec)
    requires f.default.DefaultLiteral?
    ensures DefaultTo(DefaultLiteralText(f.fieldType, f.default.v)) in Qualifiers(f)
    ensures RenderQualifier(DefaultTo(DefaultLiteralText(f.fieldType, f.default.v)))
            == if IsTypeInteger(f.fieldType) || IsTypeFloat(f.fieldType)
               then "->default(" + Strval(f.default.v) + ")"
               else "->default('" + Strval(f.default.v) + "')"
  {
    var pre := IndexPart(f) + AttrPart(f) + AutoPart(f);
    assert Qualifiers(f)[|pre|] == DefaultPart(f)[0];
  }

  function RenderQualifiers(qs: seq<Qualifier>): string
    decreases |qs|
  {
    if qs == [] then [] else RenderQualifier(qs[0]) + RenderQualifiers(qs[1..])
  }

  /** The `$this->field(...)` call with its qualifier chain. */
  function FieldCall(f: FieldSpec): string
  {
    var head := T2 + "$this->field(self::" + ToUpper(f.name) + ", DBModelField::" + f.fieldType;
    var withLength := match LengthArg(f) case Some(l) => head + ", " + l + ")" case None => head + ")";
    withLength + RenderQualifiers(Qualifiers(f))
  }

  /** The line `createModel` adds to the field block for one field. */
  function FieldLine(f: FieldSpec): string
  {
    FieldCall(f) + ";\r\n"
  }

  /** The `const NAME = 'name';` line of one field. */
  function ConstLine(f: FieldSpec): string {
    T + "const " + ToUpper(f.name) + " = '" + f.name + "';\r\n"
  }

  /** The lines `line` gives for the fields, run together in field order:
      the constant block, the field block and the property block. */
  function Block(fs: seq<FieldSpec>, line: FieldSpec -> string): string
    decreases |fs|
  {
    if fs == [] then [] else Block(fs[..|fs| - 1], line) + line(fs[|fs| - 1])
  }

  /** The block of two runs of fields is the two blocks in order. */
  lemma {:induction false} BlockAppend(a: seq<FieldSpec>, b: seq<FieldSpec>, line: FieldSpec -> string)
    ensures Block(a + b, line) == Block(a, line) + Block(b, line)
    decreases |b|
  {
    if b == [] {
      assert a + b == a;
    } else {
      var init := b[..|b| - 1];
      assert (a + b)[..|a + b| - 1] == a + init;
      BlockAppend(a, init, line);
    }
  }

  /** Exactly one line per field, in field order: the block is the lines of
      the fields before `k`, then the line of field `k`, then the lines of
      the fields after it. */
  lemma BlockAt(fs: seq<FieldSpec>, line: FieldSpec -> string, k: nat)
    requires k < |fs|
    ensures Block(fs, line) == Block(fs[..k], line) + line(fs[k]) + Block(fs[k + 1..], line)
  {
    var upTo := fs[..k + 1];
    assert fs == upTo + fs[k + 1..];
    BlockAppend(upTo, fs[k + 1..], line);
    assert upTo[..|upTo| - 1] == fs[..k];
    assert Block(upTo, line) == Block(fs[..k], line) + line(fs[k]);
  }

  lemma EndsWith(x: string, y: string)
    ensures |x + y| >= |y| && (x + y)[|x + y| - |y|..] == y
  {
  }

  /** Each generated line ends the way the code ends it, with `;` and CRLF,
      so the lines of a block never run together. */
  lemma LinesEndWithCrlf(f: FieldSpec)
    ensures var l := FieldLine(f); |l| >= 3 && l[|l| - 3..] == ";\r\n"
    ensures var c := ConstLine(f); |c| >= 3 && c[|c| - 3..] == ";\r\n"
  {
    EndsWith(FieldCall(f), ";\r\n");
    var upTo := T + "const " + ToUpper(f.name) + " = '" + f.name;
    assert ConstLine(f) == upTo + "';\r\n";
    EndsWith(upTo, "';\r\n");
    assert ConstLine(f)[|ConstLine(f)| - 3..] == "';\r\n"[1..];
  }

  // ------------------------------------------------------ file results

  /** A generated class, kept as the parts its template is filled with; the
      file content is `Text` of it. */
  datatype ClassSource =
    | ModelSource(name: string, table: string, constFields: string, fieldSet: string, stateFieldsFunc: string)
    | EntitySource(name: string, useTraitClass: string, useTrait: string, fieldsContent: string)

  /** What `createModel` / `createEntity` report. */
  datatype FileResult = Skipped | NotCreated(message: string) | Written(source: ClassSource)

  /** The guard both generators run first: not asked for, or an existing
      file that may not be overridden. */
  function Guard(create: PhpValue, name: string, fileExists: bool, override: PhpValue): Option<FileResult> {
    if create == Bool(false) then Some(Skipped)
    else if fileExists && override == Bool(false) then Some(NotCreated(name + " is not created. Override is set to false."))
    else None
  }

  function StateFieldsCall(useStateFields: PhpValue): string {
    if Truthy(useStateFields) then T2 + "// ------ State Fields ------" + CRLF + T2 + "$this->addStateFields();" else ""
  }

  /** The schema class text. */
  function ModelText(name: string, table: string, constFields: string, fieldSet: string, stateFieldsFunc: string): string {
    "<?php\n\nnamespace App\\Model;\n\nuse Copper\\Component\\DB\\DBModel;\nuse Copper\\Component\\DB\\DBModelField;\n\n"
    + "class " + name + " extends DBModel\n{\n" + constFields + "\n"
    + "    public function getTableName()\n    {\n        return '" + table + "';\n    }\n\n"
    + "    public function setFields()\n    {\n" + fieldSet + "\n" + stateFieldsFunc + "\n    }\n\n}"
  }

  function ModelFile(table: string, create: PhpValue, name: string, fields: seq<FieldSpec>,
                     useStateFields: PhpValue, override: PhpValue, fileExists: bool): FileResult
  {
    match Guard(create, name, fileExists, override)
    case Some(r) => r
    case None =>
      Written(ModelSource(name, table, Block(fields, ConstLine), Block(fields, FieldLine),
                          StateFieldsCall(useStateFields)))
  }

  /** The loop of `createModel`: the constant lines and the field lines
      built one field at a time. */
  method ModelBlocks(fields: seq<FieldSpec>) returns (constFields: string, fieldSet: string)
    ensures constFields == Block(fields, ConstLine) && fieldSet == Block(fields, FieldLine)
  {
    constFields := "";
    fieldSet := "";
    var i := 0;
    while i < |fields|
      invariant 0 <= i <= |fields|
      invariant constFields == Block(fields[..i], ConstLine)
      invariant fieldSet == Block(fields[..i], FieldLine)
    {
      var field := fields[i];
      constFields := constFields + ConstLine(field);
      fieldSet := fieldSet + FieldLine(field);
      assert fields[..i + 1][..i] == fields[..i];
      i := i + 1;
    }
    assert fields[..i] == fields;
  }

  /** `createModel`: the guard, then the class text around the two blocks. */
  method CreateModel(table: string, create: PhpValue, name: string, fields: seq<FieldSpec>,
                     useStateFields: PhpValue, override: PhpValue, fileExists: bool)
    returns (r: FileResult)
    ensures r == ModelFile(table, create, name, fields, useStateFields, override, fileExists)
  {
    ModelFileSkipped(table, create, name, fields, useStateFields, override, fileExists);
    ModelFileRefused(table, create, name, fields, useStateFields, override, fileExists);
    ModelFileWritten(table, create, name, fields, useStateFields, override, fileExists);
    if create == Bool(false) {
      r := Skipped;
    } else if fileExists && override == Bool(false) {
      r := NotCreated(name + " is not created. Override is set to false.");
    } else {
      var constFields, fieldSet := ModelBlocks(fields);
      var stateFieldsFunc := StateFieldsCall(useStateFields);
      r := Written(ModelSource(name, table, constFields, fieldSet, stateFieldsFunc));
    }
  }

  /** The property type test of `createEntity`, run in the code's order. */
  method PropertyType(t: string) returns (propType: string)
    ensures propType == EntityType(t)
  {
    propType := "string";
    if IsTypeInteger(t) {
      propType := "integer";
    }
    if IsTypeFloat(t) {
      propType := "float";
    }
    if t == Field.BOOLEAN {
      propType := "boolean";
    }
  }

  /** One property declaration of the entity class. */
  function EntityLine(f: FieldSpec): string {
    PropertyDecl(EntityType(f.fieldType), f.name)
  }

  function PropertyDecl(propType: string, name: string): string {
    "    /** @var " + propType + " */\r\n    public $" + name + ";\r\n"
  }

  /** The import line and the `use` line of the state-fields trait: written
      only when the flag is exactly `true`, an empty line otherwise. */
  function TraitImport(useStateFields: PhpValue): string {
    if useStateFields == Bool(true) then "use Copper\\Traits\\EntityStateFields;\r\n" else "\r\n"
  }

  function TraitUse(useStateFields: PhpValue): string {
    if useStateFields == Bool(true) then "use EntityStateFields;\r\n" else "\r\n"
  }

  /** The entity class text. */
  function EntityText(name: string, useTraitClass: string, useTrait: string, fieldsContent: string): string {
    "<?php\n\n\nnamespace App\\Entity;\n\n\nuse Copper\\Entity\\AbstractEntity;\n" + useTraitClass + "\n"
    + "class " + name + " extends AbstractEntity\n{\n    " + useTrait + "\n" + fieldsContent + "\n}"
  }

  /** The content of a generated file. */
  function Text(src: ClassSource): string {
    match src
    case ModelSource(name, table, constFields, fieldSet, stateFieldsFunc) =>
      ModelText(name, table, constFields, fieldSet, stateFieldsFunc)
    case EntitySource(name, useTraitClass, useTrait, fieldsContent) =>
      EntityText(name, useTraitClass, useTrait, fieldsContent)
  }

  function EntityFile(create: PhpValue, name: string, fields: seq<FieldSpec>, useStateFields: PhpValue,
                      override: PhpValue, fileExists: bool): FileResult
  {
    match Guard(create, name, fileExists, override)
    case Some(r) => r
    case None => Written(EntitySource(name, TraitImport(useStateFields), TraitUse(useStateFields),
                                      Block(fields, EntityLine)))
  }

  /** The loop of `createEntity`: one property declaration per field, in
      field order. */
  method EntityProperties(fields: seq<FieldSpec>) returns (fieldsContent: string)
    ensures fieldsContent == Block(fields, EntityLine)
  {
    fieldsContent := "";
    var i := 0;
    while i < |fields|
      invariant 0 <= i <= |fields|
      invariant fieldsContent == Block(fields[..i], EntityLine)
    {
      var propType := PropertyType(fields[i].fieldType);
      fieldsContent := fieldsContent + PropertyDecl(propType, fields[i].name);
      assert fields[..i + 1][..i] == fields[..i];
      i := i + 1;
    }
    assert fields[..i] == fields;
  }

  /** `createEntity`: the guard, then the class text around the properties. */
  method CreateEntity(create: PhpValue, name: string, fields: seq<FieldSpec>, useStateFields: PhpValue,
                      override: PhpValue, fileExists: bool)
    returns (r: FileResult)
    ensures r == EntityFile(create, name, fields, useStateFields, override, fileExists)
  {
    EntityFileSkipped(create, name, fields, useStateFields, override, fileExists);
    EntityFileRefused(create, name, fields, useStateFields, override, fileExists);
    EntityFileWritten(create, name, fields, useStateFields, override, fileExists);
    if create == Bool(false) {
      r := Skipped;
    } else if fileExists && override == Bool(false) {
      r := NotCreated(name + " is not created. Override is set to false.");
    } else {
      var fieldsContent := EntityProperties(fields);
      r := Written(EntitySource(name, TraitImport(useStateFields), TraitUse(useStateFields), fieldsContent));
    }
  }

  // The three outcomes of each generator, one lemma each: skipped exactly
  // when `create` is `false`; refused, with the message naming the class,
  // exactly when asked for over an existing file whose override flag is
  // `false`; and written otherwise, with the class text around the blocks.

  lemma EntityFileSkipped(create: PhpValue, name: string, fields: seq<FieldSpec>, useStateFields: PhpValue,
                          override: PhpValue, fileExists: bool)
    ensures EntityFile(create, name, fields, useStateFields, override, fileExists) == Skipped
            <==> create == Bool(false)
  {
  }

  lemma EntityFileRefused(create: PhpValue, name: string, fields: seq<FieldSpec>, useStateFields: PhpValue,
                          override: PhpValue, fileExists: bool)
    ensures EntityFile(create, name, fields, useStateFields, override, fileExists)
              == NotCreated(name + " is not created. Override is set to false.")
            <==> create != Bool(false) && fileExists && override == Bool(false)
  {
  }

  lemma EntityFileWritten(create: PhpValue, name: string, fields: seq<FieldSpec>, useStateFields: PhpValue,
                          override: PhpValue, fileExists: bool)
    ensures var r := EntityFile(create, name, fields, useStateFields, override, fileExists);
            && (r.Written? <==> create != Bool(false) && !(fileExists && override == Bool(false)))
            && (r.Written? ==> r.source == EntitySource(name, TraitImport(useStateFields), TraitUse(useStateFields),
                                                        Block(fields, EntityLine)))
  {
  }

  lemma ModelFileSkipped(table: string, create: PhpValue, name: string, fields: seq<FieldSpec>,
                         useStateFields: PhpValue, override: PhpValue, fileExists: bool)
    ensures ModelFile(table, create, name, fields, useStateFields, override, fileExists) == Skipped
            <==> create == Bool(false)
  {
  }

  lemma ModelFileRefused(table: string, create: PhpValue, name: string, fields: seq<FieldSpec>,
                         useStateFields: PhpValue, override: PhpValue, fileExists: bool)
    ensures ModelFile(table, create, name, fields, useStateFields, override, fileExists)
              == NotCreated(name + " is not created. Override is set to false.")
            <==> create != Bool(false) && fileExists && override == Bool(false)
  {
  }

  lemma ModelFileWritten(table: string, create: PhpValue, name: string, fields: seq<FieldSpec>,
                         useStateFields: PhpValue, override: PhpValue, fileExists: bool)
    ensures var r := ModelFile(table, create, name, fields, useStateFields, override, fileExists);
            && (r.Written? <==> create != Bool(false) && !(fileExists && override == Bool(false)))
            && (r.Written? ==> r.source == ModelSource(name, table, Block(fields, ConstLine), Block(fields, FieldLine),
                                                       StateFieldsCall(useStateFields)))
  {
  }

  // --------------------------------------------------------------- run

  /** The decoded description; `None` stands for a missing, null or `false`
      entry, and a missing class name reads as "". */
  datatype Request = Request(
    table: Option<string>,
    entity: string,
    model: string,
    fields: Option<seq<FieldSpec>>,
    useStateFields: PhpValue,
    modelOverride: PhpValue,
    entityOverride: PhpValue,
    createEntity: PhpValue,
    createModel: PhpValue)

  datatype RunResult = RunFailed(message: string) | RunOk(message: string, entity: FileResult, model: FileResult)

  /** `run`: the two required entries checked first, then the entity and
      the model generated. */
  function Run(req: Request, entityExists: bool, modelExists: bool): RunResult
  {
    if req.table.None? || req.fields.None? then RunFailed("Please provide all information. Table, Fields")
    else
      RunOk("success",
            EntityFile(req.createEntity, req.entity, req.fields.value, req.useStateFields, req.entityOverride, entityExists),
            ModelFile(req.table.value, req.createModel, req.model, req.fields.value, req.useStateFields,
                      req.modelOverride, modelExists))
  }

  /** `run` fails exactly when the table or the field list is missing, and
      then generates nothing; otherwise the entity and the model are each
      skipped, refused or written by their own guard. */
  lemma RunSpec(req: Request, entityExists: bool, modelExists: bool)
    ensures Run(req, entityExists, modelExists).RunFailed? <==> req.table.None? || req.fields.None?
    ensures Run(req, entityExists, modelExists).RunOk? ==>
              (Run(req, entityExists, modelExists).entity == Skipped <==> req.createEntity == Bool(false))
              && (Run(req, entityExists, modelExists).model == Skipped <==> req.createModel == Bool(false))
              && (Run(req, entityExists, modelExists).model.Written? <==>
                    req.createModel != Bool(false) && !(modelExists && req.modelOverride == Bool(false)))
  {
    if req.table.Some? && req.fields.Some? {
      var fields := req.fields.value;
      var e := EntityFile(req.createEntity, req.entity, fields, req.useStateFields, req.entityOverride, entityExists);
      var m := ModelFile(req.table.value, req.createModel, req.model, fields, req.useStateFields,
                         req.modelOverride, modelExists);
      assert Run(req, entityExists, modelExists) == RunOk("success", e, m);
      EntityFileSkipped(req.createEntity, req.entity, fields, req.useStateFields, req.entityOverride, entityExists);
      ModelFileSkipped(req.table.value, req.createModel, req.model, fields, req.useStateFields,
                       req.modelOverride, modelExists);
      ModelFileWritten(req.table.value, req.createModel, req.model, fields, req.useStateFields,
                       req.modelOverride, modelExists);
    }
  }

  /** The state-fields switches differ: the schema tests the flag for
      truthiness, the entity for `true` itself, so a flag of 1 adds the
      schema's `addStateFields()` call but not the entity's trait. */
  lemma StateFieldsFlagDiffers()
    ensures StateFieldsCall(Int(1)) != ""
    ensures TraitImport(Int(1)) == TraitImport(Bool(false)) && TraitUse(Int(1)) == TraitUse(Bool(false))
  {
  }
}
