/** The field descriptor a schema holds (`DBModelField`). Its class is not
    part of this model: the descriptor is kept as a value with the parts the
    schema reads back (name, type, length, nullability, default policy), and
    its type constants are taken to hold their own names, which is what the
    code generator relies on when it writes `DBModelField::$fType` for a type
    it compares with those constants. */
module DBModelField {
  import opened PhpValues

  const INT: string := "INT"
  const TINYINT: string := "TINYINT"
  const SMALLINT: string := "SMALLINT"
  const MEDIUMINT: string := "MEDIUMINT"
  const BIGINT: string := "BIGINT"
  const SERIAL: string := "SERIAL"
  const BIT: string := "BIT"
  const DECIMAL: string := "DECIMAL"
  const FLOAT: string := "FLOAT"
  const DOUBLE: string := "DOUBLE"
  const REAL: string := "REAL"
  const BOOLEAN: string := "BOOLEAN"
  const DATE: string := "DATE"
  const DATETIME: string := "DATETIME"
  const YEAR: string := "YEAR"
  const ENUM: string := "ENUM"

  /** What `getDefault` reports: one of the three default constants, or a
      literal given to `default($v)` (taken to differ from the constants). */
  datatype DefaultPolicy = DefaultNone | DefaultCurrentTimestamp | DefaultNull | DefaultValue(v: PhpValue)

  datatype Field = Field(
    name: string,
    fieldType: string,
    length: PhpValue,
    nullable: bool,
    default: DefaultPolicy,
    updateTimestamp: bool)

  /** `new DBModelField($name, $type, $length)`: not nullable, no default. */
  function NewField(name: string, fieldType: string, length: PhpValue): (f: Field)
    ensures f.name == name && f.fieldType == fieldType && f.length == length
    ensures !f.nullable && f.default == DefaultNone && !f.updateTimestamp
  {
    Field(name, fieldType, length, false, DefaultNone, false)
  }

  // The qualifiers the schema applies to the lifecycle fields.

  function CurrentTimestampByDefault(f: Field): Field {
    f.(default := DefaultCurrentTimestamp)
  }

  function CurrentTimestampOnUpdate(f: Field): Field {
    f.(updateTimestamp := true)
  }

  /** `nullByDefault()` also makes the column nullable: the code generator
      leaves out `->null()` exactly when it writes `->nullByDefault()`. */
  function NullByDefault(f: Field): Field {
    f.(default := DefaultNull, nullable := true)
  }

  function WithDefault(f: Field, v: PhpValue): Field {
    f.(default := DefaultValue(v))
  }
}
