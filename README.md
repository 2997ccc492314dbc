# Copper ORM core, modelled in Dafny

This project models the in-memory logic of the Copper PHP framework's database
layer and the helpers around it:

- the table schema `DBModel`, a class holding an ordered list of field
  descriptors and a state-fields flag. It covers the lookups, the field-name
  sanitiser, and the two routines that decide which keys reach the database
  and with which substitutions (`formatFieldValues` and
  `getFieldValuesFromEntity`). The query-plan decisions of `doSelect`,
  `doSelectUnique`, `doInsert`, `doBulkInsert`, `doUpdate`, `doUpdateById`
  and `doDeleteById` are modelled as abstract statements;
- the condition builder `DBCondition`, a class whose list of (field, value,
  operator, chain) entries grows through static constructors and chain
  methods. It is rendered into an ordered list of `where`/`whereOr` calls;
- the column modification value `DBColumnModAction`;
- the code generator `DBGenerator`, which turns a table description into the
  PHP source of a schema class and an entity class;
- the value helpers `VarHandler` and `StringHandler`, over a datatype of PHP
  values (`PhpValues.PhpValue`). It has null, booleans, integers, floats
  known only by their text, strings, lists and opaque objects.

PHP arrays with string keys are modelled as ordered association lists
(`PhpValues.Dict`), with PHP's assignment semantics: assigning to an existing
key updates it in place, and assigning to a new key appends it. The PHP
builtins on strings follow their PHP 7 behaviour, for example:

- `substr` returns `false` past the end;
- `explode` of an empty string gives `[""]`;
- `trim` strips `" \t\n\r\0\x0B"`.

Field names are compared exactly. Where the source looks a name up with
PHP's loose `array_search` or `in_array`, PHP 7 would also match numeric
strings that are numerically equal (`"1e1"` and `"10"`) and, for an integer
key, any non-numeric name (`"name" == 0`). "## Left out" lists the members
this affects.

Imperative code is modelled imperatively:

- `DBModel.Schema` and `DBCondition.Condition` are classes whose methods
  update their fields;
- the `foreach` loops of the source are `while` loops. Each loop is proved
  against a function that states what it computes, and the properties the
  source promises are lemmas about that function.

Inputs the code reads from outside become parameters:

- the clock's date and year readings;
- whether a target file exists;
- the decoded JSON description;
- the results of `DBModelField::typeIsString`;
- `DBConditionEntry::formatField` and `formatValue`;
- what an entity's `toArray` returns.

`DBModelField` is kept as a value record, `DBModelField.Field`. Its class is
not part of this model, so the record rests on these assumptions:

- its type constants hold their own names, as the generator assumes when it
  writes `DBModelField::$fType`;
- `new DBModelField($name, $type, $length)` (`DBModelField.NewField`) gives a
  descriptor that is not nullable, has the `DEFAULT_NONE` policy and no
  on-update timestamp;
- `nullByDefault()` also makes the column nullable;
- a literal given to `default($v)` never equals one of the `DEFAULT_*`
  constants, so `getDefault()` tells a literal from a policy. The
  `DefaultValue` test of `DBModel.Schema.FormatOne` (line 230 of
  src/Component/DB/DBModel.php) and `DBGenerator.DefaultSpec` rely on it.

The schema's field names are not assumed to be distinct: `DBModel.Schema`
accepts a repeated name. The lemmas that characterise the formatted rows
(`FormatFieldValuesSpec`, `ProjectSpec`, `UpdatePlanSpec`, `InsertDataSpec`
and the ones they use) take distinct names (`DBModel.UniqueNames`) as a
precondition.

The `substr` doc comment (src/Handler/StringHandler.php:72) gives
`substr("abcdef", -10, 1)` as `""`. PHP 7 clamps a start that lies before the
beginning to 0, so the call returns `"a"`. The model follows PHP:
`StringHandler.SubstrDocExamples` proves `"a"`.

## Model

| member | source | states |
|---|---|---|
| PhpValues.LTrim | src/Handler/StringHandler.php:129-132 | the result is a suffix of the input; every dropped leading character is in the strip set; the first kept character is not |
| PhpValues.RTrim | src/Handler/StringHandler.php:129-132 | the result is a prefix of the input; every dropped trailing character is in the strip set; the last kept character is not |
| PhpValues.TrimEmptyIff | src/Handler/StringHandler.php:131 | `trim` gives "" exactly when every character is whitespace |
| PhpValues.TrimUnpadded | src/Component/DB/DBModel.php:165 | `trim` leaves a string with no leading and no trailing whitespace unchanged |
| PhpValues.NatToString | src/Handler/VarHandler.php:243 | the decimal text of a natural is non-empty, all digits, with no leading zero |
| PhpValues.ParseNatToString | src/Handler/VarHandler.php:243 | reading the decimal text back gives the number |
| PhpValues.IntToString | src/Handler/VarHandler.php:243 | `strval` of an int is an optional minus sign and digits |
| PhpValues.IntToStringRoundTrip | src/Handler/VarHandler.php:243 | `strval` of an int parses back to the same int |
| PhpValues.IntTextNotBlank | src/Component/DB/DBModel.php:221 | the text of an int never trims to "" |
| PhpValues.BoolTrimsToEmpty | src/Component/DB/DBModel.php:221 | `trim(true)` is "1" and `trim(false)` is "" |
| PhpValues.TrimsToEmptyIff | src/Component/DB/DBModel.php:221 | `trim($v) === ''` holds exactly for null, false, and a string or float text made only of whitespace |
| PhpValues.ToUpperSpec | src/Component/CP/DB/DBGenerator.php:116 | `strtoupper` keeps the length, leaves no lower-case ASCII letter, changes each character only in its case (non-lower-case characters stay as they are), and applying it twice is the same as once |
| PhpValues.Explode | src/Component/CP/DB/DBGenerator.php:124 | `explode` gives at least one part, and no part holds the separator |
| PhpValues.JoinExplode | src/Component/CP/DB/DBGenerator.php:124 | joining the parts of `explode` with the separator gives back the string |
| PhpValues.ExplodeLength | src/Handler/StringHandler.php:145-148 | `explode` gives one part more than there are separators |
| PhpValues.IndexOf | src/Component/DB/DBModel.php:216 | the position of a present key is its first occurrence |
| PhpValues.GetAt | src/Component/DB/DBModel.php:219 | in an array with unique keys, reading the key at position i gives the value at i |
| PhpValues.PutSpec | src/Component/DB/DBModel.php:240 | `$a[k] = v` appends a new key or keeps the key order, stores v under k, leaves the other keys' values alone and keeps keys unique |
| StringHandler.ReplaceAllBySelf | src/Handler/StringHandler.php:52-55 | replacing a needle by itself changes nothing |
| StringHandler.ReplaceAllAbsent | src/Handler/StringHandler.php:52-55 | replacing a needle that does not occur changes nothing |
| StringHandler.ReplaceDocExampleOne | src/Handler/StringHandler.php:40 | `replace('A B', 'B', 123)` is "A 123" |
| StringHandler.ReplaceBAfter | src/Handler/StringHandler.php:41-42 | in `p + " B C"` with no B in p, the only B is replaced |
| StringHandler.ReplaceDocExampleTwo | src/Handler/StringHandler.php:41 | `replace('A B C', ['A', 'B'], 'X')` is "X X C" |
| StringHandler.ReplaceDocExampleThree | src/Handler/StringHandler.php:42 | `replace('A B C', ['A', 'B'], ['A1', 'B2'])` is "A1 B2 C" |
| StringHandler.Substr | src/Handler/StringHandler.php:81-84 | a returned piece occurs in the string |
| StringHandler.SubstrDocExamples | src/Handler/StringHandler.php:69-72 | the documented calls give "f", "ef" and "d"; the -10 case gives "a" under PHP 7 |
| StringHandler.SubstrNegativeStart | src/Handler/StringHandler.php:81-84 | a start of -k gives the last k characters |
| StringHandler.SubstrSplit | src/Handler/StringHandler.php:81-84 | the first k characters followed by the rest give the whole string |
| StringHandler.SubstrPastEnd | src/Handler/StringHandler.php:81-84 | a start past the end gives false, and a start at the end gives "" |
| StringHandler.Repeat | src/Handler/StringHandler.php:86-89 | a negative count is PHP 7's warning and NULL (`None`), exactly; otherwise `str_repeat(s, n)` has length \|s\| * n |
| StringHandler.RepeatAt | src/Handler/StringHandler.php:86-89 | for 0 <= j < n, character k of copy j is character k of s |
| StringHandler.StrposFrom | src/Handler/StringHandler.php:101 | `strpos` gives the first occurrence at or after the offset, or false when there is none or the needle is empty |
| StringHandler.HasIff | src/Handler/StringHandler.php:99-102 | `has(s, t)` holds exactly when s is non-empty and occurs in t (the needle is the first argument) |
| StringHandler.IsEmptyIff | src/Handler/StringHandler.php:119-132 | `isEmpty` holds exactly for null, false, and a string or float text made only of whitespace |
| StringHandler.ExplodeHead | src/Handler/StringHandler.php:145 | the first part of `explode` is the text before the first separator |
| StringHandler.ExplodeSecond | src/Handler/StringHandler.php:145-150 | the second part of `explode` is the text between the first and the second separator |
| StringHandler.ExplodeSecondIsFirstQuery | src/Handler/StringHandler.php:145-150 | `$parts[1]` is the text after the first `?`, up to the next one |
| StringHandler.UrlQueryParamListSpec | src/Handler/StringHandler.php:138-153 | null and strings with no `?` give `[]`; a query is parsed only when it is the segment after the first `?` and is not blank |
| StringHandler.UcWords | src/Handler/StringHandler.php:247 | `ucwords` keeps the length |
| StringHandler.CamelWords | src/Handler/StringHandler.php:247 | `ucwords` then removing `_` gives the first part followed by the capitalised later parts |
| StringHandler.UnderscoreToCamelCaseWords | src/Handler/StringHandler.php:243-253 | with `firstLetterBig` the result is the `_`-separated parts, each capitalised, run together; without it, the same text with its first character lower-cased |
| StringHandler.ConcatCapitalizedNoUnderscore | src/Handler/StringHandler.php:247 | parts with no `_` run together with no `_` |
| StringHandler.UnderscoreToCamelCaseShape | src/Handler/StringHandler.php:243-253 | the result has no `_`; without `firstLetterBig` it has the length of the big-first form, agrees with it after the first character, and its first character is that form's first character lower-cased |
| StringHandler.RemoveFirstChars | src/Handler/StringHandler.php:261-267 | the result is a suffix whose dropped characters are all in the list and whose first character is not |
| StringHandler.RemoveLastChars | src/Handler/StringHandler.php:275-281 | the result is a prefix whose dropped characters are all in the list and whose last character is not |
| VarHandler.GetTypeNamesKinds | src/Handler/VarHandler.php:32-39 | two values get the same type name exactly when they are the same kind; a float is named "float", never "double" |
| VarHandler.TypePredicatesMatchGetType | src/Handler/VarHandler.php:115-193 | `isNull`, strict `isInt`, `isString`, `isFloat`, `isArray` and `isObject` each hold exactly when `getType` gives the matching type name |
| VarHandler.IsIntAndIsStringDocTables | src/Handler/VarHandler.php:148-194 | strict `isInt` and `isString` give the documented results |
| VarHandler.IsBooleanStrictIff | src/Handler/VarHandler.php:224-233 | strict `isBoolean` holds exactly for booleans, and it implies the loose form |
| VarHandler.IsBooleanDocTable | src/Handler/VarHandler.php:196-233 | both forms of `isBoolean` give the documented results |
| VarHandler.ToStringScalars | src/Handler/VarHandler.php:235-244 | null gives "null"; an int gives text that parses back to it; true gives "1" and false "" |
| VarHandler.ToBooleanVersusCast | src/Handler/VarHandler.php:250-256 | `toBoolean` differs from PHP's bool cast exactly on zero floats and the empty array |
| VarHandler.ToBooleanOnBooleans | src/Handler/VarHandler.php:250-256 | on the values loose `isBoolean` accepts, `toBoolean` holds exactly for true, 1 and '1' |
| VarHandler.ToBooleanString | src/Handler/VarHandler.php:262-265 | the result is "true" or "false", and "true" exactly when `toBoolean` holds |
| VarHandler.ToBooleanInt | src/Handler/VarHandler.php:271-274 | the result is 0 or 1, and 1 exactly when `toBoolean` holds |
| DBColumnModAction.NewAction | src/Component/DB/DBColumnModAction.php:34-77 | the type and chained flag are kept, a non-string operand is kept, and a string operand becomes the backticked sanitised name |
| DBColumnModAction.StoredValueShape | src/Component/DB/DBColumnModAction.php:47-53 | a stored value is a string exactly when the operand was; it is then backticked with only [A-Za-z0-9_] inside |
| DBColumnModAction.SanitisedOperandSame | src/Component/DB/DBColumnModAction.php:47-53 | an operand and its sanitised form are stored the same |
| DBColumnModAction.CodesAreOneToSix | src/Component/DB/DBColumnModAction.php:14-19 | the operation codes are 1 to 6 in declaration order |
| DBModel.LastIndex | src/Component/DB/DBModel.php:78-88 | the found position holds the name and no later field does; none means no field does |
| DBModel.FieldByNameSpec | src/Component/DB/DBModel.php:78-88 | a field is found exactly when the name is a schema name, and it is the last field with that name |
| DBModel.Missing | src/Component/DB/DBModel.php:112-116 | the missing list holds exactly the requested names that are not schema names |
| DBModel.MissingLast | src/Component/DB/DBModel.php:112-116 | each loop step appends the requested name when it is not a schema name |
| DBModel.HasFieldsSpec | src/Component/DB/DBModel.php:108-123 | `hasFields` succeeds exactly when every requested name is a schema name; a failure carries the message and exactly the missing names |
| DBModel.FieldEnumValuesLastAdded | src/Component/DB/DBModel.php:64-71 | the enum values of the last-added field are its length when that is a list, else [] |
| DBModel.FieldEnumValuesMissing | src/Component/DB/DBModel.php:64-71 | an unknown name fails (the source calls a method on null) |
| DBModel.FormatFieldName | src/Component/DB/DBModel.php:188-191 | the result is no longer than the name and holds only [A-Za-z0-9_] |
| DBModel.FormatFieldNameKeepsOrder | src/Component/DB/DBModel.php:188-191 | the result is the name's [A-Za-z0-9_] characters, all of them, in order |
| DBModel.FormatFieldNameFixpoint | src/Component/DB/DBModel.php:188-191 | a name is unchanged exactly when it holds only [A-Za-z0-9_] |
| DBModel.FormatFieldNameIdempotent | src/Component/DB/DBModel.php:188-191 | sanitising twice equals sanitising once |
| DBModel.FormatBooleanOfBool | src/Component/DB/DBModel.php:163-170 | the text of true formats to 1, the text of false to 0 |
| DBModel.FormatBooleanOtherWords | src/Component/DB/DBModel.php:167 | only '1' and 'on' count as true: "true" and "ON" give 0 |
| DBModel.FormattedBlankIsNull | src/Component/DB/DBModel.php:221-234 | a blank value on a nullable string field becomes null, and is dropped when nulls are removed |
| DBModel.FormattedDateIsNow | src/Component/DB/DBModel.php:224-225 | null on a non-nullable DATE or DATETIME field becomes the clock's datetime reading, whatever kind of value that reading is (unless it is itself null) |
| DBModel.FormattedYearIsCurrent | src/Component/DB/DBModel.php:227-228 | null on a non-nullable YEAR field becomes the clock's year reading, an int or a string alike (unless it is itself null) |
| DBModel.FormattedNullTakesDefault | src/Component/DB/DBModel.php:230-237 | null on a non-nullable field with a literal default becomes that default, converted to 0/1 on a BOOLEAN field |
| DBModel.FormattedBooleanIsInt | src/Component/DB/DBModel.php:236-237 | a PHP bool on a BOOLEAN field becomes 0 or 1 |
| DBModel.FormattedOtherUnchanged | src/Component/DB/DBModel.php:219-240 | any other non-null value is stored unchanged |
| DBModel.FormattedValueNulls | src/Component/DB/DBModel.php:233-234 | with nulls kept every present field is stored; with nulls removed no null is stored |
| DBModel.QuoteInjective | src/Component/DB/DBModel.php:240 | distinct names get distinct backticked keys |
| DBModel.QuoteAllSpec | src/Component/DB/DBModel.php:240 | a name is in a list exactly when its backticked key is among the list's keys, and distinct names keep distinct keys |
| DBModel.QuoteNotIn | src/Component/DB/DBModel.php:240 | a name not in the list does not have its key in the backticked list |
| DBModel.Kept | src/Component/DB/DBModel.php:215-240 | the names that reach the output are schema names present in the input |
| DBModel.Selected | src/Component/DB/DBModel.php:257-265 | the selected names are schema names present in the entity and, when a selection is given, in it |
| DBModel.SelectedMember | src/Component/DB/DBModel.php:257-265 | a name is selected exactly when it is a schema name, a key of the entity's array and, when a selection is given, one of its names |
| DBModel.FormatValuesKeys | src/Component/DB/DBModel.php:211-243 | the output keys are the backticked kept names in schema order, and they are unique |
| DBModel.KeptMember | src/Component/DB/DBModel.php:216-234 | a field is kept exactly when its name is in the input and its formatted value is not dropped |
| DBModel.FormatValuesLast | src/Component/DB/DBModel.php:215-240 | each loop step leaves the output alone or stores the field's formatted value under its key |
| DBModel.FormatValuesGet | src/Component/DB/DBModel.php:240 | a kept field's key holds its formatted value |
| DBModel.FormatValuesNoNull | src/Component/DB/DBModel.php:233-234 | with nulls removed, no output value is null |
| DBModel.KeptAllWhenNullsKept | src/Component/DB/DBModel.php:233-234 | with nulls kept, every schema field present in the input is output |
| DBModel.FormatFieldValuesSpec | src/Component/DB/DBModel.php:211-243 | the output keys are unique and are the backticked kept names in schema order; absent fields never appear; a kept field holds its formatted value; with nulls removed no value is null |
| DBModel.ProjectSpec | src/Component/DB/DBModel.php:251-268 | the keys are the selected schema names in schema order, unique, each with the entity's value copied unchanged |
| DBModel.SelectedAll | src/Component/DB/DBModel.php:257-259 | an entity holding every schema field selects all schema names |
| DBModel.ProjectThenFormat | src/Component/DB/DBModel.php:398-399 | a full entity projected and formatted with nulls kept gives exactly the backticked schema names |
| DBModel.StateFieldsSpec | src/Component/DB/DBModel.php:148-156 | the state fields are created_at, updated_at and removed_at (DATETIME) then enabled (BOOLEAN), with their defaults; adding them to a schema without those names keeps names unique |
| DBModel.Schema.constructor | src/Component/DB/DBModel.php:24-49 | a new schema holds its table name, no fields and the state-fields flag off, before `setFields` runs |
| DBModel.Schema.AddField | src/Component/DB/DBModel.php:134-141 | exactly one new descriptor is appended and returned; earlier fields and the flag are unchanged |
| DBModel.Schema.QualifyLast | src/Component/DB/DBModel.php:150-153 | the qualifier chain on a returned descriptor replaces the last field only |
| DBModel.Schema.AddStateFields | src/Component/DB/DBModel.php:143-156 | the four state fields are appended in order, and `hasStateFields()` is then true |
| DBModel.Schema.GetFieldByName | src/Component/DB/DBModel.php:78-88 | the loop returns the last field with the name, or null |
| DBModel.Schema.GetFieldNames | src/Component/DB/DBModel.php:90-99 | the loop returns the names in insertion order |
| DBModel.Schema.HasFields | src/Component/DB/DBModel.php:108-123 | the result is the one `HasFieldsSpec` characterises |
| DBModel.Schema.MissingFieldNames | src/Component/DB/DBModel.php:112-116 | the loop collects exactly the missing names, in request order |
| DBModel.Schema.GetFieldEnumValues | src/Component/DB/DBModel.php:64-71 | the length list of the named field, [] for a non-list length, an error for an unknown name |
| DBModel.Schema.FormatFieldValues | src/Component/DB/DBModel.php:211-243 | the loop computes the output that `FormatFieldValuesSpec` characterises |
| DBModel.Schema.FormatEach | src/Component/DB/DBModel.php:215-240 | the loop over the fields builds the formatted array step by step |
| DBModel.Schema.FormatOne | src/Component/DB/DBModel.php:219-240 | the substitutions in the code's order, with `continue` as none |
| DBModel.Schema.GetFieldValuesFromEntity | src/Component/DB/DBModel.php:251-268 | the loop computes the projection that `ProjectSpec` characterises |
| DBModel.SelectSoftDelete | src/Component/DB/DBModel.php:359-363 | without removed rows exactly one `removed_at IS NULL` filter follows the condition when the schema has removed_at; with them none |
| DBModel.SelectUniqueDefaults | src/Component/DB/DBModel.php:319-324 | grouped by the column, ordered by id ascending when no order is given, same filters as `doSelect` |
| DBModel.UpdatePlanSpec | src/Component/DB/DBModel.php:456-471 | the update data has exactly the backticked given keys that are schema fields of the entity, in schema order; each such key holds the field's formatted value (nulls kept); the filters are the condition's calls |
| DBModel.SelectedOfProject | src/Component/DB/DBModel.php:251-268 | selecting from a projection selects what the projection selected |
| DBModel.SelectedSameKeys | src/Component/DB/DBModel.php:257-259 | the selection depends only on which schema names are keys |
| DBModel.UpdateByIdSpec | src/Component/DB/DBModel.php:493-496 | the by-id update filters with one `where` on the id field |
| DBModel.DeleteByIdSpec | src/Component/DB/DBModel.php:534-537 | the by-id delete filters with one `where` on the id field and nothing else |
| DBModel.InsertDataSpec | src/Component/DB/DBModel.php:398-430 | an inserted row (line 430, nulls removed) holds no null and only backticked schema names; a bulk row (line 400, nulls kept) of a full entity holds exactly the backticked schema names |
| DBCondition.ConditionStringShape | src/Component/DB/DBCondition.php:353-382 | a code with a case gives the field then its suffix; any other code gives "" |
| DBCondition.ConditionStringTable | src/Component/DB/DBCondition.php:357-379 | each operator's fragment: bare field, "IS NOT ?" or "NOT", "<", ">", "<=", ">=" |
| DBCondition.BetweenRendersEmpty | src/Component/DB/DBCondition.php:353-382 | the between family, NOT_BETWEEN (which shares its codes, lines 17-20) included, renders as "" |
| DBCondition.SuffixInjective | src/Component/DB/DBCondition.php:357-379 | distinct rendered operators have distinct suffixes |
| DBCondition.ConditionStringDeterminesOperator | src/Component/DB/DBCondition.php:353-382 | a rendered fragment determines its operator, and for NOT whether the value was null |
| DBCondition.Calls | src/Component/DB/DBCondition.php:390-403 | one call per entry, in entry order |
| DBCondition.CallForSpec | src/Component/DB/DBCondition.php:392-403 | `whereOr` exactly for CHAIN_OR; the fragment is the rendered condition; a NOT with a non-null value binds a one-element list, anything else the value itself |
| DBCondition.ChainNullActsAsAnd | src/Component/DB/DBCondition.php:399-402 | CHAIN_NULL and CHAIN_AND give the same `where` call |
| DBCondition.CallsAppend | src/Component/DB/DBCondition.php:388-406 | the calls of two entry runs are the two call lists in order |
| DBCondition.Condition.constructor | src/Component/DB/DBCondition.php:37-42 | a new condition holds exactly the given entry |
| DBCondition.Condition.AddCondition | src/Component/DB/DBCondition.php:51-54 | exactly one entry is appended; earlier entries are unchanged |
| DBCondition.Condition.Lt | src/Component/DB/DBCondition.php:72-75 | one LT entry chained CHAIN_NULL |
| DBCondition.Condition.LtOrEq | src/Component/DB/DBCondition.php:85-88 | one LT_OR_EQ entry chained CHAIN_NULL |
| DBCondition.Condition.Gt | src/Component/DB/DBCondition.php:98-101 | one GT entry chained CHAIN_NULL |
| DBCondition.Condition.GtOrEq | src/Component/DB/DBCondition.php:111-114 | one GT_OR_EQ entry chained CHAIN_NULL |
| DBCondition.Condition.Is | src/Component/DB/DBCondition.php:124-127 | one IS entry chained CHAIN_NULL |
| DBCondition.Condition.Not | src/Component/DB/DBCondition.php:137-140 | one NOT entry chained CHAIN_NULL |
| DBCondition.Condition.Between | src/Component/DB/DBCondition.php:152-155 | one BETWEEN entry holding the pair [start, end] |
| DBCondition.Condition.BetweenInclude | src/Component/DB/DBCondition.php:167-170 | one BETWEEN_INCLUDE entry holding the pair [start, end] |
| DBCondition.Condition.NotBetween | src/Component/DB/DBCondition.php:182-185 | the same entry `between` makes, since the codes coincide |
| DBCondition.Condition.NotBetweenInclude | src/Component/DB/DBCondition.php:197-200 | the same entry `betweenInclude` makes |
| DBCondition.Condition.NotNull | src/Component/DB/DBCondition.php:204-207 | the same entry as `not(field, null)` |
| DBCondition.Condition.And | src/Component/DB/DBCondition.php:211-216 | appends one IS entry chained CHAIN_AND and returns the same object |
| DBCondition.Condition.Or | src/Component/DB/DBCondition.php:218-223 | appends one IS entry chained CHAIN_OR and returns the same object |
| DBCondition.Condition.AndNot | src/Component/DB/DBCondition.php:225-230 | appends one NOT entry chained CHAIN_AND |
| DBCondition.Condition.OrNot | src/Component/DB/DBCondition.php:232-237 | appends one NOT entry chained CHAIN_OR |
| DBCondition.Condition.AndBetween | src/Component/DB/DBCondition.php:239-244 | appends one BETWEEN pair entry chained CHAIN_AND |
| DBCondition.Condition.AndBetweenInclude | src/Component/DB/DBCondition.php:246-251 | appends one BETWEEN_INCLUDE pair entry chained CHAIN_AND |
| DBCondition.Condition.OrBetween | src/Component/DB/DBCondition.php:253-258 | appends one BETWEEN pair entry chained CHAIN_OR |
| DBCondition.Condition.OrBetweenInclude | src/Component/DB/DBCondition.php:260-265 | appends one BETWEEN_INCLUDE pair entry chained CHAIN_OR |
| DBCondition.Condition.AndNotBetween | src/Component/DB/DBCondition.php:267-272 | appends the entry `andBetween` would, the codes coinciding |
| DBCondition.Condition.AndNotBetweenInclude | src/Component/DB/DBCondition.php:274-279 | appends the entry `andBetweenInclude` would |
| DBCondition.Condition.OrNotBetween | src/Component/DB/DBCondition.php:281-286 | appends the entry `orBetween` would |
| DBCondition.Condition.OrNotBetweenInclude | src/Component/DB/DBCondition.php:288-293 | appends the entry `orBetweenInclude` would |
| DBCondition.Condition.OrLt | src/Component/DB/DBCondition.php:295-300 | appends one LT entry chained CHAIN_OR |
| DBCondition.Condition.OrLtOrEq | src/Component/DB/DBCondition.php:302-307 | appends one LT_OR_EQ entry chained CHAIN_OR |
| DBCondition.Condition.AndLt | src/Component/DB/DBCondition.php:309-314 | appends one LT entry chained CHAIN_AND |
| DBCondition.Condition.AndLtOrEq | src/Component/DB/DBCondition.php:316-321 | appends one LT_OR_EQ entry chained CHAIN_AND |
| DBCondition.Condition.OrGt | src/Component/DB/DBCondition.php:323-328 | appends one GT entry chained CHAIN_OR |
| DBCondition.Condition.OrGtOrEq | src/Component/DB/DBCondition.php:330-335 | appends one GT_OR_EQ entry chained CHAIN_OR |
| DBCondition.Condition.AndGt | src/Component/DB/DBCondition.php:337-342 | appends one GT entry chained CHAIN_AND |
| DBCondition.Condition.AndGtOrEq | src/Component/DB/DBCondition.php:344-349 | appends one GT_OR_EQ entry chained CHAIN_AND |
| DBCondition.Condition.BuildForSelectStatement | src/Component/DB/DBCondition.php:388-406 | the statement's calls are followed by one call per entry in entry order, as `CallForSpec` characterises |
| DBCondition.IsThenOrExample | src/Component/DB/DBCondition.php:388-406 | `is(f, v)->or(g, w)` builds `where(f, v)` then `whereOr(g, w)` |
| DBGenerator.EntityTypeSpec | src/Component/CP/DB/DBGenerator.php:66-224 | the integer and float families are disjoint and exclude BOOLEAN; the property type is "integer", "float", "boolean" or "string" exactly for its family |
| DBGenerator.PropertyType | src/Component/CP/DB/DBGenerator.php:215-224 | the code's overwrite sequence gives the family's property type |
| DBGenerator.DecimalLengthExample | src/Component/CP/DB/DBGenerator.php:122-127 | a DECIMAL length "10,2" is written `[10, 2]` |
| DBGenerator.EnumLengthExample | src/Component/CP/DB/DBGenerator.php:122-127 | an ENUM length "S,M" is written `['S', 'M']` |
| DBGenerator.MissingLengthExamples | src/Component/CP/DB/DBGenerator.php:122-127 | a missing ENUM length becomes `['']`; a missing INT length is left out |
| DBGenerator.LengthArgShape | src/Component/CP/DB/DBGenerator.php:122-127 | for DECIMAL the length is `[` + the comma-separated parts of its text joined by `, ` + `]`, for ENUM the same with each part single-quoted; otherwise it is left out exactly when it is false |
| DBGenerator.IndexPart | src/Component/CP/DB/DBGenerator.php:132-135 | at most one index qualifier |
| DBGenerator.AttrPart | src/Component/CP/DB/DBGenerator.php:137-144 | at most one attribute qualifier |
| DBGenerator.AutoPart | src/Component/CP/DB/DBGenerator.php:146-147 | `->autoIncrement()` or nothing |
| DBGenerator.DefaultPart | src/Component/CP/DB/DBGenerator.php:149-158 | at most one default qualifier, and none exactly for DEFAULT_NONE |
| DBGenerator.NullPart | src/Component/CP/DB/DBGenerator.php:160-161 | `->null()` or nothing |
| DBGenerator.CountIfAppend | src/Component/CP/DB/DBGenerator.php:132-161 | counting over a chain counts over its parts |
| DBGenerator.QualifierCounts | src/Component/CP/DB/DBGenerator.php:132-158 | a field line carries at most one index, one attribute and one default qualifier |
| DBGenerator.QualifierPresence | src/Component/CP/DB/DBGenerator.php:132-161 | primary and unique follow the index entry; each attribute qualifier exactly for its attribute; auto-increment exactly for `true`; `->nullByDefault()` exactly for DEFAULT_NULL; `->currentTimestampByDefault()` exactly for DEFAULT_CURRENT_TIMESTAMP; some default qualifier exactly when the default is not DEFAULT_NONE; `->null()` exactly for a truthy null flag without DEFAULT_NULL |
| DBGenerator.DefaultRendering | src/Component/CP/DB/DBGenerator.php:153-158 | a literal default is written `->default(v)` on integer and float types and `->default('v')` otherwise |
| DBGenerator.BlockAppend | src/Component/CP/DB/DBGenerator.php:106-164 | the lines of two runs of fields are the two blocks in order |
| DBGenerator.BlockAt | src/Component/CP/DB/DBGenerator.php:106-164 | one line per field in field order: the block is the lines before field k, field k's line, then the lines after it |
| DBGenerator.LinesEndWithCrlf | src/Component/CP/DB/DBGenerator.php:118-163 | every const line and field line ends with `;` and CRLF |
| DBGenerator.ModelBlocks | src/Component/CP/DB/DBGenerator.php:106-164 | the loop builds the const block and the field block, one line per field in order |
| DBGenerator.CreateModel | src/Component/CP/DB/DBGenerator.php:89-194 | the guard, then the schema class around the two blocks |
| DBGenerator.EntityProperties | src/Component/CP/DB/DBGenerator.php:211-227 | the loop builds one property declaration per field in order |
| DBGenerator.CreateEntity | src/Component/CP/DB/DBGenerator.php:196-248 | the guard, then the entity class around the properties |
| DBGenerator.EntityFileSkipped | src/Component/CP/DB/DBGenerator.php:202-203 | the entity is skipped exactly when `create` is false |
| DBGenerator.EntityFileRefused | src/Component/CP/DB/DBGenerator.php:205-206 | the entity is refused, with the message naming the class, exactly for an existing file whose override is false |
| DBGenerator.EntityFileWritten | src/Component/CP/DB/DBGenerator.php:208-243 | otherwise the entity is written, with the trait lines of the flag and the property block |
| DBGenerator.ModelFileSkipped | src/Component/CP/DB/DBGenerator.php:95-96 | the schema is skipped exactly when `create` is false |
| DBGenerator.ModelFileRefused | src/Component/CP/DB/DBGenerator.php:98-99 | the schema is refused, with the message naming the class, exactly for an existing file whose override is false |
| DBGenerator.ModelFileWritten | src/Component/CP/DB/DBGenerator.php:101-189 | otherwise the schema is written, with the const block, the field block and the state-fields call |
| DBGenerator.RunSpec | src/Component/CP/DB/DBGenerator.php:20-59 | `run` fails exactly when the table or the field list is missing; otherwise each file is skipped, refused or written by its own guard |
| DBGenerator.StateFieldsFlagDiffers | src/Component/CP/DB/DBGenerator.php:103-209 | a flag of 1 adds the schema's `addStateFields()` call (line 103, truthiness) but not the entity's trait (line 208, `=== true`) |

## Left out

- Statement execution: FluentPDO, `Kernel::getDb()`, exceptions, `doMigrate`, `doTruncate`, `doSelectLimit` and the fetch loop of `doSelect`. Only the statement each query method builds is modelled.
- `formatDate` and `formatNumber`: they rely on `DateTime` and on `floatval` of a regex-stripped string.
- The clock (`DBHandler::datetime()` and `year()`): given as the parameters `now` and `year`.
- `DBModelField`, `DBConditionEntry`, `DBOrder` and `AbstractEntity` are not part of this model. The descriptor is a value record; `formatField`/`formatValue`, `typeIsString` and `toArray` are given as functions or inputs.
- DBModel.Missing: a requested name counts as present only when it equals a field name exactly. PHP 7's loose `array_search` at line 115 of src/Component/DB/DBModel.php also accepts a numerically equal numeric string (`"1e1"` for a field `10`); that is not modelled.
- DBModel.HasFieldsSpec: success and the missing list use exact name equality, so the loose `array_search` match of numeric strings is not modelled. The same holds for DBModel.Schema.HasFields and DBModel.Schema.MissingFieldNames.
- DBModel.Selected: `onlySelectedFields` is a list of strings matched exactly. PHP 7's loose `array_search` at line 261 also matches numeric strings, and an integer key such as `0` matches every non-numeric field name. Neither case is modelled.
- DBModel.ProjectSpec: it characterises the exact-match selection of `DBModel.Selected`, so the loose matches of line 261 are not modelled. The same holds for DBModel.Schema.GetFieldValuesFromEntity.
- DBModel.UpdatePlanSpec: the given keys select fields by exact match. `doUpdate` passes `array_keys($fields)` (line 464 of src/Component/DB/DBModel.php), and under PHP 7 an integer key there (from a list such as `['x']`) selects every non-numeric field name. That is not modelled.
- StringHandler.HasIff: the needle is a string. PHP 7's `strpos` reads an integer needle as a character code (so `has(5, "a5")` is false), and that is not modelled.
- DBModel.Schema.AddField: the field type is a string, so the `$type = false` default of `addField` is not modelled; it matters only to the `typeIsString` oracle.
- DBModel.Schema.QualifyLast: the qualifier methods act on the descriptor object the schema also holds. The model replaces the last field by its qualified value instead of sharing the object, so aliasing is not modelled.
- `lastCondition` of `DBCondition`: a private accessor that none of the modelled operations uses.
- `DBGenerator`: `json_decode`, `file_exists`, `file_put_contents` and `Kernel::getProjectPath`. Whether a file exists is an input, and the generated class is returned as the parts of its template; `Text` renders them. The service, seed and controller entries `run` reads are never used by it, so they are left out.
- DBGenerator.FieldSpec: a list as a field length or default is not modelled; both are scalars (`Scalar`). `fieldType` is a string, so PHP's loose `in_array` on a non-string type is not modelled.
- `StringHandler`: `dump`, `random`, `trim` with Unicode spaces, the regex helpers, `camelCaseToUnderscore`, `transliterate` and the `parse_str` tail of `urlQueryParamList`.
- StringHandler.RemoveFirstChars: the `a..z` range syntax of PHP's character lists is not modelled; each character of the list stands for itself. The same holds for StringHandler.RemoveLastChars.
- StringHandler.UnderscoreToCamelCaseShape: case mapping is ASCII only (no `mb_strtolower` beyond ASCII). On an empty result PHP's `$str[0]` assignment is only a warning, and the model returns "".
- `VarHandler`: `isAlpha`, `isAlphaNumeric`, `isNumeric`, non-strict `isInt` (Unicode regexes), and `toString` of arrays and objects (`json_encode`). A float is known only by its text.
- `ValidatorHandler`, `Kernel`, `ResourceControllerActions` and `DBConfigurator` are not part of this model.
