/** The PHP values the handlers and the ORM pass around, and the few PHP 7
    builtins (trim, strval, strtoupper, explode, implode, the (bool) cast and
    string-keyed array assignment) whose behaviour the core depends on. */
module PhpValues {

  /** A PHP value. A float is known only by the text `strval` gives for it;
      an array value is a list (the associative arrays the ORM builds are
      `Dict`s below). */
  datatype PhpValue =
    | Null
    | Bool(b: bool)
    | Int(i: int)
    | Float(repr: string)
    | Str(s: string)
    | Arr(items: seq<PhpValue>)
    | Obj(id: nat)

  /** True for the values `strval` accepts: everything but arrays and objects. */
  predicate IsScalarOrNull(v: PhpValue) {
    !v.Arr? && !v.Obj?
  }

  // ---------------------------------------------------------------- trim

  /** The characters PHP's `trim` strips when no list is given. */
  const TrimChars: set<char> := {' ', '\t', '\n', '\r', '\0', 11 as char}

  /** `ltrim($s, $cs)`: drop the longest prefix made of characters of `cs`. */
  function LTrim(s: string, cs: set<char>): (r: string)
    ensures |r| <= |s| && r == s[|s| - |r|..]
    ensures forall i :: 0 <= i < |s| - |r| ==> s[i] in cs
    ensures r != [] ==> r[0] !in cs
    decreases |s|
  {
    if s != [] && s[0] in cs then LTrim(s[1..], cs) else s
  }

  /** `rtrim($s, $cs)`: drop the longest suffix made of characters of `cs`. */
  function RTrim(s: string, cs: set<char>): (r: string)
    ensures |r| <= |s| && r == s[..|r|]
    ensures forall i :: |r| <= i < |s| ==> s[i] in cs
    ensures r != [] ==> r[|r| - 1] !in cs
    decreases |s|
  {
    if s != [] && s[|s| - 1] in cs then RTrim(s[..|s| - 1], cs) else s
  }

  /** `trim($s)` with the default character list. */
  function Trim(s: string): string {
    RTrim(LTrim(s, TrimChars), TrimChars)
  }

  predicate AllIn(s: string, cs: set<char>) {
    forall i :: 0 <= i < |s| ==> s[i] in cs
  }

  /** A string trims to the empty string exactly when it is made of blanks. */
  lemma TrimEmptyIff(s: string)
    ensures Trim(s) == [] <==> AllIn(s, TrimChars)
  {
    var l := LTrim(s, TrimChars);
    assert l != [] ==> l[0] == s[|s| - |l|];
    assert Trim(s) == [] ==> AllIn(l, TrimChars);
  }

  /** A text that neither starts nor ends with a blank is its own trim. */
  lemma TrimUnpadded(s: string)
    requires s != [] && s[0] !in TrimChars && s[|s| - 1] !in TrimChars
    ensures Trim(s) == s
  {
    assert LTrim(s, TrimChars) == s;
  }

  // -------------------------------------------------------------- strval

  predicate IsDigit(c: char) {
    '0' <= c <= '9'
  }

  function DigitChar(d: nat): (c: char)
    requires d < 10
    ensures IsDigit(c) && (c as int) - ('0' as int) == d
  {
    (('0' as int) + d) as char
  }

  /** Decimal digits of `n`, most significant first, no leading zero. */
  function NatToString(n: nat): (r: string)
    ensures |r| >= 1 && AllDigits(r)
    ensures |r| > 1 ==> r[0] != '0'
    decreases n
  {
    if n < 10 then [DigitChar(n)] else NatToString(n / 10) + [DigitChar(n % 10)]
  }

  predicate AllDigits(s: string) {
    forall i :: 0 <= i < |s| ==> IsDigit(s[i])
  }

  /** The value of a string of decimal digits. */
  function ParseNat(s: string): nat
    requires AllDigits(s)
    decreases |s|
  {
    if s == [] then 0 else ParseNat(s[..|s| - 1]) * 10 + ((s[|s| - 1] as int) - ('0' as int))
  }

  lemma {:induction false} ParseNatToString(n: nat)
    ensures ParseNat(NatToString(n)) == n
    decreases n
  {
    if n >= 10 {
      ParseNatToString(n / 10);
      var r := NatToString(n);
      assert r[..|r| - 1] == NatToString(n / 10);
    }
  }

  /** `strval` of an integer: an optional minus sign and the decimal digits. */
  function IntToString(i: int): (r: string)
    ensures IsIntText(r)
  {
    if i < 0 then "-" + NatToString(-i) else NatToString(i)
  }

  predicate IsIntText(s: string) {
    if s != [] && s[0] == '-' then |s| > 1 && AllDigits(s[1..]) else s != [] && AllDigits(s)
  }

  /** The integer a decimal text denotes (the inverse of `IntToString`). */
  function ParseInt(s: string): int
    requires IsIntText(s)
  {
    if s[0] == '-' then 0 - ParseNat(s[1..]) else ParseNat(s)
  }

  lemma IntToStringRoundTrip(i: int)
    ensures ParseInt(IntToString(i)) == i
  {
    if i < 0 {
      ParseNatToString(-i);
      assert IntToString(i)[1..] == NatToString(-i);
    } else {
      ParseNatToString(i);
    }
  }

  /** `strval($v)` for the values it accepts without json_encode. */
  function Strval(v: PhpValue): string
    requires IsScalarOrNull(v)
  {
    match v
    case Null => ""
    case Bool(b) => if b then "1" else ""
    case Int(i) => IntToString(i)
    case Float(repr) => repr
    case Str(s) => s
  }

  /** `trim($v) === ''`. `trim` rejects arrays and objects (it returns
      null), so those never count as blank. */
  predicate TrimsToEmpty(v: PhpValue) {
    match v
    case Arr(_) => false
    case Obj(_) => false
    case _ => Trim(Strval(v)) == []
  }

  lemma DigitNotBlank(c: char)
    requires IsDigit(c)
    ensures c !in TrimChars
  {
  }

  /** The text of an integer never trims to the empty string. */
  lemma IntTextNotBlank(i: int)
    ensures Trim(IntToString(i)) != []
  {
    var t := IntToString(i);
    var last := |t| - 1;
    if t[0] == '-' {
      assert t[last] == t[1..][last - 1];
    }
    DigitNotBlank(t[last]);
    TrimEmptyIff(t);
    assert !AllIn(t, TrimChars);
  }

  lemma BoolTrimsToEmpty(b: bool)
    ensures TrimsToEmpty(Bool(b)) <==> !b
  {
    if b {
      assert Strval(Bool(b)) == "1";
      DigitNotBlank('1');
      TrimUnpadded("1");
    } else {
      assert Strval(Bool(b)) == "";
    }
  }

  /** Blank values: null, false and strings (or float texts) made of blanks. */
  lemma TrimsToEmptyIff(v: PhpValue)
    ensures TrimsToEmpty(v) <==>
              v == Null || v == Bool(false)
              || (v.Str? && AllIn(v.s, TrimChars))
              || (v.Float? && AllIn(v.repr, TrimChars))
  {
    match v
    case Str(s) =>
      assert Strval(v) == s;
      TrimEmptyIff(s);
    case Float(r) =>
      assert Strval(v) == r;
      TrimEmptyIff(r);
    case Int(i) =>
      assert Strval(v) == IntToString(i);
      IntTextNotBlank(i);
    case Bool(b) => BoolTrimsToEmpty(b);
    case Null =>
      assert Strval(v) == [];
    case Arr(_) =>
    case Obj(_) =>
  }

  /** PHP's `(bool)` cast, used where the source tests a value with `if ($v)`. */
  predicate Truthy(v: PhpValue) {
    match v
    case Null => false
    case Bool(b) => b
    case Int(i) => i != 0
    case Float(repr) => repr != "0" && repr != "-0"
    case Str(s) => s != "" && s != "0"
    case Arr(items) => items != []
    case Obj(_) => true
  }

  // --------------------------------------------------------- ASCII case

  function UpperChar(c: char): char {
    if 'a' <= c <= 'z' then ((c as int) - 32) as char else c
  }

  function LowerChar(c: char): char {
    if 'A' <= c <= 'Z' then ((c as int) + 32) as char else c
  }

  /** `strtoupper`, byte-wise on ASCII letters. */
  function ToUpper(s: string): (r: string)
    ensures |r| == |s| && forall i :: 0 <= i < |s| ==> r[i] == UpperChar(s[i])
  {
    seq(|s|, i requires 0 <= i < |s| => UpperChar(s[i]))
  }

  /** `strtoupper` leaves no lower-case ASCII letter, changes each character
      only in its case, and is idempotent. */
  lemma ToUpperSpec(s: string)
    ensures |ToUpper(s)| == |s|
    ensures forall i :: 0 <= i < |s| ==> !('a' <= ToUpper(s)[i] <= 'z')
    ensures forall i :: 0 <= i < |s| ==> LowerChar(ToUpper(s)[i]) == LowerChar(s[i])
    ensures forall i :: 0 <= i < |s| && !('a' <= s[i] <= 'z') ==> ToUpper(s)[i] == s[i]
    ensures ToUpper(ToUpper(s)) == ToUpper(s)
  {
  }

  // ------------------------------------------------------ explode / implode

  /** `explode($sep, $s)` for a one-character separator. */
  function Explode(sep: char, s: string): (parts: seq<string>)
    ensures |parts| >= 1
    ensures forall i :: 0 <= i < |parts| ==> sep !in parts[i]
    decreases |s|
  {
    if s == [] then [[]]
    else
      var rest := Explode(sep, s[1..]);
      if s[0] == sep then [[]] + rest
      else [[s[0]] + rest[0]] + rest[1..]
  }

  /** `implode($glue, $parts)`. */
  function Join(glue: string, parts: seq<string>): string
    decreases |parts|
  {
    if parts == [] then []
    else if |parts| == 1 then parts[0]
    else parts[0] + glue + Join(glue, parts[1..])
  }

  /** Exploding and joining back with the same separator gives the input. */
  lemma {:induction false} JoinExplode(sep: char, s: string)
    ensures Join([sep], Explode(sep, s)) == s
    decreases |s|
  {
    if s != [] {
      JoinExplode(sep, s[1..]);
      var rest := Explode(sep, s[1..]);
      if s[0] == sep {
        assert ([[]] + rest)[1..] == rest;
      } else if |rest| > 1 {
        var parts := [[s[0]] + rest[0]] + rest[1..];
        assert parts[1..] == rest[1..];
        assert Join([sep], rest) == rest[0] + [sep] + Join([sep], rest[1..]);
      }
    }
  }

  /** Number of occurrences of `c` in `s`. */
  function Count(s: string, c: char): nat
    decreases |s|
  {
    if s == [] then 0 else (if s[0] == c then 1 else 0) + Count(s[1..], c)
  }

  /** `explode` gives one more part than there are separators. */
  lemma {:induction false} ExplodeLength(sep: char, s: string)
    ensures |Explode(sep, s)| == Count(s, sep) + 1
    decreases |s|
  {
    if s != [] {
      ExplodeLength(sep, s[1..]);
    }
  }

  // ------------------------------------------ string-keyed PHP arrays

  /** An ordered PHP array with string keys: its entries in iteration order. */
  type Dict = seq<(string, PhpValue)>

  function Keys(d: Dict): (ks: seq<string>)
    ensures |ks| == |d| && forall i :: 0 <= i < |d| ==> ks[i] == d[i].0
  {
    seq(|d|, i requires 0 <= i < |d| => d[i].0)
  }

  /** `array_key_exists($k, $d)`. */
  predicate HasKey(d: Dict, k: string) {
    k in Keys(d)
  }

  predicate UniqueKeys(d: Dict) {
    forall i, j :: 0 <= i < j < |d| ==> d[i].0 != d[j].0
  }

  /** Position of the entry with key `k`. */
  function IndexOf(d: Dict, k: string): (i: nat)
    requires HasKey(d, k)
    ensures i < |d| && d[i].0 == k
    ensures forall j :: 0 <= j < i ==> d[j].0 != k
    decreases |d|
  {
    if d[0].0 == k then 0
    else
      assert Keys(d[1..]) == Keys(d)[1..];
      1 + IndexOf(d[1..], k)
  }

  /** `$d[$k]` for a key that is present. */
  function Get(d: Dict, k: string): PhpValue
    requires HasKey(d, k)
  {
    d[IndexOf(d, k)].1
  }

  /** With unique keys, the entry at position `i` is the one `Get` finds. */
  lemma GetAt(d: Dict, i: nat)
    requires UniqueKeys(d) && i < |d|
    ensures HasKey(d, d[i].0) && IndexOf(d, d[i].0) == i && Get(d, d[i].0) == d[i].1
  {
    assert Keys(d)[i] == d[i].0;
  }

  /** `$d[$k] = $v`: a present key keeps its position and gets the new value,
      a new key is appended. */
  function Put(d: Dict, k: string, v: PhpValue): Dict {
    if HasKey(d, k) then d[IndexOf(d, k) := (k, v)] else d + [(k, v)]
  }

  /** What `$d[$k] = $v` does to keys and values, and that it keeps keys unique. */
  lemma PutSpec(d: Dict, k: string, v: PhpValue)
    ensures Keys(Put(d, k, v)) == if HasKey(d, k) then Keys(d) else Keys(d) + [k]
    ensures HasKey(Put(d, k, v), k) && Get(Put(d, k, v), k) == v
    ensures forall k' :: k' != k && HasKey(d, k') ==>
              HasKey(Put(d, k, v), k') && Get(Put(d, k, v), k') == Get(d, k')
    ensures UniqueKeys(d) ==> UniqueKeys(Put(d, k, v))
  {
    var r := Put(d, k, v);
    assert Keys(r) == if HasKey(d, k) then Keys(d) else Keys(d) + [k];
    var n := IndexOf(r, k);
    if HasKey(d, k) {
      var m := IndexOf(d, k);
      assert r[m].0 == k;
      assert n == m;
    } else {
      assert n == |d|;
    }
    forall k' | k' != k && HasKey(d, k')
      ensures HasKey(r, k') && Get(r, k') == Get(d, k')
    {
      var m := IndexOf(d, k');
      assert r[m] == d[m];
      assert IndexOf(r, k') == m;
    }
  }
}
