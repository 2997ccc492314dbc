/** String utilities (src/Handler/StringHandler.php), as the PHP 7 builtins
    they wrap behave. */
module StringHandler {
  import opened Wrappers
  import opened PhpValues

  // ------------------------------------------------------------- replace

  /** `needle` occurs in `s` at position `i`. */
  predicate OccursAt(needle: string, s: string, i: int) {
    0 <= i && i + |needle| <= |s| && s[i..i + |needle|] == needle
  }

  /** `str_replace($needle, $rep, $s)` for one needle: occurrences are found
      left to right and do not overlap; an empty needle changes nothing. */
  function ReplaceAll(s: string, needle: string, rep: string): string
    decreases |s|
  {
    if needle == [] || |s| < |needle| then s
    else if s[..|needle|] == needle then rep + ReplaceAll(s[|needle|..], needle, rep)
    else [s[0]] + ReplaceAll(s[1..], needle, rep)
  }

  /** Replacing a needle by itself changes nothing. */
  lemma {:induction false} ReplaceAllBySelf(s: string, needle: string)
    ensures ReplaceAll(s, needle, needle) == s
    decreases |s|
  {
    if needle != [] && |s| >= |needle| {
      if s[..|needle|] == needle {
        ReplaceAllBySelf(s[|needle|..], needle);
        assert s == s[..|needle|] + s[|needle|..];
      } else {
        ReplaceAllBySelf(s[1..], needle);
        assert s == [s[0]] + s[1..];
      }
    }
  }

  /** A needle that does not occur leaves the string unchanged. */
  lemma {:induction false} ReplaceAllAbsent(s: string, needle: string, rep: string)
    requires forall i :: !OccursAt(needle, s, i)
    ensures ReplaceAll(s, needle, rep) == s
    decreases |s|
  {
    if needle != [] && |s| >= |needle| {
      assert !OccursAt(needle, s, 0);
      forall i ensures !OccursAt(needle, s[1..], i) {
        if 0 <= i && i + |needle| <= |s| - 1 {
          var t := s[1..];
          assert t[i..i + |needle|] == s[i + 1..i + 1 + |needle|];
          assert !OccursAt(needle, s, i + 1);
        }
      }
      ReplaceAllAbsent(s[1..], needle, rep);
      assert s == [s[0]] + s[1..];
    }
  }

  /** The `$search` and `$replaceTo` arguments: a string or a list of strings. */
  datatype Needles = One(text: string) | Many(items: seq<string>)

  /** The replacement for the `i`-th needle: a single string serves every
      needle, a list is paired by position and runs out into "". */
  function ReplacementAt(replaceTo: Needles, i: nat): string {
    match replaceTo
    case One(r) => r
    case Many(rs) => if i < |rs| then rs[i] else ""
  }

  /** The needles of a list, applied one after another from position `i`. */
  function ReplaceEach(s: string, needles: seq<string>, replaceTo: Needles, i: nat): string
    decreases |needles| - i
  {
    if i >= |needles| then s
    else ReplaceEach(ReplaceAll(s, needles[i], ReplacementAt(replaceTo, i)), needles, replaceTo, i + 1)
  }

  /** `replace($str, $search, $replaceTo)`, that is `str_replace`. With a single
      needle and a list of replacements PHP uses the text "Array". */
  function Replace(str: string, search: Needles, replaceTo: Needles): string {
    match search
    case One(n) => ReplaceAll(str, n, if replaceTo.One? then replaceTo.text else "Array")
    case Many(ns) => ReplaceEach(str, ns, replaceTo, 0)
  }

  /** Replacing a one-character needle, one character at a time: the
      character itself is replaced when it is the needle, kept otherwise. */
  lemma ReplaceCharStep(s: string, c: char, rep: string)
    requires s != []
    ensures ReplaceAll(s, [c], rep) == (if s[0] == c then rep else [s[0]]) + ReplaceAll(s[1..], [c], rep)
  {
    assert s[..1] == [s[0]];
  }

  /** `replace("A B", "B", "123")` of the doc comment. */
  lemma ReplaceDocExampleOne()
    ensures Replace("A B", One("B"), One("123")) == "A 123"
  {
    ReplaceCharStep("A B", 'B', "123");
    assert "A B"[1..] == " B";
    ReplaceCharStep(" B", 'B', "123");
    assert " B"[1..] == "B";
    ReplaceCharStep("B", 'B', "123");
    assert "B"[1..] == "";
    assert ReplaceAll(" B", "B", "123") == " 123";
  }

  /** Replacing "A" in "A B C". */
  lemma ReplaceAInABC(rep: string)
    ensures ReplaceAll("A B C", "A", rep) == rep + " B C"
  {
    var t := " B C";
    ReplaceCharStep("A B C", 'A', rep);
    assert "A B C"[1..] == t;
    ReplaceCharStep(t, 'A', rep);
    assert t[1..] == "B C";
    ReplaceCharStep("B C", 'A', rep);
    assert "B C"[1..] == " C";
    ReplaceCharStep(" C", 'A', rep);
    assert " C"[1..] == "C";
    ReplaceCharStep("C", 'A', rep);
    assert "C"[1..] == "";
    assert ReplaceAll(t, "A", rep) == t;
  }

  /** Replacing "B" in `p + " B C"` for a prefix `p` free of "B". */
  lemma {:induction false} ReplaceBAfter(p: string, rep: string)
    requires 'B' !in p
    ensures ReplaceAll(p + " B C", "B", rep) == p + " " + rep + " C"
    decreases |p|
  {
    if p == [] {
      assert p + " B C" == " B C";
      ReplaceCharStep(" B C", 'B', rep);
      assert " B C"[1..] == "B C";
      ReplaceCharStep("B C", 'B', rep);
      assert "B C"[1..] == " C";
      ReplaceCharStep(" C", 'B', rep);
      assert " C"[1..] == "C";
      ReplaceCharStep("C", 'B', rep);
      assert "C"[1..] == "";
      assert ReplaceAll(" C", "B", rep) == " C";
    } else {
      ReplaceCharStep(p + " B C", 'B', rep);
      assert (p + " B C")[1..] == p[1..] + " B C";
      ReplaceBAfter(p[1..], rep);
      assert p == [p[0]] + p[1..];
    }
  }

  /** `replace("A B C", ["A", "B"], "X")` of the doc comment. */
  lemma ReplaceDocExampleTwo()
    ensures Replace("A B C", Many(["A", "B"]), One("X")) == "X X C"
  {
    ReplaceAInABC("X");
    ReplaceBAfter("X", "X");
    assert "X" + " B C" == "X B C";
    assert "X" + " " + "X" + " C" == "X X C";
  }

  /** `replace("A B C", ["A", "B"], ["A1", "B2"])` of the doc comment. */
  lemma ReplaceDocExampleThree()
    ensures Replace("A B C", Many(["A", "B"]), Many(["A1", "B2"])) == "A1 B2 C"
  {
    ReplaceAInABC("A1");
    ReplaceBAfter("A1", "B2");
    assert "A1" + " B C" == "A1 B C";
    assert "A1" + " " + "B2" + " C" == "A1 B2 C";
  }

  // -------------------------------------------------------------- substr

  /** `substr($s, $start, $length)` as PHP 7 computes it; `None` is PHP's
      `false` (a start past the end, or a negative length reaching before
      the start). */
  function Substr(s: string, start: int, length: Option<int>): (r: Option<string>)
    ensures r.Some? ==> exists i :: OccursAt(r.value, s, i)
  {
    var n := |s|;
    if length.Some? && length.value < 0 && -length.value > n then None
    else
      var l0 := if length.None? then n else if length.value > n then n else length.value;
      if start > n then None
      else
        var f0 := if start < 0 && -start > n then 0 else start;
        if l0 < 0 && l0 + n - f0 < 0 then None
        else
          var f1 := if f0 < 0 then n + f0 else f0;
          var l1 := if l0 < 0 then (if (n - f1) + l0 < 0 then 0 else (n - f1) + l0) else l0;
          var l2 := if l1 > n - f1 then n - f1 else l1;
          var piece := s[f1..f1 + l2];
          assert OccursAt(piece, s, f1);
          Some(piece)
  }

  /** The doc comment's examples; the last call gives "a", not the "" the
      comment shows, because PHP clamps a start before the beginning to 0. */
  lemma SubstrDocExamples()
    ensures Substr("abcdef", -1, None) == Some("f")
    ensures Substr("abcdef", -2, None) == Some("ef")
    ensures Substr("abcdef", -3, Some(1)) == Some("d")
    ensures Substr("abcdef", -10, Some(1)) == Some("a")
  {
    assert "abcdef"[5..6] == "f";
    assert "abcdef"[4..6] == "ef";
    assert "abcdef"[3..4] == "d";
    assert "abcdef"[0..1] == "a";
  }

  /** A negative start `-k` with no length gives the last `k` characters. */
  lemma SubstrNegativeStart(s: string, k: nat)
    requires 1 <= k <= |s|
    ensures Substr(s, -(k as int), None) == Some(s[|s| - k..])
  {
    assert s[|s| - k..|s| - k + k] == s[|s| - k..];
  }

  /** The first `k` characters and the rest put back together give `s`. */
  lemma SubstrSplit(s: string, k: nat)
    requires k <= |s|
    ensures Substr(s, 0, Some(k)).Some? && Substr(s, k, None).Some?
    ensures Substr(s, 0, Some(k)).value + Substr(s, k, None).value == s
  {
    assert Substr(s, 0, Some(k)) == Some(s[0..0 + k]);
    assert Substr(s, k, None) == Some(s[k..k + (|s| - k)]);
    assert s[0..k] + s[k..|s|] == s;
  }

  /** A start past the end is an error, a start at the end gives "". */
  lemma SubstrPastEnd(s: string, start: int, length: Option<int>)
    requires start >= |s| && (length.None? || length.value >= 0)
    ensures Substr(s, start, length) == if start > |s| then None else Some("")
  {
  }

  // -------------------------------------------------------------- repeat

  /** `n` copies of `s` run together. */
  function Copies(s: string, n: nat): string
    decreases n
  {
    if n == 0 then [] else s + Copies(s, n - 1)
  }

  /** `repeat($s, $n)`, that is PHP 7's `str_repeat`: `n` copies of `s`, and
      for a negative count a warning and NULL (`None`). */
  function Repeat(s: string, n: int): (r: Option<string>)
    ensures r.None? <==> n < 0
    ensures r.Some? ==> |r.value| == |s| * n
  {
    if n < 0 then None else Some(CopiesLength(s, n); Copies(s, n))
  }

  lemma {:induction false} CopiesLength(s: string, n: nat)
    ensures |Copies(s, n)| == |s| * n
    decreases n
  {
    if n > 0 {
      CopiesLength(s, n - 1);
      assert |s| * n == |s| + |s| * (n - 1);
    }
  }

  /** Block `j` of the repetition is `s`: character `k` of it sits at
      `|s| * j + k`. */
  lemma {:induction false} RepeatAt(s: string, n: int, j: nat, k: nat)
    requires j < n && k < |s|
    ensures Repeat(s, n).Some? && |s| * j + k < |Repeat(s, n).value|
    ensures Repeat(s, n).value[|s| * j + k] == s[k]
    decreases n
  {
    var m := |s|;
    assert m * n == m + m * (n - 1);
    assert Repeat(s, n).value == s + Repeat(s, n - 1).value;
    if j == 0 {
      assert m * j == 0;
    } else {
      assert m * j == m + m * (j - 1);
      RepeatAt(s, n - 1, j - 1, k);
    }
  }

  // ----------------------------------------------------------------- has

  /** `strpos($haystack, $needle)` from position `k`. An empty needle is an
      error in PHP 7 (`false`). */
  function StrposFrom(haystack: string, needle: string, k: nat): (r: Option<nat>)
    ensures r.Some? ==> needle != [] && k <= r.value && OccursAt(needle, haystack, r.value)
    ensures r.Some? ==> forall j :: k <= j < r.value ==> !OccursAt(needle, haystack, j)
    ensures r.None? ==> needle == [] || forall j :: k <= j ==> !OccursAt(needle, haystack, j)
    decreases |haystack| - k
  {
    if needle == [] || k + |needle| > |haystack| then None
    else if haystack[k..k + |needle|] == needle then Some(k)
    else StrposFrom(haystack, needle, k + 1)
  }

  /** `has($str, $text)`: the first argument is looked for inside the second. */
  predicate Has(str: string, text: string) {
    StrposFrom(text, str, 0).Some?
  }

  lemma HasIff(str: string, text: string)
    ensures Has(str, text) <==> str != [] && exists i :: OccursAt(str, text, i)
  {
    var r := StrposFrom(text, str, 0);
    if r.Some? {
      assert OccursAt(str, text, r.value);
    }
  }

  // -------------------------------------------------------- emptiness

  /** `isEmpty`: `trim($str) === '' || $str === null || $str === false`. */
  predicate IsEmpty(v: PhpValue) {
    TrimsToEmpty(v) || v == Null || v == Bool(false)
  }

  /** Empty means null, false, or a text made only of blanks. */
  lemma IsEmptyIff(v: PhpValue)
    ensures IsEmpty(v) <==>
              v == Null || v == Bool(false)
              || (v.Str? && AllIn(v.s, TrimChars))
              || (v.Float? && AllIn(v.repr, TrimChars))
  {
    TrimsToEmptyIff(v);
  }

  predicate IsNotEmpty(v: PhpValue) {
    !IsEmpty(v)
  }

  // ---------------------------------------------------- urlQueryParamList

  /** What `urlQueryParamList` returns: an empty list, or the list
      `parse_str` makes of the given query text (parse_str is not part of
      this model). */
  datatype QueryParams = NoParams | ParseStr(query: string)

  function UrlQueryParamList(str: Option<string>): QueryParams {
    if str.None? then NoParams
    else
      var parts := Explode('?', str.value);
      if |parts| < 2 then NoParams
      else if Trim(parts[1]) == [] then NoParams
      else ParseStr(parts[1])
  }

  /** The first part of an explode is the longest prefix free of the
      separator; the remaining parts are the explode of what follows it. */
  lemma {:induction false} ExplodeHead(sep: char, s: string)
    ensures var p := Explode(sep, s)[0];
            |p| <= |s| && s[..|p|] == p
            && (|p| < |s| ==> s[|p|] == sep && Explode(sep, s)[1..] == Explode(sep, s[|p| + 1..]))
            && (|p| == |s| ==> |Explode(sep, s)| == 1)
    decreases |s|
  {
    if s != [] {
      var rest := Explode(sep, s[1..]);
      if s[0] == sep {
        assert ([[]] + rest)[1..] == rest;
      } else {
        ExplodeHead(sep, s[1..]);
        var parts := [[s[0]] + rest[0]] + rest[1..];
        assert parts[1..] == rest[1..];
        if |rest[0]| < |s| - 1 {
          assert s[1..][|rest[0]| + 1..] == s[|rest[0]| + 2..];
        }
      }
    }
  }

  /** Where the second part of an explode sits in the input: right after the
      first separator, up to the next one or the end. */
  lemma ExplodeSecond(sep: char, s: string)
    requires |Explode(sep, s)| >= 2
    ensures var i := |Explode(sep, s)[0]|;
            var q := Explode(sep, s)[1];
            i + 1 + |q| <= |s| && s[i] == sep && sep !in s[..i] && s[i + 1..i + 1 + |q|] == q
            && (i + 1 + |q| < |s| ==> s[i + 1 + |q|] == sep)
  {
    ExplodeHead(sep, s);
    var p := Explode(sep, s)[0];
    var t := s[|p| + 1..];
    ExplodeHead(sep, t);
    var q := Explode(sep, t)[0];
    assert Explode(sep, s)[1] == q;
    assert s[|p| + 1..|p| + 1 + |q|] == t[..|q|];
    if |p| + 1 + |q| < |s| {
      assert s[|p| + 1 + |q|] == t[|q|];
    }
  }

  /** `q` is the text between the first '?' of `s` and the next '?' (or the
      end of `s`). */
  predicate IsFirstQuery(s: string, q: string) {
    exists i :: 0 <= i && i + 1 + |q| <= |s| && s[i] == '?' && '?' !in s[..i]
                && s[i + 1..i + 1 + |q|] == q && '?' !in q
                && (i + 1 + |q| < |s| ==> s[i + 1 + |q|] == '?')
  }

  /** A text with at least one '?' yields the second explode part as its
      first query. */
  lemma ExplodeSecondIsFirstQuery(s: string)
    requires |Explode('?', s)| >= 2
    ensures IsFirstQuery(s, Explode('?', s)[1])
  {
    ExplodeSecond('?', s);
    var parts := Explode('?', s);
    assert '?' !in parts[1];
    var i := |parts[0]|;
    assert 0 <= i && i + 1 + |parts[1]| <= |s| && s[i] == '?' && '?' !in s[..i];
  }

  /** Null and a text without '?' give no parameters; a non-blank first query
      is handed to parse_str, and a blank one gives no parameters. */
  lemma UrlQueryParamListSpec(str: Option<string>)
    ensures str.None? ==> UrlQueryParamList(str) == NoParams
    ensures str.Some? && '?' !in str.value ==> UrlQueryParamList(str) == NoParams
    ensures UrlQueryParamList(str).ParseStr? ==>
              str.Some? && Trim(UrlQueryParamList(str).query) != []
              && IsFirstQuery(str.value, UrlQueryParamList(str).query)
  {
    if str.Some? {
      var s := str.value;
      ExplodeHead('?', s);
      if |Explode('?', s)| >= 2 {
        ExplodeSecondIsFirstQuery(s);
      }
    }
  }

  // ------------------------------------------------- underscoreToCamelCase

  /** `ucwords($s, '_')`: the first character and every character after an
      underscore are upper-cased. */
  function UcWords(s: string, capitalizeNext: bool): (r: string)
    ensures |r| == |s|
    decreases |s|
  {
    if s == [] then []
    else [if capitalizeNext then UpperChar(s[0]) else s[0]] + UcWords(s[1..], s[0] == '_')
  }

  /** `underscoreToCamelCase`. On an empty result PHP 7 only warns about the
      string offset and the result stays "". */
  function UnderscoreToCamelCase(str: string, firstLetterBig: bool): string {
    var t := ReplaceAll(UcWords(str, true), "_", "");
    if !firstLetterBig && t != [] then [LowerChar(t[0])] + t[1..] else t
  }

  function Capitalize(p: string): string {
    if p == [] then [] else [UpperChar(p[0])] + p[1..]
  }

  /** The words of a name, each capitalized, run together. */
  function ConcatCapitalized(parts: seq<string>): string
    decreases |parts|
  {
    if parts == [] then [] else Capitalize(parts[0]) + ConcatCapitalized(parts[1..])
  }

  lemma {:induction false} CamelWords(s: string, cap: bool)
    ensures var parts := Explode('_', s);
            ReplaceAll(UcWords(s, cap), "_", "")
              == (if cap then Capitalize(parts[0]) else parts[0]) + ConcatCapitalized(parts[1..])
    decreases |s|
  {
    if s != [] {
      CamelWords(s[1..], s[0] == '_');
      var rest := Explode('_', s[1..]);
      var u := UcWords(s, cap);
      assert u[1..] == UcWords(s[1..], s[0] == '_');
      if s[0] == '_' {
        assert u[..1] == "_";
        assert ([[]] + rest)[1..] == rest;
      } else {
        assert u[0] != '_';
        assert u[..1] != "_";
        assert ([[s[0]] + rest[0]] + rest[1..])[1..] == rest[1..];
      }
    }
  }

  /** With the first letter kept big, the result is the underscore-separated
      words of the input, each capitalized, run together. */
  lemma UnderscoreToCamelCaseWords(str: string)
    ensures UnderscoreToCamelCase(str, true) == ConcatCapitalized(Explode('_', str))
    ensures var c := ConcatCapitalized(Explode('_', str));
            UnderscoreToCamelCase(str, false) == if c == [] then [] else [LowerChar(c[0])] + c[1..]
  {
    CamelWords(str, true);
  }

  lemma {:induction false} ConcatCapitalizedNoUnderscore(parts: seq<string>)
    requires forall i :: 0 <= i < |parts| ==> '_' !in parts[i]
    ensures '_' !in ConcatCapitalized(parts)
    decreases |parts|
  {
    if parts != [] {
      ConcatCapitalizedNoUnderscore(parts[1..]);
      var p := parts[0];
      if p != [] {
        assert UpperChar(p[0]) != '_';
        assert Capitalize(p) == [UpperChar(p[0])] + p[1..];
        assert '_' !in p[1..];
      }
    }
  }

  /** No underscore survives, and without `firstLetterBig` the result is the
      big-first one with only its first letter lower-cased. */
  lemma UnderscoreToCamelCaseShape(str: string, firstLetterBig: bool)
    ensures '_' !in UnderscoreToCamelCase(str, firstLetterBig)
    ensures var r := UnderscoreToCamelCase(str, firstLetterBig);
            !firstLetterBig && r != [] ==> r[0] == LowerChar(UnderscoreToCamelCase(str, true)[0])
    ensures var r, big := UnderscoreToCamelCase(str, false), UnderscoreToCamelCase(str, true);
            |r| == |big| && (r != [] ==> r[1..] == big[1..])
  {
    UnderscoreToCamelCaseWords(str);
    ConcatCapitalizedNoUnderscore(Explode('_', str));
    var t := UnderscoreToCamelCase(str, true);
    if t != [] {
      assert LowerChar(t[0]) != '_';
      assert '_' !in t[1..];
    }
  }

  // ------------------------------------------- removeFirstChars / removeLastChars

  function CharSet(charList: string): set<char> {
    set c | c in charList
  }

  /** `removeFirstChars($str, $charList)`, that is `ltrim`. */
  function RemoveFirstChars(str: string, charList: string): (r: string)
    ensures |r| <= |str| && r == str[|str| - |r|..]
    ensures forall i :: 0 <= i < |str| - |r| ==> str[i] in charList
    ensures r != [] ==> r[0] !in charList
  {
    LTrim(str, CharSet(charList))
  }

  /** `removeLastChars($str, $charList)`, that is `rtrim`. */
  function RemoveLastChars(str: string, charList: string): (r: string)
    ensures |r| <= |str| && r == str[..|r|]
    ensures forall i :: |r| <= i < |str| ==> str[i] in charList
    ensures r != [] ==> r[|r| - 1] !in charList
  {
    RTrim(str, CharSet(charList))
  }
}
