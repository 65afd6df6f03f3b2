/** The slice of JavaScript string and number semantics the forms and the
    renderers rely on: `trim`, `toUpperCase`/`toLowerCase`, `split` on one
    character, `join`, `includes`, `Number(s)`, `parseInt(s)`, `String(n)`,
    `padStart(2, '0')` and `replace` with a string pattern. */
module JsText {
  import opened Wrappers

  // ---------------------------------------------------------------- characters

  /** ECMAScript WhiteSpace or LineTerminator: what `trim` removes and what
      `Number` and `parseInt` skip around a numeral. */
  predicate IsSpace(c: char) {
    var n := c as int;
    n == 0x09 || n == 0x0A || n == 0x0B || n == 0x0C || n == 0x0D || n == 0x20
    || n == 0xA0 || n == 0x1680 || (0x2000 <= n <= 0x200A) || n == 0x2028
    || n == 0x2029 || n == 0x202F || n == 0x205F || n == 0x3000 || n == 0xFEFF
  }

  /** A string is truthy exactly when it is not empty. */
  predicate NonEmpty(s: string) {
    s != ""
  }

  predicate AllSpace(s: string) {
    forall i :: 0 <= i < |s| ==> IsSpace(s[i])
  }

  // ---------------------------------------------------------------- UTF-16 length

  /** A character outside the Basic Multilingual Plane is a surrogate pair
      in UTF-16, so it takes two code units. */
  function CodeUnits(c: char): nat {
    if c as int > 0xFFFF then 2 else 1
  }

  /** `s.length`: the number of UTF-16 code units of `s`. */
  function Utf16Length(s: string): (r: nat)
    ensures |s| <= r <= 2 * |s|
    decreases |s|
  {
    if s == [] then 0 else CodeUnits(s[0]) + Utf16Length(s[1..])
  }

  predicate InBmp(s: string) {
    forall i :: 0 <= i < |s| ==> s[i] as int <= 0xFFFF
  }

  /** Lengths of a concatenation add up. */
  lemma {:induction false} Utf16LengthConcat(a: string, b: string)
    ensures Utf16Length(a + b) == Utf16Length(a) + Utf16Length(b)
    decreases |a|
  {
    if a != [] {
      assert (a + b)[0] == a[0] && (a + b)[1..] == a[1..] + b;
      Utf16LengthConcat(a[1..], b);
    } else {
      assert a + b == b;
    }
  }

  /** `.length` counts characters exactly when none lies outside the Basic
      Multilingual Plane. */
  lemma {:induction false} Utf16LengthBmp(s: string)
    ensures Utf16Length(s) == |s| <==> InBmp(s)
    decreases |s|
  {
    if s != [] {
      Utf16LengthBmp(s[1..]);
      if InBmp(s) {
        assert InBmp(s[1..]) by {
          forall i | 0 <= i < |s[1..]| ensures s[1..][i] as int <= 0xFFFF {
            assert s[1..][i] == s[i + 1];
          }
        }
      } else if InBmp(s[1..]) && s[0] as int <= 0xFFFF {
        forall i | 0 <= i < |s| ensures s[i] as int <= 0xFFFF {
          if i > 0 {
            assert s[i] == s[1..][i - 1];
          }
        }
      }
    }
  }

  /** The character class `[a-zA-Z]`. */
  predicate IsAsciiLetter(c: char) {
    'a' <= c <= 'z' || 'A' <= c <= 'Z'
  }

  /** `/[a-zA-Z]/.test(s)`. */
  predicate HasLetter(s: string) {
    exists i :: 0 <= i < |s| && IsAsciiLetter(s[i])
  }

  function UpperChar(c: char): char {
    if 'a' <= c <= 'z' then (c as int - 32) as char else c
  }

  function LowerChar(c: char): char {
    if 'A' <= c <= 'Z' then (c as int + 32) as char else c
  }

  /** `s.toUpperCase()` on the ASCII letters. */
  function ToUpper(s: string): (r: string)
    ensures |r| == |s|
    ensures forall i :: 0 <= i < |s| ==> r[i] == UpperChar(s[i])
  {
    seq(|s|, i requires 0 <= i < |s| => UpperChar(s[i]))
  }

  /** `s.toLowerCase()` on the ASCII letters. */
  function ToLower(s: string): (r: string)
    ensures |r| == |s|
    ensures forall i :: 0 <= i < |s| ==> r[i] == LowerChar(s[i])
  {
    seq(|s|, i requires 0 <= i < |s| => LowerChar(s[i]))
  }

  // ---------------------------------------------------------------- trimming

  /** `s.trimStart()`. */
  function TrimStart(s: string): (r: string)
    ensures |r| <= |s| && r == s[|s| - |r|..]
    ensures r == [] || !IsSpace(r[0])
    ensures forall i :: 0 <= i < |s| - |r| ==> IsSpace(s[i])
    decreases |s|
  {
    if s != [] && IsSpace(s[0]) then TrimStart(s[1..]) else s
  }

  /** `s.trimEnd()`. */
  function TrimEnd(s: string): (r: string)
    ensures |r| <= |s| && r == s[..|r|]
    ensures r == [] || !IsSpace(r[|r| - 1])
    ensures forall i :: |r| <= i < |s| ==> IsSpace(s[i])
    decreases |s|
  {
    if s != [] && IsSpace(s[|s| - 1]) then TrimEnd(s[..|s| - 1]) else s
  }

  /** `s.trim()`: the slice of `s` between its leading and trailing
      whitespace; empty exactly when `s` is whitespace only. */
  function Trim(s: string): (r: string)
    ensures |r| <= |s|
    ensures exists k :: TrimSlice(s, r, k)
    ensures r == [] || (!IsSpace(r[0]) && !IsSpace(r[|r| - 1]))
    ensures r == [] <==> AllSpace(s)
  {
    TrimEmptyIffAllSpace(s);
    TrimIsSlice(s);
    TrimEnd(TrimStart(s))
  }

  /** `r` is `s[k..k + |r|]`, with only whitespace before and after it. */
  predicate TrimSlice(s: string, r: string, k: int) {
    0 <= k <= |s| - |r| && r == s[k..k + |r|] && AllSpace(s[..k]) && AllSpace(s[k + |r|..])
  }

  lemma TrimIsSlice(s: string)
    ensures exists k :: TrimSlice(s, TrimEnd(TrimStart(s)), k)
  {
    var t := TrimStart(s);
    var k := |s| - |t|;
    var r := TrimEnd(t);
    assert r == s[k..k + |r|];
    assert AllSpace(s[..k]) by {
      forall i | 0 <= i < k ensures IsSpace(s[..k][i]) {
      }
    }
    var tail := s[k + |r|..];
    assert AllSpace(tail) by {
      forall i | 0 <= i < |tail| ensures IsSpace(tail[i]) {
        assert tail[i] == t[|r| + i];
      }
    }
    assert TrimSlice(s, r, k);
  }

  lemma TrimEmptyIffAllSpace(s: string)
    ensures TrimEnd(TrimStart(s)) == [] <==> AllSpace(s)
  {
    var t := TrimStart(s);
    var k := |s| - |t|;
    if TrimEnd(t) == [] {
      assert t == [];
    } else {
      assert t != [] && !IsSpace(t[0]);
      assert s[k] == t[0];
    }
  }

  // ---------------------------------------------------------------- substrings

  /** `pat` occurs in `s` at index `i`. */
  predicate OccursAt(s: string, pat: string, i: int) {
    0 <= i && i + |pat| <= |s| && s[i..i + |pat|] == pat
  }

  /** The first occurrence of `pat` at or after `from` (`s.indexOf(pat, from)`). */
  function IndexOfFrom(s: string, pat: string, from: nat): (r: Option<nat>)
    requires from <= |s|
    ensures r.Some? ==> from <= r.value && OccursAt(s, pat, r.value)
    ensures forall i :: from <= i && (r.None? || i < r.value) ==> !OccursAt(s, pat, i)
    decreases |s| - from
  {
    if from + |pat| > |s| then None
    else if s[from..from + |pat|] == pat then Some(from)
    else IndexOfFrom(s, pat, from + 1)
  }

  function IndexOf(s: string, pat: string): (r: Option<nat>)
    ensures r.Some? ==> OccursAt(s, pat, r.value)
    ensures forall i :: (r.None? || i < r.value) ==> !OccursAt(s, pat, i)
  {
    IndexOfFrom(s, pat, 0)
  }

  /** `s.includes(pat)`. */
  predicate Includes(s: string, pat: string) {
    IndexOf(s, pat).Some?
  }

  /** The replacement text `String.prototype.replace` inserts for a string
      pattern (GetSubstitution with no capture groups): `$$` is `$`, `$&`
      the match, `` $` `` the text before it and `$'` the text after it;
      every other character, `$1` and `$<` included, stands for itself. */
  function Substitution(rep: string, matched: string, before: string, after: string): (r: string)
    ensures (forall i :: 0 <= i < |rep| ==> rep[i] != '$') ==> r == rep
    decreases |rep|
  {
    if rep == [] then []
    else if rep[0] == '$' && |rep| >= 2 && rep[1] == '$' then "$" + Substitution(rep[2..], matched, before, after)
    else if rep[0] == '$' && |rep| >= 2 && rep[1] == '&' then matched + Substitution(rep[2..], matched, before, after)
    else if rep[0] == '$' && |rep| >= 2 && rep[1] == '`' then before + Substitution(rep[2..], matched, before, after)
    else if rep[0] == '$' && |rep| >= 2 && rep[1] == '\'' then after + Substitution(rep[2..], matched, before, after)
    else [rep[0]] + Substitution(rep[1..], matched, before, after)
  }

  /** `s.replace(pat, rep)` with a string pattern: only the first occurrence
      is replaced; without an occurrence `s` comes back unchanged. */
  function ReplaceFirst(s: string, pat: string, rep: string): (r: string)
    ensures IndexOf(s, pat).None? ==> r == s
    ensures IndexOf(s, pat).Some? ==>
      var p := IndexOf(s, pat).value;
      r == s[..p] + Substitution(rep, pat, s[..p], s[p + |pat|..]) + s[p + |pat|..]
  {
    match IndexOf(s, pat)
    case None => s
    case Some(p) => s[..p] + Substitution(rep, pat, s[..p], s[p + |pat|..]) + s[p + |pat|..]
  }

  /** Without `$` in the replacement, and when the text before the pattern
      cannot start it, the pattern is swapped for `rep` and the text around
      it is kept. */
  lemma ReplaceFirstPlain(a: string, pat: string, b: string, rep: string)
    requires pat != [] && pat[0] !in a
    requires forall i :: 0 <= i < |rep| ==> rep[i] != '$'
    ensures ReplaceFirst(a + pat + b, pat, rep) == a + rep + b
  {
    var s := a + pat + b;
    assert OccursAt(s, pat, |a|) by { assert s[|a|..|a| + |pat|] == pat; }
    forall i | 0 <= i < |a| ensures !OccursAt(s, pat, i) {
      assert s[i] == a[i];
    }
    assert IndexOf(s, pat) == Some(|a|);
    assert s[..|a|] == a;
    assert s[|a| + |pat|..] == b;
  }

  // ---------------------------------------------------------------- split / join

  /** `s.split(sep)` for a one-character separator. */
  function Split(s: string, sep: char): (r: seq<string>)
    ensures |r| >= 1
    ensures forall k :: 0 <= k < |r| ==> sep !in r[k]
    decreases |s|
  {
    if s == [] then [""]
    else
      var rest := Split(s[1..], sep);
      if s[0] == sep then [""] + rest else [[s[0]] + rest[0]] + rest[1..]
  }

  /** `parts.join(sep)`. */
  function Join(parts: seq<string>, sep: string): string
    decreases |parts|
  {
    if parts == [] then ""
    else if |parts| == 1 then parts[0]
    else parts[0] + sep + Join(parts[1..], sep)
  }

  /** Joining the pieces of a split with the separator restores the text. */
  lemma {:induction false} JoinSplit(s: string, sep: char)
    ensures Join(Split(s, sep), [sep]) == s
    decreases |s|
  {
    if s != [] {
      JoinSplit(s[1..], sep);
      var rest := Split(s[1..], sep);
      if s[0] != sep && |rest| > 1 {
        assert Join(rest, [sep]) == rest[0] + [sep] + Join(rest[1..], [sep]);
      }
    }
  }

  lemma {:induction false} SplitNoSep(a: string, sep: char)
    requires sep !in a
    ensures Split(a, sep) == [a]
    decreases |a|
  {
    if a != [] {
      SplitNoSep(a[1..], sep);
      assert [a[0]] + a[1..] == a;
    }
  }

  lemma {:induction false} SplitAfterPiece(a: string, sep: char, b: string)
    requires sep !in a
    ensures Split(a + [sep] + b, sep) == [a] + Split(b, sep)
    decreases |a|
  {
    if a == [] {
      assert a + [sep] + b == [sep] + b;
      assert ([sep] + b)[1..] == b;
    } else {
      assert (a + [sep] + b)[1..] == a[1..] + [sep] + b;
      SplitAfterPiece(a[1..], sep, b);
      assert [a[0]] + a[1..] == a;
    }
  }

  /** Splitting a join of separator-free pieces gives the pieces back. */
  lemma {:induction false} SplitJoin(parts: seq<string>, sep: char)
    requires |parts| >= 1
    requires forall k :: 0 <= k < |parts| ==> sep !in parts[k]
    ensures Split(Join(parts, [sep]), sep) == parts
    decreases |parts|
  {
    if |parts| == 1 {
      SplitNoSep(parts[0], sep);
    } else {
      SplitJoin(parts[1..], sep);
      SplitAfterPiece(parts[0], sep, Join(parts[1..], [sep]));
    }
  }

  // ---------------------------------------------------------------- numbers

  /** A JavaScript number as far as the source uses it: NaN or an integer. */
  datatype JsNum = NaN | Int(value: int)

  /** Value of a digit in bases up to 36, or -1. */
  function DigitValue(c: char): int {
    if '0' <= c <= '9' then c as int - '0' as int
    else if 'a' <= c <= 'z' then c as int - 'a' as int + 10
    else if 'A' <= c <= 'Z' then c as int - 'A' as int + 10
    else -1
  }

  predicate IsDigitOf(c: char, radix: nat) {
    0 <= DigitValue(c) < radix
  }

  predicate AllDigitsOf(s: string, radix: nat) {
    forall i :: 0 <= i < |s| ==> IsDigitOf(s[i], radix)
  }

  /** The value of a numeral, most significant digit first. */
  function DigitsValue(s: string, radix: nat): nat
    requires AllDigitsOf(s, radix)
    decreases |s|
  {
    if s == [] then 0 else DigitsValue(s[..|s| - 1], radix) * radix + DigitValue(s[|s| - 1])
  }

  /** The longest prefix of `s` made of digits of `radix`. */
  function DigitPrefix(s: string, radix: nat): (r: string)
    ensures r <= s && AllDigitsOf(r, radix)
    ensures |r| < |s| ==> !IsDigitOf(s[|r|], radix)
    decreases |s|
  {
    if s != [] && IsDigitOf(s[0], radix) then [s[0]] + DigitPrefix(s[1..], radix) else []
  }

  /** The radix a `0x`/`0o`/`0b` prefix letter selects in `Number(s)`, or 0. */
  function RadixLetter(c: char): nat {
    if c == 'x' || c == 'X' then 16
    else if c == 'o' || c == 'O' then 8
    else if c == 'b' || c == 'B' then 2
    else 0
  }

  /** `Number(s)` for a string: surrounding whitespace is ignored, the empty
      string is 0, a signed decimal integer or an unsigned `0x`/`0o`/`0b`
      literal is its value, and anything else is NaN. */
  function NumberOf(s: string): (r: JsNum)
    ensures AllSpace(s) ==> r == Int(0)
  {
    NumeralValue(Trim(s))
  }

  /** `Number` of an already trimmed string. */
  function NumeralValue(t: string): JsNum {
    if t == [] then Int(0)
    else if |t| > 2 && t[0] == '0' && RadixLetter(t[1]) > 0 then
      (if AllDigitsOf(t[2..], RadixLetter(t[1])) then Int(DigitsValue(t[2..], RadixLetter(t[1]))) else NaN)
    else if t[0] == '-' then
      (if |t| > 1 && AllDigitsOf(t[1..], 10) then Int(-(DigitsValue(t[1..], 10) as int)) else NaN)
    else if t[0] == '+' then
      (if |t| > 1 && AllDigitsOf(t[1..], 10) then Int(DigitsValue(t[1..], 10)) else NaN)
    else if AllDigitsOf(t, 10) then Int(DigitsValue(t, 10))
    else NaN
  }

  /** `parseInt(s)` without a radix: leading whitespace and one sign are
      skipped, a `0x`/`0X` prefix selects base 16, and the longest run of
      digits that follows is read; no digits at all gives NaN. */
  function ParseInt(s: string): JsNum {
    var t := TrimStart(s);
    if t != [] && t[0] == '-' then Negate(ParseUnsigned(t[1..]))
    else if t != [] && t[0] == '+' then ParseUnsigned(t[1..])
    else ParseUnsigned(t)
  }

  function Negate(x: JsNum): JsNum {
    match x
    case NaN => NaN
    case Int(i) => Int(-i)
  }

  /** The digits `parseInt` reads after the sign. */
  function ParseUnsigned(u: string): JsNum {
    if |u| >= 2 && u[0] == '0' && (u[1] == 'x' || u[1] == 'X') then
      var ds := DigitPrefix(u[2..], 16);
      if ds == [] then NaN else Int(DigitsValue(ds, 16))
    else
      var ds := DigitPrefix(u, 10);
      if ds == [] then NaN else Int(DigitsValue(ds, 10))
  }

  function DigitChar(d: nat): char
    requires d < 10
  {
    ('0' as int + d) as char
  }

  /** `String(n)` for a natural number: its shortest decimal numeral. */
  function NatToString(n: nat): (r: string)
    ensures |r| >= 1 && AllDigitsOf(r, 10) && '0' <= r[0] <= '9'
    ensures DigitsValue(r, 10) == n
    ensures r[0] == '0' ==> r == "0"
    decreases n
  {
    if n < 10 then [DigitChar(n)]
    else
      var high := NatToString(n / 10);
      var r := high + [DigitChar(n % 10)];
      assert r[..|r| - 1] == high;
      r
  }

  /** `String(i)` for an integer (`-0` prints as `0`). */
  function IntToString(i: int): string {
    if i < 0 then "-" + NatToString(-i) else NatToString(i)
  }

  /** `String(x)` for a number. */
  function NumToString(x: JsNum): string {
    match x
    case NaN => "NaN"
    case Int(i) => IntToString(i)
  }

  lemma NoSpaceInDigits(s: string)
    requires AllDigitsOf(s, 10)
    ensures Trim(s) == s
    ensures TrimStart(s) == s
  {
    if s != [] {
      assert !IsSpace(s[0]);
      assert !IsSpace(s[|s| - 1]);
    }
  }

  /** `Number(String(i)) === i`: printing and reading an integer agree. */
  lemma NumberOfIntToString(i: int)
    ensures NumberOf(IntToString(i)) == Int(i)
  {
    if i < 0 {
      var d := NatToString(-i);
      var s := "-" + d;
      assert s[1..] == d;
      assert !IsSpace(s[0]);
      assert !IsSpace(s[|s| - 1]) by { assert s[|s| - 1] == d[|d| - 1]; }
      assert TrimStart(s) == s;
      assert TrimEnd(s) == s;
      assert NumeralValue(s) == Int(i);
    } else {
      var d := NatToString(i);
      NoSpaceInDigits(d);
      assert NumeralValue(d) == Int(i);
    }
  }

  /** `parseInt(String(i)) === i`. */
  lemma ParseIntIntToString(i: int)
    ensures ParseInt(IntToString(i)) == Int(i)
  {
    var d := NatToString(if i < 0 then -i else i);
    DigitPrefixAll(d, 10);
    assert ParseUnsigned(d) == Int(if i < 0 then -i else i);
    if i < 0 {
      var s := "-" + d;
      assert !IsSpace(s[0]);
      assert TrimStart(s) == s;
      assert s[1..] == d;
    } else {
      NoSpaceInDigits(d);
    }
  }

  lemma {:induction false} DigitPrefixAll(s: string, radix: nat)
    requires AllDigitsOf(s, radix)
    ensures DigitPrefix(s, radix) == s
    decreases |s|
  {
    if s != [] {
      DigitPrefixAll(s[1..], radix);
      assert [s[0]] + s[1..] == s;
    }
  }

  /** `String(x).padStart(2, '0')`. */
  function PadStart2(s: string): (r: string)
    ensures |r| == if |s| >= 2 then |s| else 2
    ensures r[|r| - |s|..] == s
    ensures forall i :: 0 <= i < |r| - |s| ==> r[i] == '0'
  {
    if |s| >= 2 then s else if |s| == 1 then "0" + s else "00"
  }

  // ---------------------------------------------------------------- reading numerals back

  /** Reading back an unpadded numeral. */
  lemma PlainNumber(n: nat)
    ensures '-' !in NatToString(n) && NatToString(n) != ""
    ensures NumberOf(NatToString(n)) == Int(n)
  {
    var t := NatToString(n);
    DigitsExclude(t, '-');
    FieldNumber(t, n);
  }

  /** `Number` of an all-digit field. */
  lemma FieldNumber(t: string, n: nat)
    requires AllDigitsOf(t, 10) && t != [] && DigitsValue(t, 10) == n
    ensures NumberOf(t) == Int(n)
  {
    NoSpaceInDigits(t);
    assert IsDigitOf(t[0], 10);
    if |t| > 1 {
      assert IsDigitOf(t[1], 10);
    }
    assert NumeralValue(t) == Int(n);
  }

  /** A zero-padded two-digit field is a numeral of its number. */
  lemma PaddedDigits(n: nat)
    ensures PadStart2(NatToString(n)) != "" && AllDigitsOf(PadStart2(NatToString(n)), 10)
    ensures DigitsValue(PadStart2(NatToString(n)), 10) == n
  {
    var t := NatToString(n);
    if |t| == 1 {
      assert PadStart2(t) == "0" + t;
      ZeroPrefix(t);
    }
  }

  /** Reading back a zero-padded two-digit field. */
  lemma PaddedNumber(n: nat)
    ensures '-' !in PadStart2(NatToString(n)) && PadStart2(NatToString(n)) != ""
    ensures AllDigitsOf(PadStart2(NatToString(n)), 10)
    ensures DigitsValue(PadStart2(NatToString(n)), 10) == n
    ensures NumberOf(PadStart2(NatToString(n))) == Int(n)
  {
    PaddedDigits(n);
    var p := PadStart2(NatToString(n));
    DigitsExclude(p, '-');
    FieldNumber(p, n);
  }

  /** Digits only never contain the character `c` that is not a digit. */
  lemma DigitsExclude(s: string, c: char)
    requires AllDigitsOf(s, 10) && !IsDigitOf(c, 10)
    ensures c !in s
  {
  }

  /** `parseInt` of an all-digit field. */
  lemma ParseIntDigits(p: string, n: nat)
    requires AllDigitsOf(p, 10) && p != [] && DigitsValue(p, 10) == n
    ensures ParseInt(p) == Int(n)
  {
    NoSpaceInDigits(p);
    DigitPrefixAll(p, 10);
    assert p[0] != '-' && p[0] != '+' by { assert IsDigitOf(p[0], 10); }
    assert !(|p| >= 2 && p[0] == '0' && (p[1] == 'x' || p[1] == 'X')) by {
      if |p| >= 2 { assert IsDigitOf(p[1], 10); }
    }
  }

  /** `parseInt` reads back a zero-padded numeral. */
  lemma ParseIntPadded(n: nat)
    ensures ParseInt(PadStart2(NatToString(n))) == Int(n)
  {
    PaddedDigits(n);
    ParseIntDigits(PadStart2(NatToString(n)), n);
  }

  /** A leading zero does not change a numeral's value. */
  lemma {:induction false} ZeroPrefix(s: string)
    requires AllDigitsOf(s, 10)
    ensures AllDigitsOf("0" + s, 10) && DigitsValue("0" + s, 10) == DigitsValue(s, 10)
    decreases |s|
  {
    var z := "0" + s;
    assert AllDigitsOf(z, 10) by {
      forall i | 0 <= i < |z| ensures IsDigitOf(z[i], 10) {
        if i > 0 { assert z[i] == s[i - 1]; }
      }
    }
    if s == [] {
      assert z[..0] == [];
    } else {
      var init := s[..|s| - 1];
      ZeroPrefix(init);
      assert z[..|z| - 1] == "0" + init;
      assert z[|z| - 1] == s[|s| - 1];
    }
  }
}
