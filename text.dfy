/** String operations with the semantics of the JavaScript built-ins the pages call:
    Array.prototype.join, String.prototype.split (single-character separator),
    replace with a global one-character pattern, trim, toLowerCase (ASCII part),
    includes, Number-to-text and the text-to-Number coercion. */
module Text {
  import opened Seqs

  /** Array.prototype.join with separator `sep`: nothing for no parts, the part itself for
      one. JoinAppend and SplitJoin state the general case. */
  function Join(parts: seq<string>, sep: string): (r: string)
    ensures |parts| == 0 ==> r == ""
    ensures |parts| == 1 ==> r == parts[0]
  {
    if |parts| == 0 then ""
    else if |parts| == 1 then parts[0]
    else parts[0] + sep + Join(parts[1..], sep)
  }

  /** Joining two non-empty lists is joining each and putting one separator between. */
  lemma {:induction false} JoinAppend(a: seq<string>, b: seq<string>, sep: string)
    requires |a| > 0 && |b| > 0
    ensures Join(a + b, sep) == Join(a, sep) + sep + Join(b, sep)
  {
    if |a| > 1 {
      JoinAppend(a[1..], b, sep);
      assert (a + b)[1..] == a[1..] + b;
    }
  }

  /** Joining a first part onto a non-empty rest puts one separator between them. */
  lemma JoinCons(x: string, rest: seq<string>, sep: string)
    requires |rest| > 0
    ensures Join([x] + rest, sep) == x + sep + Join(rest, sep)
  {
    assert ([x] + rest)[1..] == rest;
  }

  /** Four parts joined: the parts with a separator between each neighbouring pair. */
  lemma Join4(a: string, b: string, c: string, d: string, sep: string)
    ensures Join([a, b, c, d], sep) == a + sep + b + sep + c + sep + d
  {
    JoinCons(c, [d], sep);
    assert [c, d] == [c] + [d];
    JoinCons(b, [c, d], sep);
    assert [b, c, d] == [b] + [c, d];
    JoinCons(a, [b, c, d], sep);
    assert [a, b, c, d] == [a] + [b, c, d];
  }

  /** Eight parts joined. */
  lemma Join8(a: string, b: string, c: string, d: string, e: string, f: string, g: string, h: string,
              sep: string)
    ensures Join([a, b, c, d, e, f, g, h], sep) ==
            a + sep + b + sep + c + sep + d + sep + e + sep + f + sep + g + sep + h
  {
    Join4(a, b, c, d, sep);
    Join4(e, f, g, h, sep);
    JoinAppend([a, b, c, d], [e, f, g, h], sep);
    assert [a, b, c, d, e, f, g, h] == [a, b, c, d] + [e, f, g, h];
  }

  /** String.prototype.split on a single character; always at least one piece. */
  function Split(s: string, sep: char): (r: seq<string>)
    ensures |r| > 0
  {
    if |s| == 0 then [""]
    else
      var rest := Split(s[1..], sep);
      if s[0] == sep then [""] + rest else [[s[0]] + rest[0]] + rest[1..]
  }

  /** A piece without the separator splits to itself. */
  lemma {:induction false} SplitNoSep(a: string, sep: char)
    requires sep !in a
    ensures Split(a, sep) == [a]
  {
    if |a| > 0 {
      SplitNoSep(a[1..], sep);
      assert [a[0]] + a[1..] == a;
    }
  }

  /** Splitting `a + [sep] + b` where `a` has no separator peels off `a`. */
  lemma {:induction false} SplitCons(a: string, sep: char, b: string)
    requires sep !in a
    ensures Split(a + [sep] + b, sep) == [a] + Split(b, sep)
  {
    if |a| == 0 {
      assert a + [sep] + b == [sep] + b;
      assert ([sep] + b)[1..] == b;
    } else {
      SplitCons(a[1..], sep, b);
      assert (a + [sep] + b)[1..] == a[1..] + [sep] + b;
      assert [a[0]] + a[1..] == a;
    }
  }

  /** Split on `sep` is the inverse of Join with `[sep]`, as long as no part contains `sep`. */
  lemma {:induction false} SplitJoin(parts: seq<string>, sep: char)
    requires |parts| > 0
    requires forall i :: 0 <= i < |parts| ==> sep !in parts[i]
    ensures Split(Join(parts, [sep]), sep) == parts
  {
    if |parts| == 1 {
      SplitNoSep(parts[0], sep);
    } else {
      SplitJoin(parts[1..], sep);
      SplitCons(parts[0], sep, Join(parts[1..], [sep]));
      assert parts == [parts[0]] + parts[1..];
    }
  }

  /** The first piece of `a + [sep] + rest` is `a`, whatever `rest` holds. */
  lemma SplitFirst(a: string, sep: char, rest: string)
    requires sep !in a
    ensures Split(a + [sep] + rest, sep)[0] == a
  {
    SplitCons(a, sep, rest);
  }

  /** `s.replace(/c/g, d)` for one-character `c` and `d`. */
  function ReplaceChar(s: string, c: char, d: char): (r: string)
    ensures |r| == |s|
    ensures forall i :: 0 <= i < |s| ==> r[i] == (if s[i] == c then d else s[i])
    ensures c != d ==> c !in r
  {
    if |s| == 0 then "" else [if s[0] == c then d else s[0]] + ReplaceChar(s[1..], c, d)
  }

  /** A character that is neither `c` nor `d` is in the replaced text exactly when it is in `s`. */
  lemma ReplaceCharKeeps(s: string, c: char, d: char, x: char)
    requires x != c && x != d
    ensures x in ReplaceChar(s, c, d) <==> x in s
  {
    var r := ReplaceChar(s, c, d);
    if x in s {
      var i :| 0 <= i < |s| && s[i] == x;
      assert r[i] == x;
    }
    if x in r {
      var i :| 0 <= i < |r| && r[i] == x;
      assert s[i] == x;
    }
  }

  /** toLowerCase restricted to ASCII: 'A'..'Z' map to 'a'..'z', all else is kept. */
  function LowerChar(c: char): char
  {
    if 'A' <= c <= 'Z' then (c as int + 32) as char else c
  }

  /** toUpperCase restricted to ASCII. */
  function UpperChar(c: char): char
  {
    if 'a' <= c <= 'z' then (c as int - 32) as char else c
  }

  function ToLower(s: string): (r: string)
    ensures |r| == |s|
    ensures forall i :: 0 <= i < |s| ==> r[i] == LowerChar(s[i])
  {
    if |s| == 0 then "" else [LowerChar(s[0])] + ToLower(s[1..])
  }

  function ToUpper(s: string): (r: string)
    ensures |r| == |s|
    ensures forall i :: 0 <= i < |s| ==> r[i] == UpperChar(s[i])
  {
    if |s| == 0 then "" else [UpperChar(s[0])] + ToUpper(s[1..])
  }

  /** Lower-casing forgets the case of the input: the upper-cased text lower-cases to the
      same text, and lower-casing twice is lower-casing once. */
  lemma LowerForgetsCase(s: string)
    ensures ToLower(ToUpper(s)) == ToLower(s)
    ensures ToLower(ToLower(s)) == ToLower(s)
  {
    assert forall i :: 0 <= i < |s| ==> LowerChar(UpperChar(s[i])) == LowerChar(s[i]);
    assert forall i :: 0 <= i < |s| ==> LowerChar(LowerChar(s[i])) == LowerChar(s[i]);
  }

  /** `p` is a prefix of `s`. */
  predicate IsPrefix(p: string, s: string)
  {
    |p| <= |s| && s[..|p|] == p
  }

  /** String.prototype.includes: `needle` occurs in `hay` at some position. */
  predicate Contains(hay: string, needle: string)
    decreases |hay|
  {
    IsPrefix(needle, hay) || (|hay| > 0 && Contains(hay[1..], needle))
  }

  /** `needle` starts at offset `i` of `hay`. */
  predicate OccursAt(hay: string, needle: string, i: int)
  {
    0 <= i <= |hay| - |needle| && hay[i..i + |needle|] == needle
  }

  /** Contains agrees with "there is an offset where `needle` starts". */
  lemma {:induction false} ContainsAt(hay: string, needle: string)
    ensures Contains(hay, needle) <==> exists i :: OccursAt(hay, needle, i)
    decreases |hay|
  {
    if IsPrefix(needle, hay) {
      assert OccursAt(hay, needle, 0);
    } else if |hay| > 0 {
      ContainsAt(hay[1..], needle);
      if Contains(hay[1..], needle) {
        var i :| OccursAt(hay[1..], needle, i);
        assert hay[i + 1..i + 1 + |needle|] == hay[1..][i..i + |needle|];
        assert OccursAt(hay, needle, i + 1);
      }
      if exists i :: OccursAt(hay, needle, i) {
        var i :| OccursAt(hay, needle, i);
        assert i != 0;
        assert hay[1..][i - 1..i - 1 + |needle|] == hay[i..i + |needle|];
        assert OccursAt(hay[1..], needle, i - 1);
      }
    }
  }

  /** Every text contains the empty text, so an empty search term matches everything. */
  lemma ContainsEmpty(hay: string)
    ensures Contains(hay, "")
  {
    assert IsPrefix("", hay);
  }

  /** The characters String.prototype.trim removes: ECMAScript WhiteSpace (TAB, VT, FF,
      SPACE, NBSP, ZWNBSP and the Zs category) and LineTerminator (LF, CR, LS, PS). */
  predicate IsWhitespace(c: char)
  {
    var k := c as int;
    k == 0x09 || k == 0x0A || k == 0x0B || k == 0x0C || k == 0x0D || k == 0x20 ||
    k == 0xA0 || k == 0x1680 || (0x2000 <= k <= 0x200A) || k == 0x2028 || k == 0x2029 ||
    k == 0x202F || k == 0x205F || k == 0x3000 || k == 0xFEFF
  }

  function TrimStart(s: string): (r: string)
    ensures |r| <= |s| && r == s[|s| - |r|..]
    ensures |r| > 0 ==> !IsWhitespace(r[0])
    ensures forall i :: 0 <= i < |s| - |r| ==> IsWhitespace(s[i])
  {
    if |s| > 0 && IsWhitespace(s[0]) then TrimStart(s[1..]) else s
  }

  function TrimEnd(s: string): (r: string)
    ensures |r| <= |s| && r == s[..|r|]
    ensures |r| > 0 ==> !IsWhitespace(r[|r| - 1])
    ensures forall i :: |r| <= i < |s| ==> IsWhitespace(s[i])
  {
    if |s| > 0 && IsWhitespace(s[|s| - 1]) then TrimEnd(s[..|s| - 1]) else s
  }

  /** String.prototype.trim; `!s.trim()` holds exactly when every character is whitespace. */
  function Trim(s: string): (r: string)
    ensures r == "" <==> forall i :: 0 <= i < |s| ==> IsWhitespace(s[i])
  {
    var t := TrimStart(s);
    assert |t| > 0 ==> t[0] == s[|s| - |t|];
    TrimEnd(t)
  }

  /** A text with no whitespace at either end is its own trim. */
  lemma TrimNoop(s: string)
    requires |s| > 0 ==> !IsWhitespace(s[0]) && !IsWhitespace(s[|s| - 1])
    ensures Trim(s) == s
  {
  }

  predicate IsDigit(c: char)
  {
    '0' <= c <= '9'
  }

  function DigitChar(d: nat): (c: char)
    requires d < 10
    ensures IsDigit(c) && c as int - '0' as int == d
  {
    ('0' as int + d) as char
  }

  /** Decimal digits of a non-negative integer, most significant first, no leading zeros. */
  function NatToString(n: nat): (r: string)
    ensures |r| > 0 && forall i :: 0 <= i < |r| ==> IsDigit(r[i])
  {
    if n < 10 then [DigitChar(n)] else NatToString(n / 10) + [DigitChar(n % 10)]
  }

  /** The decimal text starts with '0' only for zero, and has one digit exactly below ten. */
  lemma {:induction false} NatToStringLeading(n: nat)
    ensures NatToString(n)[0] == '0' <==> n == 0
    ensures |NatToString(n)| == 1 <==> n < 10
  {
    if n >= 10 {
      NatToStringLeading(n / 10);
      assert NatToString(n)[0] == NatToString(n / 10)[0];
    }
  }

  /** Number.prototype.toString for an integral value: a '-' exactly for a negative value,
      then decimal digits with no leading zero. */
  function IntToString(n: int): (r: string)
    ensures |r| > 0
    ensures forall i :: 0 <= i < |r| ==> IsDigit(r[i]) || (i == 0 && r[i] == '-')
    ensures (n < 0) <==> (r[0] == '-')
    ensures |r| > 1 ==> r[if n < 0 then 1 else 0] != '0'
  {
    NatToStringLeading(if n < 0 then -n else n);
    if n < 0 then "-" + NatToString(-n) else NatToString(n)
  }

  /** `s` is the canonical decimal text of `n`: a '-' exactly when `n` is negative, then
      digits with no leading zero whose value is the magnitude of `n`. */
  predicate DecimalOf(s: string, n: int)
  {
    |s| > 0 &&
    if n < 0 then
      s[0] == '-' && |s| > 1 && AllDigits(s[1..]) && s[1] != '0' && DigitsValue(s[1..]) == -n
    else
      AllDigits(s) && (|s| > 1 ==> s[0] != '0') && DigitsValue(s) == n
  }

  /** The text of an integer is its canonical decimal, and the only one. */
  lemma IntToStringDecimal(n: int, s: string)
    ensures DecimalOf(IntToString(n), n)
    ensures DecimalOf(s, n) ==> s == IntToString(n)
  {
    var m: nat := if n < 0 then -n else n;
    DigitsValueOfNat(m);
    if n < 0 {
      assert IntToString(n)[1..] == NatToString(m);
    }
    if DecimalOf(s, n) {
      if n < 0 {
        NatToStringUnique(m, s[1..]);
        assert s == [s[0]] + s[1..];
      } else {
        NatToStringUnique(m, s);
      }
    }
  }

  /** A run of digits with no leading zero is the decimal text of its value. */
  lemma {:induction false} NatToStringUnique(n: nat, s: string)
    requires |s| > 0 && AllDigits(s) && (|s| > 1 ==> s[0] != '0') && DigitsValue(s) == n
    ensures s == NatToString(n)
  {
    var p, c := s[..|s| - 1], s[|s| - 1];
    var d := c as int - '0' as int;
    assert 0 <= d < 10 && DigitChar(d) == c;
    if |s| == 1 {
      assert DigitsValue(p) == 0 && n == d;
      assert s == [c];
    } else {
      assert AllDigits(p) && p[0] == s[0];
      var q := DigitsValue(p);
      assert n == q * 10 + d;
      LeadingDigitPositive(p);
      assert n >= 10 && n / 10 == q && n % 10 == d;
      NatToStringUnique(q, p);
      assert s == p + [c];
    }
  }

  /** Digits that start with a non-zero digit have a positive value. */
  lemma {:induction false} LeadingDigitPositive(s: string)
    requires |s| > 0 && AllDigits(s) && s[0] != '0'
    ensures DigitsValue(s) > 0
  {
    if |s| > 1 {
      var p := s[..|s| - 1];
      assert AllDigits(p) && p[0] == s[0];
      LeadingDigitPositive(p);
    }
  }

  /** Four sample values and their decimal texts: 0, 7, 100 and -25. */
  lemma IntToStringExamples()
    ensures IntToString(0) == "0" && IntToString(7) == "7"
    ensures IntToString(100) == "100" && IntToString(-25) == "-25"
  {
  }

  predicate AllDigits(s: string)
  {
    forall i :: 0 <= i < |s| ==> IsDigit(s[i])
  }

  /** Value of a run of decimal digits. */
  function DigitsValue(s: string): nat
    requires AllDigits(s)
  {
    if |s| == 0 then 0 else DigitsValue(s[..|s| - 1]) * 10 + (s[|s| - 1] as int - '0' as int)
  }

  lemma {:induction false} DigitsValueOfNat(n: nat)
    ensures DigitsValue(NatToString(n)) == n
  {
    if n >= 10 {
      DigitsValueOfNat(n / 10);
      var s := NatToString(n);
      assert s[..|s| - 1] == NatToString(n / 10);
    }
  }

  /** Number(s) where the trimmed text is empty or a decimal integer with an optional sign;
      None stands for every other text (NaN, or a value outside the integers). */
  function ParseNumber(s: string): Option<int>
  {
    var t := Trim(s);
    if |t| == 0 then Some(0)
    else if (t[0] == '-' || t[0] == '+') && |t| > 1 && AllDigits(t[1..]) then
      var v: int := DigitsValue(t[1..]);
      Some(if t[0] == '-' then -v else v)
    else if AllDigits(t) then Some(DigitsValue(t))
    else None
  }

  /** `Number(s) || 0`: the parsed value, with NaN (and 0) giving 0. */
  function CoerceNumber(s: string): (r: int)
    ensures ParseNumber(s) == Some(r) || (ParseNumber(s).None? && r == 0)
  {
    match ParseNumber(s)
    case Some(n) => n
    case None => 0
  }

  /** Number-to-text and back is the identity on integers. */
  lemma ParseIntToString(n: int)
    ensures ParseNumber(IntToString(n)) == Some(n)
    ensures CoerceNumber(IntToString(n)) == n
  {
    if n < 0 {
      var m: nat := -n;
      var s := NatToString(m);
      var t := IntToString(n);
      assert t == "-" + s;
      DigitsValueOfNat(m);
      assert DigitsValue(s) == m;
      ParseMinus(s);
      assert ParseNumber(t) == Some(n);
    } else {
      ParseNatDigits(n);
    }
  }

  lemma ParseNatDigits(n: nat)
    ensures ParseNumber(NatToString(n)) == Some(n)
  {
    var s := NatToString(n);
    TrimNoop(s);
    assert s[0] != '-' && s[0] != '+';
    DigitsValueOfNat(n);
  }

  /** A run of digits is read as its value. */
  lemma ParseDigitRun(s: string)
    requires |s| > 0 && AllDigits(s)
    ensures ParseNumber(s) == Some(DigitsValue(s))
  {
    TrimNoop(s);
    assert s[0] != '-' && s[0] != '+';
  }

  /** A plus sign before a run of digits is accepted. */
  lemma ParsePlus(s: string)
    requires |s| > 0 && AllDigits(s)
    ensures ParseNumber("+" + s) == Some(DigitsValue(s))
  {
    var t := "+" + s;
    TrimNoop(t);
    assert t[1..] == s;
  }

  /** A minus sign before a run of digits negates its value. */
  lemma ParseMinus(s: string)
    requires |s| > 0 && AllDigits(s)
    ensures ParseNumber("-" + s) == Some(-(DigitsValue(s) as int))
  {
    var t := "-" + s;
    TrimNoop(t);
    assert t[1..] == s;
  }
}
