/**
 * The string primitives the JavaScript source leans on: the white-space class shared by `\s`,
 * `String.prototype.trim` and `parseInt`, `trim`, `replace(/\s+/g, " ")`, `split` on one
 * character, ASCII upper-casing, the small regular expressions of the parser and correlator,
 * `parseInt(_, 10)`, and the relational operators on strings.
 */
module Text {
  import opened Wrappers

  // ---------------------------------------------------------------------------------------
  // White space

  /** ECMAScript white space: the WhiteSpace and LineTerminator code points. */
  predicate IsSpace(c: char) {
    c == '\t' || c == '\n' || c == '\U{B}' || c == '\U{C}' || c == '\r' || c == ' '
    || c == '\U{A0}' || c == '\U{1680}' || ('\U{2000}' <= c <= '\U{200A}')
    || c == '\U{2028}' || c == '\U{2029}' || c == '\U{202F}' || c == '\U{205F}'
    || c == '\U{3000}' || c == '\U{FEFF}'
  }

  /** No character of `s` is white space. */
  predicate NoSpace(s: string) {
    forall i :: 0 <= i < |s| ==> !IsSpace(s[i])
  }

  /** `s` with its leading white space removed. */
  function TrimStart(s: string): (r: string)
    ensures |r| <= |s|
  {
    if |s| > 0 && IsSpace(s[0]) then TrimStart(s[1..]) else s
  }

  /** `trimStart` removes exactly the leading run of white space: what is left is a suffix that
      does not start with white space, and everything before it is white space. */
  lemma {:induction false} TrimStartShape(s: string)
    ensures var r := TrimStart(s);
      r == s[|s| - |r|..] && (r == [] || !IsSpace(r[0])) &&
      forall i :: 0 <= i < |s| - |r| ==> IsSpace(s[i])
  {
    if |s| > 0 && IsSpace(s[0]) {
      TrimStartShape(s[1..]);
    }
  }

  /** Every character of `s` is white space. */
  predicate AllSpace(s: string) {
    forall i :: 0 <= i < |s| ==> IsSpace(s[i])
  }

  /** Leading white space makes no difference to `trimStart`. */
  lemma {:induction false} TrimStartSpaces(w: string, rest: string)
    requires AllSpace(w)
    ensures TrimStart(w + rest) == TrimStart(rest)
  {
    var q := w + rest;
    if w == [] {
      assert q == rest;
    } else {
      assert q[0] == w[0] && IsSpace(q[0]) && q[1..] == w[1..] + rest;
      TrimStartSpaces(w[1..], rest);
    }
  }

  /** `s` is its leading run of white space followed by `trimStart(s)`. */
  lemma TrimStartSplit(s: string) returns (w: string)
    ensures s == w + TrimStart(s) && AllSpace(w)
  {
    TrimStartShape(s);
    w := s[..|s| - |TrimStart(s)|];
  }

  /** `s` with its trailing white space removed. */
  function TrimEnd(s: string): (r: string)
    ensures |r| <= |s|
  {
    if |s| > 0 && IsSpace(s[|s| - 1]) then TrimEnd(s[..|s| - 1]) else s
  }

  /** `trimEnd` removes exactly the trailing run of white space. */
  lemma {:induction false} TrimEndShape(s: string)
    ensures var r := TrimEnd(s);
      r == s[..|r|] && (r == [] || !IsSpace(r[|r| - 1])) &&
      forall i :: |r| <= i < |s| ==> IsSpace(s[i])
  {
    if |s| > 0 && IsSpace(s[|s| - 1]) {
      TrimEndShape(s[..|s| - 1]);
    }
  }

  /** `String.prototype.trim`. */
  function Trim(s: string): string {
    TrimEnd(TrimStart(s))
  }

  /** A string that neither starts nor ends with white space is its own trim. */
  lemma TrimOfEdges(s: string)
    requires s != [] && !IsSpace(s[0]) && !IsSpace(s[|s| - 1])
    ensures Trim(s) == s
  {
    assert TrimStart(s) == s;
  }

  lemma TrimOfNoSpace(s: string)
    requires NoSpace(s)
    ensures Trim(s) == s
  {
  }

  /** `s.replace(/\s+/g, " ")`: every maximal run of white space becomes one space. */
  function Collapse(s: string): string
    decreases |s|
  {
    if s == [] then []
    else if IsSpace(s[0]) then [' '] + Collapse(TrimStart(s))
    else [s[0]] + Collapse(s[1..])
  }

  // ---------------------------------------------------------------------------------------
  // Splitting and joining on one character

  /** `s.split(c)` for a one-character string separator `c`. */
  function SplitOn(s: string, c: char): (r: seq<string>)
    ensures |r| > 0
    ensures forall k :: 0 <= k < |r| ==> c !in r[k]
  {
    if s == [] then [[]]
    else
      var rest := SplitOn(s[1..], c);
      if s[0] == c then [[]] + rest else [[s[0]] + rest[0]] + rest[1..]
  }

  /** `parts.join(c)`. */
  function JoinOn(parts: seq<string>, c: char): string
  {
    if |parts| <= 1 then (if parts == [] then [] else parts[0])
    else parts[0] + [c] + JoinOn(parts[1..], c)
  }

  /** Joining is the inverse of splitting. */
  lemma {:induction false} JoinSplit(s: string, c: char)
    ensures JoinOn(SplitOn(s, c), c) == s
  {
    if s != [] {
      JoinSplit(s[1..], c);
      var rest := SplitOn(s[1..], c);
      if s[0] != c {
        assert SplitOn(s, c) == [[s[0]] + rest[0]] + rest[1..];
        if |rest| > 1 {
          assert rest == [rest[0]] + rest[1..];
        }
      }
    }
  }

  /** Splitting is the inverse of joining pieces that do not contain the separator. */
  lemma {:induction false} SplitJoin(parts: seq<string>, c: char)
    requires |parts| > 0
    requires forall k :: 0 <= k < |parts| ==> c !in parts[k]
    ensures SplitOn(JoinOn(parts, c), c) == parts
  {
    if |parts| == 1 {
      SplitPiece(parts[0], c, []);
      assert parts[0] + [] == parts[0];
      assert SplitOn([], c) == [[]];
    } else {
      SplitJoin(parts[1..], c);
      SplitPiece(parts[0], c, [c] + JoinOn(parts[1..], c));
      assert parts[0] + [c] + JoinOn(parts[1..], c) == parts[0] + ([c] + JoinOn(parts[1..], c));
      var j := [c] + JoinOn(parts[1..], c);
      assert j[0] == c && j[1..] == JoinOn(parts[1..], c);
      assert SplitOn(j, c) == [[]] + parts[1..];
      assert parts[0] + [] == parts[0];
      assert [parts[0]] + parts[1..] == parts;
    }
  }

  /** Splitting `p + rest`, where `p` holds no separator, extends the first piece of `rest`. */
  lemma {:induction false} SplitPiece(p: string, c: char, rest: string)
    requires c !in p
    ensures var r := SplitOn(rest, c);
      SplitOn(p + rest, c) == [p + r[0]] + r[1..]
  {
    if p != [] {
      SplitPiece(p[1..], c, rest);
      assert (p + rest)[1..] == p[1..] + rest;
      assert [p[0]] + (p[1..] + SplitOn(rest, c)[0]) == p + SplitOn(rest, c)[0];
    } else {
      assert p + rest == rest;
      var r := SplitOn(rest, c);
      assert p + r[0] == r[0];
      assert r == [r[0]] + r[1..];
    }
  }

  // ---------------------------------------------------------------------------------------
  // Character classes and the small regular expressions

  predicate IsDigit(c: char) { '0' <= c <= '9' }

  predicate IsUpperAlnum(c: char) { 'A' <= c <= 'Z' || IsDigit(c) }

  predicate IsAsciiLetter(c: char) { 'A' <= c <= 'Z' || 'a' <= c <= 'z' }

  /** `toUpperCase` of one ASCII letter. */
  function AsciiUpper(c: char): char {
    if 'a' <= c <= 'z' then (c as int - 32) as char else c
  }

  /** `toUpperCase` of one character, as far as the result can contain `A`-`Z`: ASCII letters,
      the dotless i and the long s, and the sharp s and the Latin ligatures, which expand to
      several letters. Every other character is kept as it is; its real upper-case form never
      consists of ASCII letters and digits only. */
  function UpperOf(c: char): string {
    if 'a' <= c <= 'z' then [AsciiUpper(c)]
    else if c == '\U{131}' then "I"
    else if c == '\U{17F}' then "S"
    else if c == '\U{DF}' then "SS"
    else if c == '\U{FB00}' then "FF"
    else if c == '\U{FB01}' then "FI"
    else if c == '\U{FB02}' then "FL"
    else if c == '\U{FB03}' then "FFI"
    else if c == '\U{FB04}' then "FFL"
    else if c == '\U{FB05}' || c == '\U{FB06}' then "ST"
    else [c]
  }

  /** `String.prototype.toUpperCase`, character by character. */
  function ToUpper(s: string): string {
    if s == [] then [] else UpperOf(s[0]) + ToUpper(s[1..])
  }

  /** `/^\d{2}:\d{2}$/` */
  predicate IsTime(s: string) {
    |s| == 5 && IsDigit(s[0]) && IsDigit(s[1]) && s[2] == ':' && IsDigit(s[3]) && IsDigit(s[4])
  }

  /** `/^\d{2}$/` */
  predicate IsTwoDigits(s: string) {
    |s| == 2 && IsDigit(s[0]) && IsDigit(s[1])
  }

  /** `/^[A-Z0-9]{2}$/` */
  predicate IsTypeCode(s: string) {
    |s| == 2 && IsUpperAlnum(s[0]) && IsUpperAlnum(s[1])
  }

  /** `/^[A-Z0-9]{2}$/i` */
  predicate IsTypeCodeAnyCase(s: string) {
    |s| == 2 && (IsAsciiLetter(s[0]) || IsDigit(s[0])) && (IsAsciiLetter(s[1]) || IsDigit(s[1]))
  }

  /** Whatever the case-insensitive pattern accepts, the upper-cased string is accepted by the
      case-sensitive one, and a code that is already upper-case is left alone. */
  lemma TypeCodeUpper(s: string)
    ensures IsTypeCodeAnyCase(s) ==>
      ToUpper(s) == [AsciiUpper(s[0]), AsciiUpper(s[1])] && IsTypeCode(ToUpper(s))
    ensures IsTypeCode(s) ==> ToUpper(s) == s
  {
    if |s| == 2 {
      var t := s[1..];
      assert t[0] == s[1] && t[1..] == [];
      assert ToUpper(t) == UpperOf(s[1]) + ToUpper([]);
      assert ToUpper(s) == UpperOf(s[0]) + ToUpper(t);
    }
  }

  /** The converse fails: `"ß".toUpperCase()` is `"SS"`, a code for the case-sensitive
      pattern, while the case-insensitive pattern rejects `"ß"` itself. */
  lemma SharpSUpper()
    ensures ToUpper("\U{DF}") == "SS" && IsTypeCode(ToUpper("\U{DF}"))
    ensures !IsTypeCodeAnyCase("\U{DF}")
  {
  }

  // ---------------------------------------------------------------------------------------
  // parseInt(s, 10)

  predicate AllDigits(s: string) {
    forall i :: 0 <= i < |s| ==> IsDigit(s[i])
  }

  /** The longest prefix of `s` made of decimal digits. */
  function LeadingDigits(s: string): (r: string)
    ensures r <= s && AllDigits(r)
    ensures |r| == |s| || !IsDigit(s[|r|])
  {
    if |s| > 0 && IsDigit(s[0]) then [s[0]] + LeadingDigits(s[1..]) else []
  }

  function DigitValue(c: char): nat
    requires IsDigit(c)
  {
    c as int - '0' as int
  }

  /** The value of a string of decimal digits, most significant first. */
  function DigitsValue(ds: string): nat
    requires AllDigits(ds)
  {
    if ds == [] then 0 else 10 * DigitsValue(ds[..|ds| - 1]) + DigitValue(ds[|ds| - 1])
  }

  /** `parseInt(s, 10)`: skip leading white space, read an optional sign, then the longest run
      of decimal digits; `None` stands for `NaN`, the result when that run is empty. */
  function ParseInt(s: string): Option<int>
  {
    ParseSigned(TrimStart(s))
  }

  function ParseSigned(t: string): Option<int>
  {
    if t == [] then None
    else if t[0] == '-' then
      match ParseDigits(t[1..])
      case None => None
      case Some(v) => Some(-v)
    else if t[0] == '+' then ParseDigits(t[1..])
    else ParseDigits(t)
  }

  /** The value of the leading run of digits of `b`, if there is one. */
  function ParseDigits(b: string): Option<int>
  {
    var ds := LeadingDigits(b);
    if ds == [] then None else Some(DigitsValue(ds))
  }

  /** `parseInt(s, 10) || 0`: `NaN` (and zero) become zero. */
  function IntOrZero(s: string): int
  {
    match ParseInt(s)
    case None => 0
    case Some(v) => v
  }

  function DigitChar(d: nat): (c: char)
    requires d < 10
    ensures IsDigit(c) && DigitValue(c) == d
  {
    ('0' as int + d) as char
  }

  /** The decimal numeral of `n`, as `String(n)` writes it. */
  function NatToDecimal(n: nat): (r: string)
    ensures r != [] && AllDigits(r)
  {
    if n < 10 then [DigitChar(n)] else NatToDecimal(n / 10) + [DigitChar(n % 10)]
  }

  function IntToDecimal(n: int): string
  {
    if n < 0 then "-" + NatToDecimal(-n) else NatToDecimal(n)
  }

  lemma {:induction false} DigitsValueOfDecimal(n: nat)
    ensures DigitsValue(NatToDecimal(n)) == n
  {
    if n >= 10 {
      DigitsValueOfDecimal(n / 10);
      var s := NatToDecimal(n);
      assert s[..|s| - 1] == NatToDecimal(n / 10);
    }
  }

  lemma {:induction false} LeadingDigitsOfDigits(ds: string, rest: string)
    requires AllDigits(ds)
    requires rest == [] || !IsDigit(rest[0])
    ensures LeadingDigits(ds + rest) == ds
  {
    if ds != [] {
      LeadingDigitsOfDigits(ds[1..], rest);
      assert (ds + rest)[1..] == ds[1..] + rest;
    } else {
      assert ds + rest == rest;
    }
  }

  /** `parseInt` reads back the numeral of any integer, whatever non-digit text follows it:
      this is the "leading integer" behaviour the parser relies on (`"30s"` reads as 30). */
  lemma ParseIntLeading(n: int, rest: string)
    requires rest == [] || !IsDigit(rest[0])
    ensures ParseInt(IntToDecimal(n) + rest) == Some(n)
  {
    if n < 0 {
      ParseIntLeadingNegative(-n, rest);
    } else {
      ParseIntLeadingNat(n, rest);
    }
  }

  lemma ParseIntLeadingNat(m: nat, rest: string)
    requires rest == [] || !IsDigit(rest[0])
    ensures ParseInt(IntToDecimal(m) + rest) == Some(m)
  {
    var ds := NatToDecimal(m);
    assert IntToDecimal(m) == ds;
    LeadingDigitsOfDigits(ds, rest);
    DigitsValueOfDecimal(m);
    ParseUnsigned(ds + rest, m);
  }

  lemma ParseIntLeadingNegative(m: nat, rest: string)
    requires m > 0
    requires rest == [] || !IsDigit(rest[0])
    ensures ParseInt(IntToDecimal(-(m as int)) + rest) == Some(-(m as int))
  {
    var ds := NatToDecimal(m);
    assert IntToDecimal(-(m as int)) == "-" + ds;
    LeadingDigitsOfDigits(ds, rest);
    DigitsValueOfDecimal(m);
    assert "-" + ds + rest == ['-'] + (ds + rest);
    ParseNegative(ds + rest, m);
  }

  lemma ParseUnsigned(s: string, m: nat)
    requires s != [] && IsDigit(s[0])
    requires ParseDigits(s) == Some(m)
    ensures ParseInt(s) == Some(m)
  {
    NotSpaceStart(s);
    assert ParseSigned(s) == ParseDigits(s);
  }

  lemma NotSpaceStart(s: string)
    requires s != [] && (IsDigit(s[0]) || s[0] == '-')
    ensures TrimStart(s) == s
  {
    assert !IsSpace(s[0]);
  }

  lemma ParseNegative(body: string, m: nat)
    requires ParseDigits(body) == Some(m)
    ensures ParseInt(['-'] + body) == Some(-(m as int))
  {
    var s := ['-'] + body;
    NotSpaceStart(s);
    assert s[1..] == body;
  }

  /** `parseInt` yields `NaN` exactly when no digit follows the optional sign. */
  lemma ParseIntNaN(s: string)
    ensures ParseInt(s) == None <==>
      var t := TrimStart(s);
      var body := if |t| > 0 && (t[0] == '-' || t[0] == '+') then t[1..] else t;
      body == [] || !IsDigit(body[0])
  {
  }

  // ---------------------------------------------------------------------------------------
  // String comparison

  /** `a <= b` on strings: lexicographic order of characters, a proper prefix first. */
  predicate StrLe(a: string, b: string)
    decreases |a|
  {
    if a == [] then true
    else if b == [] then false
    else if a[0] != b[0] then a[0] < b[0]
    else StrLe(a[1..], b[1..])
  }
}
