/** String helpers with Python's semantics: strip, replace, join, split, str(int), int(str), format. */
module Text {
  import opened Wrappers

  /** The characters for which Python's str.isspace holds. */
  predicate IsSpace(c: char) {
    || ('\t' <= c <= '\r') || ('\U{1c}' <= c <= '\U{1f}') || c == ' ' || c == '\U{85}' || c == '\U{a0}'
    || c == '\U{1680}' || ('\U{2000}' <= c <= '\U{200a}') || c == '\U{2028}' || c == '\U{2029}'
    || c == '\U{202f}' || c == '\U{205f}' || c == '\U{3000}'
  }

  predicate StartsWith(s: string, prefix: string) {
    |prefix| <= |s| && s[..|prefix|] == prefix
  }

  predicate EndsWith(s: string, suffix: string) {
    |suffix| <= |s| && s[|s| - |suffix|..] == suffix
  }

  function TrimLeft(s: string): (r: string)
    ensures |r| <= |s| && r == s[|s| - |r|..]
    ensures r == [] || !IsSpace(r[0])
  {
    if s != [] && IsSpace(s[0]) then TrimLeft(s[1..]) else s
  }

  lemma {:induction false} TrimLeftDropsSpace(s: string)
    ensures forall i :: 0 <= i < |s| - |TrimLeft(s)| ==> IsSpace(s[i])
  {
    if s != [] && IsSpace(s[0]) {
      TrimLeftDropsSpace(s[1..]);
    }
  }

  function TrimRight(s: string): (r: string)
    ensures |r| <= |s| && r == s[..|r|]
    ensures r == [] || !IsSpace(r[|r| - 1])
  {
    if s != [] && IsSpace(s[|s| - 1]) then TrimRight(s[..|s| - 1]) else s
  }

  lemma {:induction false} TrimRightDropsSpace(s: string)
    ensures forall i :: |TrimRight(s)| <= i < |s| ==> IsSpace(s[i])
  {
    if s != [] && IsSpace(s[|s| - 1]) {
      TrimRightDropsSpace(s[..|s| - 1]);
    }
  }

  /** `s.strip()`: drop leading and trailing whitespace. */
  function Strip(s: string): (r: string)
  {
    TrimRight(TrimLeft(s))
  }

  /** Strip keeps the block of s that starts where TrimLeft starts. */
  lemma StripBlock(s: string)
    ensures var start := |s| - |TrimLeft(s)|;
      start + |Strip(s)| <= |s| && Strip(s) == s[start..start + |Strip(s)|]
  {
    var l := TrimLeft(s);
    var start := |s| - |l|;
    assert l == s[start..];
    assert TrimRight(l) == l[..|TrimRight(l)|];
  }

  /** The kept block neither starts nor ends with whitespace. */
  lemma StripEnds(s: string)
    ensures Strip(s) == [] || (!IsSpace(Strip(s)[0]) && !IsSpace(Strip(s)[|Strip(s)| - 1]))
  {
    var l := TrimLeft(s);
    var r := TrimRight(l);
    if r != [] {
      assert r == l[..|r|];
      assert r[0] == l[0];
    }
  }

  /** Everything outside the kept block is whitespace. */
  lemma StripDropsSpace(s: string)
    ensures var start := |s| - |TrimLeft(s)|;
      forall i :: 0 <= i < |s| && !(start <= i < start + |Strip(s)|) ==> IsSpace(s[i])
  {
    var l := TrimLeft(s);
    var start := |s| - |l|;
    var r := TrimRight(l);
    forall i | 0 <= i < |s| && !(start <= i < start + |r|) ensures IsSpace(s[i]) {
      if i < start {
        TrimLeftDropsSpace(s);
      } else {
        TrimRightDropsSpace(l);
        assert s[i] == l[i - start];
      }
    }
  }

  /** Strip keeps a contiguous block of s whose ends are not whitespace, and drops only whitespace. */
  lemma StripIsInfix(s: string) returns (start: nat)
    ensures start + |Strip(s)| <= |s| && Strip(s) == s[start..start + |Strip(s)|]
    ensures Strip(s) == [] || (!IsSpace(Strip(s)[0]) && !IsSpace(Strip(s)[|Strip(s)| - 1]))
    ensures forall i :: 0 <= i < |s| && !(start <= i < start + |Strip(s)|) ==> IsSpace(s[i])
  {
    start := |s| - |TrimLeft(s)|;
    StripBlock(s);
    StripEnds(s);
    StripDropsSpace(s);
  }

  /** A string is blank (strips to "") exactly when every character is whitespace. */
  lemma {:induction false} StripEmptyIff(s: string)
    ensures Strip(s) == [] <==> forall i :: 0 <= i < |s| ==> IsSpace(s[i])
  {
    var start := StripIsInfix(s);
    if Strip(s) != [] {
      assert s[start] == Strip(s)[0];
    }
  }

  /** Stripping a string whose ends are not whitespace changes nothing; in particular Strip is idempotent. */
  lemma {:induction false} StripIdempotent(s: string)
    ensures Strip(Strip(s)) == Strip(s)
  {
    var r := Strip(s);
    var _ := StripIsInfix(s);
    assert TrimLeft(r) == r;
  }

  /** `s.replace(a, b)` for one-character a and b. */
  function Replace(s: string, a: char, b: char): (r: string)
    ensures |r| == |s|
  {
    if s == [] then [] else [if s[0] == a then b else s[0]] + Replace(s[1..], a, b)
  }

  /** Replace turns every a into b and leaves every other character where it was. */
  lemma {:induction false} ReplaceAt(s: string, a: char, b: char)
    ensures forall i :: 0 <= i < |s| ==> Replace(s, a, b)[i] == if s[i] == a then b else s[i]
  {
    if s != [] {
      ReplaceAt(s[1..], a, b);
      var r := Replace(s, a, b);
      forall i | 0 <= i < |s| ensures r[i] == if s[i] == a then b else s[i] {
        if i > 0 { assert r[i] == Replace(s[1..], a, b)[i - 1]; }
      }
    }
  }

  /** `sep.join(parts)`. */
  function Join(parts: seq<string>, sep: string): string
  {
    if |parts| == 0 then ""
    else if |parts| == 1 then parts[0]
    else parts[0] + sep + Join(parts[1..], sep)
  }

  /** `s.split(sep)` for a one-character separator. */
  function Split(s: string, sep: char): (r: seq<string>)
    ensures |r| >= 1
  {
    if s == [] then [""]
    else
      var rest := Split(s[1..], sep);
      if s[0] == sep then [""] + rest else [[s[0]] + rest[0]] + rest[1..]
  }

  lemma {:induction false} SplitNoSep(a: string, sep: char)
    requires sep !in a
    ensures Split(a, sep) == [a]
  {
    if a != [] {
      SplitNoSep(a[1..], sep);
      assert [a[0]] + a[1..] == a;
    }
  }

  lemma {:induction false} SplitAfterPart(a: string, sep: char, t: string)
    requires sep !in a
    ensures Split(a + [sep] + t, sep) == [a] + Split(t, sep)
  {
    if a == [] {
      assert a + [sep] + t == [sep] + t;
      assert ([sep] + t)[1..] == t;
    } else {
      SplitAfterPart(a[1..], sep, t);
      assert (a + [sep] + t)[1..] == a[1..] + [sep] + t;
      assert [a[0]] + a[1..] == a;
    }
  }

  /** Splitting the joined parts gives the parts back when no part holds the separator. */
  lemma {:induction false} SplitJoin(parts: seq<string>, sep: char)
    requires |parts| >= 1
    requires forall i :: 0 <= i < |parts| ==> sep !in parts[i]
    ensures Split(Join(parts, [sep]), sep) == parts
  {
    if |parts| == 1 {
      SplitNoSep(parts[0], sep);
    } else {
      SplitJoin(parts[1..], sep);
      SplitAfterPart(parts[0], sep, Join(parts[1..], [sep]));
      assert [parts[0]] + parts[1..] == parts;
    }
  }

  function DigitChar(d: int): char
    requires 0 <= d < 10
  {
    "0123456789"[d]
  }

  function NatString(n: nat): (r: string)
    ensures |r| >= 1 && forall i :: 0 <= i < |r| ==> '0' <= r[i] <= '9'
  {
    if n < 10 then [DigitChar(n)] else NatString(n / 10) + [DigitChar(n % 10)]
  }

  /** `str(n)` for a Python int. */
  function DecimalString(n: int): string
  {
    if n < 0 then "-" + NatString(-n) else NatString(n)
  }

  predicate AllDigits(s: string) {
    forall i :: 0 <= i < |s| ==> '0' <= s[i] <= '9'
  }

  function DigitsValue(s: string): nat
    requires AllDigits(s)
  {
    if s == [] then 0 else 10 * DigitsValue(s[..|s| - 1]) + (s[|s| - 1] - '0') as int
  }

  /** `int(s)` for a string: optional surrounding whitespace, an optional sign, ASCII digits. */
  function ParseInt(s: string): (r: Option<int>)
  {
    var t := Strip(s);
    if t != [] && (t[0] == '-' || t[0] == '+') then
      var d := t[1..];
      if d != [] && AllDigits(d) then
        var m: int := DigitsValue(d);
        Some(if t[0] == '-' then -m else m)
      else None
    else if t != [] && AllDigits(t) then Some(DigitsValue(t))
    else None
  }

  /** A file-name template with one named placeholder, as used with str.format. */
  datatype Piece = Lit(text: string) | Hole

  function Format(template: seq<Piece>, value: string): string
  {
    if template == [] then ""
    else (match template[0] case Lit(t) => t case Hole => value) + Format(template[1..], value)
  }

  /** `Path(dir) / name`. */
  function PathJoin(dir: string, name: string): string {
    dir + "/" + name
  }
}
