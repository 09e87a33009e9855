/**
 * The parts of Go's `strings`, `fmt` and `path/filepath` packages that the
 * pipeline relies on, written out so that their behaviour can be reasoned
 * about: splitting on a separator, `%d` formatting, ASCII lower-casing,
 * `filepath.Ext` and the single-pass `strings.Replacer`.
 */
module Strings {

  /** Number of occurrences of `c` in `s`. */
  function Count(s: string, c: char): nat
  {
    if s == [] then 0 else (if s[0] == c then 1 else 0) + Count(s[1..], c)
  }

  lemma {:induction false} CountZero(s: string, c: char)
    ensures Count(s, c) == 0 <==> c !in s
  {
    if s != [] {
      CountZero(s[1..], c);
      assert s == [s[0]] + s[1..];
    }
  }

  /** `strings.Join(parts, string(sep))`. */
  function Join(parts: seq<string>, sep: char): string
    requires |parts| >= 1
  {
    if |parts| == 1 then parts[0] else parts[0] + [sep] + Join(parts[1..], sep)
  }

  /**
   * `strings.Split(s, string(sep))`: the pieces between separators, so one
   * more piece than there are separators (the empty string splits into [""]).
   */
  function Split(s: string, sep: char): (parts: seq<string>)
    ensures |parts| == Count(s, sep) + 1
    ensures forall i :: 0 <= i < |parts| ==> sep !in parts[i]
    ensures Join(parts, sep) == s
  {
    if s == [] then [""]
    else
      var rest := Split(s[1..], sep);
      if s[0] == sep then
        assert ([""] + rest)[1..] == rest;
        [""] + rest
      else
        var parts := [[s[0]] + rest[0]] + rest[1..];
        assert |rest| > 1 ==> parts[1..] == rest[1..] && Join(rest, sep) == rest[0] + [sep] + Join(rest[1..], sep);
        parts
  }

  /** Splitting a word that has no separator in front of `tail` extends the first piece of `tail`. */
  lemma {:induction false} SplitPrefix(a: string, tail: string, sep: char)
    requires sep !in a
    ensures Split(a + tail, sep) == [a + Split(tail, sep)[0]] + Split(tail, sep)[1..]
  {
    if a != [] {
      SplitPrefix(a[1..], tail, sep);
      assert (a + tail)[1..] == a[1..] + tail;
      assert [a[0]] + (a[1..] + Split(tail, sep)[0]) == a + Split(tail, sep)[0];
    } else {
      var t := Split(tail, sep);
      assert a + tail == tail;
      assert t == [t[0]] + t[1..];
      assert a + t[0] == t[0];
    }
  }

  /** Round trip: splitting a join of separator-free pieces gives the pieces back. */
  lemma {:induction false} SplitJoin(parts: seq<string>, sep: char)
    requires |parts| >= 1
    requires forall i :: 0 <= i < |parts| ==> sep !in parts[i]
    ensures Split(Join(parts, sep), sep) == parts
  {
    if |parts| == 1 {
      assert parts[0] + "" == parts[0];
      assert Split("", sep) == [""];
      SplitPrefix(parts[0], "", sep);
      assert Split(parts[0] + "", sep) == [parts[0] + ""] + [];
      assert Join(parts, sep) == parts[0];
      assert parts == [parts[0]];
    } else {
      var tail := Join(parts[1..], sep);
      SplitJoin(parts[1..], sep);
      assert parts[0] + [sep] + tail == parts[0] + ([sep] + tail);
      SplitPrefix(parts[0], [sep] + tail, sep);
      assert ([sep] + tail)[1..] == tail;
      var t := Split([sep] + tail, sep);
      assert t == [""] + parts[1..];
      assert t[0] == "" && t[1..] == parts[1..];
      assert parts[0] + "" == parts[0];
      assert Join(parts, sep) == parts[0] + ([sep] + tail);
      assert parts == [parts[0]] + parts[1..];
    }
  }

  predicate IsDigit(c: char) {
    '0' <= c <= '9'
  }

  function DigitChar(d: nat): (c: char)
    requires d < 10
    ensures IsDigit(c)
  {
    ('0' as int + d) as char
  }

  function DigitValue(c: char): (d: nat)
    requires IsDigit(c)
    ensures d < 10 && DigitChar(d) == c
  {
    c as int - '0' as int
  }

  /** Base-ten digits of a natural number, most significant first, no leading zero. */
  function Digits(n: nat): (s: string)
    ensures |s| >= 1
    ensures forall i :: 0 <= i < |s| ==> IsDigit(s[i])
  {
    if n < 10 then [DigitChar(n)] else Digits(n / 10) + [DigitChar(n % 10)]
  }

  /** The `%d` verb of `fmt`: an optional '-' followed by the digits of |n|. */
  function Decimal(n: int): (s: string)
    ensures |s| >= 1
    ensures s[0] == '-' <==> n < 0
    ensures n >= 0 ==> IsDigit(s[0])
    ensures forall i :: 0 < i < |s| ==> IsDigit(s[i])
  {
    if n < 0 then "-" + Digits(-n) else Digits(n)
  }

  predicate AllDigits(s: string) {
    forall i :: 0 <= i < |s| ==> IsDigit(s[i])
  }

  /** Reads a digit string back (the inverse of `Digits`). */
  function ParseDigits(s: string): nat
    requires AllDigits(s)
  {
    if s == [] then 0 else 10 * ParseDigits(s[..|s| - 1]) + DigitValue(s[|s| - 1])
  }

  /** Reads a `%d` rendering back. */
  function ParseDecimal(s: string): int
    requires |s| >= 1 && AllDigits(s[1..]) && (s[0] == '-' || IsDigit(s[0]))
  {
    if s[0] == '-' then -(ParseDigits(s[1..]) as int) else ParseDigits(s)
  }

  lemma {:induction false} DigitsRoundTrip(n: nat)
    ensures ParseDigits(Digits(n)) == n
  {
    if n >= 10 {
      DigitsRoundTrip(n / 10);
      var s := Digits(n);
      assert s[..|s| - 1] == Digits(n / 10);
    }
  }

  /** Round trip: `%d` loses nothing, so distinct numbers render differently. */
  lemma DecimalRoundTrip(n: int)
    ensures ParseDecimal(Decimal(n)) == n
  {
    if n < 0 {
      DigitsRoundTrip(-n);
      assert Decimal(n)[1..] == Digits(-n);
    } else {
      DigitsRoundTrip(n);
    }
  }

  /** ASCII case folding of one character (what `strings.ToLower` does on ASCII input). */
  function LowerChar(c: char): char
  {
    if 'A' <= c <= 'Z' then (c as int + 32) as char else c
  }

  /**
   * `strings.ToLower` restricted to ASCII case: 'A' to 'Z' are lowered and
   * every other character, including non-ASCII letters, is kept.
   */
  function ToLower(s: string): (r: string)
    ensures |r| == |s|
    ensures forall i :: 0 <= i < |s| ==> r[i] == LowerChar(s[i])
  {
    if s == [] then [] else [LowerChar(s[0])] + ToLower(s[1..])
  }

  /**
   * The loop of `filepath.Ext`, scanning from index `i` towards the front: the
   * suffix from the last '.' of the final path element, or "" when that
   * element has no '.'.
   */
  function ExtScan(path: string, i: int): (e: string)
    requires -1 <= i < |path|
    ensures |e| <= |path|
    ensures e != [] ==> e[0] == '.' && e == path[|path| - |e|..] && |path| - |e| <= i
    ensures e != [] ==> forall j :: |path| - |e| < j <= i ==> path[j] != '.' && path[j] != '/'
    ensures e == [] ==> forall j :: 0 <= j <= i && path[j] == '.' ==> exists k :: j < k <= i && path[k] == '/'
    decreases i + 1
  {
    if i < 0 || path[i] == '/' then ""
    else if path[i] == '.' then path[i..]
    else ExtScan(path, i - 1)
  }

  /** `filepath.Ext` with '/' as the path separator. */
  function Ext(path: string): (e: string)
    ensures |e| <= |path|
    ensures e != [] ==> e[0] == '.' && e == path[|path| - |e|..]
    ensures e != [] ==> '.' !in e[1..] && '/' !in e
  {
    var e := ExtScan(path, |path| - 1);
    assert e != [] ==> forall c :: c in e[1..] ==> c != '.' && c != '/' by {
      if e != [] {
        forall c | c in e[1..] ensures c != '.' && c != '/' {
          var j :| 0 <= j < |e[1..]| && e[1..][j] == c;
          assert c == path[|path| - |e| + 1 + j];
        }
      }
    }
    e
  }

  /** One `old, new` argument pair of `strings.NewReplacer`. */
  datatype Pair = Pair(pattern: string, replacement: string)

  /** Index of the first pair, in argument order, whose pattern starts `s`; -1 if none. */
  function FirstMatch(pairs: seq<Pair>, s: string): (k: int)
    ensures -1 <= k < |pairs|
    ensures k >= 0 ==> pairs[k].pattern <= s
    ensures forall j :: 0 <= j < |pairs| && (k < 0 || j < k) ==> !(pairs[j].pattern <= s)
  {
    if pairs == [] then -1
    else if pairs[0].pattern <= s then 0
    else
      var k := FirstMatch(pairs[1..], s);
      if k < 0 then -1 else k + 1
  }

  /**
   * `strings.NewReplacer(pairs...).Replace(s)`: the target is scanned left to
   * right; where a pattern starts, the first such pair in argument order
   * is replaced and scanning resumes after the matched text, so inserted text
   * is never rescanned.
   */
  function Replace(s: string, pairs: seq<Pair>): string
    requires forall j :: 0 <= j < |pairs| ==> pairs[j].pattern != []
    decreases |s|
  {
    if s == [] then ""
    else
      var k := FirstMatch(pairs, s);
      if k < 0 then [s[0]] + Replace(s[1..], pairs)
      else pairs[k].replacement + Replace(s[|pairs[k].pattern|..], pairs)
  }

  /** Text holding no first character of any pattern is copied through unchanged. */
  lemma {:induction false} ReplaceSkipsLiteral(lit: string, rest: string, pairs: seq<Pair>)
    requires forall j :: 0 <= j < |pairs| ==> pairs[j].pattern != [] && pairs[j].pattern[0] !in lit
    ensures Replace(lit + rest, pairs) == lit + Replace(rest, pairs)
  {
    if lit != [] {
      var s := lit + rest;
      assert s[0] == lit[0];
      assert FirstMatch(pairs, s) < 0;
      assert s[1..] == lit[1..] + rest;
      ReplaceSkipsLiteral(lit[1..], rest, pairs);
      assert lit == [lit[0]] + lit[1..];
    } else {
      assert lit + rest == rest;
    }
  }

  /** No pattern starts at any of the first `n` positions of `s`. */
  predicate NoMatchBefore(s: string, n: nat, pairs: seq<Pair>)
    requires n <= |s|
  {
    forall i :: 0 <= i < n ==> FirstMatch(pairs, s[i..]) < 0
  }

  /** The first `n` characters, at none of which a pattern starts, are copied through unchanged. */
  lemma {:induction false} ReplaceSkips(s: string, n: nat, pairs: seq<Pair>)
    requires forall j :: 0 <= j < |pairs| ==> pairs[j].pattern != []
    requires n <= |s| && NoMatchBefore(s, n, pairs)
    ensures Replace(s, pairs) == s[..n] + Replace(s[n..], pairs)
    decreases n
  {
    if n > 0 {
      assert FirstMatch(pairs, s[0..]) < 0;
      assert s[0..] == s;
      assert NoMatchBefore(s[1..], n - 1, pairs) by {
        forall i | 0 <= i < n - 1 ensures FirstMatch(pairs, s[1..][i..]) < 0 {
          assert s[1..][i..] == s[i + 1..];
        }
      }
      ReplaceSkips(s[1..], n - 1, pairs);
      assert s[1..][n - 1..] == s[n..];
      assert s[..n] == [s[0]] + s[1..][..n - 1];
    } else {
      assert s[..0] + s[0..] == s;
    }
  }

  /** A text in which no pattern starts at any position is returned unchanged. */
  lemma ReplaceIdentity(s: string, pairs: seq<Pair>)
    requires forall j :: 0 <= j < |pairs| ==> pairs[j].pattern != []
    requires NoMatchBefore(s, |s|, pairs)
    ensures Replace(s, pairs) == s
  {
    ReplaceSkips(s, |s|, pairs);
    assert s[..|s|] == s && s[|s|..] == [];
  }
}
