/**
 * Character and string helpers shared by the modules: Python's whitespace
 * splits, joining, ASCII lower-casing, decimal digits and the lexicographic
 * order that `sorted` uses on strings.
 */
module Strings {
  /** Which `split()` runs: that of Python 2's byte strings (`str`) or that of its `unicode` strings. */
  datatype Text = Bytes | Unicode

  /** The characters a byte string's `split()` treats as whitespace. */
  predicate IsSpace(c: char)
  {
    c == ' ' || c == '\t' || c == '\n' || c == '\r' || c == '\U{B}' || c == '\U{C}'
  }

  /**
   * The further characters a `unicode` string's `split()` treats as
   * whitespace in Python 2.7, whose character database is Unicode 5.2: the
   * separators \x1c to \x1f, NEL, the no-break spaces and the space
   * separators (U+180E among them), and the line and paragraph separators.
   */
  predicate IsWideSpace(c: char)
  {
    || '\U{1C}' <= c <= '\U{1F}' || c == '\U{85}' || c == '\U{A0}' || c == '\U{1680}' || c == '\U{180E}'
    || '\U{2000}' <= c <= '\U{200A}' || c == '\U{2028}' || c == '\U{2029}' || c == '\U{202F}' || c == '\U{205F}'
    || c == '\U{3000}'
  }

  /** Whitespace for the `split()` of `k`. */
  predicate SpaceIn(k: Text, c: char)
  {
    IsSpace(c) || (k == Unicode && IsWideSpace(c))
  }

  predicate NoSpace(s: string, k: Text)
  {
    forall i :: 0 <= i < |s| ==> !SpaceIn(k, s[i])
  }

  /** Every character is ASCII, so the UTF-8 bytes of `s` all lie below 0x80. */
  predicate Ascii(s: string)
  {
    forall i :: 0 <= i < |s| ==> s[i] <= '\U{7F}'
  }

  lemma AsciiAppend(a: string, b: string)
    ensures Ascii(a + b) <==> Ascii(a) && Ascii(b)
  {
    if Ascii(a + b) {
      assert forall i :: 0 <= i < |a| ==> a[i] == (a + b)[i];
      assert forall i :: 0 <= i < |b| ==> b[i] == (a + b)[|a| + i];
    }
  }

  /** The longest prefix of `s` that holds no whitespace. */
  function Token(s: string, k: Text): (t: string)
    ensures |t| <= |s| && t == s[..|t|] && NoSpace(t, k)
    ensures |t| < |s| ==> SpaceIn(k, s[|t|])
  {
    if |s| == 0 || SpaceIn(k, s[0]) then "" else [s[0]] + Token(s[1..], k)
  }

  /** Python's `s.split()`: the maximal runs of non-whitespace, left to right. */
  function Words(s: string, k: Text): (ws: seq<string>)
    ensures forall i :: 0 <= i < |ws| ==> |ws[i]| > 0 && NoSpace(ws[i], k)
    decreases |s|
  {
    if |s| == 0 then []
    else if SpaceIn(k, s[0]) then Words(s[1..], k)
    else
      var t := Token(s, k);
      [t] + Words(s[|t|..], k)
  }

  /** A token followed by whitespace or nothing is read whole. */
  lemma {:induction false} TokenOf(a: string, rest: string, k: Text)
    requires NoSpace(a, k)
    requires |rest| == 0 || SpaceIn(k, rest[0])
    ensures Token(a + rest, k) == a
  {
    if |a| > 0 {
      assert (a + rest)[1..] == a[1..] + rest;
      TokenOf(a[1..], rest, k);
      assert a == [a[0]] + a[1..];
    } else {
      assert a + rest == rest;
    }
  }

  /** Splitting words rejoined with single spaces gives the words back. */
  lemma {:induction false} WordsOfJoin(ws: seq<string>, k: Text)
    requires forall i :: 0 <= i < |ws| ==> |ws[i]| > 0 && NoSpace(ws[i], k)
    ensures Words(Join(ws, " "), k) == ws
  {
    if |ws| == 1 {
      TokenOf(ws[0], "", k);
      assert ws[0] + "" == ws[0];
      assert ws[0][|ws[0]|..] == "";
    } else if |ws| > 1 {
      var rest := Join(ws[1..], " ");
      var s := ws[0] + " " + rest;
      assert s == ws[0] + (" " + rest);
      TokenOf(ws[0], " " + rest, k);
      assert s[0] == ws[0][0] && !SpaceIn(k, s[0]);
      assert s[|ws[0]|..] == " " + rest;
      assert (" " + rest)[1..] == rest;
      WordsOfJoin(ws[1..], k);
      assert ws == [ws[0]] + ws[1..];
    }
  }

  /** On text without the wider whitespace, both `split()`s agree. */
  lemma {:induction false} WordsAgree(s: string)
    requires forall i :: 0 <= i < |s| ==> !IsWideSpace(s[i])
    ensures Words(s, Unicode) == Words(s, Bytes)
    decreases |s|
  {
    if |s| > 0 {
      if IsSpace(s[0]) {
        WordsAgree(s[1..]);
      } else {
        TokenAgree(s);
        var t := Token(s, Bytes);
        WordsAgree(s[|t|..]);
      }
    }
  }

  lemma {:induction false} TokenAgree(s: string)
    requires forall i :: 0 <= i < |s| ==> !IsWideSpace(s[i])
    ensures Token(s, Unicode) == Token(s, Bytes)
  {
    if |s| > 0 {
      TokenAgree(s[1..]);
    }
  }

  /** `sep.join(xs)`. */
  function Join(xs: seq<string>, sep: string): (r: string)
    ensures |xs| == 1 ==> r == xs[0]
  {
    if |xs| == 0 then ""
    else if |xs| == 1 then xs[0]
    else xs[0] + sep + Join(xs[1..], sep)
  }

  /** `c.lower()` on the ASCII letters; other characters are left alone. */
  function LowerChar(c: char): char
  {
    if 'A' <= c <= 'Z' then (c as int + 32) as char else c
  }

  function Lower(s: string): (r: string)
    ensures |r| == |s| && forall i :: 0 <= i < |s| ==> r[i] == LowerChar(s[i])
  {
    if |s| == 0 then "" else [LowerChar(s[0])] + Lower(s[1..])
  }

  predicate IsDigit(c: char)
  {
    '0' <= c <= '9'
  }

  /** The longest prefix of `s` made of decimal digits (what `[0-9]+` matches greedily). */
  function LeadingDigits(s: string): (d: string)
    ensures |d| <= |s| && d == s[..|d|]
    ensures forall i :: 0 <= i < |d| ==> IsDigit(d[i])
    ensures |d| < |s| ==> !IsDigit(s[|d|])
  {
    if |s| == 0 || !IsDigit(s[0]) then "" else [s[0]] + LeadingDigits(s[1..])
  }

  /** `int(d)` for a string of decimal digits. */
  function DigitsValue(d: string): (n: nat)
    requires forall i :: 0 <= i < |d| ==> IsDigit(d[i])
  {
    if |d| == 0 then 0
    else
      assert IsDigit(d[|d| - 1]);
      DigitsValue(d[..|d| - 1]) * 10 + (d[|d| - 1] as int - '0' as int)
  }

  /** `str(n)`: the decimal digits of `n`, without leading zeros. */
  function NatDigits(n: nat): (d: string)
    ensures |d| > 0 && forall i :: 0 <= i < |d| ==> IsDigit(d[i])
    ensures DigitsValue(d) == n
  {
    var last := [('0' as int + n % 10) as char];
    var d := if n < 10 then last else NatDigits(n / 10) + last;
    assert d[..|d| - 1] == if n < 10 then "" else NatDigits(n / 10);
    d
  }

  /** Digits followed by something that is not a digit: `[0-9]+` matches exactly the digits. */
  lemma {:induction false} LeadingDigitsOf(d: string, rest: string)
    requires forall i :: 0 <= i < |d| ==> IsDigit(d[i])
    requires |rest| == 0 || !IsDigit(rest[0])
    ensures LeadingDigits(d + rest) == d
  {
    if |d| > 0 {
      assert (d + rest)[1..] == d[1..] + rest;
      LeadingDigitsOf(d[1..], rest);
      assert d == [d[0]] + d[1..];
    } else {
      assert d + rest == rest;
    }
  }

  /** Python's `<` on strings: lexicographic by character code, a proper prefix first. */
  predicate LexLess(a: string, b: string)
  {
    if |a| == 0 then |b| > 0
    else if |b| == 0 then false
    else if a[0] != b[0] then a[0] < b[0]
    else LexLess(a[1..], b[1..])
  }

  predicate LexLessEq(a: string, b: string)
  {
    a == b || LexLess(a, b)
  }

  lemma {:induction false} LexLessTotal(a: string, b: string)
    ensures a == b || LexLess(a, b) || LexLess(b, a)
  {
    if |a| > 0 && |b| > 0 && a[0] == b[0] {
      LexLessTotal(a[1..], b[1..]);
      if a[1..] == b[1..] {
        assert a == [a[0]] + a[1..] && b == [b[0]] + b[1..];
      }
    }
  }

  lemma {:induction false} LexLessIrreflexive(a: string)
    ensures !LexLess(a, a)
  {
    if |a| > 0 { LexLessIrreflexive(a[1..]); }
  }

  lemma {:induction false} LexLessTransitive(a: string, b: string, c: string)
    requires LexLess(a, b) && LexLess(b, c)
    ensures LexLess(a, c)
  {
    if |a| > 0 && |b| > 0 && |c| > 0 && a[0] == b[0] && b[0] == c[0] {
      LexLessTransitive(a[1..], b[1..], c[1..]);
    }
  }

  /** Strictly increasing in Python's string order, as the distinct keys of a dict come out of `sorted`. */
  predicate StrictlySorted(s: seq<string>)
  {
    forall i, j :: 0 <= i < j < |s| ==> LexLess(s[i], s[j])
  }

  /** Every non-empty set of strings has a least element, `m`. */
  lemma {:induction false} Least(names: set<string>) returns (m: string)
    requires names != {}
    ensures m in names && forall n :: n in names ==> LexLessEq(m, n)
  {
    var x :| x in names;
    if names == {x} {
      return x;
    }
    var rest := names - {x};
    var r := Least(rest);
    LexLessTotal(r, x);
    if LexLess(x, r) {
      forall n | n in names
        ensures LexLessEq(x, n)
      {
        if n != x && n != r {
          assert n in rest;
          LexLessTransitive(x, r, n);
        }
      }
      return x;
    }
    return r;
  }

  /** `sorted(names)`: the names of the set in increasing order. */
  ghost function Sorted(names: set<string>): (r: seq<string>)
    ensures StrictlySorted(r) && forall n :: n in r <==> n in names
    decreases |names|
  {
    if names == {} then []
    else
      assert exists m :: m in names && forall n :: n in names ==> LexLessEq(m, n) by {
        var m := Least(names);
      }
      var m :| m in names && forall n :: n in names ==> LexLessEq(m, n);
      var rest := Sorted(names - {m});
      assert forall j :: 0 <= j < |rest| ==> LexLess(m, rest[j]) by {
        forall j | 0 <= j < |rest| ensures LexLess(m, rest[j]) {
          assert rest[j] in names - {m};
        }
      }
      [m] + rest
  }

  /** A set has exactly one strictly sorted listing. */
  lemma {:induction false} StrictlySortedUnique(a: seq<string>, b: seq<string>)
    requires StrictlySorted(a) && StrictlySorted(b)
    requires forall n :: n in a <==> n in b
    ensures a == b
  {
    assert |a| > 0 ==> a[0] in a;
    assert |b| > 0 ==> b[0] in b;
    if |a| > 0 && |b| > 0 {
      assert a[0] in b && b[0] in a;
      if a[0] != b[0] {
        var i :| 0 <= i < |b| && b[i] == a[0];
        var j :| 0 <= j < |a| && a[j] == b[0];
        LexLessTransitive(a[0], a[j], a[0]);
        LexLessIrreflexive(a[0]);
      }
      forall n
        ensures n in a[1..] <==> n in b[1..]
      {
        if n in a[1..] {
          var k :| 0 <= k < |a| - 1 && a[1..][k] == n;
          assert LexLess(a[0], a[k + 1]);
          LexLessIrreflexive(n);
          assert a[k + 1] in a;
          var l :| 0 <= l < |b| && b[l] == n;
          assert b[1..][l - 1] == n;
        }
        if n in b[1..] {
          var k :| 0 <= k < |b| - 1 && b[1..][k] == n;
          assert LexLess(b[0], b[k + 1]);
          LexLessIrreflexive(n);
          assert b[k + 1] in b;
          var l :| 0 <= l < |a| && a[l] == n;
          assert a[1..][l - 1] == n;
        }
      }
      StrictlySortedUnique(a[1..], b[1..]);
      assert a == [a[0]] + a[1..] && b == [b[0]] + b[1..];
    }
  }

  /** `text` with `prefix` inserted after every line break. */
  function Indent(prefix: string, text: string): string
  {
    if |text| == 0 then ""
    else (if text[0] == '\n' then "\n" + prefix else [text[0]]) + Indent(prefix, text[1..])
  }

  /** `'\n'.join(prefix + s for s in text.split('\n'))`: every line of `text` gets `prefix`. */
  function PrefixLines(prefix: string, text: string): string
  {
    prefix + Indent(prefix, text)
  }

  lemma {:induction false} IndentAppend(prefix: string, a: string, b: string)
    ensures Indent(prefix, a + b) == Indent(prefix, a) + Indent(prefix, b)
  {
    if |a| > 0 {
      assert (a + b)[1..] == a[1..] + b;
      IndentAppend(prefix, a[1..], b);
    } else {
      assert a + b == b;
    }
  }

  lemma {:induction false} IndentSingleLine(prefix: string, a: string)
    requires '\n' !in a
    ensures Indent(prefix, a) == a
  {
    if |a| > 0 {
      assert a[0] in a;
      IndentSingleLine(prefix, a[1..]);
    }
  }

  /** A single line is prefixed once. */
  lemma PrefixLinesSingle(prefix: string, line: string)
    requires '\n' !in line
    ensures PrefixLines(prefix, line) == prefix + line
  {
    IndentSingleLine(prefix, line);
  }

  /** Splitting at a line break: the lines on either side are prefixed separately and rejoined with it. */
  lemma PrefixLinesSplit(prefix: string, a: string, b: string)
    ensures PrefixLines(prefix, a + "\n" + b) == PrefixLines(prefix, a) + "\n" + PrefixLines(prefix, b)
  {
    var ia, ib := Indent(prefix, a), Indent(prefix, b);
    IndentAppend(prefix, a + "\n", b);
    IndentAppend(prefix, a, "\n");
    assert Indent(prefix, "\n") == "\n" + prefix by {
      assert "\n"[1..] == "";
    }
    assert Indent(prefix, a + "\n" + b) == ia + ("\n" + prefix) + ib;
    Regroup(prefix, ia, ib);
  }

  lemma Regroup(p: string, x: string, y: string)
    ensures p + (x + ("\n" + p) + y) == (p + x) + "\n" + (p + y)
  {
    assert x + ("\n" + p) + y == x + "\n" + (p + y);
  }
}
