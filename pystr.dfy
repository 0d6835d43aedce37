/** The Python `str` operations the scripts rely on, written out on
    `seq<char>`: whitespace splitting, splitting on a separator, stripping,
    decimal formatting of integers and the ordering of strings. */
module PyStr {

  /** Python's `str.isspace` for one character (the characters that
      `str.split()` with no argument treats as separators). */
  predicate IsSpace(c: char)
  {
    c == ' ' || ('\t' <= c <= '\r') || ('\U{1c}' <= c <= '\U{1f}')
    || c == '\U{85}' || c == '\U{a0}' || c == '\U{1680}'
    || ('\U{2000}' <= c <= '\U{200a}') || c == '\U{2028}' || c == '\U{2029}'
    || c == '\U{202f}' || c == '\U{205f}' || c == '\U{3000}'
  }

  predicate NoSpace(s: string)
  {
    forall i :: 0 <= i < |s| ==> !IsSpace(s[i])
  }

  function Flush(word: string): seq<string>
  {
    if word == [] then [] else [word]
  }

  /** The words of `s` when the word read so far is `word`. */
  function SplitFrom(s: string, word: string): seq<string>
    decreases |s|
  {
    if |s| == 0 then Flush(word)
    else if IsSpace(s[0]) then Flush(word) + SplitFrom(s[1..], [])
    else SplitFrom(s[1..], word + [s[0]])
  }

  /** Python's `s.split()`: the maximal runs of non-whitespace characters. */
  function SplitWhitespace(s: string): seq<string>
  {
    SplitFrom(s, [])
  }

  /** Every word is non-empty and holds no whitespace. */
  lemma {:induction false} SplitFromWords(s: string, word: string)
    requires NoSpace(word)
    ensures forall t :: t in SplitFrom(s, word) ==> t != [] && NoSpace(t)
    decreases |s|
  {
    if |s| > 0 {
      if IsSpace(s[0]) {
        SplitFromWords(s[1..], []);
      } else {
        SplitFromWords(s[1..], word + [s[0]]);
      }
    }
  }

  lemma SplitWhitespaceWords(s: string)
    ensures forall t :: t in SplitWhitespace(s) ==> t != [] && NoSpace(t)
  {
    SplitFromWords(s, []);
  }

  lemma {:induction false} SplitFromAtSpace(x: string, w: char, y: string, word: string)
    requires IsSpace(w)
    ensures SplitFrom(x + [w] + y, word) == SplitFrom(x, word) + SplitWhitespace(y)
    decreases |x|
  {
    if |x| == 0 {
      assert x + [w] + y == [w] + y;
      assert ([w] + y)[1..] == y;
    } else {
      assert (x + [w] + y)[0] == x[0];
      assert (x + [w] + y)[1..] == x[1..] + [w] + y;
      if IsSpace(x[0]) {
        SplitFromAtSpace(x[1..], w, y, []);
      } else {
        SplitFromAtSpace(x[1..], w, y, word + [x[0]]);
      }
    }
  }

  /** Splitting at a whitespace character splits the words of the two sides
      apart: the words of `x + [w] + y` are those of `x`, then those of `y`. */
  lemma SplitAtSpace(x: string, w: char, y: string)
    requires IsSpace(w)
    ensures SplitWhitespace(x + [w] + y) == SplitWhitespace(x) + SplitWhitespace(y)
  {
    SplitFromAtSpace(x, w, y, []);
  }

  lemma {:induction false} SplitFromWord(s: string, word: string)
    requires NoSpace(s) && word + s != []
    ensures SplitFrom(s, word) == [word + s]
    decreases |s|
  {
    if |s| > 0 {
      assert !IsSpace(s[0]);
      assert word + s == (word + [s[0]]) + s[1..];
      SplitFromWord(s[1..], word + [s[0]]);
    } else {
      assert word + s == word;
    }
  }

  /** A non-empty string without whitespace is a single word. */
  lemma SplitWord(s: string)
    requires s != [] && NoSpace(s)
    ensures SplitWhitespace(s) == [s]
  {
    SplitFromWord(s, []);
    assert [] + s == s;
  }

  /** Python's `s.split(c)` for a one-character separator. */
  function SplitOn(s: string, c: char): (r: seq<string>)
    ensures |r| >= 1
    decreases |s|
  {
    if |s| == 0 then [[]]
    else
      var rest := SplitOn(s[1..], c);
      if s[0] == c then [[]] + rest else [[s[0]] + rest[0]] + rest[1..]
  }

  /** Python's `c.join(pieces)`. */
  function JoinWith(pieces: seq<string>, c: char): string
  {
    if |pieces| == 0 then []
    else if |pieces| == 1 then pieces[0]
    else pieces[0] + [c] + JoinWith(pieces[1..], c)
  }

  /** `split` on a separator loses nothing: joining the pieces with the
      separator gives back the string, and no piece holds the separator. */
  lemma {:induction false} SplitOnJoin(s: string, c: char)
    ensures JoinWith(SplitOn(s, c), c) == s
    ensures forall p :: p in SplitOn(s, c) ==> c !in p
    decreases |s|
  {
    if |s| > 0 {
      var rest := SplitOn(s[1..], c);
      SplitOnJoin(s[1..], c);
      if s[0] == c {
        assert ([[]] + rest)[1..] == rest;
        assert s == [c] + s[1..];
      } else {
        var r := [[s[0]] + rest[0]] + rest[1..];
        if |rest| == 1 {
          assert s == [s[0]] + rest[0];
        } else {
          assert r[1..] == rest[1..];
          assert JoinWith(rest, c) == rest[0] + [c] + JoinWith(rest[1..], c);
          assert s == [s[0]] + s[1..];
        }
        assert forall p :: p in r ==> p == [s[0]] + rest[0] || p in rest;
      }
    }
  }

  /** Python's `s.lstrip(ch)`. */
  function LStrip(s: string, ch: char): (r: string)
    ensures |r| <= |s| && r == s[|s| - |r|..]
    ensures forall i :: 0 <= i < |s| - |r| ==> s[i] == ch
    ensures |r| > 0 ==> r[0] != ch
    decreases |s|
  {
    if |s| > 0 && s[0] == ch then LStrip(s[1..], ch) else s
  }

  /** Python's `s.rstrip(ch)`. */
  function RStrip(s: string, ch: char): (r: string)
    ensures |r| <= |s| && r == s[..|r|]
    ensures forall i :: |r| <= i < |s| ==> s[i] == ch
    ensures |r| > 0 ==> r[|r| - 1] != ch
    decreases |s|
  {
    if |s| > 0 && s[|s| - 1] == ch then RStrip(s[..|s| - 1], ch) else s
  }

  /** Python's `s.strip(ch)`: the leading and trailing `ch` removed. */
  function Strip(s: string, ch: char): (r: string)
    ensures |r| <= |s|
    ensures |r| > 0 ==> r[0] != ch && r[|r| - 1] != ch
    ensures '\n' !in s ==> '\n' !in r
  {
    RStrip(LStrip(s, ch), ch)
  }

  predicate StartsWith(s: string, prefix: string)
  {
    |prefix| <= |s| && s[..|prefix|] == prefix
  }

  predicate EndsWith(s: string, suffix: string)
  {
    |suffix| <= |s| && s[|s| - |suffix|..] == suffix
  }

  function DigitChar(d: nat): char
    requires d < 10
  {
    ('0' as int + d) as char
  }

  /** Python's `str(n)` for a non-negative integer. */
  function NatToString(n: nat): string
    decreases n
  {
    if n < 10 then [DigitChar(n)] else NatToString(n / 10) + [DigitChar(n % 10)]
  }

  /** The value of a string of decimal digits. */
  function ParseDecimal(s: string): int
  {
    if |s| == 0 then 0 else 10 * ParseDecimal(s[..|s| - 1]) + (s[|s| - 1] as int - '0' as int)
  }

  /** Reading back a formatted number gives the number. */
  lemma {:induction false} ParseNatToString(n: nat)
    ensures ParseDecimal(NatToString(n)) == n
    decreases n
  {
    if n >= 10 {
      ParseNatToString(n / 10);
      var s := NatToString(n);
      assert s[..|s| - 1] == NatToString(n / 10);
    }
  }

  /** Distinct numbers have distinct decimal forms. */
  lemma NatToStringInjective(i: nat, j: nat)
    requires NatToString(i) == NatToString(j)
    ensures i == j
  {
    ParseNatToString(i);
    ParseNatToString(j);
  }

  /** Python's `a < b` on strings: lexicographic order by code point, a
      proper prefix coming first. */
  predicate LexLess(a: string, b: string)
    decreases |a|
  {
    if |a| == 0 then |b| > 0
    else if |b| == 0 then false
    else if a[0] != b[0] then a[0] < b[0]
    else LexLess(a[1..], b[1..])
  }

  lemma {:induction false} LexLessIrreflexive(a: string)
    ensures !LexLess(a, a)
    decreases |a|
  {
    if |a| > 0 { LexLessIrreflexive(a[1..]); }
  }

  lemma {:induction false} LexLessTransitive(a: string, b: string, c: string)
    requires LexLess(a, b) && LexLess(b, c)
    ensures LexLess(a, c)
    decreases |a|
  {
    if |a| > 0 && |b| > 0 && |c| > 0 && a[0] == b[0] && b[0] == c[0] {
      LexLessTransitive(a[1..], b[1..], c[1..]);
    }
  }

  /** Two different strings are ordered one way or the other. */
  lemma {:induction false} LexLessTotal(a: string, b: string)
    requires a != b
    ensures LexLess(a, b) || LexLess(b, a)
    decreases |a|
  {
    if |a| > 0 && |b| > 0 && a[0] == b[0] {
      assert a == [a[0]] + a[1..] && b == [b[0]] + b[1..];
      LexLessTotal(a[1..], b[1..]);
    }
  }
}
