/**
 * The string operations the core relies on, over `seq<char>`:
 * Kotlin's `trim()`, `lowercase()`, `replaceFirstChar`, `split` on
 * delimiter characters and `Int.toString()`. Casing and whitespace are
 * the ASCII subsets of Kotlin's Unicode rules.
 */
module Text {

  /** `Char.isWhitespace()` restricted to ASCII: space, TAB..CR, FS..US. */
  predicate IsWhitespace(c: char)
  {
    c == ' ' || ('\t' <= c <= '\r') || ('\U{1C}' <= c <= '\U{1F}')
  }

  /** `Char.lowercaseChar()` restricted to ASCII letters. */
  function LowerChar(c: char): (r: char)
    ensures 'A' <= c <= 'Z' ==> 'a' <= r <= 'z' && r as int == c as int + 32
    ensures !('A' <= c <= 'Z') ==> r == c
  {
    if 'A' <= c <= 'Z' then (c as int + 32) as char else c
  }

  /** Lowering a character never turns it into, or out of, whitespace. */
  lemma LowerCharKeepsWhitespace(c: char)
    ensures IsWhitespace(LowerChar(c)) == IsWhitespace(c)
    ensures LowerChar(LowerChar(c)) == LowerChar(c)
  {
  }

  /** `String.lowercase()`. */
  function Lower(s: string): (r: string)
    ensures |r| == |s|
    ensures forall i :: 0 <= i < |s| ==> r[i] == LowerChar(s[i])
  {
    seq(|s|, i requires 0 <= i < |s| => LowerChar(s[i]))
  }

  /** Leading whitespace removed; what was removed is all whitespace. */
  function TrimStart(s: string): (r: string)
    ensures |r| <= |s| && r == s[|s| - |r|..]
    ensures r == [] || !IsWhitespace(r[0])
    ensures forall i :: 0 <= i < |s| - |r| ==> IsWhitespace(s[i])
  {
    if s != [] && IsWhitespace(s[0]) then TrimStart(s[1..]) else s
  }

  /** Trailing whitespace removed; what was removed is all whitespace. */
  function TrimEnd(s: string): (r: string)
    ensures |r| <= |s| && r == s[..|r|]
    ensures r == [] || !IsWhitespace(r[|r| - 1])
    ensures forall i :: |r| <= i < |s| ==> IsWhitespace(s[i])
  {
    if s != [] && IsWhitespace(s[|s| - 1]) then TrimEnd(s[..|s| - 1]) else s
  }

  /** `String.trim()`. */
  function Trim(s: string): string
  {
    TrimEnd(TrimStart(s))
  }

  /** A string that starts and ends with a non-whitespace character. */
  predicate Trimmed(s: string)
  {
    s == [] || (!IsWhitespace(s[0]) && !IsWhitespace(s[|s| - 1]))
  }

  /** `trim()` yields a trimmed string that occurs inside its argument. */
  lemma TrimIsTrimmed(s: string)
    ensures Trimmed(Trim(s))
    ensures |Trim(s)| <= |s|
  {
    var t := TrimStart(s);
    var r := TrimEnd(t);
    if r != [] {
      assert r[0] == t[0];
    }
  }

  /** A trimmed string is left alone by `trim()`. */
  lemma TrimOfTrimmed(s: string)
    requires Trimmed(s)
    ensures Trim(s) == s
  {
  }

  /** `trim()` is idempotent. */
  lemma TrimIdempotent(s: string)
    ensures Trim(Trim(s)) == Trim(s)
  {
    TrimIsTrimmed(s);
    TrimOfTrimmed(Trim(s));
  }

  /** Lowering keeps a trimmed string trimmed. */
  lemma LowerKeepsTrimmed(s: string)
    requires Trimmed(s)
    ensures Trimmed(Lower(s))
  {
    if s != [] {
      LowerCharKeepsWhitespace(s[0]);
      LowerCharKeepsWhitespace(s[|s| - 1]);
    }
  }

  /** `lowercase()` is idempotent. */
  lemma LowerIdempotent(s: string)
    ensures Lower(Lower(s)) == Lower(s)
  {
    forall i | 0 <= i < |s|
      ensures Lower(Lower(s))[i] == Lower(s)[i]
    {
      LowerCharKeepsWhitespace(s[i]);
    }
  }

  /** All characters are whitespace. */
  predicate AllWhitespace(s: string)
  {
    forall i :: 0 <= i < |s| ==> IsWhitespace(s[i])
  }

  /** Leading whitespace padding is invisible to `TrimStart`. */
  lemma {:induction false} TrimStartPadded(ws: string, v: string)
    requires AllWhitespace(ws)
    ensures TrimStart(ws + v) == TrimStart(v)
  {
    if ws == [] {
      assert ws + v == v;
    } else {
      var s := ws + v;
      assert s[0] == ws[0] && s[1..] == ws[1..] + v;
      assert IsWhitespace(s[0]);
      TrimStartPadded(ws[1..], v);
    }
  }

  /** Trailing whitespace padding is invisible to `TrimEnd`. */
  lemma {:induction false} TrimEndPadded(v: string, ws: string)
    requires AllWhitespace(ws)
    ensures TrimEnd(v + ws) == TrimEnd(v)
  {
    if ws == [] {
      assert v + ws == v;
    } else {
      var s := v + ws;
      assert s[|s| - 1] == ws[|ws| - 1] && s[..|s| - 1] == v + ws[..|ws| - 1];
      assert IsWhitespace(s[|s| - 1]);
      TrimEndPadded(v, ws[..|ws| - 1]);
    }
  }

  /** `TrimStart` passes trailing whitespace through, unless nothing else is left. */
  lemma {:induction false} TrimStartAppend(v: string, ws: string)
    requires AllWhitespace(ws)
    ensures TrimStart(v + ws) == if TrimStart(v) == [] then [] else TrimStart(v) + ws
  {
    if v == [] {
      assert ws + [] == ws;
      TrimStartPadded(ws, []);
    } else if IsWhitespace(v[0]) {
      assert (v + ws)[1..] == v[1..] + ws;
      TrimStartAppend(v[1..], ws);
    }
  }

  /** `trim()` ignores whitespace padding on either side. */
  lemma TrimPadded(ws1: string, v: string, ws2: string)
    requires AllWhitespace(ws1) && AllWhitespace(ws2)
    ensures Trim(ws1 + v + ws2) == Trim(v)
  {
    assert ws1 + v + ws2 == ws1 + (v + ws2);
    TrimStartPadded(ws1, v + ws2);
    TrimStartAppend(v, ws2);
    if TrimStart(v) != [] {
      TrimEndPadded(TrimStart(v), ws2);
    }
  }

  /** Lowering commutes with stripping leading whitespace. */
  lemma {:induction false} LowerTrimStart(s: string)
    ensures Lower(TrimStart(s)) == TrimStart(Lower(s))
  {
    if s != [] {
      LowerCharKeepsWhitespace(s[0]);
      assert Lower(s)[1..] == Lower(s[1..]);
      if IsWhitespace(s[0]) {
        LowerTrimStart(s[1..]);
      }
    }
  }

  /** Lowering commutes with stripping trailing whitespace. */
  lemma {:induction false} LowerTrimEnd(s: string)
    ensures Lower(TrimEnd(s)) == TrimEnd(Lower(s))
  {
    if s != [] {
      LowerCharKeepsWhitespace(s[|s| - 1]);
      assert Lower(s)[..|s| - 1] == Lower(s[..|s| - 1]);
      if IsWhitespace(s[|s| - 1]) {
        LowerTrimEnd(s[..|s| - 1]);
      }
    }
  }

  /** Lowering commutes with `trim()`. */
  lemma LowerTrim(s: string)
    ensures Lower(Trim(s)) == Trim(Lower(s))
  {
    LowerTrimEnd(TrimStart(s));
    LowerTrimStart(s);
  }

  /** Two strings that differ only in letter case. */
  predicate CaseVariant(v: string, w: string)
  {
    |v| == |w| && forall i :: 0 <= i < |v| ==> LowerChar(v[i]) == LowerChar(w[i])
  }

  /** `replaceFirstChar { it.lowercaseChar() }`. */
  function LowerFirst(s: string): (r: string)
    ensures |r| == |s|
    ensures s != [] ==> r[0] == LowerChar(s[0]) && r[1..] == s[1..]
  {
    if s == [] then [] else [LowerChar(s[0])] + s[1..]
  }

  /**
   * `split(*delimiters)`: the pieces between delimiter characters, empty
   * pieces included, so there is always one more piece than delimiters.
   */
  function SplitOn(s: string, delims: set<char>): (r: seq<string>)
    ensures |r| >= 1
  {
    if s == [] then [""]
    else
      var rest := SplitOn(s[1..], delims);
      if s[0] in delims then [""] + rest else [[s[0]] + rest[0]] + rest[1..]
  }

  /** No piece of a split contains a delimiter. */
  lemma {:induction false} SplitPiecesFree(s: string, delims: set<char>)
    ensures forall k, c :: 0 <= k < |SplitOn(s, delims)| && c in SplitOn(s, delims)[k] ==> c !in delims
  {
    if s != [] {
      SplitPiecesFree(s[1..], delims);
    }
  }

  /** The pieces joined back with `d` between them. */
  function Join(pieces: seq<string>, d: char): string
    requires |pieces| >= 1
  {
    if |pieces| == 1 then pieces[0] else pieces[0] + [d] + Join(pieces[1..], d)
  }

  /** Splitting on one character loses nothing: joining the pieces restores the string. */
  lemma {:induction false} SplitJoin(s: string, d: char)
    ensures Join(SplitOn(s, {d}), d) == s
  {
    if s != [] {
      SplitJoin(s[1..], d);
      var rest := SplitOn(s[1..], {d});
      if s[0] != d {
        if |rest| == 1 {
        } else {
          assert ([s[0]] + rest[0]) + [d] + Join(rest[1..], d) == [s[0]] + (rest[0] + [d] + Join(rest[1..], d));
        }
      }
    }
  }

  /** A string without the delimiter splits into itself alone. */
  lemma {:induction false} SplitWithoutDelimiter(s: string, delims: set<char>)
    requires forall c :: c in s ==> c !in delims
    ensures SplitOn(s, delims) == [s]
  {
    if s != [] {
      SplitWithoutDelimiter(s[1..], delims);
      assert [s[0]] + s[1..] == s;
    }
  }

  /** `a + d + b` with no delimiter in `a` or `b` splits into exactly `[a, b]`. */
  lemma {:induction false} SplitTwo(a: string, b: string, delims: set<char>, d: char)
    requires d in delims
    requires forall c :: c in a ==> c !in delims
    requires forall c :: c in b ==> c !in delims
    ensures SplitOn(a + [d] + b, delims) == [a, b]
  {
    if a == [] {
      assert (a + [d] + b)[1..] == b;
      SplitWithoutDelimiter(b, delims);
    } else {
      assert (a + [d] + b)[1..] == a[1..] + [d] + b;
      SplitTwo(a[1..], b, delims, d);
      assert [a[0]] + a[1..] == a;
    }
  }

  /**
   * A string splits into exactly two pieces on `d` iff it is
   * `a + d + b` for delimiter-free `a` and `b` (the pieces).
   */
  lemma SplitTwoIff(s: string, d: char)
    ensures |SplitOn(s, {d})| == 2 ==>
              var r := SplitOn(s, {d}); s == r[0] + [d] + r[1] && d !in r[0] && d !in r[1]
  {
    var r := SplitOn(s, {d});
    SplitPiecesFree(s, {d});
    if |r| == 2 {
      SplitJoin(s, d);
      assert Join(r, d) == r[0] + [d] + Join(r[1..], d);
      assert Join(r[1..], d) == r[1];
    }
  }

  /** The decimal digit character for 0..9. */
  function DigitChar(n: nat): (c: char)
    requires n < 10
    ensures '0' <= c <= '9'
  {
    ('0' as int + n) as char
  }

  /** `Int.toString()` for non-negative values. */
  function DecimalString(n: nat): (r: string)
    ensures |r| >= 1
    ensures forall i :: 0 <= i < |r| ==> '0' <= r[i] <= '9'
  {
    if n < 10 then [DigitChar(n)] else DecimalString(n / 10) + [DigitChar(n % 10)]
  }

  /** The value of a string of decimal digits. */
  function DecimalValue(s: string): nat
  {
    if s == [] then 0
    else
      var d := s[|s| - 1] as int - '0' as int;
      DecimalValue(s[..|s| - 1]) * 10 + (if 0 <= d < 10 then d else 0)
  }

  /** Printing a number in decimal and reading it back gives the number. */
  lemma {:induction false} DecimalRoundTrip(n: nat)
    ensures DecimalValue(DecimalString(n)) == n
  {
    if n >= 10 {
      DecimalRoundTrip(n / 10);
      var s := DecimalString(n);
      assert s[..|s| - 1] == DecimalString(n / 10);
    }
  }

  /** 10^k. */
  function Pow10(k: nat): (r: nat)
    ensures r >= 1
  {
    if k == 0 then 1 else 10 * Pow10(k - 1)
  }

  /** A number in [10^(k-1), 10^k) prints with exactly k digits. */
  lemma {:induction false} DecimalLength(n: nat, k: nat)
    requires k >= 1 && Pow10(k - 1) <= n < Pow10(k)
    ensures |DecimalString(n)| == k
  {
    if k > 1 {
      assert Pow10(k - 2) <= n / 10 < Pow10(k - 1);
      DecimalLength(n / 10, k - 1);
    } else {
      assert n < 10;
    }
  }
}
