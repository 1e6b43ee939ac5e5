/** Character classes and string operations of JavaScript that the catalog code relies on:
    `\s` and `[0-9]` in regular expressions, `toLowerCase`, `split` on one character and
    `replace` with a string pattern (which replaces the first occurrence only). */
module Strings {
  import opened Seqs

  /** JavaScript's `\s`: the ECMAScript WhiteSpace and LineTerminator code points. */
  predicate IsJsWhitespace(c: char) {
    var n := c as int;
    || (0x09 <= n <= 0x0D)
    || n == 0x20 || n == 0xA0 || n == 0x1680
    || (0x2000 <= n <= 0x200A)
    || n == 0x2028 || n == 0x2029 || n == 0x202F || n == 0x205F || n == 0x3000 || n == 0xFEFF
  }

  /** The regular-expression class `[0-9]`. */
  predicate IsAsciiDigit(c: char) {
    '0' <= c <= '9'
  }

  predicate IsAsciiUpper(c: char) {
    'A' <= c <= 'Z'
  }

  /** `toLowerCase` restricted to ASCII letters; every other character is kept. */
  function LowerChar(c: char): (r: char)
    ensures !IsAsciiUpper(r)
    ensures IsJsWhitespace(r) <==> IsJsWhitespace(c)
    ensures IsAsciiUpper(c) || r == c
  {
    if IsAsciiUpper(c) then (c as int + 32) as char else c
  }

  function Lower(s: string): (r: string)
    ensures |r| == |s|
    ensures forall i :: 0 <= i < |s| ==> r[i] == LowerChar(s[i])
  {
    seq(|s|, i requires 0 <= i < |s| => LowerChar(s[i]))
  }

  /** Lowering a string that has no ASCII capital leaves it unchanged. */
  lemma LowerOfLower(s: string)
    requires forall i :: 0 <= i < |s| ==> !IsAsciiUpper(s[i])
    ensures Lower(s) == s
  {
  }

  lemma LowerConcat(a: string, b: string)
    ensures Lower(a + b) == Lower(a) + Lower(b)
  {
  }

  /** The number of occurrences of `c` in `s`. */
  function Count(s: string, c: char): nat
    decreases |s|
  {
    if |s| == 0 then 0 else (if s[0] == c then 1 else 0) + Count(s[1..], c)
  }

  lemma {:induction false} CountAbsent(s: string, c: char)
    requires c !in s
    ensures Count(s, c) == 0
    decreases |s|
  {
    if |s| > 0 {
      CountAbsent(s[1..], c);
    }
  }

  lemma {:induction false} CountConcat(a: string, b: string, c: char)
    ensures Count(a + b, c) == Count(a, c) + Count(b, c)
    decreases |a|
  {
    if |a| == 0 {
      assert a + b == b;
    } else {
      assert (a + b)[1..] == a[1..] + b;
      CountConcat(a[1..], b, c);
    }
  }

  /** `s.replace(c, "")` for a one-character string pattern: only the first `c` goes. */
  function RemoveFirst(s: string, c: char): (r: string)
    ensures c !in s ==> r == s
    ensures c in s ==> |r| == |s| - 1
    decreases |s|
  {
    if |s| == 0 then s
    else if s[0] == c then s[1..]
    else [s[0]] + RemoveFirst(s[1..], c)
  }

  /** Removing the first `c` cuts the string around the first position holding `c`. */
  lemma {:induction false} RemoveFirstCutsAtFirst(s: string, c: char, i: nat)
    requires i < |s| && s[i] == c
    requires forall j :: 0 <= j < i ==> s[j] != c
    ensures RemoveFirst(s, c) == s[..i] + s[i + 1..]
    decreases |s|
  {
    if i > 0 {
      var t := s[1..];
      RemoveFirstCutsAtFirst(t, c, i - 1);
      assert RemoveFirst(s, c) == [s[0]] + RemoveFirst(t, c);
      assert t[..i - 1] == s[1..i] && t[i..] == s[i + 1..];
      assert [s[0]] + s[1..i] == s[..i];
    }
  }

  /** `s.split(sep)` for a one-character separator: the maximal separator-free pieces,
      including empty ones at either end and between adjacent separators. */
  function Split(s: string, sep: char): seq<string> {
    SplitFrom(s, "", sep)
  }

  /** The pieces of `cur + s` when `cur` is the separator-free start of the current piece. */
  function SplitFrom(s: string, cur: string, sep: char): seq<string>
    decreases |s|
  {
    if |s| == 0 then [cur]
    else if s[0] == sep then [cur] + SplitFrom(s[1..], "", sep)
    else SplitFrom(s[1..], cur + [s[0]], sep)
  }

  /** `parts.join(sep)`. */
  function Join(parts: seq<string>, sep: char): string
    decreases |parts|
  {
    if |parts| == 0 then ""
    else if |parts| == 1 then parts[0]
    else parts[0] + [sep] + Join(parts[1..], sep)
  }

  /** `parts.join("")`. */
  function Concat(parts: seq<string>): string
    decreases |parts|
  {
    if |parts| == 0 then "" else parts[0] + Concat(parts[1..])
  }

  /** A split has one more piece than the string has separators. */
  lemma {:induction false} SplitCount(s: string, cur: string, sep: char)
    ensures |SplitFrom(s, cur, sep)| == Count(s, sep) + 1
    decreases |s|
  {
    if |s| > 0 {
      SplitCount(s[1..], if s[0] == sep then "" else cur + [s[0]], sep);
    }
  }

  /** No piece of a split contains the separator. */
  lemma {:induction false} SplitPiecesAreSeparatorFree(s: string, cur: string, sep: char)
    requires sep !in cur
    ensures forall k :: 0 <= k < |SplitFrom(s, cur, sep)| ==> sep !in SplitFrom(s, cur, sep)[k]
    decreases |s|
  {
    if |s| > 0 {
      SplitPiecesAreSeparatorFree(s[1..], if s[0] == sep then "" else cur + [s[0]], sep);
    }
  }

  /** Joining the pieces of a split with the same separator gives back the string. */
  lemma {:induction false} JoinSplit(s: string, cur: string, sep: char)
    ensures Join(SplitFrom(s, cur, sep), sep) == cur + s
    decreases |s|
  {
    if |s| > 0 {
      if s[0] == sep {
        JoinSplit(s[1..], "", sep);
        var rest := SplitFrom(s[1..], "", sep);
        assert ([cur] + rest)[1..] == rest;
        assert cur + s == cur + [sep] + s[1..];
      } else {
        JoinSplit(s[1..], cur + [s[0]], sep);
        assert cur + s == cur + [s[0]] + s[1..];
      }
    }
  }

  /** Concatenating the pieces of a split gives the string with every separator removed. */
  lemma {:induction false} ConcatSplit(s: string, cur: string, sep: char)
    ensures Concat(SplitFrom(s, cur, sep)) == cur + Filter(NotChar(sep), s)
    decreases |s|
  {
    if |s| > 0 {
      if s[0] == sep {
        ConcatSplit(s[1..], "", sep);
        var rest := SplitFrom(s[1..], "", sep);
        assert ([cur] + rest)[1..] == rest;
      } else {
        ConcatSplit(s[1..], cur + [s[0]], sep);
      }
    }
  }

  /** The test "is not `c`", as a value that can be passed to `Filter`. */
  function NotChar(c: char): char -> bool {
    x => x != c
  }

  /** A string without the separator is one piece. */
  lemma {:induction false} SplitWithoutSeparator(s: string, cur: string, sep: char)
    requires sep !in s
    ensures SplitFrom(s, cur, sep) == [cur + s]
    decreases |s|
  {
    if |s| > 0 {
      assert s[0] != sep && sep !in s[1..];
      SplitWithoutSeparator(s[1..], cur + [s[0]], sep);
      assert cur + [s[0]] + s[1..] == cur + s;
    } else {
      assert cur + s == cur;
    }
  }

  /** Splitting at one separator occurrence concatenates the splits of the two sides. */
  lemma {:induction false} SplitAround(a: string, b: string, cur: string, sep: char)
    ensures SplitFrom(a + [sep] + b, cur, sep) == SplitFrom(a, cur, sep) + SplitFrom(b, "", sep)
    decreases |a|
  {
    var s := a + [sep] + b;
    if |a| == 0 {
      assert s[0] == sep && s[1..] == b;
    } else {
      assert s[0] == a[0] && s[1..] == a[1..] + [sep] + b;
      SplitAround(a[1..], b, if a[0] == sep then "" else cur + [a[0]], sep);
    }
  }
}
