/**
 * The string operations of JavaScript that the engine relies on, on strings
 * as sequences of characters: `String.prototype.trim`, the `\s` character
 * class, `replace` with a string pattern (first occurrence only), `slice(0, n)`
 * and the relational `<` on strings.
 */
module JsText {

  /**
   * The characters `trim` removes and `\s` matches: the WhiteSpace and
   * LineTerminator code points of ECMAScript (tab, line tabulation, form feed,
   * space, no-break space, zero width no-break space, the Unicode space
   * separators, line feed, carriage return, line and paragraph separator).
   */
  predicate IsSpace(c: char)
  {
    || c == '\t' || c == '\n' || c == '\U{000B}' || c == '\U{000C}' || c == '\r' || c == ' '
    || c == '\U{00A0}' || c == '\U{1680}' || ('\U{2000}' <= c <= '\U{200A}')
    || c == '\U{2028}' || c == '\U{2029}' || c == '\U{202F}' || c == '\U{205F}'
    || c == '\U{3000}' || c == '\U{FEFF}'
  }

  predicate NoSpaces(s: string)
  {
    forall i :: 0 <= i < |s| ==> !IsSpace(s[i])
  }

  /** The number of white-space characters `s` starts with. */
  function LeadingSpaces(s: string): (n: nat)
    ensures n <= |s|
    ensures forall k :: 0 <= k < n ==> IsSpace(s[k])
    ensures n < |s| ==> !IsSpace(s[n])
  {
    if |s| > 0 && IsSpace(s[0]) then 1 + LeadingSpaces(s[1..]) else 0
  }

  /** The number of white-space characters `s` ends with. */
  function TrailingSpaces(s: string): (n: nat)
    ensures n <= |s|
    ensures forall k :: |s| - n <= k < |s| ==> IsSpace(s[k])
    ensures n < |s| ==> !IsSpace(s[|s| - 1 - n])
  {
    if |s| > 0 && IsSpace(s[|s| - 1]) then 1 + TrailingSpaces(s[..|s| - 1]) else 0
  }

  /** `s.trim()`: the slice of `s` between its leading and trailing white space. */
  function Trim(s: string): (r: string)
    ensures var i := LeadingSpaces(s);
      && i + |r| <= |s| && r == s[i..i + |r|]
      && (forall k :: i + |r| <= k < |s| ==> IsSpace(s[k]))
    ensures |r| > 0 ==> !IsSpace(r[0]) && !IsSpace(r[|r| - 1])
  {
    var i := LeadingSpaces(s);
    if i == |s| then ""
    else
      var n := TrailingSpaces(s);
      s[i..|s| - n]
  }

  /** A string that starts and ends with a non-space is its own trim. */
  lemma TrimOfTrimmed(s: string)
    requires |s| > 0 ==> !IsSpace(s[0]) && !IsSpace(s[|s| - 1])
    ensures Trim(s) == s
  {
    if |s| > 0 {
      assert LeadingSpaces(s) == 0;
      assert TrailingSpaces(s) == 0;
    }
  }

  /** Trimming is idempotent. */
  lemma TrimIdempotent(s: string)
    ensures Trim(Trim(s)) == Trim(s)
  {
    TrimOfTrimmed(Trim(s));
  }

  /** `s.replace(/\s/g, "")`: every white-space character removed. */
  function StripSpaces(s: string): (r: string)
    ensures NoSpaces(r) && |r| <= |s|
    ensures NoSpaces(s) ==> r == s
    ensures forall c :: c in r ==> c in s
  {
    if |s| == 0 then ""
    else if IsSpace(s[0]) then StripSpaces(s[1..])
    else [s[0]] + StripSpaces(s[1..])
  }

  /**
   * White-space removal keeps the order: a non-space character at `i` is
   * preceded by what is left of `s[..i]` and followed by what is left of `s[i+1..]`.
   */
  lemma StripSpacesKeeps(s: string, i: nat)
    requires i < |s| && !IsSpace(s[i])
    ensures StripSpaces(s) == StripSpaces(s[..i]) + [s[i]] + StripSpaces(s[i + 1..])
  {
    var a, c, b := s[..i], s[i], s[i + 1..];
    assert s[i..] == [c] + b;
    assert s == a + s[i..];
    assert a + [c] + b == a + ([c] + b);
    StripSpacesAround(a, c, b);
  }

  /** Every non-space character of `s` is still there after white-space removal. */
  lemma StripSpacesKeepsAll(s: string)
    ensures forall i :: 0 <= i < |s| && !IsSpace(s[i]) ==> s[i] in StripSpaces(s)
  {
    forall i | 0 <= i < |s| && !IsSpace(s[i]) ensures s[i] in StripSpaces(s) {
      StripSpacesKeeps(s, i);
      assert StripSpaces(s)[|StripSpaces(s[..i])|] == s[i];
    }
  }

  lemma {:induction false} StripSpacesConcat(a: string, b: string)
    ensures StripSpaces(a + b) == StripSpaces(a) + StripSpaces(b)
  {
    if |a| == 0 {
      assert a + b == b;
    } else {
      assert (a + b)[1..] == a[1..] + b;
      StripSpacesConcat(a[1..], b);
    }
  }

  /** A non-space character between two texts survives white-space removal. */
  lemma StripSpacesAround(a: string, c: char, b: string)
    requires !IsSpace(c)
    ensures StripSpaces(a + [c] + b) == StripSpaces(a) + [c] + StripSpaces(b)
  {
    StripSpacesConcat(a + [c], b);
    StripSpacesConcat(a, [c]);
    assert StripSpaces([c]) == [c];
  }

  lemma {:induction false} StripSpacesOfSpaces(s: string)
    requires forall k :: 0 <= k < |s| ==> IsSpace(s[k])
    ensures StripSpaces(s) == ""
  {
    if |s| > 0 {
      StripSpacesOfSpaces(s[1..]);
    }
  }

  /** Trimming first and then removing all white space is the same as removing all white space. */
  lemma StripSpacesAfterTrim(s: string)
    ensures StripSpaces(Trim(s)) == StripSpaces(s)
  {
    var i := LeadingSpaces(s);
    var t := Trim(s);
    var j := i + |t|;
    var pre, post := s[..i], s[j..];
    assert s == pre + t + post;
    StripSpacesOfSpaces(pre);
    StripSpacesOfSpaces(post);
    calc {
      StripSpaces(s);
      { StripSpacesConcat(pre + t, post); }
      StripSpaces(pre + t) + StripSpaces(post);
      { StripSpacesConcat(pre, t); }
      StripSpaces(t);
    }
  }

  /** The position of the first `c` in `s`, or `|s|` when there is none. */
  function FirstIndex(s: string, c: char): (i: nat)
    ensures i <= |s| && c !in s[..i]
    ensures i < |s| ==> s[i] == c
  {
    if |s| == 0 || s[0] == c then 0 else 1 + FirstIndex(s[1..], c)
  }

  /** `s.replace(from, to)` with a one-character string pattern: only the first occurrence changes. */
  function ReplaceFirst(s: string, from: char, to: char): (r: string)
    ensures |r| == |s|
    ensures var i := FirstIndex(s, from);
      && r[..i] == s[..i]
      && (i < |s| ==> r[i] == to && r[i + 1..] == s[i + 1..])
  {
    if |s| == 0 then ""
    else if s[0] == from then [to] + s[1..]
    else [s[0]] + ReplaceFirst(s[1..], from, to)
  }

  lemma {:induction false} ReplaceFirstAbsent(s: string, from: char, to: char)
    requires from !in s
    ensures ReplaceFirst(s, from, to) == s
  {
    if |s| > 0 {
      ReplaceFirstAbsent(s[1..], from, to);
    }
  }

  /** Only the first occurrence is replaced: the text after it is kept as it is. */
  lemma {:induction false} ReplaceFirstSplit(a: string, b: string, from: char, to: char)
    requires from !in a
    ensures ReplaceFirst(a + [from] + b, from, to) == a + [to] + b
  {
    if |a| == 0 {
      assert a + [from] + b == [from] + b;
    } else {
      assert (a + [from] + b)[1..] == a[1..] + [from] + b;
      ReplaceFirstSplit(a[1..], b, from, to);
    }
  }

  /** `s.slice(0, n)` for `n >= 0`: the first `n` characters, or all of `s` when it is shorter. */
  function Prefix(s: string, n: nat): (r: string)
    ensures |r| == if |s| < n then |s| else n
    ensures r <= s
  {
    if |s| < n then s else s[..n]
  }

  /** `a < b` on JavaScript strings: lexicographic, and a proper prefix is smaller. */
  predicate StrLess(a: string, b: string)
  {
    if |a| == 0 then |b| > 0
    else if |b| == 0 then false
    else if a[0] != b[0] then a[0] < b[0]
    else StrLess(a[1..], b[1..])
  }

  lemma {:induction false} StrLessIrreflexive(a: string)
    ensures !StrLess(a, a)
  {
    if |a| > 0 {
      StrLessIrreflexive(a[1..]);
    }
  }

  /** Of two different strings exactly one is smaller. */
  lemma {:induction false} StrLessTrichotomy(a: string, b: string)
    ensures a != b <==> StrLess(a, b) || StrLess(b, a)
    ensures !(StrLess(a, b) && StrLess(b, a))
  {
    if |a| > 0 && |b| > 0 && a[0] == b[0] {
      StrLessTrichotomy(a[1..], b[1..]);
      assert a == [a[0]] + a[1..] && b == [b[0]] + b[1..];
    } else if a == b {
      StrLessIrreflexive(a);
    }
  }

  lemma {:induction false} StrLessTransitive(a: string, b: string, c: string)
    requires StrLess(a, b) && StrLess(b, c)
    ensures StrLess(a, c)
  {
    if |a| > 0 && |b| > 0 && |c| > 0 && a[0] == b[0] && b[0] == c[0] {
      StrLessTransitive(a[1..], b[1..], c[1..]);
    }
  }

  /** Comparing the first `n` characters of two strings never contradicts comparing the strings. */
  lemma {:induction false} StrLessOfPrefixes(a: string, b: string, n: nat)
    requires StrLess(Prefix(a, n), Prefix(b, n))
    ensures StrLess(a, b)
  {
    if n > 0 && |a| > 0 && |b| > 0 && a[0] == b[0] {
      assert Prefix(a, n)[1..] == Prefix(a[1..], n - 1);
      assert Prefix(b, n)[1..] == Prefix(b[1..], n - 1);
      StrLessOfPrefixes(a[1..], b[1..], n - 1);
    }
  }
}
