/** The few Python string operations the operator relies on: `str.split` with a
    one-character separator, `str.strip` with a set of characters, and the ASCII part of
    `str.lower`. Strings are sequences of Unicode scalar values, as Python 3 `str` is. */
module Text {

  /** Number of occurrences of `c` in `s`. */
  function Count(s: string, c: char): nat
  {
    if s == [] then 0 else (if s[0] == c then 1 else 0) + Count(s[1..], c)
  }

  lemma {:induction false} CountAbsent(s: string, c: char)
    requires c !in s
    ensures Count(s, c) == 0
  {
    if s != [] {
      assert c !in s[1..];
      CountAbsent(s[1..], c);
    }
  }

  /** Counting around the first occurrence of `c`. */
  lemma {:induction false} CountAroundFirst(s: string, c: char, i: nat)
    requires i < |s| && s[i] == c && c !in s[..i]
    ensures Count(s, c) == 1 + Count(s[i + 1..], c)
  {
    if i > 0 {
      assert s[0] == s[..i][0];
      assert s[1..][..i - 1] == s[1..i];
      assert s[1..][i..] == s[i + 1..];
      CountAroundFirst(s[1..], c, i - 1);
    }
  }

  /** Index of the first occurrence of `c` in `s` (Python `s.index(c)`). */
  function IndexOf(s: string, c: char): (i: nat)
    requires c in s
    ensures i < |s| && s[i] == c && c !in s[..i]
  {
    if s[0] == c then 0
    else
      var j := IndexOf(s[1..], c);
      assert s[..j + 1] == [s[0]] + s[1..][..j];
      1 + j
  }

  lemma {:induction false} IndexOfAfter(a: string, c: char, b: string)
    requires c !in a
    ensures IndexOf(a + [c] + b, c) == |a|
  {
    if a != [] {
      assert (a + [c] + b)[1..] == a[1..] + [c] + b;
      assert a[0] != c;
      IndexOfAfter(a[1..], c, b);
    }
  }

  /** Python `s.split(sep)` for a one-character separator: the pieces between the
      separators, empty pieces included; there is always at least one piece. */
  function Split(s: string, sep: char): (parts: seq<string>)
    ensures |parts| == Count(s, sep) + 1
    ensures forall i :: 0 <= i < |parts| ==> sep !in parts[i]
    decreases |s|
  {
    if sep !in s then
      CountAbsent(s, sep);
      [s]
    else
      var i := IndexOf(s, sep);
      CountAroundFirst(s, sep, i);
      [s[..i]] + Split(s[i + 1..], sep)
  }

  /** Python `sep.join(parts)`. */
  function Join(parts: seq<string>, sep: char): string
    requires parts != []
  {
    if |parts| == 1 then parts[0] else parts[0] + [sep] + Join(parts[1..], sep)
  }

  /** Joining the pieces of a split gives back the original string. */
  lemma {:induction false} JoinSplit(s: string, sep: char)
    ensures Join(Split(s, sep), sep) == s
    decreases |s|
  {
    if sep in s {
      var i := IndexOf(s, sep);
      JoinSplit(s[i + 1..], sep);
      assert s == s[..i] + [sep] + s[i + 1..];
    }
  }

  /** Splitting a join of separator-free pieces gives back the pieces. */
  lemma {:induction false} SplitJoin(parts: seq<string>, sep: char)
    requires parts != []
    requires forall i :: 0 <= i < |parts| ==> sep !in parts[i]
    ensures Split(Join(parts, sep), sep) == parts
  {
    if |parts| > 1 {
      var rest := Join(parts[1..], sep);
      var s := parts[0] + [sep] + rest;
      var i := |parts[0]|;
      assert sep !in parts[0] && s[i] == sep;
      IndexOfAfter(parts[0], sep, rest);
      assert s[..i] == parts[0] && s[i + 1..] == rest;
      assert Split(s, sep) == [parts[0]] + Split(rest, sep);
      assert forall k :: 0 <= k < |parts| - 1 ==> parts[1..][k] == parts[k + 1];
      SplitJoin(parts[1..], sep);
      assert parts == [parts[0]] + parts[1..];
    }
  }

  /** Every character of `s[lo..hi]` is in `chars`. */
  predicate AllIn(s: string, lo: nat, hi: nat, chars: set<char>)
    requires lo <= hi <= |s|
  {
    forall k :: lo <= k < hi ==> s[k] in chars
  }

  /** Neither end of `s` is in `chars` (vacuous for the empty string). */
  predicate Bare(s: string, chars: set<char>)
  {
    s == [] || (s[0] !in chars && s[|s| - 1] !in chars)
  }

  /** The left scan of Python's `strip`: from position `i` on, skip characters in `chars`;
      the result is the first position whose character is not in `chars`. */
  function LeftEnd(s: string, chars: set<char>, i: nat): (k: nat)
    requires i <= |s|
    ensures i <= k <= |s| && AllIn(s, i, k, chars)
    ensures k < |s| ==> s[k] !in chars
    decreases |s| - i
  {
    if i == |s| || s[i] !in chars then i else LeftEnd(s, chars, i + 1)
  }

  /** The right scan of Python's `strip`: from the end `j` down, never below `lo`, skip
      characters in `chars`; the result is the end of what is kept. */
  function RightEnd(s: string, chars: set<char>, lo: nat, j: nat): (k: nat)
    requires lo <= j <= |s|
    ensures lo <= k <= j && AllIn(s, k, j, chars)
    ensures lo < k ==> s[k - 1] !in chars
    decreases j - lo
  {
    if j == lo || s[j - 1] !in chars then j else RightEnd(s, chars, lo, j - 1)
  }

  /** Python `s.strip(chars)`: `chars` is a SET of characters, not a prefix or a suffix.
      The result is the infix of `s` that starts where the left scan stopped; what was
      dropped at either end is made of characters in `chars`, and neither end of the
      result is in `chars`. */
  function Strip(s: string, chars: set<char>): (r: string)
    ensures var i := LeftEnd(s, chars, 0);
            && i + |r| <= |s| && r == s[i..i + |r|]
            && AllIn(s, 0, i, chars) && AllIn(s, i + |r|, |s|, chars)
    ensures Bare(r, chars)
  {
    var i := LeftEnd(s, chars, 0);
    s[i..RightEnd(s, chars, i, |s|)]
  }

  lemma {:induction false} LeftEndAt(s: string, chars: set<char>, i: nat, k: nat)
    requires i <= k <= |s| && AllIn(s, i, k, chars) && (k < |s| ==> s[k] !in chars)
    ensures LeftEnd(s, chars, i) == k
    decreases k - i
  {
    if i < k {
      LeftEndAt(s, chars, i + 1, k);
    }
  }

  lemma {:induction false} RightEndAt(s: string, chars: set<char>, lo: nat, j: nat, k: nat)
    requires lo <= k <= j <= |s| && AllIn(s, k, j, chars) && (lo < k ==> s[k - 1] !in chars)
    ensures RightEnd(s, chars, lo, j) == k
    decreases j - k
  {
    if k < j {
      RightEndAt(s, chars, lo, j - 1, k);
    }
  }

  /** The properties stated on `Strip` determine its result: any infix `s[i..j]` with only
      characters of `chars` outside it and neither end in `chars` is the stripped string. */
  lemma StripUnique(s: string, chars: set<char>, i: nat, j: nat)
    requires i <= j <= |s|
    requires AllIn(s, 0, i, chars) && AllIn(s, j, |s|, chars) && Bare(s[i..j], chars)
    ensures Strip(s, chars) == s[i..j]
  {
    if i == j {
      assert AllIn(s, 0, |s|, chars);
      LeftEndAt(s, chars, 0, |s|);
    } else {
      assert s[i] == s[i..j][0] && s[j - 1] == s[i..j][j - i - 1];
      LeftEndAt(s, chars, 0, i);
      RightEndAt(s, chars, i, |s|, j);
    }
  }

  /** Stripping twice strips nothing more. */
  lemma StripIdempotent(s: string, chars: set<char>)
    ensures Strip(Strip(s, chars), chars) == Strip(s, chars)
  {
    var r := Strip(s, chars);
    assert r[0..|r|] == r;
    StripUnique(r, chars, 0, |r|);
  }

  /** The characters Python's `str.isspace` accepts, which `str.strip()` without
      arguments removes. */
  const Whitespace: set<char> := {
    '\t', '\n', '\U{000B}', '\U{000C}', '\r', '\U{001C}', '\U{001D}', '\U{001E}', '\U{001F}',
    ' ', '\U{0085}', '\U{00A0}', '\U{1680}', '\U{2000}', '\U{2001}', '\U{2002}', '\U{2003}',
    '\U{2004}', '\U{2005}', '\U{2006}', '\U{2007}', '\U{2008}', '\U{2009}', '\U{200A}',
    '\U{2028}', '\U{2029}', '\U{202F}', '\U{205F}', '\U{3000}'
  }

  /** Python `s.strip()`. */
  function Trim(s: string): string
  {
    Strip(s, Whitespace)
  }

  /** The ASCII part of Python's `str.lower` on one character. */
  function LowerChar(c: char): char
  {
    if 'A' <= c <= 'Z' then (c as int + 32) as char else c
  }

  /** Python `s.lower()`, with case folding limited to ASCII letters. */
  function Lower(s: string): (r: string)
    ensures |r| == |s|
  {
    if s == [] then [] else [LowerChar(s[0])] + Lower(s[1..])
  }

  lemma {:induction false} LowerAt(s: string, k: nat)
    requires k < |s|
    ensures Lower(s)[k] == LowerChar(s[k])
  {
    if k > 0 {
      LowerAt(s[1..], k - 1);
    }
  }

  /** A lower-case ASCII letter comes out of `LowerChar` only from itself or its capital. */
  lemma LowerCharTo(c: char, x: char)
    requires 'a' <= x <= 'z'
    ensures LowerChar(c) == x <==> c == x || c == (x as int - 32) as char
  {
  }

  /** `Lower(t) == w` for a lower-case ASCII word `w`, whose capitals are `W`, holds
      exactly when `t` spells `w` with each letter in either case. */
  lemma LowerEqualsWord(t: string, w: string, W: string)
    requires |W| == |w|
    requires forall k :: 0 <= k < |w| ==> 'a' <= w[k] <= 'z' && W[k] == (w[k] as int - 32) as char
    ensures Lower(t) == w <==> |t| == |w| && forall k :: 0 <= k < |w| ==> t[k] == w[k] || t[k] == W[k]
  {
    if |t| == |w| {
      forall k | 0 <= k < |w|
        ensures Lower(t)[k] == w[k] <==> t[k] == w[k] || t[k] == W[k]
      {
        LowerAt(t, k);
        LowerCharTo(t[k], w[k]);
      }
    }
  }
}
