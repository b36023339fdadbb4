/** The `java.lang.String` operations the checker relies on, over
    `seq<char>`. Case mapping is ASCII-only; `trim` and `isBlank` keep
    their different notions of white space. */
module Strings {
  import opened Lang

  // ----- trim -----

  /** `String.trim` removes leading and trailing chars at or below U+0020. */
  predicate IsTrimmable(c: char)
  {
    c <= ' '
  }

  function TrimStart(s: string): (r: string)
    ensures |r| <= |s| && r == s[|s| - |r|..]
    ensures forall i :: 0 <= i < |s| - |r| ==> IsTrimmable(s[i])
    ensures r == [] || !IsTrimmable(r[0])
  {
    if |s| > 0 && IsTrimmable(s[0]) then TrimStart(s[1..]) else s
  }

  function TrimEnd(s: string): (r: string)
    ensures |r| <= |s| && r == s[..|r|]
    ensures forall i :: |r| <= i < |s| ==> IsTrimmable(s[i])
    ensures r == [] || !IsTrimmable(r[|r| - 1])
  {
    if |s| > 0 && IsTrimmable(s[|s| - 1]) then TrimEnd(s[..|s| - 1]) else s
  }

  /** `String.trim()`: the longest slice of `s` that neither starts nor ends
      with a trimmable char; everything cut off on either side is
      trimmable. */
  function Trim(s: string): (r: string)
    ensures |r| <= |s|
    ensures |r| <= |TrimStart(s)| && r == s[|s| - |TrimStart(s)|..][..|r|]
    ensures forall i :: 0 <= i < |s| - |TrimStart(s)| ==> IsTrimmable(s[i])
    ensures forall i :: |s| - |TrimStart(s)| + |r| <= i < |s| ==> IsTrimmable(s[i])
    ensures r == [] || (!IsTrimmable(r[0]) && !IsTrimmable(r[|r| - 1]))
  {
    TrimEnd(TrimStart(s))
  }

  /** Every char of `Trim(s)` occurs in `s`. */
  lemma TrimKeepsChars(s: string, c: char)
    requires c in Trim(s)
    ensures c in s
  {
    var r := Trim(s);
    var k := |s| - |TrimStart(s)|;
    var i :| 0 <= i < |r| && r[i] == c;
    assert s[k + i] == c;
  }

  /** A string is left unchanged by `trim` exactly when it does not start or
      end with a trimmable char; in particular `trim` is idempotent. */
  lemma TrimFixedPoint(s: string)
    ensures Trim(s) == s <==> (s == [] || (!IsTrimmable(s[0]) && !IsTrimmable(s[|s| - 1])))
    ensures Trim(Trim(s)) == Trim(s)
  {
    TrimOfTrimmed(s);
    TrimOfTrimmed(Trim(s));
  }

  lemma TrimOfTrimmed(s: string)
    ensures (s == [] || (!IsTrimmable(s[0]) && !IsTrimmable(s[|s| - 1]))) ==> Trim(s) == s
  {
    if s == [] || (!IsTrimmable(s[0]) && !IsTrimmable(s[|s| - 1])) {
      assert TrimStart(s) == s;
      assert TrimEnd(s) == s;
    }
  }

  /** Trimming a string that ends in a non-trimmable char followed by
      trimmable ones strips that tail and the trimmable front. */
  lemma TrimBeforeTail(s: string, tail: string)
    requires s != [] && !IsTrimmable(s[|s| - 1])
    requires forall i :: 0 <= i < |tail| ==> IsTrimmable(tail[i])
    ensures Trim(s + tail) == TrimStart(s)
  {
    var u := TrimStart(s);
    assert u != [] && u[|u| - 1] == s[|s| - 1];
    TrimStartOfConcat(s, tail);
    TrimEndOfConcat(u, tail);
  }

  lemma {:induction false} TrimStartOfConcat(s: string, tail: string)
    requires s != [] && !IsTrimmable(s[|s| - 1])
    ensures TrimStart(s + tail) == TrimStart(s) + tail
    decreases |s|
  {
    if IsTrimmable(s[0]) {
      assert |s| > 1;
      assert (s + tail)[1..] == s[1..] + tail;
      TrimStartOfConcat(s[1..], tail);
    } else {
      assert (s + tail)[0] == s[0];
    }
  }

  lemma {:induction false} TrimEndOfConcat(u: string, tail: string)
    requires u != [] && !IsTrimmable(u[|u| - 1])
    requires forall i :: 0 <= i < |tail| ==> IsTrimmable(tail[i])
    ensures TrimEnd(u + tail) == u
    decreases |tail|
  {
    if tail == [] {
      assert u + tail == u;
    } else {
      var v := u + tail;
      assert IsTrimmable(v[|v| - 1]) by { assert v[|v| - 1] == tail[|tail| - 1]; }
      assert v[..|v| - 1] == u + tail[..|tail| - 1];
      TrimEndOfConcat(u, tail[..|tail| - 1]);
    }
  }

  // ----- length -----

  /** A char outside the Basic Multilingual Plane, which Java stores as a
      surrogate pair. */
  predicate IsSupplementary(c: char)
  {
    c as int > 0xFFFF
  }

  /** `String.length()`: the number of UTF-16 code units, two for each
      supplementary char and one for every other char. */
  function Utf16Length(s: string): (n: nat)
    ensures |s| <= n <= 2 * |s|
    ensures n == |s| <==> forall i :: 0 <= i < |s| ==> !IsSupplementary(s[i])
    decreases |s|
  {
    if |s| == 0 then 0
    else
      var rest := Utf16Length(s[1..]);
      assert forall i :: 1 <= i < |s| ==> s[i] == s[1..][i - 1];
      (if IsSupplementary(s[0]) then 2 else 1) + rest
  }

  /** Code units add up over a concatenation. */
  lemma {:induction false} Utf16LengthConcat(a: string, b: string)
    ensures Utf16Length(a + b) == Utf16Length(a) + Utf16Length(b)
    decreases |a|
  {
    if |a| > 0 {
      assert (a + b)[0] == a[0];
      assert (a + b)[1..] == a[1..] + b;
      Utf16LengthConcat(a[1..], b);
    } else {
      assert a + b == b;
    }
  }

  /** An emoji is one Dafny char but two Java chars. */
  lemma Utf16LengthOfEmoji()
    ensures |"\U{1F600}"| == 1 && Utf16Length("\U{1F600}") == 2
  {
  }

  // ----- isBlank -----

  /** `Character.isWhitespace`: the Unicode space, line and paragraph
      separators other than the no-break spaces U+00A0, U+2007 and U+202F,
      plus U+0009-U+000D and U+001C-U+001F. */
  predicate IsWhitespace(c: char)
  {
    || ('\t' <= c <= '\r')
    || ('\U{1C}' <= c <= ' ')
    || c == '\U{1680}'
    || ('\U{2000}' <= c <= '\U{2006}')
    || ('\U{2008}' <= c <= '\U{200A}')
    || c == '\U{2028}' || c == '\U{2029}'
    || c == '\U{205F}' || c == '\U{3000}'
  }

  /** `String.isBlank()`: empty or white space only. */
  predicate IsBlank(s: string)
  {
    |s| == 0 || (IsWhitespace(s[0]) && IsBlank(s[1..]))
  }

  /** The null-or-blank test the controller applies to optional request
      parameters. */
  predicate NullOrBlank(s: Option<string>)
  {
    s.None? || IsBlank(s.value)
  }

  /** `trim().isEmpty()` and `isBlank()` are different tests: an ideographic
      space is blank but survives `trim`, a NUL char is removed by `trim` but
      is not blank. */
  lemma BlankIsNotTrimEmpty()
    ensures IsBlank("\U{3000}") && Trim("\U{3000}") != []
    ensures !IsBlank("\U{0}") && Trim("\U{0}") == []
  {
    var ideographic := "\U{3000}";
    assert !IsTrimmable(ideographic[0]);
    assert TrimStart(ideographic) == ideographic;
    assert TrimEnd(ideographic) == ideographic;
    var nul := "\U{0}";
    assert IsTrimmable(nul[0]) && !IsWhitespace(nul[0]);
    assert TrimStart(nul) == TrimStart(nul[1..]);
    assert nul[1..] == [];
  }

  // ----- case -----

  function LowerChar(c: char): char
  {
    if 'A' <= c <= 'Z' then (c as int + 32) as char else c
  }

  predicate HasNoUpper(s: string)
  {
    forall i :: 0 <= i < |s| ==> !('A' <= s[i] <= 'Z')
  }

  /** `String.toLowerCase()` restricted to ASCII letters. */
  function ToLower(s: string): (r: string)
    ensures |r| == |s|
    ensures HasNoUpper(r)
    ensures forall i :: 0 <= i < |s| && !('A' <= s[i] <= 'Z') ==> r[i] == s[i]
    ensures forall i :: 0 <= i < |s| && 'A' <= s[i] <= 'Z' ==> r[i] as int == s[i] as int + 32
  {
    seq(|s|, i requires 0 <= i < |s| => LowerChar(s[i]))
  }

  lemma LowerOfLower(s: string)
    requires HasNoUpper(s)
    ensures ToLower(s) == s
  {
  }

  /** A lower-case letter occurs in `ToLower(s)` only where it or its
      upper-case form occurs in `s`. */
  lemma LowerLacks(s: string, c: char)
    requires 'a' <= c <= 'z'
    requires c !in s && (c as int - 32) as char !in s
    ensures c !in ToLower(s)
  {
    forall i | 0 <= i < |s|
      ensures ToLower(s)[i] != c
    {
      assert s[i] != c && s[i] != (c as int - 32) as char;
    }
  }

  /** Hence a string in which a lower-case letter of `t` occurs in neither
      case does not contain `t` once lower-cased. */
  lemma LowerNotContains(s: string, t: string, c: char)
    requires 'a' <= c <= 'z' && c in t
    requires c !in s && (c as int - 32) as char !in s
    ensures !Contains(ToLower(s), t)
  {
    LowerLacks(s, c);
    NotContainsWithout(ToLower(s), t, c);
  }

  /** `String.equalsIgnoreCase`, ASCII letters only. */
  predicate EqualsIgnoreCase(a: string, b: string)
  {
    |a| == |b| && ToLower(a) == ToLower(b)
  }

  // ----- search -----

  predicate StartsWith(s: string, prefix: string)
  {
    |prefix| <= |s| && s[..|prefix|] == prefix
  }

  /** `t` occurs in `s` starting at position `i`. */
  predicate OccursAt(s: string, t: string, i: int)
  {
    0 <= i <= |s| - |t| && s[i..i + |t|] == t
  }

  /** `String.contains`: some slice of `s` equals `t`. */
  predicate Contains(s: string, t: string)
  {
    exists i :: 0 <= i <= |s| - |t| && OccursAt(s, t, i)
  }

  /** A string without the char `c` contains no substring that has it. */
  lemma NotContainsWithout(s: string, t: string, c: char)
    requires c !in s && c in t
    ensures !Contains(s, t)
  {
    forall i | 0 <= i <= |s| - |t|
      ensures !OccursAt(s, t, i)
    {
    }
  }

  /** `String.indexOf(char)`: the first position of `c`, or -1. */
  function IndexOf(s: string, c: char): (r: int)
    ensures -1 <= r < |s|
    ensures r == -1 <==> c !in s
    ensures r >= 0 ==> s[r] == c && c !in s[..r]
  {
    if |s| == 0 then -1
    else if s[0] == c then 0
    else
      var k := IndexOf(s[1..], c);
      assert s[1..] == s[1..];
      if k == -1 then -1
      else
        assert s[..k + 1] == [s[0]] + s[1..][..k];
        k + 1
  }

  /** `IndexOf` finds the first occurrence and no other. */
  lemma IndexOfIsFirst(s: string, c: char, k: int)
    requires 0 <= k < |s| && s[k] == c && c !in s[..k]
    ensures IndexOf(s, c) == k
  {
  }

  // ----- replace, split, join -----

  /** `s.replace(String.valueOf(c), "")`: every occurrence of `c` removed,
      the other chars kept in order. */
  function RemoveAll(s: string, c: char): (r: string)
    ensures c !in r
    ensures forall x :: x != c ==> multiset(r)[x] == multiset(s)[x]
    ensures |r| + multiset(s)[c] == |s|
  {
    if |s| == 0 then []
    else
      assert s == [s[0]] + s[1..];
      if s[0] == c then RemoveAll(s[1..], c) else [s[0]] + RemoveAll(s[1..], c)
  }

  /** Removing a char from a concatenation removes it from each part and
      keeps the parts in order. */
  lemma {:induction false} RemoveAllConcat(a: string, b: string, c: char)
    ensures RemoveAll(a + b, c) == RemoveAll(a, c) + RemoveAll(b, c)
    decreases |a|
  {
    if |a| > 0 {
      assert (a + b)[0] == a[0];
      assert (a + b)[1..] == a[1..] + b;
      RemoveAllConcat(a[1..], b, c);
      if a[0] != c {
        assert [a[0]] + (RemoveAll(a[1..], c) + RemoveAll(b, c)) == [a[0]] + RemoveAll(a[1..], c) + RemoveAll(b, c);
      }
    } else {
      assert a + b == b;
    }
  }

  /** A single char is dropped when it is `c` and kept otherwise. */
  lemma RemoveAllOne(x: char, c: char)
    ensures RemoveAll([x], c) == if x == c then [] else [x]
  {
    assert [x][1..] == [];
  }

  /** The pieces of `s` between successive line feeds, each with a carriage
      return immediately before its line feed dropped: the matches of the
      regular expression `\r?\n`, scanned left to right. */
  function LinePieces(s: string): (ps: seq<string>)
    ensures |ps| >= 1
    ensures forall i :: 0 <= i < |ps| ==> '\n' !in ps[i]
    decreases |s|
  {
    var k := IndexOf(s, '\n');
    if k == -1 then [s]
    else
      var piece := if k > 0 && s[k - 1] == '\r' then s[..k - 1] else s[..k];
      assert '\n' !in piece by { assert piece <= s[..k]; }
      [piece] + LinePieces(s[k + 1..])
  }

  /** There is one piece more than there are line feeds. */
  lemma {:induction false} LinePiecesCount(s: string)
    ensures |LinePieces(s)| == multiset(s)['\n'] + 1
    decreases |s|
  {
    var k := IndexOf(s, '\n');
    if k != -1 {
      assert s == s[..k] + [s[k]] + s[k + 1..];
      assert multiset(s[..k])['\n'] == 0;
      LinePiecesCount(s[k + 1..]);
    }
  }

  /** Drops the empty strings at the end of a list. */
  function DropTrailingEmpty(ps: seq<string>): (r: seq<string>)
    ensures |r| <= |ps| && r == ps[..|r|]
    ensures r == [] || r[|r| - 1] != []
    ensures forall i :: |r| <= i < |ps| ==> ps[i] == []
  {
    if |ps| > 0 && ps[|ps| - 1] == [] then DropTrailingEmpty(ps[..|ps| - 1]) else ps
  }

  /** `s.split("\\r?\\n")`: the whole string when there is no line feed,
      otherwise the pieces between separators with trailing empty pieces
      removed. */
  function SplitLines(s: string): (lines: seq<string>)
    ensures forall i :: 0 <= i < |lines| ==> '\n' !in lines[i]
    ensures '\n' !in s ==> lines == [s]
    ensures '\n' in s ==> lines == [] || lines[|lines| - 1] != []
  {
    if '\n' !in s then [s] else DropTrailingEmpty(LinePieces(s))
  }

  /** Concatenation of `xs` with `sep` between neighbours. */
  function Join(sep: string, xs: seq<string>): string
  {
    if |xs| == 0 then []
    else if |xs| == 1 then xs[0]
    else Join(sep, xs[..|xs| - 1]) + sep + xs[|xs| - 1]
  }

  /** Appending one more element to a non-empty list appends the separator
      and the element to its join. */
  lemma JoinSnoc(sep: string, xs: seq<string>, x: string)
    requires |xs| > 0
    ensures Join(sep, xs + [x]) == Join(sep, xs) + sep + x
  {
    assert (xs + [x])[..|xs|] == xs;
  }

  /** Prepending one element to a non-empty list prepends it and the
      separator to its join. */
  lemma {:induction false} JoinCons(sep: string, x: string, ys: seq<string>)
    requires |ys| > 0
    ensures Join(sep, [x] + ys) == x + sep + Join(sep, ys)
    decreases |ys|
  {
    if |ys| > 1 {
      var init := ys[..|ys| - 1];
      JoinCons(sep, x, init);
      assert ([x] + ys)[..|ys|] == [x] + init;
      assert ([x] + ys)[|ys|] == ys[|ys| - 1];
    } else {
      assert [x] + ys == [x, ys[0]];
    }
  }

  /** Without carriage returns, splitting at line feeds loses nothing:
      joining the pieces with line feeds gives the string back. */
  lemma {:induction false} LinePiecesJoin(s: string)
    requires '\r' !in s
    ensures Join("\n", LinePieces(s)) == s
    decreases |s|
  {
    var k := IndexOf(s, '\n');
    if k != -1 {
      var rest := s[k + 1..];
      assert k > 0 ==> s[k - 1] != '\r' by {
        if k > 0 { assert s[k - 1] in s; }
      }
      assert LinePieces(s) == [s[..k]] + LinePieces(rest);
      LinePiecesJoin(rest);
      JoinCons("\n", s[..k], LinePieces(rest));
      SplitAround(s, k);
    }
  }

  lemma SplitAround(s: string, k: int)
    requires 0 <= k < |s|
    ensures s == s[..k] + [s[k]] + s[k + 1..]
  {
  }
}
