/**
 * The pieces of Python's `str` and `os.path` (Windows flavour, `ntpath`) that the note
 * builders rely on, written as Dafny functions over `string` with the facts the rest of
 * the model needs about them.
 */
module PyText {
  import opened Seqs

  /** Python's `str.split(sep)` for a one-character separator: always at least one piece. */
  function Split(s: string, sep: char): (pieces: seq<string>)
    ensures |pieces| >= 1
    ensures forall i :: 0 <= i < |pieces| ==> sep !in pieces[i]
  {
    if s == [] then [""]
    else
      var rest := Split(s[1..], sep);
      if s[0] == sep then [""] + rest
      else [[s[0]] + rest[0]] + rest[1..]
  }

  /** Python's `sep.join(lines)` for a one-character separator. */
  function Join(lines: seq<string>, sep: char): string
  {
    if lines == [] then ""
    else if |lines| == 1 then lines[0]
    else lines[0] + [sep] + Join(lines[1..], sep)
  }

  /** Joining the pieces of a split gives back the text. */
  lemma {:induction false} JoinSplit(s: string, sep: char)
    ensures Join(Split(s, sep), sep) == s
  {
    if s != [] {
      var rest := Split(s[1..], sep);
      JoinSplit(s[1..], sep);
      if s[0] == sep {
        assert Split(s, sep) == [""] + rest;
        assert ([""] + rest)[1..] == rest;
        assert s == [sep] + s[1..];
      } else if |rest| == 1 {
        assert Split(s, sep) == [[s[0]] + rest[0]];
        assert s == [s[0]] + s[1..];
      } else {
        var pieces := Split(s, sep);
        assert pieces == [[s[0]] + rest[0]] + rest[1..];
        assert pieces[1..] == rest[1..];
        assert Join(rest, sep) == rest[0] + [sep] + Join(rest[1..], sep);
        assert s == [s[0]] + s[1..];
      }
    }
  }

  /** A text without the separator is one piece. */
  lemma {:induction false} SplitWithoutSeparator(s: string, sep: char)
    requires sep !in s
    ensures Split(s, sep) == [s]
  {
    if s != [] {
      SplitWithoutSeparator(s[1..], sep);
      assert s == [s[0]] + s[1..];
    }
  }

  /** Splitting `a + sep + b`, where `a` has no separator, yields `a` followed by the pieces of `b`. */
  lemma {:induction false} SplitAfterPiece(a: string, b: string, sep: char)
    requires sep !in a
    ensures Split(a + [sep] + b, sep) == [a] + Split(b, sep)
  {
    if a == [] {
      assert ([sep] + b)[1..] == b;
      assert a + [sep] + b == [sep] + b;
    } else {
      SplitAfterPiece(a[1..], b, sep);
      assert (a + [sep] + b)[1..] == a[1..] + [sep] + b;
      assert [a[0]] + a[1..] == a;
    }
  }

  /** Splitting a join of separator-free lines gives back the lines. */
  lemma {:induction false} SplitJoin(lines: seq<string>, sep: char)
    requires |lines| >= 1
    requires forall i :: 0 <= i < |lines| ==> sep !in lines[i]
    ensures Split(Join(lines, sep), sep) == lines
  {
    if |lines| == 1 {
      SplitWithoutSeparator(lines[0], sep);
    } else {
      SplitJoin(lines[1..], sep);
      SplitAfterPiece(lines[0], Join(lines[1..], sep), sep);
      assert [lines[0]] + lines[1..] == lines;
    }
  }

  /** Splitting separator-free lines joined with some text after them gives the lines, then the pieces of the text. */
  lemma {:induction false} SplitLinesThenText(lines: seq<string>, text: string, sep: char)
    requires forall i :: 0 <= i < |lines| ==> sep !in lines[i]
    ensures Split(Join(lines + [text], sep), sep) == lines + Split(text, sep)
  {
    if lines != [] {
      var tail := lines[1..];
      SplitLinesThenText(tail, text, sep);
      DropHeadOfAppend(lines, [text]);
      assert Join(lines + [text], sep) == lines[0] + [sep] + Join(tail + [text], sep);
      SplitAfterPiece(lines[0], Join(tail + [text], sep), sep);
      HeadAndTail(lines);
      AppendAssoc([lines[0]], tail, Split(text, sep));
    } else {
      assert lines + [text] == [text];
    }
  }

  /** Python's `s.startswith(prefix)`. */
  predicate StartsWith(s: string, prefix: string)
  {
    |prefix| <= |s| && s[..|prefix|] == prefix
  }

  /** Python's `str.isspace()` for one character: the Unicode white space Python strips by default. */
  predicate IsSpace(c: char)
  {
    ('\t' <= c <= '\r') || ('\U{1C}' <= c <= '\U{1F}') || c == ' ' || c == '\U{85}' || c == '\U{A0}'
    || c == '\U{1680}' || ('\U{2000}' <= c <= '\U{200A}') || c == '\U{2028}' || c == '\U{2029}'
    || c == '\U{202F}' || c == '\U{205F}' || c == '\U{3000}'
  }

  /** Python's `s.lstrip(chars)`: drops leading characters that belong to `chars`. */
  function LStripChars(s: string, chars: set<char>): (r: string)
    ensures |r| <= |s| && r == s[|s| - |r|..]
    ensures r != [] ==> r[0] !in chars
    ensures forall i :: 0 <= i < |s| - |r| ==> s[i] in chars
  {
    if s != [] && s[0] in chars then LStripChars(s[1..], chars) else s
  }

  /** Python's `s.lstrip()` with no argument. */
  function LStrip(s: string): (r: string)
    ensures |r| <= |s|
    ensures r != [] ==> !IsSpace(r[0])
  {
    if s != [] && IsSpace(s[0]) then LStrip(s[1..]) else s
  }

  /** Python's `s.rstrip()` with no argument. */
  function RStrip(s: string): (r: string)
    ensures |r| <= |s|
    ensures r != [] ==> !IsSpace(r[|r| - 1])
  {
    if s != [] && IsSpace(s[|s| - 1]) then RStrip(s[..|s| - 1]) else s
  }

  /** `lstrip` drops exactly a leading run of white space. */
  lemma {:induction false} LStripDropsLeadingSpace(s: string)
    ensures var r := LStrip(s);
            r == s[|s| - |r|..] && forall i :: 0 <= i < |s| - |r| ==> IsSpace(s[i])
  {
    if s != [] && IsSpace(s[0]) {
      LStripDropsLeadingSpace(s[1..]);
    }
  }

  /** `rstrip` drops exactly a trailing run of white space. */
  lemma {:induction false} RStripDropsTrailingSpace(s: string)
    ensures var r := RStrip(s);
            r == s[..|r|] && forall i :: |r| <= i < |s| ==> IsSpace(s[i])
  {
    if s != [] && IsSpace(s[|s| - 1]) {
      RStripDropsTrailingSpace(s[..|s| - 1]);
    }
  }

  /** Python's `s.strip()` with no argument. */
  function Strip(s: string): (r: string)
    ensures |r| <= |s|
    ensures r != [] ==> !IsSpace(r[0]) && !IsSpace(r[|r| - 1])
  {
    RStripDropsTrailingSpace(LStrip(s));
    RStrip(LStrip(s))
  }

  /** `strip` leaves nothing exactly when the text is all white space. */
  lemma StripEmptyIffAllSpace(s: string)
    ensures Strip(s) == [] <==> forall i :: 0 <= i < |s| ==> IsSpace(s[i])
  {
    LStripDropsLeadingSpace(s);
    RStripDropsTrailingSpace(LStrip(s));
  }

  /** Python's `s.replace(a, b)` for single characters. */
  function ReplaceChar(s: string, a: char, b: char): (r: string)
    ensures |r| == |s|
  {
    if s == [] then [] else [if s[0] == a then b else s[0]] + ReplaceChar(s[1..], a, b)
  }

  /** Each character of the result is the replacement exactly where the text held `a`. */
  lemma {:induction false} ReplaceCharAt(s: string, a: char, b: char)
    ensures var r := ReplaceChar(s, a, b);
            forall i :: 0 <= i < |s| ==> r[i] == if s[i] == a then b else s[i]
  {
    if s != [] {
      ReplaceCharAt(s[1..], a, b);
    }
  }

  /** Replacing in a concatenation replaces in each part. */
  lemma {:induction false} ReplaceCharAppend(s: string, t: string, a: char, b: char)
    ensures ReplaceChar(s + t, a, b) == ReplaceChar(s, a, b) + ReplaceChar(t, a, b)
  {
    if s != [] {
      ReplaceCharAppend(s[1..], t, a, b);
      assert (s + t)[1..] == s[1..] + t;
    } else {
      assert s + t == t;
    }
  }

  /** Replacing a character the text does not hold changes nothing. */
  lemma {:induction false} ReplaceAbsentChar(s: string, a: char, b: char)
    requires a !in s
    ensures ReplaceChar(s, a, b) == s
  {
    if s != [] {
      assert s[0] in s;
      assert forall c :: c in s[1..] ==> c in s;
      ReplaceAbsentChar(s[1..], a, b);
    }
  }

  /** `str.lower()` on the ASCII letters, the only letters the extension whitelist holds. */
  function LowerChar(c: char): char
  {
    if 'A' <= c <= 'Z' then (c as int + 32) as char else c
  }

  function Lower(s: string): (r: string)
    ensures |r| == |s|
  {
    if s == [] then [] else [LowerChar(s[0])] + Lower(s[1..])
  }

  /** `Lower` works character by character. */
  lemma {:induction false} LowerAt(s: string)
    ensures forall i :: 0 <= i < |s| ==> Lower(s)[i] == LowerChar(s[i])
  {
    if s != [] {
      LowerAt(s[1..]);
    }
  }

  /** Python's slice `s[:n]`, which never fails on a short string. */
  function Take(s: string, n: nat): (r: string)
    ensures |r| == if n <= |s| then n else |s|
    ensures StartsWith(s, r)
  {
    if n <= |s| then s[..n] else s
  }

  function DigitChar(d: nat): char
    requires d < 10
  {
    (48 + d) as char
  }

  predicate IsDigit(c: char)
  {
    '0' <= c <= '9'
  }

  /** `str(n)` for a non-negative integer: decimal digits without leading zeros. */
  function Decimal(n: nat): (r: string)
    ensures |r| >= 1
    ensures forall i :: 0 <= i < |r| ==> IsDigit(r[i])
    ensures r[0] == '0' ==> n == 0
  {
    if n < 10 then [DigitChar(n)] else Decimal(n / 10) + [DigitChar(n % 10)]
  }

  function DigitValue(c: char): nat
    requires IsDigit(c)
  {
    c as int - 48
  }

  /** The value of a string of decimal digits. */
  function DigitsValue(s: string): nat
    requires forall i :: 0 <= i < |s| ==> IsDigit(s[i])
  {
    if s == [] then 0 else DigitsValue(s[..|s| - 1]) * 10 + DigitValue(s[|s| - 1])
  }

  /** Reading back the decimal form of a number gives the number. */
  lemma {:induction false} DecimalRoundTrip(n: nat)
    ensures DigitsValue(Decimal(n)) == n
  {
    if n >= 10 {
      DecimalRoundTrip(n / 10);
      var d := Decimal(n);
      assert d[..|d| - 1] == Decimal(n / 10);
    }
  }

  /** Windows accepts both separators. */
  const PathSeparators: set<char> := {'\\', '/'}

  /** Index of the last character of `s` in `cs`, or -1 (Python's `rfind`). */
  function LastIndexIn(s: string, cs: set<char>): (r: int)
    ensures -1 <= r < |s|
    ensures r >= 0 ==> s[r] in cs
    ensures forall i :: r < i < |s| ==> s[i] !in cs
  {
    if s == [] then -1
    else if s[|s| - 1] in cs then |s| - 1
    else LastIndexIn(s[..|s| - 1], cs)
  }

  /** A string made of dots only (the empty string included). */
  predicate AllDots(s: string)
  {
    s == [] || (s[0] == '.' && AllDots(s[1..]))
  }

  /** The last index holding a character of `cs` is the one with none of them after it. */
  lemma LastIndexInAt(s: string, cs: set<char>, k: nat)
    requires k < |s| && s[k] in cs
    requires forall i :: k < i < |s| ==> s[i] !in cs
    ensures LastIndexIn(s, cs) == k
  {
  }

  /**
   * `os.path.splitext(p)[1]` on Windows: the text from the last dot on, provided that dot
   * follows the last separator and the file name has a character other than a dot before it.
   */
  function Extension(p: string): (ext: string)
    ensures |ext| <= |p|
  {
    var sepIndex := LastIndexIn(p, PathSeparators);
    var dotIndex := LastIndexIn(p, {'.'});
    if dotIndex > sepIndex && !AllDots(p[sepIndex + 1..dotIndex]) then
      p[dotIndex..]
    else
      ""
  }

  /** A non-empty extension is a dot and what follows it, at the end of the path, with no separator in it. */
  lemma ExtensionIsSuffix(p: string)
    ensures var ext := Extension(p);
            ext != [] ==> ext[0] == '.' && '\\' !in ext && '/' !in ext && p == p[..|p| - |ext|] + ext
  {
  }

  /** A name `os.path.join` appends as it is: relative, without a drive. */
  predicate RelativeName(name: string)
  {
    name != [] && name[0] !in PathSeparators && !(|name| >= 2 && name[1] == ':')
  }

  /**
   * `os.path.join(dir, name)` on Windows for a relative, drive-less `name`: a backslash goes
   * between them unless the part of `dir` after its drive is empty or already ends with a separator.
   */
  function JoinPath(dir: string, name: string): (r: string)
    requires RelativeName(name)
    ensures r == dir + name || r == dir + "\\" + name
    ensures dir != [] && dir[|dir| - 1] in PathSeparators ==> r == dir + name
  {
    var pathPart := if |dir| >= 2 && dir[1] == ':' then dir[2..] else dir;
    if pathPart != [] && pathPart[|pathPart| - 1] !in PathSeparators then dir + "\\" + name
    else dir + name
  }

  /** Joining a name and then appending to it is joining the longer name. */
  lemma JoinPathAppend(dir: string, a: string, b: string)
    requires RelativeName(a) && RelativeName(a + b)
    ensures JoinPath(dir, a + b) == JoinPath(dir, a) + b
  {
    assert dir + "\\" + (a + b) == dir + "\\" + a + b;
    assert dir + (a + b) == dir + a + b;
  }

  /** A directory `os.path.join` puts a backslash after: it ends in neither a separator nor a drive's colon. */
  predicate NeedsSeparator(dir: string)
  {
    dir != [] && dir[|dir| - 1] !in PathSeparators && dir[|dir| - 1] != ':'
  }

  /** Joining a name onto such a directory puts exactly one backslash between them. */
  lemma JoinPathInserts(dir: string, name: string)
    requires RelativeName(name) && NeedsSeparator(dir)
    ensures JoinPath(dir, name) == dir + "\\" + name
  {
    if |dir| >= 2 && dir[1] == ':' {
      assert |dir| >= 3;
      assert dir[2..][|dir[2..]| - 1] == dir[|dir| - 1];
    }
  }

  /** Lower-casing commutes with slicing. */
  lemma LowerSlice(s: string, a: nat, b: nat)
    requires a <= b <= |s|
    ensures Lower(s)[a..b] == Lower(s[a..b])
  {
    LowerAt(s);
    LowerAt(s[a..b]);
  }

  /** Lower-casing twice is lower-casing once. */
  lemma LowerTwice(s: string)
    ensures Lower(Lower(s)) == Lower(s)
  {
    LowerAt(s);
    LowerAt(Lower(s));
  }

  /** Lower-casing leaves every character outside `A`-`Z` where it was, so dots stay dots. */
  lemma {:induction false} AllDotsLower(s: string)
    ensures AllDots(Lower(s)) == AllDots(s)
  {
    if s != [] {
      AllDotsLower(s[1..]);
      assert Lower(s)[1..] == Lower(s[1..]);
    }
  }

  /** Separators and dots are found at the same places before and after lower-casing. */
  lemma {:induction false} LastIndexInLower(s: string, cs: set<char>)
    requires cs <= {'\\', '/', '.'}
    ensures LastIndexIn(Lower(s), cs) == LastIndexIn(s, cs)
  {
    if s != [] {
      var n := |s| - 1;
      LowerAt(s);
      assert Lower(s)[..n] == Lower(s[..n]) by {
        LowerSlice(s, 0, n);
      }
      LastIndexInLower(s[..n], cs);
    }
  }

  /** The extension of a lower-cased path is the lower-cased extension. */
  lemma ExtensionOfLower(p: string)
    ensures Extension(Lower(p)) == Lower(Extension(p))
  {
    var q := Lower(p);
    LastIndexInLower(p, PathSeparators);
    LastIndexInLower(p, {'.'});
    var sepIndex := LastIndexIn(p, PathSeparators);
    var dotIndex := LastIndexIn(p, {'.'});
    if dotIndex > sepIndex {
      assert q[sepIndex + 1..dotIndex] == Lower(p[sepIndex + 1..dotIndex]) by {
        LowerSlice(p, sepIndex + 1, dotIndex);
      }
      AllDotsLower(p[sepIndex + 1..dotIndex]);
      assert q[dotIndex..] == Lower(p[dotIndex..]) by {
        LowerSlice(p, dotIndex, |p|);
        assert p[dotIndex..|p|] == p[dotIndex..];
      }
    }
  }
}
