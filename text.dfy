/**
 * The string operations the model relies on, over `seq<char>`: Swift's
 * `split(separator:)` (which drops empty pieces), `joined(separator:)`,
 * ASCII case mapping, prefix and substring tests, single-character
 * replacement, and the code-point order used for sorting keys.
 */
module Text {

  // ---------------------------------------------------------------------------
  // split and joined

  /** The longest prefix of `s` free of `sep`. */
  function Word(s: string, sep: char): (w: string)
    ensures |w| <= |s| && w == s[..|w|] && sep !in w
    ensures |w| < |s| ==> s[|w|] == sep
    ensures s != [] && s[0] != sep ==> w != []
    decreases |s|
  {
    if s == [] || s[0] == sep then [] else [s[0]] + Word(s[1..], sep)
  }

  /** `s.split(separator: sep)`: the maximal runs free of `sep`, empty ones omitted. */
  function Split(s: string, sep: char): seq<string>
    decreases |s|
  {
    if s == [] then []
    else if s[0] == sep then Split(s[1..], sep)
    else var w := Word(s, sep); [w] + Split(s[|w|..], sep)
  }

  /** What `split` can return as one piece: non-empty and free of the separator. */
  predicate IsPiece(w: string, sep: char)
  {
    w != [] && sep !in w
  }

  /** `parts.joined(separator: sep)`. */
  function Join(parts: seq<string>, sep: string): string
  {
    if |parts| == 0 then ""
    else if |parts| == 1 then parts[0]
    else parts[0] + sep + Join(parts[1..], sep)
  }

  /** Every piece `split` returns is non-empty and free of the separator. */
  lemma {:induction false} SplitPieces(s: string, sep: char)
    ensures forall i :: 0 <= i < |Split(s, sep)| ==> IsPiece(Split(s, sep)[i], sep)
    decreases |s|
  {
    if s != [] {
      if s[0] == sep {
        SplitPieces(s[1..], sep);
      } else {
        SplitPieces(s[|Word(s, sep)|..], sep);
      }
    }
  }

  lemma {:induction false} WordOfPiece(w: string, rest: string, sep: char)
    requires sep !in w
    requires rest == [] || rest[0] == sep
    ensures Word(w + rest, sep) == w
    decreases |w|
  {
    if w != [] {
      assert (w + rest)[1..] == w[1..] + rest;
      WordOfPiece(w[1..], rest, sep);
    } else {
      assert w + rest == rest;
    }
  }

  lemma SplitSkipsSeparator(rest: string, sep: char)
    ensures Split([sep] + rest, sep) == Split(rest, sep)
  {
    assert ([sep] + rest)[1..] == rest;
  }

  /** A piece followed by the separator splits off as the first piece. */
  lemma SplitAfterPiece(w: string, rest: string, sep: char)
    requires IsPiece(w, sep)
    ensures Split(w + [sep] + rest, sep) == [w] + Split(rest, sep)
  {
    var s := w + [sep] + rest;
    WordOfPiece(w, [sep] + rest, sep);
    assert s == w + ([sep] + rest);
    assert s[|w|..] == [sep] + rest;
    SplitSkipsSeparator(rest, sep);
  }

  /** Splitting a joined list of pieces gives the pieces back. */
  lemma {:induction false} SplitJoin(ws: seq<string>, sep: char)
    requires forall i :: 0 <= i < |ws| ==> IsPiece(ws[i], sep)
    ensures Split(Join(ws, [sep]), sep) == ws
  {
    if |ws| == 1 {
      WordOfPiece(ws[0], [], sep);
      assert ws[0] + [] == ws[0];
      assert ws[0][|ws[0]|..] == [];
    } else if |ws| > 1 {
      SplitJoin(ws[1..], sep);
      SplitAfterPiece(ws[0], Join(ws[1..], [sep]), sep);
    }
  }

  // ---------------------------------------------------------------------------
  // ASCII case mapping

  function LowerChar(c: char): (r: char)
  {
    if 'A' <= c <= 'Z' then (c as int + 32) as char else c
  }

  function UpperChar(c: char): (r: char)
  {
    if 'a' <= c <= 'z' then (c as int - 32) as char else c
  }

  /** `lowercased()`, restricted to ASCII letters. */
  function Lower(s: string): (r: string)
    ensures |r| == |s|
    ensures forall i :: 0 <= i < |s| ==> r[i] == LowerChar(s[i])
  {
    if s == [] then [] else [LowerChar(s[0])] + Lower(s[1..])
  }

  /** `uppercased()`, restricted to ASCII letters. */
  function Upper(s: string): (r: string)
    ensures |r| == |s|
    ensures forall i :: 0 <= i < |s| ==> r[i] == UpperChar(s[i])
  {
    if s == [] then [] else [UpperChar(s[0])] + Upper(s[1..])
  }

  // ---------------------------------------------------------------------------
  // Tests and replacement

  /** `s.hasPrefix(p)`. */
  predicate HasPrefix(s: string, p: string)
  {
    |p| <= |s| && s[..|p|] == p
  }

  /** `s.contains(t)`. */
  predicate Contains(s: string, t: string)
  {
    HasPrefix(s, t) || (s != [] && Contains(s[1..], t))
  }

  /** `s.replacingOccurrences(of: from, with: to)` for one-character strings. */
  function ReplaceChar(s: string, from: char, to: char): (r: string)
    ensures |r| == |s|
    ensures forall i :: 0 <= i < |s| ==> r[i] == if s[i] == from then to else s[i]
  {
    if s == [] then [] else [if s[0] == from then to else s[0]] + ReplaceChar(s[1..], from, to)
  }

  /** Replacing works character by character, so it distributes over concatenation. */
  lemma {:induction false} ReplaceCharAppend(x: string, y: string, from: char, to: char)
    ensures ReplaceChar(x + y, from, to) == ReplaceChar(x, from, to) + ReplaceChar(y, from, to)
  {
    if x == [] {
      assert x + y == y;
    } else {
      assert (x + y)[1..] == x[1..] + y;
      ReplaceCharAppend(x[1..], y, from, to);
    }
  }

  /** A string without the replaced character is left as it is. */
  lemma ReplaceCharAbsent(s: string, from: char, to: char)
    requires from !in s
    ensures ReplaceChar(s, from, to) == s
  {
  }

  // ---------------------------------------------------------------------------
  // String order: lexicographic on code points

  predicate LexLess(a: string, b: string)
  {
    if a == [] then b != []
    else if b == [] then false
    else if a[0] != b[0] then a[0] < b[0]
    else LexLess(a[1..], b[1..])
  }

  lemma {:induction false} LexLessIrreflexive(a: string)
    ensures !LexLess(a, a)
  {
    if a != [] {
      LexLessIrreflexive(a[1..]);
    }
  }

  lemma {:induction false} LexLessTransitive(a: string, b: string, c: string)
    requires LexLess(a, b) && LexLess(b, c)
    ensures LexLess(a, c)
  {
    if a != [] && b != [] && c != [] && a[0] == b[0] && b[0] == c[0] {
      LexLessTransitive(a[1..], b[1..], c[1..]);
    }
  }

  lemma {:induction false} LexLessTotal(a: string, b: string)
    requires a != b
    ensures LexLess(a, b) || LexLess(b, a)
  {
    if a != [] && b != [] && a[0] == b[0] {
      assert a == [a[0]] + a[1..] && b == [b[0]] + b[1..];
      LexLessTotal(a[1..], b[1..]);
    }
  }
}
