/**
 * An entry of the language-server registry: its display name and
 * description, which package-source parser its source id selects, and
 * which of its `bin` entries names the server to run.
 */
module Registry {
  import opened Wrappers
  import opened Text
  import Installation

  /** An unresolved `bin` value; its template syntax is not part of this model. */
  type ExpressionString = string

  datatype RegistryItem = RegistryItem(
    name: string,
    description: string,
    homepage: string,
    licenses: seq<string>,
    languages: seq<string>,
    categories: seq<string>,
    sourceId: string,
    bin: map<string, ExpressionString>)

  // ---------------------------------------------------------------------------
  // sanitizedName

  predicate IsAsciiLetter(c: char)
  {
    'a' <= c <= 'z' || 'A' <= c <= 'Z'
  }

  /**
   * A character after which `capitalized` starts a new word: anything that
   * is not a letter, so digits and punctuation break words as spaces do.
   */
  predicate IsWordBreak(c: char)
  {
    !IsAsciiLetter(c)
  }

  function CapitalizedFrom(s: string, atWordStart: bool): (r: string)
    ensures |r| == |s|
    ensures s != [] ==> r[0] == if atWordStart then UpperChar(s[0]) else LowerChar(s[0])
    ensures forall i {:trigger r[i]} :: 0 < i < |s| ==>
      r[i] == if IsWordBreak(s[i - 1]) then UpperChar(s[i]) else LowerChar(s[i])
  {
    if s == [] then []
    else [if atWordStart then UpperChar(s[0]) else LowerChar(s[0])] + CapitalizedFrom(s[1..], IsWordBreak(s[0]))
  }

  /** `capitalized`, for ASCII letters: upper-case at each word start, lower-case elsewhere. */
  function Capitalized(s: string): string
  {
    CapitalizedFrom(s, true)
  }

  /** Words kept as upper-case abbreviations. */
  const Abbreviations: set<string> := {"ls", "lsp", "ci", "cli"}

  /** The `map` step of `sanitizedName` on one word. */
  function SanitizeWord(word: string): string
  {
    var str := Lower(word);
    if str in Abbreviations then Upper(str) else Capitalized(str)
  }

  /** The words of a name: "-" and "_" become spaces, then split on spaces (empty words dropped). */
  function NameWords(name: string): seq<string>
  {
    Split(ReplaceChar(ReplaceChar(name, '-', ' '), '_', ' '), ' ')
  }

  /** The `map(sanitizeWord)` over the words. */
  function SanitizeWords(ws: seq<string>): seq<string>
  {
    seq(|ws|, i requires 0 <= i < |ws| => SanitizeWord(ws[i]))
  }

  function SanitizedName(item: RegistryItem): string
  {
    Join(SanitizeWords(NameWords(item.name)), " ")
  }

  /** The characters that separate words of a registry name. */
  predicate IsMark(c: char)
  {
    c == ' ' || c == '-' || c == '_'
  }

  /** ASCII case mapping changes letters only. */
  lemma CaseMappingKeepsMarks(c: char)
    ensures IsMark(LowerChar(c)) == IsMark(c) && IsMark(UpperChar(c)) == IsMark(c)
    ensures IsWordBreak(LowerChar(c)) == IsWordBreak(c)
  {
  }

  /**
   * Sanitising a word keeps its length and adds or removes no space, "-"
   * or "_": case mapping only changes letters.
   */
  lemma SanitizeWordKeepsMarks(word: string)
    ensures |SanitizeWord(word)| == |word|
    ensures forall i :: 0 <= i < |word| ==> IsMark(SanitizeWord(word)[i]) == IsMark(word[i])
  {
    var str := Lower(word);
    forall i | 0 <= i < |word| ensures IsMark(SanitizeWord(word)[i]) == IsMark(word[i]) {
      CaseMappingKeepsMarks(word[i]);
      CaseMappingKeepsMarks(str[i]);
      if str in Abbreviations {
        assert SanitizeWord(word)[i] == UpperChar(str[i]);
      } else {
        var c := CapitalizedFrom(str, true);
        assert SanitizeWord(word) == c;
        if i > 0 {
          assert c[i] == UpperChar(str[i]) || c[i] == LowerChar(str[i]);
        }
      }
    }
  }

  /** Every word of a name is non-empty and holds no space, "-" or "_". */
  lemma NameWordsArePieces(name: string)
    ensures forall i :: 0 <= i < |NameWords(name)| ==>
      IsPiece(NameWords(name)[i], ' ') && '-' !in NameWords(name)[i] && '_' !in NameWords(name)[i]
  {
    var spaced := ReplaceChar(ReplaceChar(name, '-', ' '), '_', ' ');
    SplitPieces(spaced, ' ');
    forall i | 0 <= i < |NameWords(name)|
      ensures '-' !in NameWords(name)[i] && '_' !in NameWords(name)[i]
    {
      SplitDrawsFrom(spaced, ' ', i);
    }
  }

  /** Every character of a piece of `split` comes from the string split. */
  lemma {:induction false} SplitDrawsFrom(s: string, sep: char, i: nat)
    requires i < |Split(s, sep)|
    ensures forall c :: c in Split(s, sep)[i] ==> c in s
    decreases |s|
  {
    if s[0] == sep {
      SplitDrawsFrom(s[1..], sep, i);
    } else {
      var w := Word(s, sep);
      if i > 0 {
        SplitDrawsFrom(s[|w|..], sep, i - 1);
      }
    }
  }

  /**
   * The sanitised name splits on spaces into exactly the sanitised words of
   * the name, so it has no leading, trailing or doubled space, and it holds
   * no "-" or "_".
   */
  lemma SanitizedNameWords(item: RegistryItem)
    ensures Split(SanitizedName(item), ' ') == SanitizeWords(NameWords(item.name))
    ensures Join(Split(SanitizedName(item), ' '), " ") == SanitizedName(item)
    ensures '-' !in SanitizedName(item) && '_' !in SanitizedName(item)
  {
    var ws := NameWords(item.name);
    var out := SanitizeWords(ws);
    NameWordsArePieces(item.name);
    forall i | 0 <= i < |out| ensures IsPiece(out[i], ' ') && '-' !in out[i] && '_' !in out[i] {
      SanitizeWordKeepsMarks(ws[i]);
      assert forall k :: 0 <= k < |ws[i]| ==> !IsMark(ws[i][k]);
      assert forall k :: 0 <= k < |out[i]| ==> !IsMark(out[i][k]);
    }
    SplitJoin(out, ' ');
    JoinKeeps(out, " ");
  }

  /** Joining adds only the separator's characters. */
  lemma {:induction false} JoinKeeps(ws: seq<string>, sep: string)
    requires forall i :: 0 <= i < |ws| ==> '-' !in ws[i] && '_' !in ws[i]
    requires '-' !in sep && '_' !in sep
    ensures '-' !in Join(ws, sep) && '_' !in Join(ws, sep)
  {
    if |ws| > 1 {
      JoinKeeps(ws[1..], sep);
    }
  }

  /** Abbreviations become upper-case; every other word is lower-cased and capitalised. */
  lemma SanitizeWordCases(word: string)
    ensures Lower(word) in Abbreviations ==> SanitizeWord(word) == Upper(Lower(word))
    ensures Lower(word) !in Abbreviations && word != [] ==>
      SanitizeWord(word)[0] == UpperChar(LowerChar(word[0]))
    ensures Lower(word) !in Abbreviations ==>
      forall i :: 0 < i < |word| && !IsWordBreak(word[i - 1]) ==> SanitizeWord(word)[i] == LowerChar(word[i])
    ensures Lower(word) !in Abbreviations ==>
      forall i :: 0 < i < |word| && IsWordBreak(word[i - 1]) ==> SanitizeWord(word)[i] == UpperChar(LowerChar(word[i]))
  {
    var str := Lower(word);
    if str !in Abbreviations {
      var c := CapitalizedFrom(str, true);
      assert SanitizeWord(word) == c;
      forall i | 0 < i < |word|
        ensures c[i] == if IsWordBreak(word[i - 1]) then UpperChar(LowerChar(word[i])) else LowerChar(word[i])
      {
        CaseMappingKeepsMarks(word[i - 1]);
        assert IsWordBreak(str[i - 1]) == IsWordBreak(word[i - 1]);
      }
    }
  }

  lemma SanitizeWordExamples()
    ensures SanitizeWord("lua") == "Lua"
    ensures SanitizeWord("Ls") == "LS"
    ensures SanitizeWord("m68k") == "M68K"
  {
    assert Lower("lua") == "lua";
    assert "lua" !in Abbreviations;
    assert Capitalized("lua") == "Lua";
    assert Lower("Ls") == "ls";
    assert Upper("ls") == "LS";
    assert Lower("m68k") == "m68k";
    assert "m68k" !in Abbreviations;
    assert Capitalized("m68k") == "M68K";
  }

  /** A word free of spaces, "-" and "_". */
  predicate Unmarked(w: string)
  {
    forall i :: 0 <= i < |w| ==> !IsMark(w[i])
  }

  lemma ReplaceInPair(a: string, b: string, mark: char, from: char, to: char)
    requires from !in a && from !in b
    ensures ReplaceChar(a + [mark] + b, from, to) == a + [if mark == from then to else mark] + b
  {
    ReplaceCharAppend(a + [mark], b, from, to);
    ReplaceCharAppend(a, [mark], from, to);
    ReplaceCharAbsent(a, from, to);
    ReplaceCharAbsent(b, from, to);
  }

  lemma UnmarkedHasNoMark(w: string)
    requires Unmarked(w)
    ensures ' ' !in w && '-' !in w && '_' !in w
  {
    assert forall i :: 0 <= i < |w| ==> w[i] != ' ' && w[i] != '-' && w[i] != '_';
  }

  lemma SpacedPair(a: string, b: string, mark: char)
    requires IsMark(mark) && Unmarked(a) && Unmarked(b)
    ensures ReplaceChar(ReplaceChar(a + [mark] + b, '-', ' '), '_', ' ') == a + [' '] + b
  {
    UnmarkedHasNoMark(a);
    UnmarkedHasNoMark(b);
    ReplaceInPair(a, b, mark, '-', ' ');
    ReplaceInPair(a, b, if mark == '-' then ' ' else mark, '_', ' ');
  }

  lemma JoinPair(a: string, b: string, sep: string)
    ensures Join([a, b], sep) == a + sep + b
  {
    assert [a, b][1..] == [b];
  }

  /** Two words joined by a space, "-" or "_" are read back as those two words. */
  lemma NameWordsOfPair(a: string, b: string, mark: char)
    requires a != [] && b != [] && IsMark(mark) && Unmarked(a) && Unmarked(b)
    ensures NameWords(a + [mark] + b) == [a, b]
  {
    SpacedPair(a, b, mark);
    JoinPair(a, b, [' ']);
    UnmarkedHasNoMark(a);
    UnmarkedHasNoMark(b);
    SplitJoin([a, b], ' ');
  }

  /**
   * A name made of two words joined by a space, "-" or "_" is shown as the
   * two sanitised words with one space between them; with
   * `SanitizeWordExamples`, "lua_Ls" is shown as "Lua LS".
   */
  lemma SanitizedNameOfPair(item: RegistryItem, a: string, b: string, mark: char)
    requires item.name == a + [mark] + b
    requires a != [] && b != [] && IsMark(mark) && Unmarked(a) && Unmarked(b)
    ensures SanitizedName(item) == SanitizeWord(a) + " " + SanitizeWord(b)
  {
    var ws := [a, b];
    assert NameWords(item.name) == ws by {
      NameWordsOfPair(a, b, mark);
    }
    var out := SanitizeWords(ws);
    assert out == [out[0], out[1]];
    JoinPair(out[0], out[1], " ");
  }

  // ---------------------------------------------------------------------------
  // sanitizedDescription

  function SanitizedDescription(item: RegistryItem): string
  {
    ReplaceChar(item.description, '\n', ' ')
  }

  /** No newline remains, the length is kept, and every other character stays in place. */
  lemma SanitizedDescriptionProps(item: RegistryItem)
    ensures '\n' !in SanitizedDescription(item)
    ensures |SanitizedDescription(item)| == |item.description|
    ensures forall i :: 0 <= i < |item.description| && item.description[i] != '\n' ==>
      SanitizedDescription(item)[i] == item.description[i]
  {
  }

  // ---------------------------------------------------------------------------
  // installMethod: which package-source parser the source id selects

  datatype SourceParser = CargoPackage | NpmPackage | PythonPackage | RubyGem | GolangPackage | GithubPackage

  function SourcePrefix(p: SourceParser): string
  {
    match p
    case CargoPackage => "pkg:cargo/"
    case NpmPackage => "pkg:npm/"
    case PythonPackage => "pkg:pypi/"
    case RubyGem => "pkg:gem/"
    case GolangPackage => "pkg:golang/"
    case GithubPackage => "pkg:github/"
  }

  /** The prefix tests of `installMethod`, in order; nil when none matches. */
  function InstallParser(sourceId: string): Option<SourceParser>
  {
    if HasPrefix(sourceId, "pkg:cargo/") then Some(CargoPackage)
    else if HasPrefix(sourceId, "pkg:npm/") then Some(NpmPackage)
    else if HasPrefix(sourceId, "pkg:pypi/") then Some(PythonPackage)
    else if HasPrefix(sourceId, "pkg:gem/") then Some(RubyGem)
    else if HasPrefix(sourceId, "pkg:golang/") then Some(GolangPackage)
    else if HasPrefix(sourceId, "pkg:github/") then Some(GithubPackage)
    else None
  }

  /** No id starts with two of the six prefixes. */
  lemma PrefixesExclusive(id: string, p: SourceParser, q: SourceParser)
    requires HasPrefix(id, SourcePrefix(p)) && HasPrefix(id, SourcePrefix(q))
    ensures p == q
  {
    assert id[4] == SourcePrefix(p)[4] && id[4] == SourcePrefix(q)[4] by {
      assert id[..|SourcePrefix(p)|][4] == id[4];
      assert id[..|SourcePrefix(q)|][4] == id[4];
    }
    assert id[5] == SourcePrefix(p)[5] && id[5] == SourcePrefix(q)[5] by {
      assert id[..|SourcePrefix(p)|][5] == id[5];
      assert id[..|SourcePrefix(q)|][5] == id[5];
    }
  }

  /**
   * A parser is selected exactly when the id starts with its prefix, so
   * the order of the tests does not matter; any other id selects none.
   */
  lemma InstallParserByPrefix(id: string, p: SourceParser)
    ensures InstallParser(id) == Some(p) <==> HasPrefix(id, SourcePrefix(p))
    ensures InstallParser(id).None? <==> forall q: SourceParser :: !HasPrefix(id, SourcePrefix(q))
  {
    if InstallParser(id).Some? {
      var q := InstallParser(id).value;
      assert HasPrefix(id, SourcePrefix(q));
      if HasPrefix(id, SourcePrefix(p)) {
        PrefixesExclusive(id, p, q);
      }
    }
  }

  /**
   * `installMethod`. The six package-source parsers are not part of this
   * model: `parse` stands for them, given which one is called.
   */
  function InstallMethod(
    item: RegistryItem,
    parse: (SourceParser, RegistryItem) -> Option<Installation.InstallationMethod>
  ): Option<Installation.InstallationMethod>
  {
    match InstallParser(item.sourceId)
    case None => None
    case Some(p) => parse(p, item)
  }

  /** The parser whose prefix the source id carries decides; with no known prefix there is no method. */
  lemma InstallMethodByPrefix(
    item: RegistryItem,
    parse: (SourceParser, RegistryItem) -> Option<Installation.InstallationMethod>,
    p: SourceParser)
    ensures HasPrefix(item.sourceId, SourcePrefix(p)) ==> InstallMethod(item, parse) == parse(p, item)
    ensures (forall q: SourceParser :: !HasPrefix(item.sourceId, SourcePrefix(q))) ==> InstallMethod(item, parse).None?
  {
    InstallParserByPrefix(item.sourceId, p);
  }

  // ---------------------------------------------------------------------------
  // binExprString

  const FilterStrings: seq<string> :=
    ["language_server", "language-server", "-ls", "_ls", "langserver", "languageserver"]

  /** A key whose lower-cased form contains one of the filter strings. */
  predicate IsServerKey(key: string)
  {
    exists i :: 0 <= i < |FilterStrings| && Contains(Lower(key), FilterStrings[i])
  }

  /** `k` is the least element of `s` in code-point order. */
  predicate IsLeast(k: string, s: set<string>)
  {
    k in s && forall j :: j in s && j != k ==> LexLess(k, j)
  }

  /** Every non-empty finite set of strings has a least element in code-point order. */
  lemma LeastExists(s: set<string>)
    requires s != {}
    ensures exists k :: IsLeast(k, s)
    decreases |s|
  {
    var x :| x in s;
    if s == {x} {
      assert IsLeast(x, s);
    } else {
      var rest := s - {x};
      LeastExists(rest);
      var m :| IsLeast(m, rest);
      LexLessTotal(x, m);
      if LexLess(x, m) {
        forall j | j in s && j != x
          ensures LexLess(x, j)
        {
          if j != m {
            LexLessTransitive(x, m, j);
          }
        }
        assert IsLeast(x, s);
      } else {
        forall j | j in s && j != m
          ensures LexLess(m, j)
        {
          if j != x {
            assert j in rest;
          }
        }
        assert IsLeast(m, s);
      }
    }
  }

  ghost function Least(s: set<string>): (k: string)
    requires s != {}
    ensures k in s && forall j :: j in s && j != k ==> LexLess(k, j)
  {
    LeastExists(s);
    var k :| IsLeast(k, s); k
  }

  /** The keys in ascending order (`sorted(by: { $0.key < $1.key })`). */
  ghost function SortedKeys(s: set<string>): seq<string>
    decreases |s|
  {
    if s == {} then [] else var k := Least(s); [k] + SortedKeys(s - {k})
  }

  /** The sorted keys are exactly the set, in strictly ascending order. */
  lemma {:induction false} SortedKeysProps(s: set<string>)
    ensures forall x :: x in SortedKeys(s) <==> x in s
    ensures forall i, j :: 0 <= i < j < |SortedKeys(s)| ==> LexLess(SortedKeys(s)[i], SortedKeys(s)[j])
    decreases |s|
  {
    if s != {} {
      var k := Least(s);
      var rest := SortedKeys(s - {k});
      SortedKeysProps(s - {k});
      var r := [k] + rest;
      assert SortedKeys(s) == r;
      forall i, j | 0 <= i < j < |r| ensures LexLess(r[i], r[j]) {
        assert r[j] == rest[j - 1];
        if i > 0 {
          assert r[i] == rest[i - 1];
        } else {
          assert rest[j - 1] in s - {k};
        }
      }
    }
  }

  /** `first(where:)`: the index of the first server key. */
  function FirstServerKey(ks: seq<string>): (r: Option<nat>)
    ensures r.Some? ==> r.value < |ks| && IsServerKey(ks[r.value])
                        && forall j :: 0 <= j < r.value ==> !IsServerKey(ks[j])
    ensures r.None? ==> forall j :: 0 <= j < |ks| ==> !IsServerKey(ks[j])
  {
    if ks == [] then None
    else if IsServerKey(ks[0]) then Some(0)
    else match FirstServerKey(ks[1..])
      case None => None
      case Some(i) => Some(i + 1)
  }

  /** `binExprString`: none, the only value, or the value of the first server key in key order. */
  ghost function BinExprString(bin: map<string, ExpressionString>): Option<ExpressionString>
  {
    if |bin| == 0 then None
    else if |bin| == 1 then var k :| k in bin; Some(bin[k])
    else
      var ks := SortedKeys(bin.Keys);
      match FirstServerKey(ks)
      case None => None
      case Some(i) => SortedKeysProps(bin.Keys); Some(bin[ks[i]])
  }

  /**
   * With two or more entries, the result is the value of the least key (in
   * code-point order) that is a server key, and nil when no key is one.
   */
  lemma BinExprStringPicksLeastServerKey(bin: map<string, ExpressionString>)
    requires |bin| >= 2
    ensures BinExprString(bin).None? <==> forall k :: k in bin ==> !IsServerKey(k)
    ensures BinExprString(bin).Some? ==>
      exists k :: k in bin && IsServerKey(k) && BinExprString(bin).value == bin[k]
                  && forall j :: j in bin && IsServerKey(j) && j != k ==> LexLess(k, j)
  {
    var ks := SortedKeys(bin.Keys);
    SortedKeysProps(bin.Keys);
    match FirstServerKey(ks)
    case None =>
      forall k | k in bin ensures !IsServerKey(k) {
        var i :| 0 <= i < |ks| && ks[i] == k;
      }
    case Some(i) =>
      var k := ks[i];
      forall j | j in bin && IsServerKey(j) && j != k ensures LexLess(k, j) {
        var n :| 0 <= n < |ks| && ks[n] == j;
        assert n >= i;
        assert n != i;
      }
  }

  /** No entries give nil; a single entry gives its value whatever its key. */
  lemma BinExprStringSmall(bin: map<string, ExpressionString>, key: string)
    ensures |bin| == 0 ==> BinExprString(bin).None?
    ensures bin.Keys == {key} ==> BinExprString(bin) == Some(bin[key])
  {
  }
}
