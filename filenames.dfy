/**
  * The image file names of movie_generator.py: concept art, storyboard
  * panels and character sheets are saved under a name derived from the
  * first few words of their description. Each kept word loses every
  * character outside `[a-zA-Z0-9_]`, the words are joined with `_`, the
  * result is lower-cased, and a prefix or suffix is added. Also the
  * storyboard framing phrase looked up by shot type.
  */
module Filenames {
  import opened Strings

  /** Python's `str.isspace()`: the characters `str.split()` splits on. */
  predicate IsSpace(c: char)
  {
    c == ' ' || '\t' <= c <= '\r' || '\U{1c}' <= c <= '\U{1f}' ||
    c == '\U{85}' || c == '\U{a0}' || c == '\U{1680}' ||
    '\U{2000}' <= c <= '\U{200a}' || c == '\U{2028}' || c == '\U{2029}' ||
    c == '\U{202f}' || c == '\U{205f}' || c == '\U{3000}'
  }

  predicate NotSpace(c: char) { !IsSpace(c) }

  /** The characters the pattern `[^a-zA-Z0-9_]` does not remove. */
  predicate IsWordChar(c: char)
  {
    'a' <= c <= 'z' || 'A' <= c <= 'Z' || '0' <= c <= '9' || c == '_'
  }

  /** The characters a file-name stem may hold. */
  predicate IsStemChar(c: char)
  {
    'a' <= c <= 'z' || '0' <= c <= '9' || c == '_'
  }

  /** The characters of `s` that `keep` accepts, in their order. */
  function Filter(keep: char -> bool, s: string): (r: string)
    ensures |r| <= |s|
    ensures forall i :: 0 <= i < |r| ==> keep(r[i])
  {
    if s == [] then ""
    else (if keep(s[0]) then [s[0]] else "") + Filter(keep, s[1..])
  }

  lemma {:induction false} FilterAppend(keep: char -> bool, a: string, b: string)
    ensures Filter(keep, a + b) == Filter(keep, a) + Filter(keep, b)
    decreases |a|
  {
    if a != [] {
      assert (a + b)[1..] == a[1..] + b;
      FilterAppend(keep, a[1..], b);
    } else {
      assert a + b == b;
    }
  }

  lemma {:induction false} FilterKeepsAll(keep: char -> bool, s: string)
    ensures (forall i :: 0 <= i < |s| ==> keep(s[i])) ==> Filter(keep, s) == s
    decreases |s|
  {
    if s != [] && forall i :: 0 <= i < |s| ==> keep(s[i]) {
      FilterKeepsAll(keep, s[1..]);
      assert [s[0]] + s[1..] == s;
    }
  }

  /** `re.sub(r'[^a-zA-Z0-9_]', '', word)`: what is left is word
      characters only, and a word made of them alone is unchanged. */
  function Clean(word: string): (r: string)
    ensures forall i :: 0 <= i < |r| ==> IsWordChar(r[i])
    ensures (forall i :: 0 <= i < |word| ==> IsWordChar(word[i])) ==> r == word
  {
    FilterKeepsAll(IsWordChar, word);
    Filter(IsWordChar, word)
  }

  /** Cleaning keeps the word characters of each part, in order: it is the
      concatenation-preserving map that keeps a character exactly when it
      is in `[a-zA-Z0-9_]`. */
  lemma CleanKeepsOrder(a: string, b: string, c: char)
    ensures Clean(a + b) == Clean(a) + Clean(b)
    ensures Clean([c]) == (if IsWordChar(c) then [c] else [])
    ensures forall i :: 0 <= i < |Clean(a)| ==> IsWordChar(Clean(a)[i])
  {
    FilterAppend(IsWordChar, a, b);
    assert [c][1..] == [];
  }

  /** The longest space-free prefix of `s`. */
  function WordPrefix(s: string): (w: string)
    ensures |w| <= |s| && w == s[..|w|]
    ensures forall i :: 0 <= i < |w| ==> !IsSpace(w[i])
    ensures |w| < |s| ==> IsSpace(s[|w|])
  {
    if s == [] || IsSpace(s[0]) then "" else [s[0]] + WordPrefix(s[1..])
  }

  /** Python's `s.split()` with no argument. */
  function Words(s: string): (ws: seq<string>)
    ensures forall i :: 0 <= i < |ws| ==> ws[i] != "" && forall j :: 0 <= j < |ws[i]| ==> !IsSpace(ws[i][j])
    decreases |s|
  {
    if s == [] then []
    else if IsSpace(s[0]) then Words(s[1..])
    else
      var w := WordPrefix(s);
      [w] + Words(s[|w|..])
  }

  function Concat(ws: seq<string>): string
  {
    if ws == [] then "" else ws[0] + Concat(ws[1..])
  }

  /** The words of `s` are its maximal space-free runs: nonempty, free of
      whitespace, and together exactly the non-space characters of `s`. */
  lemma {:induction false} WordsCoverText(s: string)
    ensures Concat(Words(s)) == Filter(NotSpace, s)
    decreases |s|
  {
    if s != [] {
      if IsSpace(s[0]) {
        WordsCoverText(s[1..]);
        assert [s[0]] + s[1..] == s;
        FilterAppend(NotSpace, [s[0]], s[1..]);
        assert [s[0]][1..] == [];
      } else {
        var w := WordPrefix(s);
        var rest := s[|w|..];
        assert s == w + rest;
        WordsCoverText(rest);
        FilterAppend(NotSpace, w, rest);
        FilterKeepsAll(NotSpace, w);
        assert Words(s)[1..] == Words(rest);
      }
    }
  }

  lemma {:induction false} WordPrefixAppend(a: string, c: char, b: string)
    requires IsSpace(c)
    ensures WordPrefix(a + [c] + b) == WordPrefix(a)
    decreases |a|
  {
    if a != [] {
      assert (a + [c] + b)[1..] == a[1..] + [c] + b;
      WordPrefixAppend(a[1..], c, b);
    } else {
      assert (a + [c] + b)[0] == c;
    }
  }

  /** Splitting at a whitespace character splits the word list there. */
  lemma {:induction false} WordsAppend(a: string, c: char, b: string)
    requires IsSpace(c)
    ensures Words(a + [c] + b) == Words(a) + Words(b)
    decreases |a|
  {
    var s := a + [c] + b;
    if a == [] {
      assert s[0] == c && s[1..] == b;
    } else if IsSpace(a[0]) {
      assert s[1..] == a[1..] + [c] + b;
      WordsAppend(a[1..], c, b);
    } else {
      WordPrefixAppend(a, c, b);
      var w := WordPrefix(a);
      assert s[|w|..] == a[|w|..] + [c] + b;
      WordsAppend(a[|w|..], c, b);
    }
  }

  lemma {:induction false} WordsOfWord(w: string)
    requires w != []
    requires forall i :: 0 <= i < |w| ==> !IsSpace(w[i])
    ensures Words(w) == [w]
  {
    WordPrefixWhole(w);
    assert w[|w|..] == [];
  }

  lemma {:induction false} WordPrefixWhole(w: string)
    requires forall i :: 0 <= i < |w| ==> !IsSpace(w[i])
    ensures WordPrefix(w) == w
    decreases |w|
  {
    if w != [] {
      WordPrefixWhole(w[1..]);
    }
  }

  /** `words[:k]` */
  function Take(ws: seq<string>, k: nat): (r: seq<string>)
    ensures |r| == if |ws| < k then |ws| else k
  {
    if |ws| <= k then ws else ws[..k]
  }

  function CleanAll(ws: seq<string>): (r: seq<string>)
    ensures |r| == |ws| && forall i :: 0 <= i < |ws| ==> r[i] == Clean(ws[i])
  {
    seq(|ws|, i requires 0 <= i < |ws| => Clean(ws[i]))
  }

  function LowerChar(c: char): char
  {
    if 'A' <= c <= 'Z' then (c as int - 'A' as int + 'a' as int) as char else c
  }

  /** `str.lower()` on text whose letters are ASCII. */
  function Lower(s: string): (r: string)
    ensures |r| == |s| && forall i :: 0 <= i < |s| ==> r[i] == LowerChar(s[i])
  {
    seq(|s|, i requires 0 <= i < |s| => LowerChar(s[i]))
  }

  /** `"_".join(re.sub(...) for word in description.split()[:k]).lower()`:
      only `a-z`, `0-9` and `_`, and empty when no word is kept. */
  function Stem(description: string, k: nat): (r: string)
    ensures forall i :: 0 <= i < |r| ==> IsStemChar(r[i])
    ensures (Words(description) == [] || k == 0) ==> r == ""
  {
    var cleaned := CleanAll(Take(Words(description), k));
    JoinChars(cleaned);
    Lower(Join("_", cleaned))
  }

  /** generate_concept_art: the first five words. */
  function ConceptArtFilename(sceneDescription: string): (r: string)
    ensures |r| >= 12 && r[|r| - 12..] == "_concept.png"
    ensures forall i :: 0 <= i < |r| - 12 ==> IsStemChar(r[i])
  {
    Stem(sceneDescription, 5) + "_concept.png"
  }

  /** generate_storyboard: the shot type verbatim, then the first three words. */
  function StoryboardFilename(shotDescription: string, shotType: string): (r: string)
    ensures |r| >= |shotType| + 5
    ensures r[..|shotType| + 1] == shotType + "_" && r[|r| - 4..] == ".png"
    ensures forall i :: |shotType| < i < |r| - 4 ==> IsStemChar(r[i])
  {
    shotType + "_" + Stem(shotDescription, 3) + ".png"
  }

  /** generate_character_design: the first three words. */
  function CharacterFilename(characterDescription: string): (r: string)
    ensures |r| >= 14 && r[|r| - 14..] == "_character.png"
    ensures forall i :: 0 <= i < |r| - 14 ==> IsStemChar(r[i])
  {
    Stem(characterDescription, 3) + "_character.png"
  }

  lemma {:induction false} JoinChars(parts: seq<string>)
    requires forall i, j :: 0 <= i < |parts| && 0 <= j < |parts[i]| ==> IsWordChar(parts[i][j])
    ensures forall j :: 0 <= j < |Join("_", parts)| ==> IsWordChar(Join("_", parts)[j])
    decreases |parts|
  {
    if |parts| > 1 {
      JoinChars(parts[1..]);
      var rest := Join("_", parts[1..]);
      assert Join("_", parts) == parts[0] + "_" + rest;
      forall j | 0 <= j < |Join("_", parts)| ensures IsWordChar(Join("_", parts)[j]) {
        if j < |parts[0]| {
          assert Join("_", parts)[j] == parts[0][j];
        } else if j > |parts[0]| {
          assert Join("_", parts)[j] == rest[j - |parts[0]| - 1];
        }
      }
    } else if |parts| == 1 {
      assert Join("_", parts) == parts[0];
    }
  }

  /** Only the first k words count: text after them leaves the stem alone. */
  lemma StemIgnoresLaterWords(description: string, c: char, more: string, k: nat)
    requires |Words(description)| >= k && IsSpace(c)
    ensures Stem(description + [c] + more, k) == Stem(description, k)
  {
    WordsAppend(description, c, more);
    var ws := Words(description);
    assert Take(ws + Words(more), k) == ws[..k] == Take(ws, k);
  }

  /** Cleaning a one-character word. */
  lemma CleanOne(c: char)
    ensures Clean([c]) == (if IsWordChar(c) then [c] else [])
  {
    assert [c][1..] == "";
  }

  /** Lower-casing leaves text without capitals unchanged. */
  lemma LowerKeeps(s: string)
    requires forall i :: 0 <= i < |s| ==> !('A' <= s[i] <= 'Z')
    ensures Lower(s) == s
  {
  }

  const ShotStyles: map<string, string> := map[
    "extreme_wide" := "extreme wide shot, establishing shot",
    "wide" := "wide shot, full body visible",
    "medium" := "medium shot, waist up",
    "close_up" := "close-up shot, head and shoulders",
    "extreme_close_up" := "extreme close-up, detail shot"]

  /** `shot_styles.get(shot_type, 'medium shot')`: the framing phrase of a
      storyboard prompt. */
  function ShotFraming(shotType: string): (r: string)
    ensures r == "medium shot" <==> shotType !in ShotStyles
    ensures shotType == "medium" ==> r == "medium shot, waist up"
  {
    if shotType in ShotStyles then ShotStyles[shotType] else "medium shot"
  }

  /** The default shot type of `generate_storyboard`, `medium_shot`, is not
      a key of the table (`medium` is), so it gets the fallback phrase. */
  lemma DefaultShotTypeFraming()
    ensures ShotFraming("medium_shot") == "medium shot"
    ensures ShotFraming("medium_shot") != ShotFraming("medium")
  {
    assert "medium_shot" != "medium" by { assert |"medium_shot"| != |"medium"|; }
    assert "medium_shot"[0] != "extreme_wide"[0] && "medium_shot"[0] != "wide"[0];
    assert "medium_shot"[0] != "close_up"[0] && "medium_shot"[0] != "extreme_close_up"[0];
  }
}

/** Worked examples of the stem rule on the description "a - b". */
module StemExamples {
  import opened Strings
  import opened Filenames

  lemma {:induction false} ExampleWordsTail()
    ensures Words("- b") == ["-", "b"]
  {
    assert "- b" == "-" + [' '] + "b";
    WordsAppend("-", ' ', "b");
    WordsOfWord("-");
    WordsOfWord("b");
  }

  lemma {:induction false} ExampleWords()
    ensures Words("a - b") == ["a", "-", "b"]
  {
    assert "a - b" == "a" + [' '] + "- b";
    WordsAppend("a", ' ', "- b");
    WordsOfWord("a");
    ExampleWordsTail();
  }

  lemma {:induction false} ExampleCleaned()
    ensures CleanAll(["a", "-", "b"]) == ["a", "", "b"]
  {
    CleanOne('a');
    CleanOne('-');
    CleanOne('b');
    var cs := CleanAll(["a", "-", "b"]);
    assert cs == [cs[0], cs[1], cs[2]];
  }

  lemma {:induction false} ExampleJoined()
    ensures Join("_", ["a", "", "b"]) == "a__b"
  {
    var cleaned := ["a", "", "b"];
    assert cleaned[1..] == ["", "b"];
    assert cleaned[1..][1..] == ["b"];
    assert Join("_", ["b"]) == "b";
    assert Join("_", ["", "b"]) == "" + "_" + "b";
  }

  lemma {:induction false} ExampleStemBeforeLower()
    ensures Join("_", CleanAll(Take(Words("a - b"), 5))) == "a__b"
  {
    ExampleWords();
    assert Take(["a", "-", "b"], 5) == ["a", "-", "b"];
    ExampleCleaned();
    ExampleJoined();
  }

  lemma {:induction false} ExampleLower()
    ensures Lower("a__b") == "a__b"
  {
    LowerKeeps("a__b");
  }

  /** A word made only of removed characters still leaves its separator:
      "a - b" gives the stem "a__b". */
  lemma {:induction false} EmptyWordKeepsSeparator()
    ensures Stem("a - b", 5) == "a__b"
  {
    ExampleStemBeforeLower();
    ExampleLower();
  }
}
