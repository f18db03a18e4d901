/**
 * NormalizeName: names reduced to their lower-cased letter-or-number runs, joined
 * by single underscores. The Unicode tables are a parameter.
 */
module Names {
  import opened Prelude

  /** unicode.IsSpace, unicode.IsLetter or unicode.IsNumber, and unicode.ToLower. */
  datatype Tables = Tables(isSpace: char -> bool, isWord: char -> bool, toLower: char -> char) {
    function Lower(s: string): (t: string)
      ensures |t| == |s| && forall i :: 0 <= i < |s| ==> t[i] == toLower(s[i])
    {
      seq(|s|, i requires 0 <= i < |s| => toLower(s[i]))
    }

    ghost predicate AllWord(s: string) {
      forall c :: c in s ==> isWord(c)
    }

    ghost predicate NoWord(s: string) {
      forall c :: c in s ==> !isWord(c)
    }

    /** The facts about Unicode the results rest on. */
    ghost predicate Sound() {
      && (forall c :: toLower(toLower(c)) == toLower(c))
      && (forall c :: isSpace(c) ==> !isWord(toLower(c)))
      && !isWord('_') && !isWord(toLower('_'))
    }
  }

  const ASCII := Tables(
    c => c == ' ' || '\t' <= c <= '\r',
    c => '0' <= c <= '9' || 'a' <= c <= 'z' || 'A' <= c <= 'Z',
    c => if 'A' <= c <= 'Z' then c - 'A' + 'a' else c)

  type Unicode = u: Tables | u.Sound() ghost witness ASCII

  /** strings.Trim and strings.TrimSpace: drop characters of the cut set from both ends. */
  function Trim(s: string, cut: char -> bool): string
    decreases |s|
  {
    if s == [] then s
    else if cut(s[0]) then Trim(s[1..], cut)
    else if cut(Last(s)) then Trim(Front(s), cut)
    else s
  }

  /** The maximal runs of word characters, in order. */
  function Words(u: Tables, s: string): (words: seq<string>)
    ensures s != [] && u.isWord(Last(s)) ==> words != []
  {
    if s == [] then []
    else
      var before := Words(u, Front(s));
      if !u.isWord(Last(s)) then before
      else if |s| > 1 && u.isWord(s[|s| - 2]) then Front(before) + [Last(before) + [Last(s)]]
      else before + [[Last(s)]]
  }

  function Join(words: seq<string>, separator: char): string {
    if words == [] then []
    else if |words| == 1 then words[0]
    else Join(Front(words), separator) + [separator] + Last(words)
  }

  /** What a name is normalized to. */
  function Normalized(u: Tables, name: string): string {
    Join(Words(u, u.Lower(name)), '_')
  }

  // What Words means ------------------------------------------------------

  /** gap word gap word ... gap */
  function Weave(gaps: seq<string>, words: seq<string>): string
    requires |gaps| == |words| + 1
  {
    if words == [] then gaps[0]
    else Weave(Front(gaps), Front(words)) + Last(words) + Last(gaps)
  }

  /** s is cut into words, separated by non-empty stretches without word characters. */
  ghost predicate IsCut(u: Tables, s: string, gaps: seq<string>, words: seq<string>) {
    && |gaps| == |words| + 1
    && s == Weave(gaps, words)
    && (forall w :: w in words ==> w != [] && u.AllWord(w))
    && (forall g :: g in gaps ==> u.NoWord(g))
    && (forall i :: 0 < i < |words| ==> gaps[i] != [])
  }

  lemma {:induction false} WordsAppendGap(u: Tables, s: string, gap: string)
    requires u.NoWord(gap)
    ensures Words(u, s + gap) == Words(u, s)
  {
    if gap == [] {
      assert s + gap == s;
    } else {
      assert Front(s + gap) == s + Front(gap);
      WordsAppendGap(u, s, Front(gap));
    }
  }

  lemma {:induction false} WordsAppendWord(u: Tables, s: string, word: string)
    requires word != [] && u.AllWord(word)
    requires s == [] || !u.isWord(Last(s))
    ensures Words(u, s + word) == Words(u, s) + [word]
  {
    assert Front(s + word) == s + Front(word);
    if |word| == 1 {
      assert s + Front(word) == s && word == [Last(word)];
    } else {
      assert word == Front(word) + [Last(word)];
      WordsAppendWord(u, s, Front(word));
    }
  }

  /** There is only one way to cut a string, and Words finds it. */
  lemma {:induction false} WordsAreUnique(u: Tables, s: string, gaps: seq<string>, words: seq<string>)
    requires IsCut(u, s, gaps, words)
    ensures Words(u, s) == words
    decreases |words|
  {
    if words == [] {
      WordsAppendGap(u, [], gaps[0]);
      assert [] + gaps[0] == s;
    } else {
      var before := Weave(Front(gaps), Front(words));
      assert forall g :: g in Front(gaps) ==> g in gaps;
      assert forall w :: w in Front(words) ==> w in words;
      WordsAreUnique(u, before, Front(gaps), Front(words));
      assert before == [] || !u.isWord(Last(before)) by {
        assert gaps[|words| - 1] in gaps;
      }
      assert Last(words) in words && Last(gaps) in gaps;
      WordsAppendWord(u, before, Last(words));
      WordsAppendGap(u, before + Last(words), Last(gaps));
    }
  }

  lemma CutExtendGap(u: Tables, s: string, gaps: seq<string>, words: seq<string>, c: char)
    requires IsCut(u, s, gaps, words) && !u.isWord(c)
    ensures IsCut(u, s + [c], Front(gaps) + [Last(gaps) + [c]], words)
  {
    var longer := Front(gaps) + [Last(gaps) + [c]];
    assert Last(gaps) in gaps;
    assert forall g :: g in longer ==> g in gaps || g == Last(gaps) + [c];
    assert Front(longer) == Front(gaps);
  }

  lemma CutExtendWord(u: Tables, s: string, gaps: seq<string>, words: seq<string>, c: char)
    requires IsCut(u, s, gaps, words) && words != [] && Last(gaps) == [] && u.isWord(c)
    ensures IsCut(u, s + [c], gaps, Front(words) + [Last(words) + [c]])
  {
    var longer := Front(words) + [Last(words) + [c]];
    assert Last(words) in words;
    assert forall w :: w in longer ==> w in words || w == Last(words) + [c];
    assert Front(longer) == Front(words);
  }

  lemma CutNewWord(u: Tables, s: string, gaps: seq<string>, words: seq<string>, c: char)
    requires IsCut(u, s, gaps, words) && (words == [] || Last(gaps) != []) && u.isWord(c)
    ensures IsCut(u, s + [c], gaps + [[]], words + [[c]])
  {
    assert Front(gaps + [[]]) == gaps && Front(words + [[c]]) == words;
    assert Weave(gaps + [[]], words + [[c]]) == Weave(gaps, words) + [c] + [];
  }

  lemma {:induction false} WordsExist(u: Tables, s: string) returns (gaps: seq<string>)
    ensures IsCut(u, s, gaps, Words(u, s))
    ensures Last(gaps) == [] <==> s == [] || u.isWord(Last(s))
  {
    if s == [] {
      gaps := [[]];
    } else {
      var before := WordsExist(u, Front(s));
      var words, c := Words(u, Front(s)), Last(s);
      assert s == Front(s) + [c];
      if !u.isWord(c) {
        gaps := Front(before) + [Last(before) + [c]];
        CutExtendGap(u, Front(s), before, words, c);
      } else if |s| > 1 && u.isWord(s[|s| - 2]) {
        gaps := before;
        CutExtendWord(u, Front(s), before, words, c);
      } else {
        gaps := before + [[]];
        CutNewWord(u, Front(s), before, words, c);
      }
    }
  }

  // The method ------------------------------------------------------------

  method NormalizeName(u: Unicode, value: string) returns (normalized: string)
    ensures normalized == Normalized(u, value)
  {
    hide IsBuilt, Words, Join, Trim;
    var lowered := u.Lower(Trim(value, u.isSpace));
    var builder: string := [];
    var underscore := false;
    NothingBuilt(u);
    for i := 0 to |lowered|
      invariant IsBuilt(u, lowered[..i], builder, underscore)
    {
      var c := lowered[i];
      BuilderGrows(u, lowered[..i], c, builder, underscore);
      assert lowered[..i + 1] == lowered[..i] + [c];
      if u.isWord(c) {
        builder := builder + [c];
        underscore := false;
        continue;
      }
      if |builder| > 0 && !underscore {
        builder := builder + "_";
        underscore := true;
      }
    }
    assert lowered[..|lowered|] == lowered;
    TrimKeepsWords(u, value);
    TrimBuilder(u, lowered, builder, underscore);
    normalized := Trim(builder, c => c == '_');
  }

  /** The builder after reading s: its words joined, and an underscore if a gap follows them. */
  ghost predicate IsBuilt(u: Tables, s: string, builder: string, underscore: bool) {
    && underscore == (s != [] && !u.isWord(Last(s)) && Words(u, s) != [])
    && builder == Join(Words(u, s), '_') + if underscore then "_" else ""
  }

  lemma NothingBuilt(u: Tables)
    ensures IsBuilt(u, [], [], false)
  {
  }

  lemma {:induction false} BuilderGrows(u: Tables, s: string, c: char, builder: string, underscore: bool)
    requires IsBuilt(u, s, builder, underscore)
    ensures u.isWord(c) ==> IsBuilt(u, s + [c], builder + [c], false)
    ensures !u.isWord(c) && |builder| > 0 && !underscore ==> IsBuilt(u, s + [c], builder + "_", true)
    ensures !u.isWord(c) && !(|builder| > 0 && !underscore) ==> IsBuilt(u, s + [c], builder, underscore)
  {
    hide Join;
    assert Front(s + [c]) == s && Last(s + [c]) == c;
    BuilderStep(u, s + [c]);
    if !u.isWord(c) {
      assert Words(u, s + [c]) == Words(u, s);
      assert Join(Words(u, s), '_') + "" == Join(Words(u, s), '_');
    }
  }

  lemma TrimBuilder(u: Unicode, s: string, builder: string, underscore: bool)
    requires IsBuilt(u, s, builder, underscore)
    ensures Trim(builder, c => c == '_') == Join(Words(u, s), '_')
  {
    hide Join, Trim;
    WordsAreWords(u, s);
    TrimJoin(u, Words(u, s), underscore);
  }

  lemma {:induction false} WordsAreWords(u: Tables, s: string)
    ensures forall w :: w in Words(u, s) ==> w != [] && u.AllWord(w) && forall c :: c in w ==> c in s
  {
    if s != [] {
      var before := Words(u, Front(s));
      WordsAreWords(u, Front(s));
      assert forall c :: c in Front(s) ==> c in s;
      if before != [] {
        assert Last(before) in before;
        assert forall w :: w in Front(before) ==> w in before;
      }
      assert forall w :: w in Words(u, s) ==>
        w in before || (before != [] && w == Last(before) + [Last(s)]) || w == [Last(s)];
    }
  }

  /** How one more character changes the joined words. */
  lemma {:induction false} BuilderStep(u: Tables, s: string)
    requires s != []
    ensures var before, after := Words(u, Front(s)), Words(u, s);
      && (Join(before, '_') == [] <==> before == [])
      && (u.isWord(Last(s)) ==>
            Join(after, '_') == Join(before, '_')
              + (if |s| > 1 && !u.isWord(s[|s| - 2]) && before != [] then "_" else "") + [Last(s)])
  {
    var before, after := Words(u, Front(s)), Words(u, s);
    WordsAreWords(u, Front(s));
    if before != [] {
      JoinEnds(u, before, '_');
    }
    if u.isWord(Last(s)) {
      if |s| > 1 && u.isWord(s[|s| - 2]) {
        JoinExtends(before, [Last(s)]);
        assert Join(before, '_') + "" == Join(before, '_');
      } else {
        JoinAppends(before, [Last(s)]);
      }
    }
  }

  lemma JoinAppends(words: seq<string>, word: string)
    ensures Join(words + [word], '_') == Join(words, '_') + (if words == [] then "" else "_") + word
  {
    assert Front(words + [word]) == words;
  }

  lemma JoinExtends(words: seq<string>, more: string)
    requires words != []
    ensures Join(Front(words) + [Last(words) + more], '_') == Join(words, '_') + more
  {
    var longer := Front(words) + [Last(words) + more];
    if |words| > 1 {
      assert Front(longer) == Front(words);
    }
  }

  lemma {:induction false} TrimSplits(s: string, cut: char -> bool) returns (left: string, right: string)
    ensures s == left + Trim(s, cut) + right
    ensures forall c :: c in left || c in right ==> cut(c)
    decreases |s|
  {
    if s == [] || (!cut(s[0]) && !cut(Last(s))) {
      left, right := [], [];
    } else if cut(s[0]) {
      left, right := TrimSplits(s[1..], cut);
      left := [s[0]] + left;
    } else {
      left, right := TrimSplits(Front(s), cut);
      right := right + [Last(s)];
    }
  }

  /** Trimming takes off what it may, from both ends, and nothing else. */
  lemma {:induction false} TrimIs(s: string, cut: char -> bool)
    ensures var t := Trim(s, cut);
      && (t == [] <==> forall c :: c in s ==> cut(c))
      && (t != [] ==> !cut(t[0]) && !cut(Last(t)))
      && exists i, j :: 0 <= i <= j <= |s| && t == s[i..j] && forall c :: c in s[..i] || c in s[j..] ==> cut(c)
  {
    var left, right := TrimSplits(s, cut);
    var t := Trim(s, cut);
    var i, j := |left|, |left| + |t|;
    assert t == s[i..j] && s[..i] == left && s[j..] == right;
    TrimEnds(s, cut);
    assert forall c :: c in s ==> c in left || c in t || c in right;
  }

  lemma {:induction false} TrimEnds(s: string, cut: char -> bool)
    ensures var t := Trim(s, cut);
      && (t != [] ==> !cut(t[0]) && !cut(Last(t)))
      && (t != [] ==> exists c :: c in s && !cut(c))
    decreases |s|
  {
    if s != [] {
      if cut(s[0]) {
        TrimEnds(s[1..], cut);
      } else if cut(Last(s)) {
        TrimEnds(Front(s), cut);
      } else {
        assert s[0] in s;
      }
    }
  }

  lemma {:induction false} WordsPrependGap(u: Tables, gap: string, s: string)
    requires u.NoWord(gap)
    ensures Words(u, gap + s) == Words(u, s)
  {
    if s == [] {
      WordsAppendGap(u, [], gap);
      assert [] + gap == gap + s;
    } else {
      assert Front(gap + s) == gap + Front(s);
      WordsPrependGap(u, gap, Front(s));
      assert Words(u, []) == [];
    }
  }

  lemma LowerSpace(u: Unicode, s: string)
    requires forall c :: c in s ==> u.isSpace(c)
    ensures u.NoWord(u.Lower(s))
  {
    forall c | c in u.Lower(s) ensures !u.isWord(c) {
      var i :| 0 <= i < |s| && u.Lower(s)[i] == c;
      assert s[i] in s;
    }
  }

  lemma LowerConcat(u: Tables, a: string, b: string)
    ensures u.Lower(a + b) == u.Lower(a) + u.Lower(b)
  {
  }

  /** Trimming white space first makes no difference. */
  lemma TrimKeepsWords(u: Unicode, value: string)
    ensures Words(u, u.Lower(Trim(value, u.isSpace))) == Words(u, u.Lower(value))
  {
    var trimmed := Trim(value, u.isSpace);
    var left, right := TrimSplits(value, u.isSpace);
    assert u.Lower(value) == u.Lower(left) + (u.Lower(trimmed) + u.Lower(right)) by {
      LowerConcat(u, left, trimmed);
      LowerConcat(u, left + trimmed, right);
      assert u.Lower(left) + u.Lower(trimmed) + u.Lower(right) == u.Lower(left) + (u.Lower(trimmed) + u.Lower(right));
    }
    LowerSpace(u, left);
    LowerSpace(u, right);
    WordsPrependGap(u, u.Lower(left), u.Lower(trimmed) + u.Lower(right));
    WordsAppendGap(u, u.Lower(trimmed), u.Lower(right));
  }

  lemma {:induction false} JoinEnds(u: Tables, words: seq<string>, separator: char)
    requires words != [] && forall w :: w in words ==> w != [] && u.AllWord(w)
    ensures var s := Join(words, separator); s != [] && u.isWord(s[0]) && u.isWord(Last(s))
  {
    assert Last(words) in words;
    if |words| > 1 {
      assert forall w :: w in Front(words) ==> w in words;
      JoinEnds(u, Front(words), separator);
    }
  }

  /** The final trim drops the pending underscore and nothing else. */
  lemma TrimJoin(u: Unicode, words: seq<string>, pending: bool)
    requires forall w :: w in words ==> w != [] && u.AllWord(w)
    requires pending ==> words != []
    ensures Trim(Join(words, '_') + if pending then "_" else "", c => c == '_') == Join(words, '_')
  {
    if words != [] {
      JoinEnds(u, words, '_');
      var joined := Join(words, '_');
      assert joined + "" == joined && Front(joined + "_") == joined;
    }
  }

  // Consequences ----------------------------------------------------------

  lemma {:induction false} JoinIsCut(u: Tables, words: seq<string>, separator: char) returns (gaps: seq<string>)
    requires forall w :: w in words ==> w != [] && u.AllWord(w)
    requires !u.isWord(separator)
    ensures gaps != [] && IsCut(u, Join(words, separator), gaps, words) && Last(gaps) == []
  {
    hide IsCut, Weave;
    if words == [] {
      gaps := [[]];
      EmptyIsCut(u);
    } else if |words| == 1 {
      gaps := [[], []];
      assert words == [words[0]] && words[0] in words;
      WordIsCut(u, words[0]);
    } else {
      assert Last(words) in words && forall w :: w in Front(words) ==> w in words;
      var before := JoinIsCut(u, Front(words), separator);
      gaps := Front(before) + [[separator], []];
      CutOneMore(u, Join(Front(words), separator), before, Front(words), separator, Last(words));
      assert words == Front(words) + [Last(words)];
    }
  }

  lemma EmptyIsCut(u: Tables)
    ensures IsCut(u, [], [[]], [])
  {
  }

  lemma WordIsCut(u: Tables, word: string)
    requires word != [] && u.AllWord(word)
    ensures IsCut(u, word, [[], []], [word])
  {
    var gaps: seq<string> := [[], []];
    assert Front([word]) == [] && Front(gaps) == [[]];
    assert Weave(gaps, [word]) == word;
  }

  lemma CutOneMore(u: Tables, s: string, gaps: seq<string>, words: seq<string>, separator: char, word: string)
    requires |gaps| > 0 && IsCut(u, s, gaps, words) && Last(gaps) == [] && words != []
    requires !u.isWord(separator) && word != [] && u.AllWord(word)
    ensures IsCut(u, s + [separator] + word, Front(gaps) + [[separator], []], words + [word])
  {
    var inner := Front(gaps) + [[separator]];
    var more := inner + [[]];
    assert more == Front(gaps) + [[separator], []];
    assert Front(more) == inner && Front(inner) == Front(gaps) && Front(words + [word]) == words;
    assert Weave(inner, words) == Weave(gaps, words) + [separator];
    assert forall g :: g in more ==> g in gaps || g == [separator] || g == [];
  }

  /** Every word character of a normalized name is already lower case. */
  lemma {:induction false} LowerJoin(u: Tables, words: seq<string>)
    requires forall w :: w in words ==> u.Lower(w) == w
    ensures u.Lower(Join(words, '_')) == Join(words, u.toLower('_'))
  {
    if |words| == 1 {
      assert words[0] in words;
    } else if |words| > 1 {
      assert forall w :: w in Front(words) ==> w in words;
      assert Last(words) in words;
      LowerJoin(u, Front(words));
      assert u.Lower(Join(words, '_')) == u.Lower(Join(Front(words), '_')) + [u.toLower('_')] + u.Lower(Last(words));
    }
  }

  /** Normalizing twice is normalizing once. */
  lemma NormalizingIsIdempotent(u: Unicode, name: string)
    ensures Normalized(u, Normalized(u, name)) == Normalized(u, name)
  {
    var lowered := u.Lower(name);
    var words := Words(u, lowered);
    WordsAreWords(u, lowered);
    forall w | w in words ensures u.Lower(w) == w {
      forall i | 0 <= i < |w| ensures u.toLower(w[i]) == w[i] {
        assert w[i] in w && w[i] in lowered;
        var k :| 0 <= k < |lowered| && lowered[k] == w[i];
        assert lowered[k] == u.toLower(name[k]);
      }
    }
    LowerJoin(u, words);
    var gaps := JoinIsCut(u, words, u.toLower('_'));
    WordsAreUnique(u, Join(words, u.toLower('_')), gaps, words);
  }

  /** No leading, trailing or doubled underscore: each one stands between two word characters. */
  ghost predicate Separated(u: Tables, s: string) {
    forall i :: 0 <= i < |s| && !u.isWord(s[i]) ==>
      s[i] == '_' && 0 < i < |s| - 1 && u.isWord(s[i - 1]) && u.isWord(s[i + 1])
  }

  lemma {:induction false} JoinIsSeparated(u: Tables, words: seq<string>)
    requires forall w :: w in words ==> w != [] && u.AllWord(w)
    ensures Separated(u, Join(words, '_'))
  {
    if words == [] {
    } else if |words| == 1 {
      assert words[0] in words;
    } else {
      assert forall w :: w in Front(words) ==> w in words;
      assert Last(words) in words;
      JoinIsSeparated(u, Front(words));
      JoinEnds(u, Front(words), '_');
      var before, word := Join(Front(words), '_'), Last(words);
      forall i | |before| < i < |before| + 1 + |word| ensures u.isWord((before + ['_'] + word)[i]) {
        assert (before + ['_'] + word)[i] == word[i - |before| - 1];
      }
    }
  }

  lemma NormalizedIsSeparated(u: Unicode, name: string)
    ensures Separated(u, Normalized(u, name))
    ensures Normalized(u, name) == [] <==> u.NoWord(u.Lower(name))
  {
    var lowered := u.Lower(name);
    var words := Words(u, lowered);
    WordsAreWords(u, lowered);
    JoinIsSeparated(u, words);
    if words == [] {
      var gaps := WordsExist(u, lowered);
    } else {
      JoinEnds(u, words, '_');
      assert words[0] in words && words[0][0] in words[0] && words[0][0] in lowered;
    }
  }
}
