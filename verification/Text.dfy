/** Searching for a word in a text, as `strings.Contains` and `strings.Index` do. */
module Text {
  predicate At(s: string, i: nat, word: string) {
    i + |word| <= |s| && s[i..i + |word|] == word
  }

  /** `strings.Contains` */
  predicate Contains(s: string, word: string) {
    exists i :: 0 <= i <= |s| && At(s, i, word)
  }

  lemma AtMeans(s: string, i: nat, word: string)
    ensures At(s, i, word) <==> exists before, after :: |before| == i && s == before + word + after
  {
    if At(s, i, word) {
      assert s == s[..i] + word + s[i + |word|..];
    }
  }

  lemma ContainsMeans(s: string, word: string)
    ensures Contains(s, word) <==> exists before, after :: s == before + word + after
  {
    if i: nat :| i <= |s| && At(s, i, word) {
      AtMeans(s, i, word);
    }
    if before, after :| s == before + word + after {
      AtMeans(s, |before|, word);
    }
  }

  /** `strings.Index`: the first occurrence, or -1. */
  function Index(s: string, word: string): (r: int)
    ensures r == -1 || (0 <= r && At(s, r, word))
    ensures forall i :: 0 <= i <= |s| && (r == -1 || i < r) ==> !At(s, i, word)
  {
    IndexFrom(s, word, 0)
  }

  function IndexFrom(s: string, word: string, from: nat): (r: int)
    requires from <= |s|
    ensures r == -1 || (from <= r && At(s, r, word))
    ensures forall i :: from <= i <= |s| && (r == -1 || i < r) ==> !At(s, i, word)
    decreases |s| - from
  {
    if At(s, from, word) then from
    else if from == |s| then -1
    else IndexFrom(s, word, from + 1)
  }

  lemma AtSuffix(s: string, n: nat, i: nat, word: string)
    requires n <= |s|
    ensures At(s[n..], i, word) <==> At(s, n + i, word)
  {
    if n + i + |word| <= |s| {
      assert s[n..][i..i + |word|] == s[n + i..n + i + |word|];
    }
  }

  lemma AtPrefix(s: string, n: nat, i: nat, word: string)
    requires n <= |s|
    ensures At(s[..n], i, word) <==> At(s, i, word) && i + |word| <= n
  {
    if i + |word| <= n {
      assert s[..n][i..i + |word|] == s[i..i + |word|];
    }
  }

  /** Two overlapping occurrences of a word make letters of the word equal. */
  lemma Overlap(s: string, i: nat, j: nat, word: string)
    requires At(s, i, word) && At(s, j, word) && i <= j < i + |word|
    ensures word[j - i] == word[0]
  {
    assert s[i..i + |word|][j - i] == s[j];
    assert s[j..j + |word|][0] == s[j];
  }

  lemma CharacterOfWord(s: string, i: nat, word: string, p: nat)
    requires At(s, i, word) && i <= p < i + |word|
    ensures s[p] in word
  {
    assert word[p - i] == s[i..i + |word|][p - i] == s[p];
  }

  /** A word without `sep` occurs in a text with `sep` in it only on one side of the `sep`. */
  lemma AcrossSeparator(a: string, sep: char, b: string, word: string, i: nat)
    requires sep !in word && word != ""
    ensures At(a + [sep] + b, i, word) <==> At(a, i, word) || (i > |a| && At(b, i - |a| - 1, word))
  {
    var s := a + [sep] + b;
    if At(s, i, word) {
      if i <= |a| < i + |word| {
        CharacterOfWord(s, i, word, |a|);
      } else if i < |a| {
        assert s[i..i + |word|] == a[i..i + |word|];
      } else {
        assert s[i..i + |word|] == b[i - |a| - 1..i - |a| - 1 + |word|];
      }
    }
    if At(a, i, word) {
      assert s[i..i + |word|] == a[i..i + |word|];
    }
    if i > |a| && At(b, i - |a| - 1, word) {
      assert s[i..i + |word|] == b[i - |a| - 1..i - |a| - 1 + |word|];
    }
  }

  lemma ContainsAcross(a: string, sep: char, b: string, word: string)
    requires sep !in word && word != ""
    ensures Contains(a + [sep] + b, word) <==> Contains(a, word) || Contains(b, word)
  {
    var s := a + [sep] + b;
    if i :| 0 <= i <= |s| && At(s, i, word) {
      AcrossSeparator(a, sep, b, word, i);
    }
    if i :| 0 <= i <= |a| && At(a, i, word) {
      AcrossSeparator(a, sep, b, word, i);
      assert At(s, i, word);
    }
    if i :| 0 <= i <= |b| && At(b, i, word) {
      AcrossSeparator(a, sep, b, word, i + |a| + 1);
      assert At(s, i + |a| + 1, word);
    }
  }

  /** A text in which a word is found has every character of the word. */
  lemma HasCharacters(s: string, word: string, c: char)
    requires c in word
    ensures Contains(s, word) ==> c in s
  {
    if i :| 0 <= i <= |s| && At(s, i, word) {
      var k :| 0 <= k < |word| && word[k] == c;
      assert s[i..i + |word|][k] == s[i + k];
    }
  }
}
