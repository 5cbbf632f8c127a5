/** What upper-casing, stripping and splitting into words amount to, in terms of the
    characters themselves. */
module TextLaws {
  import opened Text

  /** The characters that count as whitespace, digits and letters. */
  lemma Alphabet(c: char)
    ensures IsSpace(c) <==> c as int in {9, 10, 11, 12, 13, 32}
    ensures IsDigit(c) <==> 48 <= c as int <= 57
    ensures IsUpperLetter(c) <==> 65 <= c as int <= 90
    ensures IsLowerLetter(c) <==> 97 <= c as int <= 122
  {
  }

  // ---- Case and surrounding whitespace ----

  /** The same letter, whatever its case. */
  predicate SameLetter(c: char, d: char) {
    || c == d
    || (IsUpperLetter(c) && d as int == c as int + 32)
    || (IsUpperLetter(d) && c as int == d as int + 32)
  }

  predicate SameWord(a: string, b: string) {
    |a| == |b| && forall i :: 0 <= i < |a| ==> SameLetter(a[i], b[i])
  }

  lemma {:induction false} UpperAt(s: string, i: nat)
    requires i < |s|
    ensures Upper(s)[i] == UpperChar(s[i])
  {
    if i > 0 {
      UpperAt(s[1..], i - 1);
    }
  }

  lemma {:induction false} LowerAt(s: string, i: nat)
    requires i < |s|
    ensures Lower(s)[i] == LowerChar(s[i])
  {
    if i > 0 {
      LowerAt(s[1..], i - 1);
    }
  }

  /** A text upper-cased is a word in capitals exactly when it is that word up to case. */
  lemma UpperIsWordIff(s: string, word: string)
    requires forall i :: 0 <= i < |word| ==> IsUpperLetter(word[i])
    ensures Upper(s) == word <==> SameWord(s, word)
  {
    hide Upper;
    forall i | 0 <= i < |s| && i < |word| ensures Upper(s)[i] == word[i] <==> SameLetter(s[i], word[i]) {
      UpperAt(s, i);
      assert IsUpperLetter(word[i]);
    }
  }

  lemma SameLowerIff(a: string, b: string)
    ensures Lower(a) == Lower(b) <==> SameWord(a, b)
  {
    hide Lower;
    forall i | 0 <= i < |a| && i < |b| ensures Lower(a)[i] == Lower(b)[i] <==> SameLetter(a[i], b[i]) {
      LowerAt(a, i);
      LowerAt(b, i);
    }
  }

  lemma {:induction false} StripLeftTakes(s: string, i: nat)
    requires i < |s| - |StripLeft(s)|
    ensures IsSpace(s[i])
  {
    hide IsSpace;
    if i > 0 {
      StripLeftTakes(s[1..], i - 1);
    }
  }

  lemma {:induction false} StripRightTakes(s: string, i: nat)
    requires |StripRight(s)| <= i < |s|
    ensures IsSpace(s[i])
    decreases |s|
  {
    hide IsSpace;
    if i < |s| - 1 {
      StripRightTakes(s[..|s| - 1], i);
    }
  }

  /** Stripping takes whitespace off both ends, all of it. */
  lemma StripTakes(s: string) returns (m: nat)
    ensures m + |Strip(s)| <= |s| && Strip(s) == s[m..m + |Strip(s)|]
    ensures forall i :: 0 <= i < m || m + |Strip(s)| <= i < |s| ==> IsSpace(s[i])
    ensures Strip(s) != "" ==> !IsSpace(Strip(s)[0]) && !IsSpace(Strip(s)[|Strip(s)| - 1])
  {
    hide IsSpace, StripLeft, StripRight;
    var left := StripLeft(s);
    m := |s| - |left|;
    assert Strip(s) == StripRight(left) && StripRight(left) <= left;
    forall i | 0 <= i < |s| && (i < m || m + |Strip(s)| <= i) ensures IsSpace(s[i]) {
      if i < m {
        StripLeftTakes(s, i);
      } else {
        StripRightTakes(left, i - m);
        assert left[i - m] == s[i];
      }
    }
  }

  lemma HasTextIff(s: string)
    ensures HasText(s) <==> Strip(s) != ""
  {
    hide IsSpace, Strip;
    var m := StripTakes(s);
    if Strip(s) != "" {
      assert s[m] == Strip(s)[0];
    }
  }

  // ---- Words ----

  predicate Word(w: string) {
    w != "" && forall i :: 0 <= i < |w| ==> !IsSpace(w[i])
  }

  predicate AllWords(ws: seq<string>) {
    forall k :: 0 <= k < |ws| ==> Word(ws[k])
  }

  lemma {:induction false} WordEndAppend(a: string, c: char, b: string)
    requires IsSpace(c)
    ensures WordEnd(a + [c] + b) == WordEnd(a)
  {
    hide IsSpace;
    if a != "" && !IsSpace(a[0]) {
      assert (a + [c] + b)[1..] == a[1..] + [c] + b;
      WordEndAppend(a[1..], c, b);
    }
  }

  lemma WordsCut(s: string)
    ensures s == "" ==> Words(s) == []
    ensures s != "" && IsSpace(s[0]) ==> Words(s) == Words(s[1..])
    ensures s != "" && !IsSpace(s[0]) ==> Words(s) == [s[..WordEnd(s)]] + Words(s[WordEnd(s)..])
  {
    hide IsSpace, WordEnd;
  }

  lemma {:induction false} WordsAppend(a: string, c: char, b: string)
    requires IsSpace(c)
    ensures Words(a + [c] + b) == Words(a) + Words(b)
    decreases |a|
  {
    hide IsSpace, WordEnd, Words;
    var s := a + [c] + b;
    WordsCut(s);
    WordsCut(a);
    if a == "" {
      assert s[0] == c && s[1..] == b;
    } else if IsSpace(a[0]) {
      assert s[0] == a[0] && s[1..] == a[1..] + [c] + b;
      WordsAppend(a[1..], c, b);
    } else {
      var n := WordEnd(a);
      WordEndAppend(a, c, b);
      WordEndPositive(a);
      assert s[0] == a[0] && s[n..] == a[n..] + [c] + b && s[..n] == a[..n];
      WordsAppend(a[n..], c, b);
      Associate([a[..n]], Words(a[n..]), Words(b));
    }
  }

  lemma Associate<T>(a: seq<T>, b: seq<T>, c: seq<T>)
    ensures a + (b + c) == (a + b) + c
  {
  }

  lemma WordEndPositive(s: string)
    requires s != "" && !IsSpace(s[0])
    ensures WordEnd(s) > 0
  {
  }

  lemma {:induction false} WordEndOfWord(w: string)
    requires forall i :: 0 <= i < |w| ==> !IsSpace(w[i])
    ensures WordEnd(w) == |w|
  {
    hide IsSpace;
    if w != "" {
      WordEndOfWord(w[1..]);
    }
  }

  lemma OneWord(w: string)
    requires Word(w)
    ensures Words(w) == [w]
  {
    hide IsSpace, WordEnd;
    WordEndOfWord(w);
    assert w[..|w|] == w && w[|w|..] == "" && Words("") == [];
  }

  /** The words of a text are non-empty and hold no whitespace. */
  lemma {:induction false} WordsAreWords(s: string)
    ensures AllWords(Words(s))
    decreases |s|
  {
    hide IsSpace, WordEnd;
    if s != "" {
      if IsSpace(s[0]) {
        WordsAreWords(s[1..]);
      } else {
        WordEndPositive(s);
        WordsAreWords(s[WordEnd(s)..]);
      }
    }
  }

  /** Words joined by a space are read back. */
  lemma {:induction false} WordsOfJoin(ws: seq<string>)
    requires AllWords(ws)
    ensures Words(Join(ws, " ")) == ws
    decreases |ws|
  {
    hide IsSpace, WordEnd, Words;
    if ws == [] {
      assert Words("") == [] by { NoWords(); }
    } else {
      OneWord(ws[0]);
      if |ws| > 1 {
        WordsOfJoin(ws[1..]);
        assert IsSpace(' ') by { SpaceIsSpace(); }
        WordsAppend(ws[0], ' ', Join(ws[1..], " "));
        assert ws == [ws[0]] + ws[1..];
      }
    }
  }

  lemma NoWords()
    ensures Words("") == []
  {
  }

  lemma SpaceIsSpace()
    ensures IsSpace(' ')
  {
  }

  // ---- Words and case ----

  predicate SameWords(us: seq<string>, vs: seq<string>) {
    |us| == |vs| && forall k :: 0 <= k < |us| ==> SameWord(us[k], vs[k])
  }

  lemma SameLetterSpace(c: char, d: char)
    requires SameLetter(c, d)
    ensures IsSpace(c) <==> IsSpace(d)
  {
  }

  lemma {:induction false} SameWordEnd(a: string, b: string)
    requires SameWord(a, b)
    ensures WordEnd(a) == WordEnd(b)
    decreases |a|
  {
    hide IsSpace, SameLetter;
    if a != "" {
      assert SameLetter(a[0], b[0]);
      SameLetterSpace(a[0], b[0]);
      SameWordEnd(a[1..], b[1..]);
    }
  }

  lemma {:induction false} SameTextSameWords(a: string, b: string)
    requires SameWord(a, b)
    ensures SameWords(Words(a), Words(b))
    decreases |a|
  {
    hide IsSpace, SameLetter, WordEnd;
    if a != "" {
      assert SameLetter(a[0], b[0]);
      SameLetterSpace(a[0], b[0]);
      if IsSpace(a[0]) {
        SameTextSameWords(a[1..], b[1..]);
      } else {
        SameWordEnd(a, b);
        WordEndPositive(a);
        var n := WordEnd(a);
        SameTextSameWords(a[n..], b[n..]);
      }
    }
  }

  lemma {:induction false} SameWordsSameText(us: seq<string>, vs: seq<string>)
    requires SameWords(us, vs)
    ensures SameWord(Join(us, " "), Join(vs, " "))
    decreases |us|
  {
    hide SameLetter;
    if |us| > 1 {
      SameWordsSameText(us[1..], vs[1..]);
      SameWordAppend(us[0] + " ", Join(us[1..], " "), vs[0] + " ", Join(vs[1..], " "));
    }
  }

  lemma SameWordAppend(a: string, b: string, c: string, d: string)
    requires |a| == |c| && SameWord(b, d)
    requires forall i :: 0 <= i < |a| - 1 ==> SameLetter(a[i], c[i])
    requires |a| > 0 && a[|a| - 1] == c[|a| - 1]
    ensures SameWord(a + b, c + d)
  {
  }

  /** Texts joined from their words and folded are equal exactly when they have the same
      words up to case, whatever the whitespace around them. */
  lemma FoldedIff(a: string, b: string)
    ensures Lower(Join(Words(a), " ")) == Lower(Join(Words(b), " ")) <==> SameWords(Words(a), Words(b))
  {
    hide Words, Lower, Join, SameWord;
    WordsAreWords(a);
    WordsAreWords(b);
    WordsOfJoin(Words(a));
    WordsOfJoin(Words(b));
    var ja, jb := Join(Words(a), " "), Join(Words(b), " ");
    SameLowerIff(ja, jb);
    if SameWord(ja, jb) {
      SameTextSameWords(ja, jb);
    }
    if SameWords(Words(a), Words(b)) {
      SameWordsSameText(Words(a), Words(b));
    }
  }

  // ---- Pieces between separators ----

  lemma {:induction false} SplitAppend<T>(a: seq<T>, sep: T, b: seq<T>)
    ensures Split(a + [sep] + b, sep) == Split(a, sep) + Split(b, sep)
    decreases |a|
  {
    if a == [] {
      assert ([sep] + b)[1..] == b;
      assert a + [sep] + b == [sep] + b;
    } else {
      assert (a + [sep] + b)[1..] == a[1..] + [sep] + b;
      SplitAppend(a[1..], sep, b);
    }
  }

  lemma {:induction false} SplitOne<T>(a: seq<T>, sep: T)
    requires sep !in a
    ensures Split(a, sep) == [a]
    decreases |a|
  {
    if a != [] {
      SplitOne(a[1..], sep);
      assert [a[0]] + a[1..] == a;
    }
  }

  lemma {:induction false} SplitPieces<T>(s: seq<T>, sep: T)
    ensures forall k :: 0 <= k < |Split(s, sep)| ==> sep !in Split(s, sep)[k]
    decreases |s|
  {
    if s != [] {
      SplitPieces(s[1..], sep);
    }
  }

  /** Lines without a newline, joined by newlines, are read back. */
  lemma {:induction false} SplitOfJoin(lines: seq<string>)
    requires lines != [] && forall k :: 0 <= k < |lines| ==> '\n' !in lines[k]
    ensures Split(Join(lines, "\n"), '\n') == lines
    decreases |lines|
  {
    SplitOne(lines[0], '\n');
    if |lines| > 1 {
      SplitOfJoin(lines[1..]);
      SplitAppend(lines[0], '\n', Join(lines[1..], "\n"));
      assert lines == [lines[0]] + lines[1..];
    }
  }

  lemma {:induction false} JoinAppend(a: seq<string>, b: seq<string>, sep: string)
    requires a != [] && b != []
    ensures Join(a + b, sep) == Join(a, sep) + sep + Join(b, sep)
    decreases |a|
  {
    assert (a + b)[1..] == a[1..] + b;
    if |a| > 1 {
      JoinAppend(a[1..], b, sep);
    }
  }
}
