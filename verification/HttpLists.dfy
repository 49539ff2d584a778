/**
 Comma-separated header values as section 7 of RFC 7230 reads them: elements with optional white
 space around them, compared without regard to case.
 */
module HttpLists {
  import opened HttpTypes
  import opened HttpOptions

  // ---------------------------------------------------------------- elements

  // The elements of a list, with the white space around them.
  function Split(s: Bytes): (es: seq<Bytes>)
    ensures |es| >= 1
    decreases |s|
  {
    if s == [] then [[]]
    else
      var es, ch := Split(s[..|s| - 1]), s[|s| - 1];
      var n := |es| - 1;
      if ch == ',' then es + [[]] else es[n := es[n] + [ch]]
  }

  function Join(es: seq<Bytes>): Bytes
    requires |es| >= 1
    decreases |es|
  {
    var n := |es| - 1;
    if n == 0 then es[0] else Join(es[..n]) + "," + es[n]
  }

  // Splitting is undone by joining with commas, and leaves no comma.
  lemma {:induction false} SplitJoins(s: Bytes)
    ensures Join(Split(s)) == s && forall i :: 0 <= i < |Split(s)| ==> ',' !in Split(s)[i]
    decreases |s|
  {
    if s != [] {
      var t, ch := s[..|s| - 1], s[|s| - 1];
      SplitJoins(t);
      var es := Split(t);
      var n := |es| - 1;
      assert s == t + [ch];
      if ch == ',' {
        assert (es + [[]])[..n + 1] == es;
        assert t + "," + [] == s;
      } else {
        var fs := es[n := es[n] + [ch]];
        assert fs[..n] == es[..n];
        assert n > 0 ==> Join(es[..n]) + "," + (es[n] + [ch]) == Join(es[..n]) + "," + es[n] + [ch];
      }
    }
  }

  lemma {:induction false} SplitPlain(a: Bytes, b: Bytes)
    requires ',' !in b
    ensures var n := |Split(a)| - 1; Split(a + b) == Split(a)[n := Split(a)[n] + b]
    decreases |b|
  {
    var n := |Split(a)| - 1;
    if b == [] {
      assert a + b == a && Split(a)[n] + b == Split(a)[n];
    } else {
      var t, ch := b[..|b| - 1], b[|b| - 1];
      SplitPlain(a, t);
      assert (a + b)[..|a + b| - 1] == a + t;
      assert Split(a)[n] + b == Split(a)[n] + t + [ch];
    }
  }

  // One element, and one more.
  lemma SplitOne(b: Bytes)
    requires ',' !in b
    ensures Split(b) == [b]
  {
    SplitPlain([], b);
    assert [] + b == b;
  }

  lemma SplitMore(a: Bytes, b: Bytes)
    requires ',' !in b
    ensures Split(a + "," + b) == Split(a) + [b]
  {
    var c := a + ",";
    assert c[..|c| - 1] == a;
    SplitPlain(c, b);
    assert [] + b == b;
  }

  // ---------------------------------------------------------------- white space

  predicate IsOws(ch: Byte) { ch == ' ' || ch == '\t' }

  function TrimLeft(u: Bytes): Bytes
    decreases |u|
  {
    if u != [] && IsOws(u[0]) then TrimLeft(u[1..]) else u
  }

  function TrimRight(u: Bytes): (r: Bytes)
    ensures |r| <= |u| && r == u[..|r|] && (forall i :: |r| <= i < |u| ==> IsOws(u[i]))
    ensures r != [] ==> !IsOws(r[|r| - 1])
    decreases |u|
  {
    if u != [] && IsOws(u[|u| - 1]) then TrimRight(u[..|u| - 1]) else u
  }

  function Trim(u: Bytes): Bytes { TrimRight(TrimLeft(u)) }

  // ---------------------------------------------------------------- words

  function Fold(c: Byte): Byte { if 'A' <= c <= 'Z' then (c as int + 32) as char else c }

  predicate SameWord(u: Bytes, word: string) {
    |u| == |word| && forall i :: 0 <= i < |u| ==> Fold(u[i]) == word[i]
  }

  // The element is the word.
  predicate Means(u: Bytes, word: string) { SameWord(Trim(u), word) }

  // Small letters and hyphens, for which `c | 0x20` is the right way to ignore case.
  predicate IsKeyword(word: string) {
    word != [] && forall i :: 0 <= i < |word| ==> 'a' <= word[i] <= 'z' || word[i] == '-'
  }

  lemma LetterFolds(c: Byte, w: char)
    requires c != CR && ('a' <= w <= 'z' || w == '-')
    ensures Lower(c) == w <==> Fold(c) == w
    ensures Lower(c) == w ==> !IsOws(c)
  {
  }

  lemma {:induction false} LowerAllAt(u: Bytes, i: nat)
    requires i < |u|
    ensures LowerAll(u)[i] == Lower(u[i])
    decreases |u|
  {
    if i < |u| - 1 {
      LowerAllAt(u[..|u| - 1], i);
    }
  }

  lemma LoweredWord(u: Bytes, word: string)
    requires CR !in u && IsKeyword(word)
    ensures LowerAll(u) == word <==> SameWord(u, word)
    ensures LowerAll(u) == word ==> forall i :: 0 <= i < |u| ==> !IsOws(u[i])
  {
    hide Lower, Fold, LowerAll;
    if |u| == |word| {
      forall i | 0 <= i < |u|
        ensures LowerAll(u)[i] == Lower(u[i]) && (Lower(u[i]) == word[i] <==> Fold(u[i]) == word[i])
        ensures Lower(u[i]) == word[i] ==> !IsOws(u[i])
      {
        LowerAllAt(u, i);
        LetterFolds(u[i], word[i]);
      }
      assert LowerAll(u) == word <==> forall i :: 0 <= i < |u| ==> LowerAll(u)[i] == word[i];
    }
  }

  // ---------------------------------------------------------------- elements without tabs

  lemma {:induction false} StripTrims(u: Bytes)
    ensures '\t' !in u ==> TrimLeft(u) == Strip(u)
    ensures '\t' in u <==> '\t' in Strip(u)
    ensures CR !in u ==> CR !in Strip(u)
    decreases |u|
  {
    if u != [] && u[0] == ' ' {
      StripTrims(u[1..]);
      assert u == [u[0]] + u[1..];
    }
  }

  lemma WordTrimmed(y: Bytes, word: string)
    requires CR !in y && IsKeyword(word)
    ensures IsWord(y, word) <==> SameWord(TrimRight(y), word) && '\t' !in y
  {
    hide Fold, LowerAll, SameWord;
    var n, r := |word|, TrimRight(y);
    if IsWord(y, word) {
      LoweredWord(y[..n], word);
      assert !IsOws(y[..n][n - 1]);
      assert |r| == n;
    }
    if SameWord(r, word) && '\t' !in y {
      LoweredWord(r, word);
      assert |r| == n by { SameLength(r, word); }
    }
  }

  lemma SameLength(u: Bytes, word: string)
    requires SameWord(u, word)
    ensures |u| == |word|
  {
  }

  // What the automaton takes for the word: the word, unless there is a tab at its side.
  lemma WordMeans(u: Bytes, word: string)
    requires CR !in u && IsKeyword(word)
    ensures IsWord(Strip(u), word) <==> Means(u, word) && '\t' !in u
  {
    hide IsWord, SameWord, Strip, TrimLeft, IsKeyword;
    StripTrims(u);
    WordTrimmed(Strip(u), word);
  }

  lemma Keywords()
    ensures IsKeyword(KEEP_ALIVE) && IsKeyword(CLOSE) && IsKeyword(UPGRADE) && IsKeyword(CHUNKED)
  {
  }
}
