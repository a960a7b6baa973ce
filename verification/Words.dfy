/** Python's `str.split()` and `" ".join`, and the chunking built on them. */
module Words {
  /** The characters Python's `str.split()` cuts at. */
  predicate IsSpace(c: char) {
    var n := c as int;
    || 9 <= n <= 13 || 28 <= n <= 32 || n == 0x85 || n == 0xa0 || n == 0x1680
    || 0x2000 <= n <= 0x200a || n == 0x2028 || n == 0x2029 || n == 0x202f || n == 0x205f || n == 0x3000
  }

  predicate AllSpace(s: string) {
    forall i :: 0 <= i < |s| ==> IsSpace(s[i])
  }

  predicate IsWord(s: string) {
    s != [] && forall i :: 0 <= i < |s| ==> !IsSpace(s[i])
  }

  predicate AreWords(ws: seq<string>) {
    forall i :: 0 <= i < |ws| ==> IsWord(ws[i])
  }

  /** `text.split()`: one pass that opens a new word at each non-space character
      that follows a space or the start. */
  function Split(s: string): (ws: seq<string>)
    ensures AreWords(ws)
    ensures s != [] && !IsSpace(s[0]) ==> ws != []
  {
    if s == [] then []
    else
      var rest := Split(s[1..]);
      if IsSpace(s[0]) then rest
      else if |s| > 1 && !IsSpace(s[1]) then Grow(s[0], rest)
      else [[s[0]]] + rest
  }

  /** Puts one more character in front of the first word. */
  function Grow(c: char, ws: seq<string>): (r: seq<string>)
    requires ws != []
    ensures r != [] && r[0] == [c] + ws[0] && r[1..] == ws[1..]
    ensures !IsSpace(c) && AreWords(ws) ==> AreWords(r)
  {
    [[c] + ws[0]] + ws[1..]
  }

  /** `" ".join(ws)` */
  function Join(ws: seq<string>): string {
    if ws == [] then []
    else if |ws| == 1 then ws[0]
    else ws[0] + " " + Join(ws[1..])
  }

  function WordCount(s: string): nat {
    |Split(s)|
  }

  /** What splitting means: the text is the words woven between runs of spaces, where only
      the first and the last run may be empty. */
  function Weave(gaps: seq<string>, ws: seq<string>): string
    requires |gaps| == |ws| + 1
  {
    if ws == [] then gaps[0] else gaps[0] + ws[0] + Weave(gaps[1..], ws[1..])
  }

  ghost predicate Separates(gaps: seq<string>, ws: seq<string>) {
    && |gaps| == |ws| + 1
    && AreWords(ws)
    && (forall i :: 0 <= i < |gaps| ==> AllSpace(gaps[i]))
    && (forall i :: 0 < i < |ws| ==> gaps[i] != [])
  }

  lemma {:induction false} SplitSpaces(g: string, rest: string)
    requires AllSpace(g)
    ensures Split(g + rest) == Split(rest)
  {
    if g == [] {
      assert g + rest == rest;
    } else {
      assert (g + rest)[1..] == g[1..] + rest;
      SplitSpaces(g[1..], rest);
    }
  }

  lemma {:induction false} SplitWord(w: string, rest: string)
    requires IsWord(w)
    requires rest != [] ==> IsSpace(rest[0])
    ensures Split(w + rest) == [w] + Split(rest)
  {
    var s := w + rest;
    assert s[1..] == w[1..] + rest;
    if |w| == 1 {
      assert w[1..] + rest == rest;
      assert [s[0]] == w;
    } else {
      SplitWord(w[1..], rest);
      assert [w[0]] + w[1..] == w;
    }
  }

  /** `split` finds exactly the words of any such weaving ... */
  lemma {:induction false} SplitOfWeave(gaps: seq<string>, ws: seq<string>)
    requires Separates(gaps, ws)
    ensures Split(Weave(gaps, ws)) == ws
    decreases |ws|
  {
    if ws == [] {
      SplitSpaces(gaps[0], []);
      assert gaps[0] + [] == gaps[0];
    } else {
      SeparatesTail(gaps, ws);
      WeaveStart(gaps[1..], ws[1..]);
      SplitOfWeave(gaps[1..], ws[1..]);
      SplitGapWord(gaps[0], ws[0], Weave(gaps[1..], ws[1..]));
    }
  }

  lemma SeparatesTail(gaps: seq<string>, ws: seq<string>)
    requires Separates(gaps, ws) && ws != []
    ensures Separates(gaps[1..], ws[1..]) && (ws[1..] != [] ==> gaps[1..][0] != [])
    ensures AllSpace(gaps[0]) && IsWord(ws[0])
  {
  }

  lemma SplitGapWord(g: string, w: string, rest: string)
    requires AllSpace(g) && IsWord(w) && (rest != [] ==> IsSpace(rest[0]))
    ensures Split(g + w + rest) == [w] + Split(rest)
  {
    SplitWord(w, rest);
    SplitSpaces(g, w + rest);
    assert g + w + rest == g + (w + rest);
  }

  lemma WeaveStart(gaps: seq<string>, ws: seq<string>)
    requires Separates(gaps, ws)
    requires ws != [] ==> gaps[0] != []
    ensures Weave(gaps, ws) != [] ==> IsSpace(Weave(gaps, ws)[0])
  {
  }

  /** ... and every text is such a weaving of its words, so this determines `split`. */
  lemma {:induction false} EveryTextIsWoven(s: string) returns (gaps: seq<string>)
    ensures Separates(gaps, Split(s))
    ensures Weave(gaps, Split(s)) == s
    ensures s != [] && !IsSpace(s[0]) ==> gaps[0] == []
  {
    if s == [] {
      gaps := [""];
    } else {
      var g := EveryTextIsWoven(s[1..]);
      if IsSpace(s[0]) {
        gaps := WeaveSpace(s[0], g, Split(s[1..]));
      } else if |s| > 1 && !IsSpace(s[1]) {
        gaps := g;
        WeaveGrow(s[0], g, Split(s[1..]));
      } else {
        gaps := [""] + g;
        if |s| > 1 && Split(s[1..]) != [] && g[0] == [] {
          WeaveStartsAtWord(g, Split(s[1..]));
        }
        WeaveWord(s[0], g, Split(s[1..]));
      }
      assert s == [s[0]] + s[1..];
    }
  }

  lemma WeaveStartsAtWord(g: seq<string>, ws: seq<string>)
    requires Separates(g, ws) && ws != [] && g[0] == []
    ensures Weave(g, ws) != [] && !IsSpace(Weave(g, ws)[0])
  {
    SeparatesTail(g, ws);
    StartsWithWord(ws[0], Weave(g[1..], ws[1..]));
  }

  lemma StartsWithWord(w: string, rest: string)
    requires IsWord(w)
    ensures "" + w + rest != [] && ("" + w + rest)[0] == w[0] && !IsSpace(w[0])
  {
  }

  lemma WeaveSpace(c: char, g: seq<string>, ws: seq<string>) returns (gaps: seq<string>)
    requires Separates(g, ws) && IsSpace(c)
    ensures Separates(gaps, ws) && Weave(gaps, ws) == [c] + Weave(g, ws)
  {
    gaps := [[c] + g[0]] + g[1..];
    assert gaps[1..] == g[1..];
    if ws != [] {
      assert gaps[0] + ws[0] + Weave(g[1..], ws[1..]) == [c] + (g[0] + ws[0] + Weave(g[1..], ws[1..]));
    }
  }

  lemma WeaveGrow(c: char, g: seq<string>, ws: seq<string>)
    requires Separates(g, ws) && !IsSpace(c) && ws != [] && g[0] == []
    ensures Separates(g, Grow(c, ws)) && Weave(g, Grow(c, ws)) == [c] + Weave(g, ws)
  {
    var r := Grow(c, ws);
    var tail := Weave(g[1..], ws[1..]);
    assert g[0] + r[0] + tail == [c] + (g[0] + ws[0] + tail);
  }

  lemma WeaveWord(c: char, g: seq<string>, ws: seq<string>)
    requires Separates(g, ws) && !IsSpace(c) && (ws != [] ==> g[0] != [])
    ensures Separates([""] + g, [[c]] + ws) && Weave([""] + g, [[c]] + ws) == [c] + Weave(g, ws)
  {
    var gaps, r := [""] + g, [[c]] + ws;
    assert gaps[1..] == g && r[1..] == ws;
  }

  /** Joining words and splitting again gives the same words. */
  lemma SplitOfJoin(ws: seq<string>)
    requires AreWords(ws)
    ensures Split(Join(ws)) == ws
  {
    var gaps := seq(|ws| + 1, i => if 0 < i < |ws| then " " else "");
    JoinIsWeave(gaps, ws);
    SplitOfWeave(gaps, ws);
  }

  lemma {:induction false} JoinIsWeave(gaps: seq<string>, ws: seq<string>)
    requires |gaps| == |ws| + 1
    requires ws == [] || gaps[0] == ""
    requires gaps[|ws|] == ""
    requires forall i :: 0 < i < |ws| ==> gaps[i] == " "
    ensures Weave(gaps, ws) == Join(ws)
    decreases |ws|
  {
    if |ws| > 1 {
      var g := [""] + gaps[2..];
      JoinIsWeave(g, ws[1..]);
      FirstGap(gaps[1..], g, ws[1..]);
      assert "" + ws[0] + (" " + Join(ws[1..])) == ws[0] + " " + Join(ws[1..]);
    } else if |ws| == 1 {
      assert Weave(gaps[1..], ws[1..]) == "";
      assert gaps[0] + ws[0] + "" == ws[0];
    }
  }

  lemma FirstGap(gaps: seq<string>, g: seq<string>, ws: seq<string>)
    requires |gaps| == |g| == |ws| + 1 && ws != [] && g[0] == "" && gaps[1..] == g[1..]
    ensures Weave(gaps, ws) == gaps[0] + Weave(g, ws)
  {
    var tail := Weave(g[1..], ws[1..]);
    assert gaps[0] + ws[0] + tail == gaps[0] + ("" + ws[0] + tail);
  }

  /** Splitting distributes over a concatenation cut at a space. */
  lemma {:induction false} SplitConcat(a: string, c: char, b: string)
    requires IsSpace(c)
    ensures Split(a + [c] + b) == Split(a) + Split(b)
  {
    var s := a + [c] + b;
    if a == [] {
      assert s[1..] == b;
    } else {
      assert s[1..] == a[1..] + [c] + b;
      SplitConcat(a[1..], c, b);
      var u, v := Split(a[1..]), Split(b);
      if IsSpace(a[0]) {
      } else if |a| > 1 && !IsSpace(a[1]) {
        assert s[1] == a[1];
        assert Grow(a[0], u + v) == Grow(a[0], u) + v;
      } else {
        assert s[1] == if |a| > 1 then a[1] else c;
        assert [[a[0]]] + (u + v) == [[a[0]]] + u + v;
      }
    }
  }

  /** A blank, a tab or a line break cuts a text, whatever is around it, and a letter or digit does not. */
  lemma BlanksCut(a: string, c: char, b: string)
    requires c in {' ', '\t', '\n', '\r'}
    ensures Split(a + [c] + b) == Split(a) + Split(b)
    ensures forall d: char :: '0' <= d <= '9' || 'A' <= d <= 'Z' || 'a' <= d <= 'z' ==> Split([d]) == [[d]]
  {
    SplitConcat(a, c, b);
    forall d: char | '0' <= d <= '9' || 'A' <= d <= 'Z' || 'a' <= d <= 'z' ensures Split([d]) == [[d]] {
      assert !IsSpace(d) && [d][1..] == [];
    }
  }

  /** `normalize` of the OCR service. */
  function Normalize(text: string): string {
    Join(Split(text))
  }

  lemma NormalizeKeepsWords(text: string)
    ensures Split(Normalize(text)) == Split(text)
    ensures Normalize(Normalize(text)) == Normalize(text)
  {
    SplitOfJoin(Split(text));
  }

  /** Two texts are normalized alike exactly when they have the same words. */
  lemma NormalizeSeesOnlyWords(a: string, b: string)
    ensures Normalize(a) == Normalize(b) <==> Split(a) == Split(b)
  {
    NormalizeKeepsWords(a);
    NormalizeKeepsWords(b);
  }

  /** The words of a list of texts, in order. */
  ghost function AllWords(texts: seq<string>): seq<string> {
    if texts == [] then [] else AllWords(texts[..|texts| - 1]) + Split(texts[|texts| - 1])
  }

  method SplitChunks(text: string, maxWords: nat) returns (chunks: seq<string>)
    requires maxWords > 0
    ensures AllWords(chunks) == Split(text)
    ensures FullChunks(chunks, maxWords)
  {
    var words := Split(text);
    chunks := [];
    var i := 0;
    while i < |words|
      invariant 0 <= i
      invariant AllWords(chunks) == words[..UpTo(i, |words|)]
      invariant FullChunks(chunks, maxWords)
      invariant i < |words| && |chunks| > 0 ==> IsFull(chunks[|chunks| - 1], maxWords)
      decreases |words| - i
    {
      // Python's slice words[i:i + max_words] stops at the end of the list.
      var slice := words[i..UpTo(i + maxWords, |words|)];
      AddChunk(chunks, slice, maxWords);
      NextSlice(words, i, i + maxWords);
      chunks := chunks + [Join(slice)];
      i := i + maxWords;
    }
    assert words[..UpTo(i, |words|)] == words;
  }

  lemma NextSlice(words: seq<string>, i: nat, j: nat)
    requires i < |words| && i <= j
    ensures UpTo(i, |words|) == i && words[..i] + words[i..UpTo(j, |words|)] == words[..UpTo(j, |words|)]
  {
  }

  function UpTo(i: nat, n: nat): (k: nat)
    ensures k <= n && k <= i && (i < n ==> k == i)
  {
    if i < n then i else n
  }

  /** Chunks are normalized texts of 1 to `maxWords` words, and only the last may be short. */
  ghost predicate FullChunks(chunks: seq<string>, maxWords: nat) {
    && (forall i :: 0 <= i < |chunks| ==> IsChunk(chunks[i], maxWords))
    && (forall i :: 0 <= i < |chunks| - 1 ==> IsFull(chunks[i], maxWords))
  }

  predicate IsChunk(c: string, maxWords: nat) {
    Normalize(c) == c && 0 < WordCount(c) <= maxWords
  }

  predicate IsFull(c: string, maxWords: nat) {
    WordCount(c) == maxWords
  }

  lemma JoinIsChunk(ws: seq<string>, maxWords: nat)
    requires AreWords(ws) && 0 < |ws| <= maxWords
    ensures IsChunk(Join(ws), maxWords) && (|ws| == maxWords ==> IsFull(Join(ws), maxWords)) && Split(Join(ws)) == ws
  {
    SplitOfJoin(ws);
  }

  lemma FullChunksSnoc(chunks: seq<string>, c: string, maxWords: nat)
    requires FullChunks(chunks, maxWords) && IsChunk(c, maxWords)
    requires |chunks| > 0 ==> IsFull(chunks[|chunks| - 1], maxWords)
    ensures FullChunks(chunks + [c], maxWords)
  {
  }

  lemma AllWordsSnoc(chunks: seq<string>, c: string)
    ensures AllWords(chunks + [c]) == AllWords(chunks) + Split(c)
  {
    assert (chunks + [c])[..|chunks|] == chunks;
  }

  lemma AddChunk(chunks: seq<string>, ws: seq<string>, maxWords: nat)
    requires FullChunks(chunks, maxWords) && AreWords(ws) && 0 < |ws| <= maxWords
    requires |chunks| > 0 ==> IsFull(chunks[|chunks| - 1], maxWords)
    ensures FullChunks(chunks + [Join(ws)], maxWords)
    ensures AllWords(chunks + [Join(ws)]) == AllWords(chunks) + ws
    ensures |ws| == maxWords ==> IsFull(Join(ws), maxWords)
  {
    JoinIsChunk(ws, maxWords);
    FullChunksSnoc(chunks, Join(ws), maxWords);
    AllWordsSnoc(chunks, Join(ws));
  }

  /** The chunks of a list of words: the first `maxWords`, the next `maxWords`, ... */
  function Chunks(words: seq<string>, maxWords: nat): seq<string>
    requires maxWords > 0
    decreases |words|
  {
    if words == [] then []
    else if |words| <= maxWords then [Join(words)]
    else [Join(words[..maxWords])] + Chunks(words[maxWords..], maxWords)
  }

  lemma {:induction false} AllWordsCons(c: string, rest: seq<string>)
    ensures AllWords([c] + rest) == Split(c) + AllWords(rest)
    decreases |rest|
  {
    if rest == [] {
      AllWordsSnoc([], c);
      assert [] + [c] == [c] + rest;
    } else {
      var init, x := rest[..|rest| - 1], rest[|rest| - 1];
      AllWordsCons(c, init);
      AllWordsSnoc([c] + init, x);
      AllWordsSnoc(init, x);
      assert rest == init + [x];
      Associative([c], init, [x]);
      Associative(Split(c), AllWords(init), Split(x));
    }
  }

  lemma Associative<T>(a: seq<T>, b: seq<T>, c: seq<T>)
    ensures a + b + c == a + (b + c)
  {
  }

  /** The contract of `SplitChunks` leaves no choice: these are the only chunks that meet it. */
  lemma {:induction false} ChunksUnique(chunks: seq<string>, maxWords: nat)
    requires maxWords > 0 && FullChunks(chunks, maxWords)
    ensures chunks == Chunks(AllWords(chunks), maxWords)
    decreases |chunks|
  {
    if chunks != [] {
      var c, rest := chunks[0], chunks[1..];
      assert chunks == [c] + rest;
      AllWordsCons(c, rest);
      ChunksUnique(rest, maxWords);
      var words := AllWords(chunks);
      assert IsChunk(c, maxWords);
      assert Join(Split(c)) == c;
      if rest == [] {
        assert words == Split(c);
      } else {
        assert IsFull(chunks[0], maxWords);
        AllWordsCons(rest[0], rest[1..]);
        assert rest == [rest[0]] + rest[1..];
        assert IsChunk(rest[0], maxWords);
        assert words[..maxWords] == Split(c) && words[maxWords..] == AllWords(rest);
      }
    }
  }

  lemma FullChunksCons(c: string, rest: seq<string>, maxWords: nat)
    requires maxWords > 0 && FullChunks(rest, maxWords) && IsChunk(c, maxWords) && IsFull(c, maxWords)
    ensures FullChunks([c] + rest, maxWords)
  {
  }

  lemma {:induction false} AllWordsAreWords(texts: seq<string>)
    ensures AreWords(AllWords(texts))
    decreases |texts|
  {
    if texts != [] {
      AllWordsAreWords(texts[..|texts| - 1]);
    }
  }

  lemma CutAndJoined(words: seq<string>, k: nat)
    requires k <= |words|
    ensures words[..k] + words[k..] == words
  {
  }

  lemma {:induction false} ChunksMeetContract(words: seq<string>, maxWords: nat)
    requires maxWords > 0 && AreWords(words)
    ensures AllWords(Chunks(words, maxWords)) == words && FullChunks(Chunks(words, maxWords), maxWords)
    decreases |words|
  {
    if 0 < |words| <= maxWords {
      JoinIsChunk(words, maxWords);
      AllWordsSnoc([], Join(words));
      assert [] + [Join(words)] == [Join(words)];
    } else if words != [] {
      var c, rest := Join(words[..maxWords]), Chunks(words[maxWords..], maxWords);
      JoinIsChunk(words[..maxWords], maxWords);
      ChunksMeetContract(words[maxWords..], maxWords);
      AllWordsCons(c, rest);
      FullChunksCons(c, rest, maxWords);
      CutAndJoined(words, maxWords);
    }
  }
}
