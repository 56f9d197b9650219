/**
 * The text chunker of the speech synthesis service (`splitText`): long text is cut
 * at sentence terminators and re-joined into chunks of about `maxLength`
 * characters; a sentence that does not fit into an empty chunk is cut at spaces.
 */
module Chunker {
  import opened Text

  /** The chunk length the streaming synthesis asks for, also `splitText`'s default. */
  const MaxChunkLength: nat := 200

  /** Loop state of `splitText`: the closed chunks and the chunk being built. */
  datatype Acc = Acc(chunks: seq<string>, current: string)

  /** One turn of the word loop: append the word, close the chunk, or drop the word. */
  function WordStep(acc: Acc, word: string, maxLength: nat): Acc {
    if |acc.current + word| <= maxLength then
      Acc(acc.chunks, acc.current + (if acc.current != [] then " " else []) + word)
    else if acc.current != [] then
      Acc(acc.chunks + [acc.current], word)
    else
      acc
  }

  function WordLoop(acc: Acc, words: seq<string>, maxLength: nat): Acc
    decreases |words|
  {
    if words == [] then acc else WordLoop(WordStep(acc, words[0], maxLength), words[1..], maxLength)
  }

  /** One turn of the sentence loop: trim, skip a blank sentence, place the rest. */
  function SentenceStep(acc: Acc, sentence: string, maxLength: nat): Acc {
    var trimmed := Trim(sentence);
    if trimmed == [] then acc else Place(acc, trimmed, maxLength)
  }

  /** Places a non-blank trimmed sentence: join it, close the open chunk, or fall back to words. */
  function Place(acc: Acc, trimmed: string, maxLength: nat): Acc {
    if |acc.current + trimmed| <= maxLength then
      Acc(acc.chunks, acc.current + (if acc.current != [] then ". " else []) + trimmed)
    else if acc.current != [] then
      Acc(acc.chunks + [acc.current + "."], trimmed)
    else
      var w := WordLoop(Acc(acc.chunks, []), Split(trimmed, ' '), maxLength);
      Acc(w.chunks, if w.current != [] then w.current else acc.current)
  }

  function SentenceLoop(acc: Acc, sentences: seq<string>, maxLength: nat): Acc
    decreases |sentences|
  {
    if sentences == [] then acc
    else SentenceLoop(SentenceStep(acc, sentences[0], maxLength), sentences[1..], maxLength)
  }

  /** `xs.filter((s) => s.trim())`: keeps the strings that are not blank, in order. */
  function NonBlank(xs: seq<string>): (r: seq<string>)
    ensures forall i :: 0 <= i < |r| ==> !IsBlank(r[i])
    ensures forall x :: x in r ==> x in xs
    ensures Letters(Concat(r)) == Letters(Concat(xs))
  {
    if xs == [] then []
    else
      var rest := NonBlank(xs[1..]);
      LettersAppend(xs[0], Concat(xs[1..]));
      if IsBlank(xs[0]) then
        LettersOfBlank(xs[0]);
        rest
      else
        var r := [xs[0]] + rest;
        assert r[1..] == rest;
        LettersAppend(xs[0], Concat(rest));
        r
  }

  /** The sentences `splitText` iterates over. */
  function Sentences(text: string): seq<string> {
    NonBlank(SplitSentences(text))
  }

  /** `splitText(text, maxLength)`. */
  function SplitText(text: string, maxLength: nat): (r: seq<string>)
    ensures |text| <= maxLength ==> r == [text]
    ensures |text| > maxLength ==> forall i :: 0 <= i < |r| ==> !IsBlank(r[i])
  {
    if |text| <= maxLength then [text]
    else
      NonBlank(Close(SentenceLoop(Acc([], []), Sentences(text), maxLength)))
  }

  /** After the last sentence: the open chunk, if any, is closed with ".". */
  function Close(acc: Acc): seq<string> {
    if acc.current != [] then acc.chunks + [acc.current + "."] else acc.chunks
  }

  // ---------------------------------------------------------------------------
  // Shape of the chunks
  // ---------------------------------------------------------------------------

  /**
   * A chunk closed on the sentence path ends in "."; a word-fallback piece holds
   * no sentence terminator at all.
   */
  predicate ChunkShape(c: string) {
    (|c| > 0 && c[|c| - 1] == '.') || NoTerminator(c)
  }

  predicate Shaped(chunks: seq<string>) {
    forall i :: 0 <= i < |chunks| ==> ChunkShape(chunks[i])
  }

  lemma NoTerminatorAppend(a: string, b: string)
    requires NoTerminator(a) && NoTerminator(b)
    ensures NoTerminator(a + b)
  {
    assert forall i :: 0 <= i < |a + b| ==> (a + b)[i] == (if i < |a| then a[i] else b[i - |a|]);
  }

  lemma {:induction false} WordLoopShape(acc: Acc, words: seq<string>, maxLength: nat)
    requires Shaped(acc.chunks) && NoTerminator(acc.current)
    requires forall i :: 0 <= i < |words| ==> NoTerminator(words[i])
    ensures Shaped(WordLoop(acc, words, maxLength).chunks)
    ensures NoTerminator(WordLoop(acc, words, maxLength).current)
    decreases |words|
  {
    if words != [] {
      var next := WordStep(acc, words[0], maxLength);
      if |acc.current + words[0]| <= maxLength {
        NoTerminatorAppend(acc.current, if acc.current != [] then " " else []);
        NoTerminatorAppend(acc.current + (if acc.current != [] then " " else []), words[0]);
      }
      assert Shaped(next.chunks) && NoTerminator(next.current);
      WordLoopShape(next, words[1..], maxLength);
    }
  }

  /** `piece` is a run of consecutive words joined by single spaces. */
  predicate IsRun(piece: string, words: seq<string>) {
    exists i, j :: 0 <= i < j <= |words| && piece == Join(words[i..j], " ")
  }

  /** Every piece is a run of consecutive words. */
  predicate Runs(pieces: seq<string>, words: seq<string>) {
    forall p :: 0 <= p < |pieces| ==> IsRun(pieces[p], words)
  }

  /** The open word chunk after `k` words: empty, or the run of words ending at the `k`-th. */
  predicate OpenRun(current: string, words: seq<string>, k: nat) {
    k <= |words| && (current == [] || exists i :: 0 <= i < k && current == Join(words[i..k], " "))
  }

  /** The closed chunks are `prefix` followed by runs of `words`. */
  predicate RunsAfter(chunks: seq<string>, prefix: seq<string>, words: seq<string>) {
    |prefix| <= |chunks| && chunks[..|prefix|] == prefix && Runs(chunks[|prefix|..], words)
  }

  /** One word step keeps the closed pieces runs, and the open chunk a run ending at the word just read. */
  lemma WordStepRuns(prefix: seq<string>, acc: Acc, words: seq<string>, k: nat, maxLength: nat)
    requires k < |words|
    requires RunsAfter(acc.chunks, prefix, words) && OpenRun(acc.current, words, k)
    ensures var next := WordStep(acc, words[k], maxLength);
      RunsAfter(next.chunks, prefix, words) && OpenRun(next.current, words, k + 1)
  {
    var w := words[k];
    var next := WordStep(acc, w, maxLength);
    assert words[k..k + 1] == [w];
    if |acc.current + w| <= maxLength {
      if acc.current == [] {
        assert next.current == Join(words[k..k + 1], " ");
      } else {
        var i :| 0 <= i < k && acc.current == Join(words[i..k], " ");
        assert words[i..k + 1] == words[i..k] + [w];
        JoinSnoc(words[i..k], w, " ");
        assert next.current == Join(words[i..k + 1], " ");
      }
    } else if acc.current != [] {
      var i :| 0 <= i < k && acc.current == Join(words[i..k], " ");
      assert IsRun(acc.current, words);
      var n := |prefix|;
      assert next.chunks[n..] == acc.chunks[n..] + [acc.current];
      assert next.chunks[..n] == acc.chunks[..n];
      assert next.current == Join(words[k..k + 1], " ");
    }
  }

  lemma {:induction false} WordLoopRuns(prefix: seq<string>, acc: Acc, words: seq<string>, k: nat, maxLength: nat)
    requires k <= |words|
    requires RunsAfter(acc.chunks, prefix, words) && OpenRun(acc.current, words, k)
    ensures var r := WordLoop(acc, words[k..], maxLength);
      RunsAfter(r.chunks, prefix, words) && OpenRun(r.current, words, |words|)
    decreases |words| - k
  {
    if k < |words| {
      var next := WordStep(acc, words[k], maxLength);
      assert words[k..][1..] == words[k + 1..];
      WordStepRuns(prefix, acc, words, k, maxLength);
      WordLoopRuns(prefix, next, words, k + 1, maxLength);
    }
  }

  /**
   * The word fallback keeps the chunks closed before it and adds pieces that are
   * each a run of consecutive words joined by single spaces; what it leaves
   * open is empty or a run ending at the last word.
   */
  lemma WordFallbackRuns(chunks: seq<string>, words: seq<string>, maxLength: nat)
    ensures var r := WordLoop(Acc(chunks, []), words, maxLength);
      RunsAfter(r.chunks, chunks, words) && OpenRun(r.current, words, |words|)
  {
    assert words[0..] == words;
    assert chunks[..|chunks|] == chunks && chunks[|chunks|..] == [];
    WordLoopRuns(chunks, Acc(chunks, []), words, 0, maxLength);
  }

  /**
   * A sentence too long for an empty chunk is cut at spaces: the chunks closed
   * before it stay, each new piece is a run of its words joined by single
   * spaces, and what stays open is such a run ending at its last word.
   */
  lemma FallbackRuns(acc: Acc, trimmed: string, maxLength: nat)
    requires acc.current == [] && |trimmed| > maxLength
    ensures var words := Split(trimmed, ' ');
      var r := Place(acc, trimmed, maxLength);
      RunsAfter(r.chunks, acc.chunks, words) && OpenRun(r.current, words, |words|)
  {
    WordFallbackRuns(acc.chunks, Split(trimmed, ' '), maxLength);
  }

  /** Closing `current` with "." gives a chunk ending in ".". */
  lemma ClosedChunkShape(chunks: seq<string>, current: string)
    requires Shaped(chunks)
    ensures Shaped(chunks + [current + "."])
  {
    var c := current + ".";
    assert c[|c| - 1] == '.';
  }

  /** The word fallback over a sentence without terminators adds only pieces without terminators. */
  lemma FallbackShape(chunks: seq<string>, trimmed: string, maxLength: nat)
    requires Shaped(chunks) && NoTerminator(trimmed)
    ensures Shaped(WordLoop(Acc(chunks, []), Split(trimmed, ' '), maxLength).chunks)
  {
    SplitNoTerminator(trimmed, ' ');
    WordLoopShape(Acc(chunks, []), Split(trimmed, ' '), maxLength);
  }

  lemma SentenceStepShape(acc: Acc, sentence: string, maxLength: nat)
    requires Shaped(acc.chunks) && NoTerminator(sentence)
    ensures Shaped(SentenceStep(acc, sentence, maxLength).chunks)
  {
    var trimmed := Trim(sentence);
    if trimmed != [] {
      if |acc.current + trimmed| > maxLength {
        if acc.current != [] {
          ClosedChunkShape(acc.chunks, acc.current);
        } else {
          TrimNoTerminator(sentence);
          FallbackShape(acc.chunks, trimmed, maxLength);
        }
      }
    }
  }

  lemma {:induction false} SentenceLoopShape(acc: Acc, sentences: seq<string>, maxLength: nat)
    requires Shaped(acc.chunks)
    requires forall i :: 0 <= i < |sentences| ==> NoTerminator(sentences[i])
    ensures Shaped(SentenceLoop(acc, sentences, maxLength).chunks)
    decreases |sentences|
  {
    if sentences != [] {
      SentenceStepShape(acc, sentences[0], maxLength);
      SentenceLoopShape(SentenceStep(acc, sentences[0], maxLength), sentences[1..], maxLength);
    }
  }

  /** Every sentence `splitText` iterates over is free of terminators. */
  lemma SentencesHaveNoTerminator(text: string)
    ensures forall i :: 0 <= i < |Sentences(text)| ==> NoTerminator(Sentences(text)[i])
  {
    var sentences := Sentences(text);
    forall i | 0 <= i < |sentences|
      ensures NoTerminator(sentences[i])
    {
      assert sentences[i] in SplitSentences(text);
    }
  }

  /** Every chunk of a long text is one the sentence loop closed. */
  lemma ChunkOfLoop(text: string, maxLength: nat, c: string)
    requires |text| > maxLength && c in SplitText(text, maxLength)
    ensures c in Close(SentenceLoop(Acc([], []), Sentences(text), maxLength))
  {
  }

  /** Closing the open chunk with "." keeps every chunk shaped. */
  lemma CloseShaped(acc: Acc)
    requires Shaped(acc.chunks)
    ensures Shaped(Close(acc))
  {
    if acc.current != [] {
      var c := acc.current + ".";
      assert c[|c| - 1] == '.';
      assert ChunkShape(c);
    }
  }

  /** Every chunk of a long text either ends in "." or is a word-fallback piece without terminators. */
  lemma ChunksAreShaped(text: string, maxLength: nat)
    requires |text| > maxLength
    ensures forall c :: c in SplitText(text, maxLength) ==> ChunkShape(c)
  {
    var sentences := Sentences(text);
    SentencesHaveNoTerminator(text);
    SentenceLoopShape(Acc([], []), sentences, maxLength);
    var closed := Close(SentenceLoop(Acc([], []), sentences, maxLength));
    CloseShaped(SentenceLoop(Acc([], []), sentences, maxLength));
    forall c | c in SplitText(text, maxLength)
      ensures ChunkShape(c)
    {
      ChunkOfLoop(text, maxLength, c);
    }
  }

  // ---------------------------------------------------------------------------
  // Order and completeness: the chunks carry the text's letters, in order
  // ---------------------------------------------------------------------------

  /** The letters held by the loop state, closed chunks first. */
  function Carried(acc: Acc): string {
    Letters(Concat(acc.chunks) + acc.current)
  }

  /** Every word of every sentence is at most `maxLength` characters long. */
  predicate WordsFit(text: string, maxLength: nat) {
    forall s :: s in Sentences(text) ==> SentenceWordsFit(s, maxLength)
  }

  /** Every word of the trimmed sentence is at most `maxLength` characters long. */
  predicate SentenceWordsFit(sentence: string, maxLength: nat) {
    forall w :: w in Split(Trim(sentence), ' ') ==> |w| <= maxLength
  }

  lemma LettersOfSep(sep: string)
    requires sep == " " || sep == ". " || sep == "." || sep == []
    ensures Letters(sep) == []
  {
    if sep != [] {
      assert sep[1..] == [] || sep[1..] == " ";
      assert " "[1..] == [];
    }
  }

  /** A separator without letters adds none at the end of a string. */
  lemma LettersDropSep(v: string, sep: string)
    requires Letters(sep) == []
    ensures Letters(v + sep) == Letters(v)
  {
    LettersAppend(v, sep);
  }

  /** A separator without letters between two strings adds none. */
  lemma LettersAroundSep(w: string, sep: string, v: string)
    requires Letters(sep) == []
    ensures Letters(w + sep + v) == Letters(w) + Letters(v)
  {
    LettersAppend(w + sep, v);
    LettersDropSep(w, sep);
  }

  lemma Regroup(a: string, b: string, d: string)
    ensures a + (b + d) == (a + b) + d
  {
  }

  /** Appending `sep + x` to an open chunk, where `sep` holds no letters, adds the letters of `x`. */
  lemma ExtendLetters(chunks: seq<string>, current: string, sep: string, x: string)
    requires Letters(sep) == []
    ensures Carried(Acc(chunks, current + sep + x)) == Carried(Acc(chunks, current)) + Letters(x)
  {
    var c := Concat(chunks);
    LettersAppend(c, current + sep + x);
    LettersAroundSep(current, sep, x);
    LettersAppend(c, current);
    Regroup(Letters(c), Letters(current), Letters(x));
  }

  /** Closing the open chunk as `current + tail`, where `tail` holds no letters, and opening `x`. */
  lemma CloseLetters(chunks: seq<string>, current: string, tail: string, x: string)
    requires Letters(tail) == []
    ensures Carried(Acc(chunks + [current + tail], x)) == Carried(Acc(chunks, current)) + Letters(x)
  {
    var c := Concat(chunks);
    LettersAppend(Concat(chunks + [current + tail]), x);
    LettersConcatSnoc(chunks, current + tail);
    LettersDropSep(current, tail);
    LettersAppend(c, current);
  }

  /** A word that fits, or arrives while a chunk is open, adds exactly its letters. */
  lemma WordStepLetters(acc: Acc, word: string, maxLength: nat)
    requires |word| <= maxLength || acc.current != []
    ensures Carried(WordStep(acc, word, maxLength)) == Carried(acc) + Letters(word)
  {
    if |acc.current + word| <= maxLength {
      var sep: string := if acc.current != [] then " " else [];
      LettersOfSep(sep);
      ExtendLetters(acc.chunks, acc.current, sep, word);
    } else {
      LettersOfSep([]);
      CloseLetters(acc.chunks, acc.current, [], word);
      assert acc.current + [] == acc.current;
    }
  }

  lemma {:induction false} WordLoopLetters(acc: Acc, words: seq<string>, maxLength: nat)
    requires forall w :: w in words ==> |w| <= maxLength
    ensures Carried(WordLoop(acc, words, maxLength)) == Carried(acc) + Letters(Concat(words))
    decreases |words|
  {
    if words != [] {
      var next := WordStep(acc, words[0], maxLength);
      assert words[0] in words;
      WordStepLetters(acc, words[0], maxLength);
      WordLoopLetters(next, words[1..], maxLength);
      LettersCons(words);
      var last := WordLoop(next, words[1..], maxLength);
      assert WordLoop(acc, words, maxLength) == last;
      Chain(Carried(last), Carried(next), Carried(acc), Letters(words[0]), Letters(Concat(words[1..])), Letters(Concat(words)));
    }
  }

  lemma SentenceStepLetters(acc: Acc, sentence: string, maxLength: nat)
    requires SentenceWordsFit(sentence, maxLength)
    ensures Carried(SentenceStep(acc, sentence, maxLength)) == Carried(acc) + Letters(sentence)
  {
    var trimmed := Trim(sentence);
    if trimmed == [] {
      BlankSentenceLetters(acc, sentence, maxLength);
    } else {
      PlaceLetters(acc, trimmed, maxLength);
      LettersOfTrim(sentence);
    }
  }

  lemma PlaceLetters(acc: Acc, trimmed: string, maxLength: nat)
    requires forall w :: w in Split(trimmed, ' ') ==> |w| <= maxLength
    ensures Carried(Place(acc, trimmed, maxLength)) == Carried(acc) + Letters(trimmed)
  {
    if |acc.current + trimmed| <= maxLength {
      var sep: string := if acc.current != [] then ". " else [];
      LettersOfSep(sep);
      ExtendLetters(acc.chunks, acc.current, sep, trimmed);
    } else if acc.current != [] {
      LettersOfSep(".");
      CloseLetters(acc.chunks, acc.current, ".", trimmed);
    } else {
      WordFallbackLetters(acc, trimmed, maxLength);
    }
  }

  lemma BlankSentenceLetters(acc: Acc, sentence: string, maxLength: nat)
    requires Trim(sentence) == []
    ensures Carried(SentenceStep(acc, sentence, maxLength)) == Carried(acc) + Letters(sentence)
  {
    LettersOfTrim(sentence);
  }

  lemma WordFallbackLetters(acc: Acc, trimmed: string, maxLength: nat)
    requires acc.current == []
    requires forall w :: w in Split(trimmed, ' ') ==> |w| <= maxLength
    ensures var w := WordLoop(Acc(acc.chunks, []), Split(trimmed, ' '), maxLength);
      Carried(Acc(w.chunks, if w.current != [] then w.current else acc.current)) == Carried(acc) + Letters(trimmed)
  {
    var words := Split(trimmed, ' ');
    WordLoopLetters(Acc(acc.chunks, []), words, maxLength);
    LettersOfWords(trimmed);
  }

  lemma {:induction false} SentenceLoopLetters(acc: Acc, sentences: seq<string>, maxLength: nat)
    requires forall s :: s in sentences ==> SentenceWordsFit(s, maxLength)
    ensures Carried(SentenceLoop(acc, sentences, maxLength)) == Carried(acc) + Letters(Concat(sentences))
    decreases |sentences|
  {
    if sentences != [] {
      var next := SentenceStep(acc, sentences[0], maxLength);
      assert sentences[0] in sentences;
      SentenceStepLetters(acc, sentences[0], maxLength);
      SentenceLoopLetters(next, sentences[1..], maxLength);
      LettersCons(sentences);
      var last := SentenceLoop(next, sentences[1..], maxLength);
      assert SentenceLoop(acc, sentences, maxLength) == last;
      Chain(Carried(last), Carried(next), Carried(acc), Letters(sentences[0]), Letters(Concat(sentences[1..])), Letters(Concat(sentences)));
    }
  }

  /** Associativity of letter bookkeeping: `x = y + b` and `y = z + a` give `x = z + (a + b)`. */
  lemma Chain(x: string, y: string, z: string, a: string, b: string, c: string)
    requires x == y + b && y == z + a && c == a + b
    ensures x == z + c
  {
  }

  /** The letters of a list of strings: those of its head, then those of its tail. */
  lemma LettersCons(xs: seq<string>)
    requires xs != []
    ensures Letters(Concat(xs)) == Letters(xs[0]) + Letters(Concat(xs[1..]))
  {
    LettersAppend(xs[0], Concat(xs[1..]));
  }

  /** Closing the loop state keeps exactly the letters it carries. */
  lemma CloseKeepsLetters(acc: Acc)
    ensures Letters(Concat(Close(acc))) == Carried(acc)
  {
    if acc.current != [] {
      LettersConcatSnoc(acc.chunks, acc.current + ".");
      LettersOfSep(".");
      LettersDropSep(acc.current, ".");
    } else {
      assert Concat(acc.chunks) + acc.current == Concat(acc.chunks);
    }
    LettersAppend(Concat(acc.chunks), acc.current);
  }

  /** The letters of the chunks of a long text, through the sentence loop. */
  lemma LongTextLetters(text: string, maxLength: nat)
    requires |text| > maxLength && WordsFit(text, maxLength)
    ensures Letters(Concat(SplitText(text, maxLength))) == Letters(text)
  {
    var sentences := Sentences(text);
    LettersOfSentences(text);
    SentenceLoopLetters(Acc([], []), sentences, maxLength);
    var acc := SentenceLoop(Acc([], []), sentences, maxLength);
    CloseKeepsLetters(acc);
    assert Carried(Acc([], [])) == [];
    calc {
      Letters(Concat(SplitText(text, maxLength)));
      Letters(Concat(NonBlank(Close(acc))));
      Letters(Concat(Close(acc)));
      Carried(acc);
      Letters(Concat(sentences));
      Letters(Concat(SplitSentences(text)));
      Letters(text);
    }
  }

  /**
   * When no word is longer than `maxLength`, the chunks hold exactly the letters of
   * the text, in source order: sentence order is kept, nothing is placed twice and
   * nothing is lost; only whitespace and terminators change.
   */
  lemma SplitTextKeepsLetters(text: string, maxLength: nat)
    requires WordsFit(text, maxLength)
    ensures Letters(Concat(SplitText(text, maxLength))) == Letters(text)
  {
    if |text| <= maxLength {
      ConcatSingle(text);
    } else {
      LongTextLetters(text, maxLength);
    }
  }

  // ---------------------------------------------------------------------------
  // Length of the chunks
  // ---------------------------------------------------------------------------

  /** Every trimmed sentence of the text is at most `maxLength` characters long. */
  predicate SentencesFit(text: string, maxLength: nat) {
    forall s :: s in Sentences(text) ==> |Trim(s)| <= maxLength
  }

  /** The open chunk is at most two over the limit and every closed chunk at most three over. */
  predicate Bounded(acc: Acc, maxLength: nat) {
    && |acc.current| <= maxLength + 2
    && forall i :: 0 <= i < |acc.chunks| ==> |acc.chunks[i]| <= maxLength + 3
  }

  lemma {:induction false} SentenceLoopBounded(acc: Acc, sentences: seq<string>, maxLength: nat)
    requires Bounded(acc, maxLength)
    requires forall s :: s in sentences ==> |Trim(s)| <= maxLength
    ensures Bounded(SentenceLoop(acc, sentences, maxLength), maxLength)
    decreases |sentences|
  {
    if sentences != [] {
      assert sentences[0] in sentences;
      SentenceStepBounded(acc, sentences[0], maxLength);
      SentenceLoopBounded(SentenceStep(acc, sentences[0], maxLength), sentences[1..], maxLength);
    }
  }

  /** A sentence that fits never reaches the word fallback, and joining or closing stays within the bound. */
  lemma SentenceStepBounded(acc: Acc, sentence: string, maxLength: nat)
    requires Bounded(acc, maxLength) && |Trim(sentence)| <= maxLength
    ensures Bounded(SentenceStep(acc, sentence, maxLength), maxLength)
  {
  }

  /** Closing a bounded state leaves every chunk at most three over the limit. */
  lemma CloseBounded(acc: Acc, maxLength: nat)
    requires Bounded(acc, maxLength)
    ensures forall i :: 0 <= i < |Close(acc)| ==> |Close(acc)[i]| <= maxLength + 3
  {
  }

  /**
   * When every sentence fits, no chunk is longer than `maxLength + 3`: the fit test
   * ignores the ". " separator and the closing ".", so the limit itself is not kept.
   */
  lemma ChunkLengthBound(text: string, maxLength: nat)
    requires SentencesFit(text, maxLength)
    ensures forall c :: c in SplitText(text, maxLength) ==> |c| <= maxLength + 3
  {
    if |text| > maxLength {
      var sentences := Sentences(text);
      SentenceLoopBounded(Acc([], []), sentences, maxLength);
      var closed := Close(SentenceLoop(Acc([], []), sentences, maxLength));
      CloseBounded(SentenceLoop(Acc([], []), sentences, maxLength), maxLength);
      forall c | c in SplitText(text, maxLength)
        ensures |c| <= maxLength + 3
      {
        ChunkOfLoop(text, maxLength, c);
      }
    }
  }

  /** A non-empty piece of text with no terminator that trimming leaves alone. */
  predicate Clean(s: string) {
    s != [] && NoTerminator(s) && !IsWhite(s[0]) && !IsWhite(s[|s| - 1])
  }

  /** `NonBlank` keeps a list none of whose strings is blank. */
  lemma {:induction false} NonBlankKeeps(xs: seq<string>)
    requires forall i :: 0 <= i < |xs| ==> !IsBlank(xs[i])
    ensures NonBlank(xs) == xs
  {
    if xs != [] {
      NonBlankKeeps(xs[1..]);
      assert [xs[0]] + xs[1..] == xs;
    }
  }

  /** Two clean sentences joined by one terminator are read back as exactly those two sentences. */
  lemma TwoSentences(a: string, b: string)
    requires Clean(a) && Clean(b)
    ensures Sentences(a + "." + b) == [a, b]
  {
    SplitTwo(a, b);
    assert !IsBlank(a) && !IsBlank(b);
    NonBlankKeeps([a, b]);
  }

  /** The terminator between two clean sentences is the only split point. */
  lemma SplitTwo(a: string, b: string)
    requires Clean(a) && Clean(b)
    ensures SplitSentences(a + "." + b) == [a, b]
  {
    assert a + "." + b == a + ['.'] + b;
    assert !IsTerminator(b[0]);
    SentencesOfCons(a, '.', b);
    SentencesOfPlain(b);
    assert [a] + [b] == [a, b];
  }

  /** The loop over two sentences is two steps. */
  lemma LoopOfTwo(acc: Acc, a: string, b: string, maxLength: nat)
    ensures SentenceLoop(acc, [a, b], maxLength) == SentenceStep(SentenceStep(acc, a, maxLength), b, maxLength)
  {
    assert [a, b][1..] == [b];
    assert [b][1..] == [];
    var first := SentenceStep(acc, a, maxLength);
    assert SentenceLoop(acc, [a, b], maxLength) == SentenceLoop(first, [b], maxLength);
    assert SentenceLoop(first, [b], maxLength) == SentenceLoop(SentenceStep(first, b, maxLength), [], maxLength);
  }

  /** Trimming leaves a clean sentence alone, so the step places it as it is. */
  lemma StepOfClean(acc: Acc, a: string, maxLength: nat)
    requires Clean(a)
    ensures SentenceStep(acc, a, maxLength) == Place(acc, a, maxLength)
  {
    TrimNoop(a);
  }

  /** With no chunk open, a sentence whose trimmed text fits opens the chunk with that text, without a separator. */
  lemma FirstStep(chunks: seq<string>, sentence: string, maxLength: nat)
    requires Trim(sentence) != [] && |Trim(sentence)| <= maxLength
    ensures SentenceStep(Acc(chunks, []), sentence, maxLength) == Acc(chunks, Trim(sentence))
  {
    var t := Trim(sentence);
    StepPlaces(Acc(chunks, []), sentence, maxLength);
    assert [] + [] + t == t;
  }

  /** A sentence that is not blank is placed by its trimmed text. */
  lemma StepPlaces(acc: Acc, sentence: string, maxLength: nat)
    requires Trim(sentence) != []
    ensures SentenceStep(acc, sentence, maxLength) == Place(acc, Trim(sentence), maxLength)
  {
  }

  /**
   * A sentence whose trimmed text fits beside the open chunk is joined to it
   * with ". ", whatever chunks are already closed.
   */
  lemma JoinStep(chunks: seq<string>, current: string, sentence: string, maxLength: nat)
    requires current != [] && Trim(sentence) != [] && |current| + |Trim(sentence)| <= maxLength
    ensures SentenceStep(Acc(chunks, current), sentence, maxLength) == Acc(chunks, current + ". " + Trim(sentence))
  {
    StepPlaces(Acc(chunks, current), sentence, maxLength);
  }

  /** A sentence whose trimmed text does not fit beside the open chunk closes it with "." and opens the next. */
  lemma CloseStep(chunks: seq<string>, current: string, sentence: string, maxLength: nat)
    requires current != [] && Trim(sentence) != [] && |current| + |Trim(sentence)| > maxLength
    ensures SentenceStep(Acc(chunks, current), sentence, maxLength) == Acc(chunks + [current + "."], Trim(sentence))
  {
    StepPlaces(Acc(chunks, current), sentence, maxLength);
  }

  /** A clean first sentence that fits opens the first chunk as it is. */
  lemma CleanFirst(a: string, maxLength: nat)
    requires Clean(a) && |a| <= maxLength
    ensures SentenceStep(Acc([], []), a, maxLength) == Acc([], a)
  {
    TrimNoop(a);
    FirstStep([], a, maxLength);
  }

  /** A clean sentence that does not fit beside the open chunk closes it and opens the next chunk as it is. */
  lemma CleanClose(a: string, b: string, maxLength: nat)
    requires a != [] && Clean(b) && |a| + |b| > maxLength
    ensures SentenceStep(Acc([], a), b, maxLength) == Acc([a + "."], b)
  {
    TrimNoop(b);
    CloseStep([], a, b, maxLength);
    assert [] + [a + "."] == [a + "."];
  }

  /** The sentence loop over two clean sentences that fit together joins them with ". ". */
  lemma JoinedLoop(a: string, b: string, maxLength: nat)
    requires Clean(a) && Clean(b) && |a| + |b| <= maxLength
    ensures SentenceLoop(Acc([], []), Sentences(a + "." + b), maxLength) == Acc([], a + ". " + b)
  {
    TwoSentences(a, b);
    LoopOfTwo(Acc([], []), a, b, maxLength);
    CleanFirst(a, maxLength);
    assert SentenceStep(Acc([], a), b, maxLength) == Acc([], a + ". " + b) by {
      TrimNoop(b);
      JoinStep([], a, b, maxLength);
    }
  }

  /**
   * The fit test ignores the ". " separator and the closing ".": two sentences whose
   * lengths add up to the limit share one chunk three characters over it.
   */
  lemma SeparatorNotCounted(a: string, b: string, maxLength: nat)
    requires Clean(a) && Clean(b) && maxLength == |a| + |b|
    ensures SplitText(a + "." + b, maxLength) == [a + ". " + b + "."]
    ensures |a + ". " + b + "."| == maxLength + 3
  {
    var acc := Acc([], a + ". " + b);
    JoinedLoop(a, b, maxLength);
    assert Close(acc) == [a + ". " + b + "."];
    assert (a + ". " + b + ".")[0] == a[0];
    SplitTextOfLoop(a + "." + b, maxLength, acc);
  }

  /** When the sentence loop ends in `acc` and no closed chunk is blank, those chunks are the result. */
  lemma SplitTextOfLoop(text: string, maxLength: nat, acc: Acc)
    requires |text| > maxLength
    requires SentenceLoop(Acc([], []), Sentences(text), maxLength) == acc
    requires forall i :: 0 <= i < |Close(acc)| ==> !IsBlank(Close(acc)[i])
    ensures SplitText(text, maxLength) == Close(acc)
  {
    NonBlankKeeps(Close(acc));
  }

  /** The sentence loop over two clean sentences that do not fit together closes the first. */
  lemma SeparateLoop(a: string, b: string, maxLength: nat)
    requires Clean(a) && Clean(b) && |a| <= maxLength < |a| + |b|
    ensures SentenceLoop(Acc([], []), Sentences(a + "." + b), maxLength) == Acc([a + "."], b)
  {
    TwoSentences(a, b);
    LoopOfTwo(Acc([], []), a, b, maxLength);
    CleanFirst(a, maxLength);
    CleanClose(a, b, maxLength);
  }

  /** A sentence too long to join the open chunk becomes the next chunk whole, whatever its length. */
  lemma LongSentenceKeptWhole(a: string, b: string, maxLength: nat)
    requires Clean(a) && Clean(b) && |a| <= maxLength < |a| + |b|
    ensures SplitText(a + "." + b, maxLength) == [a + ".", b + "."]
  {
    SeparateLoop(a, b, maxLength);
    CloseSeparate(a, b);
    SplitTextOfLoop(a + "." + b, maxLength, Acc([a + "."], b));
  }

  /** Closing a first chunk and an open clean sentence gives two non-blank chunks. */
  lemma CloseSeparate(a: string, b: string)
    requires Clean(a) && Clean(b)
    ensures Close(Acc([a + "."], b)) == [a + ".", b + "."]
    ensures forall i :: 0 <= i < 2 ==> !IsBlank([a + ".", b + "."][i])
  {
    ClosedNotBlank(a);
    ClosedNotBlank(b);
  }

  /** A clean sentence with its "." is not blank. */
  lemma ClosedNotBlank(a: string)
    requires Clean(a)
    ensures !IsBlank(a + ".")
  {
    assert (a + ".")[0] == a[0];
  }

  /** The word loop over two words is two steps. */
  lemma WordLoopOfTwo(acc: Acc, w: string, v: string, maxLength: nat)
    ensures WordLoop(acc, [w, v], maxLength) == WordStep(WordStep(acc, w, maxLength), v, maxLength)
  {
    assert [w, v][1..] == [v];
    assert [v][1..] == [];
    var first := WordStep(acc, w, maxLength);
    assert WordLoop(acc, [w, v], maxLength) == WordLoop(first, [v], maxLength);
    assert WordLoop(first, [v], maxLength) == WordLoop(WordStep(first, v, maxLength), [], maxLength);
  }

  /** Two words of a clean text: the text is one sentence, trimming keeps it, and it splits into the two words. */
  lemma TwoWords(w: string, v: string)
    requires Clean(w) && Clean(v) && ' ' !in w && ' ' !in v
    ensures Sentences(w + " " + v) == [w + " " + v]
    ensures Trim(w + " " + v) == w + " " + v
    ensures Split(w + " " + v, ' ') == [w, v]
  {
    CleanWords(w, v);
    OneSentence(w + " " + v);
    assert w + " " + v == w + [' '] + v;
    SplitCons(w, ' ', v);
    SplitPlain(v, ' ');
  }

  /** Two clean words joined by a space make a clean text. */
  lemma CleanWords(w: string, v: string)
    requires Clean(w) && Clean(v)
    ensures Clean(w + " " + v)
  {
    assert NoTerminator(" ") by {
      assert forall i :: 0 <= i < |" "| ==> " "[i] == ' ';
    }
    NoTerminatorAppend(w, " ");
    NoTerminatorAppend(w + " ", v);
    var text := w + " " + v;
    assert text[0] == w[0] && text[|text| - 1] == v[|v| - 1];
  }

  /** A clean text is one sentence, and trimming keeps it. */
  lemma OneSentence(text: string)
    requires Clean(text)
    ensures Sentences(text) == [text]
    ensures Trim(text) == text
  {
    SentencesOfPlain(text);
    assert !IsBlank(text);
    NonBlankKeeps([text]);
    TrimNoop(text);
  }

  /** The sentence loop over the two-word text drops the long word and keeps the short one open. */
  lemma LongWordLoop(w: string, v: string, maxLength: nat)
    requires Clean(w) && Clean(v) && ' ' !in w && ' ' !in v
    requires |v| <= maxLength < |w|
    ensures SentenceLoop(Acc([], []), Sentences(w + " " + v), maxLength) == Acc([], v)
  {
    var text := w + " " + v;
    TwoWords(w, v);
    assert WordLoop(Acc([], []), [w, v], maxLength) == Acc([], v) by {
      WordLoopOfTwo(Acc([], []), w, v, maxLength);
      assert WordStep(Acc([], []), w, maxLength) == Acc([], []);
      assert [] + [] + v == v;
    }
    assert [text][1..] == [];
    assert SentenceStep(Acc([], []), text, maxLength) == Acc([], v);
  }

  /**
   * A word longer than the limit that arrives when no chunk is open is dropped, so
   * without the word bound the letters of the text are not kept.
   */
  lemma LongWordDropped(w: string, v: string, maxLength: nat)
    requires Clean(w) && Clean(v) && ' ' !in w && ' ' !in v
    requires |v| <= maxLength < |w|
    ensures SplitText(w + " " + v, maxLength) == [v + "."]
    ensures Letters(Concat(SplitText(w + " " + v, maxLength))) != Letters(w + " " + v)
  {
    LongWordLoop(w, v, maxLength);
    assert Close(Acc([], v)) == [v + "."];
    assert (v + ".")[0] == v[0];
    SplitTextOfLoop(w + " " + v, maxLength, Acc([], v));
    LostLetters(w, v);
  }

  lemma LostLetters(w: string, v: string)
    requires Clean(w)
    ensures Letters(Concat([v + "."])) != Letters(w + " " + v)
  {
    ConcatSingle(v + ".");
    LettersOfSep(".");
    LettersDropSep(v, ".");
    LettersOfSep(" ");
    LettersAroundSep(w, " ", v);
    LettersOfClean(w);
    assert |Letters(w) + Letters(v)| > |Letters(v)|;
  }

  lemma ConcatSingle(x: string)
    ensures Concat([x]) == x
  {
    assert [x][1..] == [];
  }

  /** A clean string holds a letter: its first character. */
  lemma LettersOfClean(w: string)
    requires Clean(w)
    ensures Letters(w) != []
  {
    assert Letters(w) == [w[0]] + Letters(w[1..]);
  }

}
