/**
 * String helpers with the exact JavaScript semantics the chunker relies on:
 * `String.prototype.trim`, `split(" ")` and `split(/[.!?]+/)`, and the
 * `\s` character class.
 */
module Text {

  /** ECMAScript LineTerminator code points. */
  predicate IsLineTerminator(c: char) {
    c == '\n' || c == '\r' || c == '\U{2028}' || c == '\U{2029}'
  }

  /** ECMAScript WhiteSpace and LineTerminator code points: what `trim()` strips and `\s` matches. */
  predicate IsWhite(c: char) {
    || c == '\t' || c == '\U{000B}' || c == '\U{000C}' || c == ' ' || c == '\U{00A0}' || c == '\U{FEFF}'
    || c == '\U{1680}' || ('\U{2000}' <= c <= '\U{200A}') || c == '\U{202F}' || c == '\U{205F}' || c == '\U{3000}'
    || IsLineTerminator(c)
  }

  /** The sentence terminators of the pattern `/[.!?]+/`. */
  predicate IsTerminator(c: char) {
    c == '.' || c == '!' || c == '?'
  }

  /** A string `trim()` turns into the empty string (JavaScript's falsy `s.trim()`). */
  predicate IsBlank(s: string) {
    forall i :: 0 <= i < |s| ==> IsWhite(s[i])
  }

  predicate NoTerminator(s: string) {
    forall i :: 0 <= i < |s| ==> !IsTerminator(s[i])
  }

  /** `s.trimStart()`: drops the leading whitespace and nothing else. */
  function TrimStart(s: string): (r: string)
    ensures |r| <= |s| && r == s[|s| - |r|..]
    ensures forall i :: 0 <= i < |s| - |r| ==> IsWhite(s[i])
    ensures r == [] || !IsWhite(r[0])
  {
    if |s| > 0 && IsWhite(s[0]) then TrimStart(s[1..]) else s
  }

  /** `s.trimEnd()`: drops the trailing whitespace and nothing else. */
  function TrimEnd(s: string): (r: string)
    ensures |r| <= |s| && r == s[..|r|]
    ensures forall i :: |r| <= i < |s| ==> IsWhite(s[i])
    ensures r == [] || !IsWhite(r[|r| - 1])
  {
    if |s| > 0 && IsWhite(s[|s| - 1]) then TrimEnd(s[..|s| - 1]) else s
  }

  /** `s.trim()`: empty exactly for a blank string, and otherwise starts and ends with non-whitespace. */
  function Trim(s: string): (r: string)
    ensures r == [] <==> IsBlank(s)
    ensures r == [] || (!IsWhite(r[0]) && !IsWhite(r[|r| - 1]))
  {
    var t := TrimStart(s);
    var r := TrimEnd(t);
    assert t != [] ==> !IsWhite(s[|s| - |t|]) && r != [];
    r
  }

  /** Concatenation of a list of strings. */
  function Concat(xs: seq<string>): string {
    if xs == [] then [] else xs[0] + Concat(xs[1..])
  }

  /** `parts.join(sep)`. */
  function Join(parts: seq<string>, sep: string): string {
    if |parts| == 0 then []
    else if |parts| == 1 then parts[0]
    else parts[0] + sep + Join(parts[1..], sep)
  }

  /** `s.split(sep)` for a one-character separator. */
  function Split(s: string, sep: char): (r: seq<string>)
    ensures |r| >= 1
    ensures forall i :: 0 <= i < |r| ==> sep !in r[i]
  {
    if s == [] then [[]]
    else
      var rest := Split(s[1..], sep);
      if s[0] == sep then [[]] + rest
      else [[s[0]] + rest[0]] + rest[1..]
  }

  /** Strips a leading run of sentence terminators. */
  function DropRun(s: string): (r: string)
    ensures |r| <= |s| && r == s[|s| - |r|..]
    ensures forall i :: 0 <= i < |s| - |r| ==> IsTerminator(s[i])
    ensures r == [] || !IsTerminator(r[0])
  {
    if |s| > 0 && IsTerminator(s[0]) then DropRun(s[1..]) else s
  }

  /**
   * `s.split(/[.!?]+/)`: the text between maximal runs of terminators, leading and
   * trailing empty pieces included. No piece holds a terminator.
   */
  function SplitSentences(s: string): (r: seq<string>)
    decreases |s|
    ensures |r| >= 1
    ensures forall i :: 0 <= i < |r| ==> NoTerminator(r[i])
  {
    if s == [] then [[]]
    else if IsTerminator(s[0]) then [[]] + SplitSentences(DropRun(s))
    else
      var rest := SplitSentences(s[1..]);
      [[s[0]] + rest[0]] + rest[1..]
  }

  /**
   * The characters of `s` that carry text: everything except whitespace and
   * sentence terminators. The chunker may only add or drop these separators.
   */
  function Letters(s: string): string {
    if s == [] then [] else (if IsWhite(s[0]) || IsTerminator(s[0]) then [] else [s[0]]) + Letters(s[1..])
  }

  // ---------------------------------------------------------------------------
  // Round trips and letter bookkeeping
  // ---------------------------------------------------------------------------

  /** Joining the pieces of `s.split(sep)` with `sep` gives back `s`. */
  /** Joining one more part adds the separator and the part at the end. */
  lemma {:induction false} JoinSnoc(parts: seq<string>, last: string, sep: string)
    requires parts != []
    ensures Join(parts + [last], sep) == Join(parts, sep) + sep + last
    decreases |parts|
  {
    if |parts| > 1 {
      assert (parts + [last])[1..] == parts[1..] + [last];
      JoinSnoc(parts[1..], last, sep);
    } else {
      assert parts + [last] == [parts[0], last];
      assert [parts[0], last][1..] == [last];
    }
  }

  lemma {:induction false} SplitJoin(s: string, sep: char)
    ensures Join(Split(s, sep), [sep]) == s
    decreases |s|
  {
    if s != [] {
      var rest := Split(s[1..], sep);
      SplitJoin(s[1..], sep);
      if s[0] == sep {
        assert ([[]] + rest)[1..] == rest;
        assert s == [sep] + s[1..];
      } else {
        var r := [[s[0]] + rest[0]] + rest[1..];
        assert r[1..] == rest[1..];
        assert s == [s[0]] + s[1..];
      }
    }
  }

  /** The pieces of a terminator-free string are terminator-free. */
  lemma {:induction false} SplitNoTerminator(s: string, sep: char)
    requires NoTerminator(s)
    ensures forall i :: 0 <= i < |Split(s, sep)| ==> NoTerminator(Split(s, sep)[i])
    decreases |s|
  {
    if s != [] {
      assert NoTerminator(s[1..]);
      SplitNoTerminator(s[1..], sep);
      var rest := Split(s[1..], sep);
      if s[0] != sep {
        var r := [[s[0]] + rest[0]] + rest[1..];
        assert r[0] == [s[0]] + rest[0];
        assert forall i :: 1 <= i < |r| ==> r[i] == rest[i];
      } else {
        assert forall i :: 1 <= i < |[[]] + rest| ==> ([[]] + rest)[i] == rest[i - 1];
      }
    }
  }

  /** Trimming a terminator-free string leaves it terminator-free. */
  lemma TrimNoTerminator(s: string)
    requires NoTerminator(s)
    ensures NoTerminator(Trim(s))
  {
    SuffixNoTerminator(s, |s| - |TrimStart(s)|);
    PrefixNoTerminator(TrimStart(s), |Trim(s)|);
  }

  lemma SuffixNoTerminator(s: string, k: nat)
    requires NoTerminator(s) && k <= |s|
    ensures NoTerminator(s[k..])
  {
    assert forall i :: 0 <= i < |s| - k ==> s[k..][i] == s[k + i];
  }

  lemma PrefixNoTerminator(s: string, k: nat)
    requires NoTerminator(s) && k <= |s|
    ensures NoTerminator(s[..k])
  {
    assert forall i :: 0 <= i < k ==> s[..k][i] == s[i];
  }

  lemma {:induction false} LettersAppend(a: string, b: string)
    ensures Letters(a + b) == Letters(a) + Letters(b)
  {
    if a != [] {
      assert (a + b)[1..] == a[1..] + b;
      LettersAppend(a[1..], b);
    } else {
      assert a + b == b;
    }
  }

  lemma {:induction false} LettersOfBlank(s: string)
    requires IsBlank(s)
    ensures Letters(s) == []
  {
    if s != [] {
      assert IsBlank(s[1..]);
      LettersOfBlank(s[1..]);
    }
  }

  /** Trimming never removes a letter. */
  lemma LettersOfTrim(s: string)
    ensures Letters(Trim(s)) == Letters(s)
  {
    LettersOfTrimStart(s);
    LettersOfTrimEnd(TrimStart(s));
  }

  lemma {:induction false} LettersOfTrimStart(s: string)
    ensures Letters(TrimStart(s)) == Letters(s)
  {
    if |s| > 0 && IsWhite(s[0]) {
      LettersOfTrimStart(s[1..]);
    }
  }

  lemma LettersOfTrimEnd(t: string)
    ensures Letters(TrimEnd(t)) == Letters(t)
  {
    var r := TrimEnd(t);
    var back := t[|r|..];
    assert t == r + back;
    assert IsBlank(back) by {
      assert forall i :: 0 <= i < |back| ==> back[i] == t[|r| + i];
    }
    LettersAppend(r, back);
    LettersOfBlank(back);
  }

  lemma {:induction false} LettersOfDropRun(s: string)
    ensures Letters(DropRun(s)) == Letters(s)
    decreases |s|
  {
    if |s| > 0 && IsTerminator(s[0]) {
      LettersOfDropRun(s[1..]);
    }
  }

  /** The sentences of `s` together hold every letter of `s`, in order. */
  lemma {:induction false} LettersOfSentences(s: string)
    ensures Letters(Concat(SplitSentences(s))) == Letters(s)
    decreases |s|
  {
    if s == [] {
    } else if IsTerminator(s[0]) {
      var rest := SplitSentences(DropRun(s));
      LettersOfSentences(DropRun(s));
      LettersOfDropRun(s);
      assert ([[]] + rest)[1..] == rest;
      assert Concat([[]] + rest) == Concat(rest);
    } else {
      var rest := SplitSentences(s[1..]);
      LettersOfSentences(s[1..]);
      var r := [[s[0]] + rest[0]] + rest[1..];
      assert r[1..] == rest[1..];
      assert Concat(rest) == rest[0] + Concat(rest[1..]);
      assert Concat(r) == [s[0]] + Concat(rest);
      assert ([s[0]] + Concat(rest))[1..] == Concat(rest);
    }
  }

  lemma {:induction false} ConcatAppend(a: seq<string>, b: seq<string>)
    ensures Concat(a + b) == Concat(a) + Concat(b)
  {
    if a != [] {
      assert (a + b)[1..] == a[1..] + b;
      ConcatAppend(a[1..], b);
    } else {
      assert a + b == b;
    }
  }

  /** Letters of a concatenation, pushed through one appended element. */
  lemma LettersConcatSnoc(xs: seq<string>, x: string)
    ensures Letters(Concat(xs + [x])) == Letters(Concat(xs)) + Letters(x)
  {
    ConcatAppend(xs, [x]);
    assert [x][1..] == [];
    assert Concat([x]) == x;
    LettersAppend(Concat(xs), x);
  }

  /** Joining with a separator that holds no letters keeps exactly the letters of the parts. */
  lemma {:induction false} LettersOfJoin(parts: seq<string>, sep: string)
    requires Letters(sep) == []
    ensures Letters(Join(parts, sep)) == Letters(Concat(parts))
  {
    if |parts| == 1 {
      assert parts[1..] == [];
      assert Concat(parts) == parts[0];
    } else if |parts| > 1 {
      LettersOfJoin(parts[1..], sep);
      LettersAppend(parts[0] + sep, Join(parts[1..], sep));
      LettersAppend(parts[0], sep);
      LettersAppend(parts[0], Concat(parts[1..]));
    }
  }

  /** The words of `s` (split on single spaces) hold exactly the letters of `s`. */
  lemma LettersOfWords(s: string)
    ensures Letters(Concat(Split(s, ' '))) == Letters(s)
  {
    assert Letters(" ") == [] by {
      assert " "[1..] == [];
    }
    SplitJoin(s, ' ');
    LettersOfJoin(Split(s, ' '), " ");
  }

  // ---------------------------------------------------------------------------
  // Evaluation on concrete shapes
  // ---------------------------------------------------------------------------

  /** A string with no terminator is one sentence. */
  lemma {:induction false} SentencesOfPlain(s: string)
    requires NoTerminator(s)
    ensures SplitSentences(s) == [s]
  {
    if s != [] {
      assert NoTerminator(s[1..]);
      SentencesOfPlain(s[1..]);
      assert [s[0]] + s[1..] == s;
    }
  }

  /** A sentence `a` ended by one terminator is split off in front of the rest. */
  lemma {:induction false} SentencesOfCons(a: string, t: char, b: string)
    requires a != [] && NoTerminator(a) && IsTerminator(t)
    requires b == [] || !IsTerminator(b[0])
    ensures SplitSentences(a + [t] + b) == [a] + SplitSentences(b)
    decreases |a|
  {
    var s := a + [t] + b;
    assert s[0] == a[0] && s[1..] == a[1..] + [t] + b;
    if |a| == 1 {
      assert s[1..] == [t] + b;
      assert DropRun([t] + b) == b by {
        assert ([t] + b)[1..] == b;
      }
      var rest := SplitSentences(s[1..]);
      assert rest == [[]] + SplitSentences(b);
      assert rest[0] == [] && rest[1..] == SplitSentences(b);
      assert [a[0]] + rest[0] == a;
    } else {
      assert NoTerminator(a[1..]);
      SentencesOfCons(a[1..], t, b);
      assert [a[0]] + a[1..] == a;
    }
  }

  /** A string without the separator is one piece. */
  lemma {:induction false} SplitPlain(s: string, sep: char)
    requires sep !in s
    ensures Split(s, sep) == [s]
  {
    if s != [] {
      SplitPlain(s[1..], sep);
      assert [s[0]] + s[1..] == s;
    }
  }

  /** A piece `a` ended by the separator is split off in front of the rest. */
  lemma {:induction false} SplitCons(a: string, sep: char, b: string)
    requires sep !in a
    ensures Split(a + [sep] + b, sep) == [a] + Split(b, sep)
    decreases |a|
  {
    var s := a + [sep] + b;
    if a == [] {
      assert s[0] == sep && s[1..] == b;
    } else {
      assert s[0] == a[0] && s[1..] == a[1..] + [sep] + b;
      SplitCons(a[1..], sep, b);
      assert [a[0]] + a[1..] == a;
    }
  }

  /** Trimming a string that neither starts nor ends with whitespace changes nothing. */
  lemma TrimNoop(s: string)
    requires s == [] || (!IsWhite(s[0]) && !IsWhite(s[|s| - 1]))
    ensures Trim(s) == s
  {
  }

  /** `trim()` is idempotent. */
  lemma TrimIdempotent(s: string)
    ensures Trim(Trim(s)) == Trim(s)
  {
    TrimNoop(Trim(s));
  }
}
