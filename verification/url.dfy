/**
 * `isValidUrl`: the test of the pattern `^(https?|ftp):\/\/[^\s/$.?#].[^\s]*$`
 * with the `i` flag, written out as a hand matcher over the string and
 * checked against a declarative reading of the pattern.
 */
module Url {
  import opened Text

  /** ASCII letters to lower case; the `i` flag folds nothing else that the pattern mentions. */
  function Lower(c: char): char {
    if 'A' <= c <= 'Z' then (c as int - 'A' as int + 'a' as int) as char else c
  }

  function FoldCase(s: string): (r: string)
    ensures |r| == |s| && forall i :: 0 <= i < |s| ==> r[i] == Lower(s[i])
  {
    seq(|s|, i requires 0 <= i < |s| => Lower(s[i]))
  }

  /** `https?|ftp` under the `i` flag. */
  predicate SchemeName(s: string) {
    var f := FoldCase(s);
    f == "http" || f == "https" || f == "ftp"
  }

  /** The characters `[^\s/$.?#]` excludes besides whitespace. */
  predicate IsHostStop(c: char) {
    c == '/' || c == '$' || c == '.' || c == '?' || c == '#'
  }

  /** `[^\s/$.?#].[^\s]*$`: what must follow `://`. */
  predicate Rest(r: string) {
    && |r| >= 2
    && !IsWhite(r[0]) && !IsHostStop(r[0])
    && !IsLineTerminator(r[1])
    && forall i :: 2 <= i < |r| ==> !IsWhite(r[i])
  }

  /** The whole pattern, anchored at both ends: a scheme, `://`, and a valid rest. */
  ghost predicate Matches(url: string) {
    exists k :: 0 <= k && k + 3 <= |url| && SchemeName(url[..k]) && url[k..k + 3] == "://" && Rest(url[k + 3..])
  }

  predicate HasFoldedPrefix(s: string, p: string) {
    |s| >= |p| && FoldCase(s[..|p|]) == p
  }

  /** A folded prefix `scheme + "://"` has exactly `://` after a part that folds to `scheme`. */
  lemma FoldedPrefix(url: string, scheme: string, p: string)
    requires p == scheme + "://" && HasFoldedPrefix(url, p)
    ensures url[|scheme|..|p|] == "://" && FoldCase(url[..|scheme|]) == scheme
  {
    var k := |scheme|;
    forall i | k <= i < k + 3
      ensures url[i] == "://"[i - k]
    {
      assert FoldCase(url[..|p|])[i] == p[i];
    }
    assert FoldCase(url[..k]) == FoldCase(url[..|p|])[..k];
  }

  /** Where the rest begins: after `https://`, `http://` or `ftp://` in any letter case; 0 for none. */
  function SchemeEnd(url: string): (n: nat)
    ensures n in {0, 6, 7, 8} && n <= |url|
    ensures n > 0 ==> url[n - 3..n] == "://" && SchemeName(url[..n - 3])
  {
    if HasFoldedPrefix(url, "https://") then
      FoldedPrefix(url, "https", "https://");
      8
    else if HasFoldedPrefix(url, "http://") then
      FoldedPrefix(url, "http", "http://");
      7
    else if HasFoldedPrefix(url, "ftp://") then
      FoldedPrefix(url, "ftp", "ftp://");
      6
    else 0
  }

  /** A scheme followed by `://` is one of the prefixes `SchemeEnd` looks for. */
  lemma SchemePrefix(url: string, k: nat)
    requires k + 3 <= |url| && SchemeName(url[..k]) && url[k..k + 3] == "://"
    ensures SchemeEnd(url) == k + 3
  {
    var p := url[..k + 3];
    assert url[..k] == p[..k];
    assert forall i :: k <= i < k + 3 ==> url[i] == "://"[i - k];
    if FoldCase(url[..k]) == "https" {
      assert FoldCase(url[..8]) == "https://";
    } else if FoldCase(url[..k]) == "http" {
      assert !HasFoldedPrefix(url, "https://") by {
        if |url| >= 8 {
          assert FoldCase(url[..8])[4] == Lower(url[4]);
        }
      }
      assert FoldCase(url[..7]) == "http://";
    } else {
      assert FoldCase(url[..k]) == "ftp";
      assert !HasFoldedPrefix(url, "https://") by {
        if |url| >= 8 {
          assert FoldCase(url[..8])[3] == Lower(url[3]);
        }
      }
      assert !HasFoldedPrefix(url, "http://") by {
        if |url| >= 7 {
          assert FoldCase(url[..7])[3] == Lower(url[3]);
        }
      }
      assert FoldCase(url[..6]) == "ftp://";
    }
  }

  /** The pattern matches exactly when a scheme prefix is found and the rest after it is valid. */
  lemma MatchesBySchemeEnd(url: string)
    ensures Matches(url) <==> SchemeEnd(url) > 0 && Rest(url[SchemeEnd(url)..])
  {
    if Matches(url) {
      var k :| 0 <= k && k + 3 <= |url| && SchemeName(url[..k]) && url[k..k + 3] == "://" && Rest(url[k + 3..]);
      SchemePrefix(url, k);
    }
    if SchemeEnd(url) > 0 && Rest(url[SchemeEnd(url)..]) {
      var k := SchemeEnd(url) - 3;
      assert SchemeName(url[..k]) && url[k..k + 3] == "://" && Rest(url[k + 3..]);
    }
  }

  /** `isValidUrl(url)`: find the scheme, check the first two characters of the rest, then scan the others. */
  method IsValidUrl(url: string) returns (ok: bool)
    ensures ok <==> Matches(url)
  {
    MatchesBySchemeEnd(url);
    var start := SchemeEnd(url);
    if start == 0 {
      return false;
    }
    var r := url[start..];
    if |r| < 2 || IsWhite(r[0]) || IsHostStop(r[0]) || IsLineTerminator(r[1]) {
      return false;
    }
    var i := 2;
    while i < |r|
      invariant 2 <= i <= |r|
      invariant forall j :: 2 <= j < i ==> !IsWhite(r[j])
    {
      if IsWhite(r[i]) {
        return false;
      }
      i := i + 1;
    }
    return true;
  }

  /** A line break at the end always fails: no position of the rest may hold one. */
  lemma TrailingLineBreakRejected(url: string)
    requires |url| > 0 && IsLineTerminator(url[|url| - 1])
    ensures !Matches(url)
  {
    MatchesBySchemeEnd(url);
    var n := SchemeEnd(url);
    if n > 0 && |url[n..]| >= 2 {
      var r := url[n..];
      assert r[|r| - 1] == url[|url| - 1];
    }
  }

  /**
   * A trailing space is not always fatal: the second character after `://`
   * may be any character but a line break, so `http://a ` is a valid url.
   */
  lemma SpaceAfterOneCharacterAccepted(c: char)
    requires !IsWhite(c) && !IsHostStop(c)
    ensures Matches("http://" + [c, ' '])
  {
    var url := "http://" + [c, ' '];
    assert url[..4] == "http" && FoldCase("http") == "http";
    assert url[4..7] == "://" && url[7..] == [c, ' '];
  }
}
