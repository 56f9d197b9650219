/**
 * The chapter links that come back with each synthesis response
 * (`ChapterNavigator`). The headers carry URI-encoded JSON; the decoding
 * itself (`decodeURIComponent` followed by `JSON.parse`) is a parameter that
 * either fails or yields a value. The navigation markup is reduced to which
 * chapters it shows.
 */
module ChapterNavigation {
  import opened Wrappers

  /**
   * A parsed JSON value, reduced to what the client looks at: whether it is
   * truthy, and the `url` field of an object. An object without a `url` field
   * reads it as `undefined`, which is `Null` here.
   */
  datatype Value = Null | FalsyScalar | TruthyScalar | Str(s: string) | Record(url: Value)

  predicate Truthy(v: Value) {
    match v
    case Null => false
    case FalsyScalar => false
    case TruthyScalar => true
    case Str(s) => s != []
    case Record(_) => true
  }

  /**
   * `value?.url` when it is truthy: only an object has a `url`, and any truthy
   * url counts, a number or a nested object as much as a non-empty string.
   */
  function UrlOf(v: Value): (r: Option<Value>)
    ensures r.Some? <==> v.Record? && Truthy(v.url)
    ensures r.Some? ==> Truthy(v) && Truthy(r.value) && r.value == v.url
  {
    match v
    case Record(url) => if Truthy(url) then Some(url) else None
    case _ => None
  }

  /**
   * The server sends a chapter's url as a string or `null`; for those the url
   * is usable exactly when it is a non-empty string.
   */
  lemma ServerChapterUrl(url: Option<string>)
    ensures var v := Record(if url.Some? then Str(url.value) else Null);
      UrlOf(v).Some? <==> url.Some? && url.value != []
  {
  }

  /** `decodeURIComponent` then `JSON.parse`: `None` when either throws. */
  type Decoder = string -> Option<Value>

  /** `decodeChapter(encodedStr)`: `null` for a missing or empty header, and for anything that fails to decode. */
  function DecodeChapter(header: Option<string>, decode: Decoder): (r: Value)
    ensures header.None? || header == Some([]) ==> r == Null
    ensures header.Some? && header.value != [] && decode(header.value).None? ==> r == Null
    ensures header.Some? && header.value != [] && decode(header.value).Some? ==> r == decode(header.value).value
  {
    match header
    case None => Null
    case Some(s) =>
      if s == [] then Null
      else match decode(s)
        case None => Null
        case Some(v) => v
  }

  /** The headers `X-Current-Chapter`, `X-Next-Chapter` and `X-Prev-Chapter`. */
  datatype Headers = Headers(current: Option<string>, next: Option<string>, prev: Option<string>)

  /** What the navigation element shows: nothing yet, cleared, or links with listeners attached. */
  datatype Navigation = Blank | Cleared | Shown(current: Value, prev: Value, next: Value)

  datatype Navigator = Navigator(nextChapterData: Value, navigation: Navigation)

  /** The constructor: no next chapter yet. */
  function NewNavigator(): (n: Navigator)
    ensures n.nextChapterData == Null && n.navigation.Blank?
  {
    Navigator(Null, Blank)
  }

  /**
   * `update(response, createNavigationUI)`: the next chapter is recorded
   * whatever the current chapter decodes to; the navigation is cleared when the
   * current chapter is falsy, and built (with listeners) otherwise.
   */
  function Update(n: Navigator, headers: Headers, decode: Decoder): (r: Navigator)
    ensures r.nextChapterData == DecodeChapter(headers.next, decode)
    ensures !Truthy(DecodeChapter(headers.current, decode)) <==> r.navigation.Cleared?
    ensures r.navigation.Shown? ==>
      r.navigation == Shown(DecodeChapter(headers.current, decode), DecodeChapter(headers.prev, decode), r.nextChapterData)
  {
    var current := DecodeChapter(headers.current, decode);
    var next := DecodeChapter(headers.next, decode);
    var prev := DecodeChapter(headers.prev, decode);
    if !Truthy(current) then Navigator(next, Cleared)
    else Navigator(next, Shown(current, prev, next))
  }

  /** `getNextChapter()`: the next chapter recorded by the last `update`. */
  function GetNextChapter(n: Navigator): Value {
    n.nextChapterData
  }

  /**
   * `getNextChapter` reports the next chapter of the last `update`, even when
   * that response had no decodable current chapter; before any update it is `null`.
   */
  lemma NextChapterOfLastUpdate(n: Navigator, first: Headers, second: Headers, decode: Decoder)
    ensures GetNextChapter(NewNavigator()) == Null
    ensures GetNextChapter(Update(Update(n, first, decode), second, decode)) == DecodeChapter(second.next, decode)
    ensures GetNextChapter(Update(n, second, decode)) == DecodeChapter(second.next, decode)
  {
  }

  /** A header that fails to decode counts as absent: the navigation is cleared, not an error. */
  lemma UndecodableCurrentClears(n: Navigator, headers: Headers, decode: Decoder)
    requires headers.current.Some? && decode(headers.current.value).None?
    ensures Update(n, headers, decode).navigation == Cleared
  {
  }
}
