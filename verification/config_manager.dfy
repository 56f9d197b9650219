/**
 * The browser's configuration form (`ConfigManager`): reading the form,
 * validating it, building the save request, and refreshing the access token.
 * The DOM is reduced to the values of the form's inputs, `localStorage` to a
 * map, and each fetch to its outcome.
 */
module ConfigManager {
  import opened Wrappers
  import opened Text
  import opened Scraper
  import ConfigService
  import ConfigController

  // ---------------------------------------------------------------------------
  // parseInt(value, 10)
  // ---------------------------------------------------------------------------

  predicate IsDigit(c: char) {
    '0' <= c <= '9'
  }

  predicate AllDigits(s: string) {
    forall i :: 0 <= i < |s| ==> IsDigit(s[i])
  }

  /** The longest prefix of decimal digits. */
  function LeadingDigits(s: string): (r: string)
    ensures |r| <= |s| && r == s[..|r|] && AllDigits(r)
    ensures |r| < |s| ==> !IsDigit(s[|r|])
  {
    if |s| > 0 && IsDigit(s[0]) then [s[0]] + LeadingDigits(s[1..]) else []
  }

  /** The value of a string of decimal digits. */
  function DigitsValue(d: string): nat
    requires AllDigits(d)
  {
    if d == [] then 0 else 10 * DigitsValue(d[..|d| - 1]) + (d[|d| - 1] as int - '0' as int)
  }

  /**
   * `parseInt(s, 10)`: skip leading whitespace, read an optional sign and the
   * longest run of digits; `NaN` when there is no digit.
   */
  function ParseInt(s: string): Number {
    ParseSigned(TrimStart(s))
  }

  /** `parseInt` after the leading whitespace. */
  function ParseSigned(t: string): Number {
    var negative := |t| > 0 && t[0] == '-';
    var unsigned := if |t| > 0 && (t[0] == '-' || t[0] == '+') then t[1..] else t;
    var d := LeadingDigits(unsigned);
    var value: int := DigitsValue(d);
    if d == [] then NaN else Num(if negative then -value else value)
  }

  /** A blank input, or one whose first non-blank character is not a sign or a digit, reads as `NaN`. */
  lemma ParseIntNaN(s: string)
    requires var t := TrimStart(s); t == [] || (!IsDigit(t[0]) && t[0] != '-' && t[0] != '+')
    ensures ParseInt(s) == NaN
  {
  }

  function DigitChar(n: nat): (c: char)
    requires n < 10
    ensures IsDigit(c) && c as int - '0' as int == n
  {
    ('0' as int + n) as char
  }

  /** The decimal digits of `n`. */
  function Digits(n: nat): (r: string)
    ensures r != [] && AllDigits(r)
  {
    if n < 10 then [DigitChar(n)] else Digits(n / 10) + [DigitChar(n % 10)]
  }

  /** `String(n)` for an integer, and `"NaN"`: what a number assigned to an input's `value` reads as. */
  function NumberText(x: Number): string {
    match x
    case NaN => "NaN"
    case Num(n) => if n < 0 then "-" + Digits(-n) else Digits(n)
  }

  lemma {:induction false} DigitsValueOfDigits(n: nat)
    ensures DigitsValue(Digits(n)) == n
    decreases n
  {
    if n >= 10 {
      var d := Digits(n);
      assert d[..|d| - 1] == Digits(n / 10);
      DigitsValueOfDigits(n / 10);
    }
  }

  lemma {:induction false} LeadingDigitsOfAll(d: string)
    requires AllDigits(d)
    ensures LeadingDigits(d) == d
    decreases |d|
  {
    if d != [] {
      LeadingDigitsOfAll(d[1..]);
    }
  }

  /** A string whose first character is a digit, a minus sign or `N` has no leading whitespace. */
  lemma NoLeadingWhite(s: string)
    requires |s| > 0 && (IsDigit(s[0]) || s[0] == '-' || s[0] == 'N')
    ensures TrimStart(s) == s
  {
  }

  lemma SignedDigits(d: string)
    requires d != [] && AllDigits(d)
    ensures ParseSigned(d) == Num(DigitsValue(d))
  {
    LeadingDigitsOfAll(d);
    assert IsDigit(d[0]);
  }

  lemma SignedNegative(m: string, d: string)
    requires d != [] && AllDigits(d) && |m| > 0 && m[0] == '-' && m[1..] == d
    ensures ParseSigned(m) == Num(-(DigitsValue(d) as int))
  {
    LeadingDigitsOfAll(d);
  }

  /** `parseInt` of a run of digits. */
  lemma ParseIntOfDigits(d: string)
    requires d != [] && AllDigits(d)
    ensures ParseInt(d) == Num(DigitsValue(d))
  {
    NoLeadingWhite(d);
    SignedDigits(d);
  }

  /** `parseInt` of a minus sign followed by a run of digits. */
  lemma ParseIntOfNegative(d: string)
    requires d != [] && AllDigits(d)
    ensures ParseInt("-" + d) == Num(-(DigitsValue(d) as int))
  {
    var m := "-" + d;
    assert m[0] == '-' && m[1..] == d;
    NoLeadingWhite(m);
    SignedNegative(m, d);
  }

  lemma ParseIntOfNaN()
    ensures ParseInt("NaN") == NaN
  {
    var t: string := "NaN";
    assert t[0] == 'N';
    NoLeadingWhite(t);
  }

  lemma NumberTextOfNonNegative(n: nat)
    ensures NumberText(Num(n)) == Digits(n)
  {
  }

  lemma ParseIntOfDigitsOf(n: nat)
    ensures ParseInt(Digits(n)) == Num(n)
  {
    ParseIntOfDigits(Digits(n));
    DigitsValueOfDigits(n);
  }

  lemma ParseIntOfNonNegative(n: nat)
    ensures ParseInt(NumberText(Num(n))) == Num(n)
  {
    NumberTextOfNonNegative(n);
    ParseIntOfDigitsOf(n);
  }

  lemma NumberTextOfNegative(n: int)
    requires n < 0
    ensures NumberText(Num(n)) == "-" + Digits(-n)
  {
  }

  lemma ParseIntOfMinusDigits(k: nat, m: string)
    requires k > 0 && m == "-" + Digits(k)
    ensures ParseInt(m) == Num(-(k as int))
  {
    ParseIntOfNegative(Digits(k));
    DigitsValueOfDigits(k);
  }

  lemma ParseIntOfNegativeNumber(n: int, m: string)
    requires n < 0 && m == NumberText(Num(n))
    ensures ParseInt(m) == Num(n)
  {
    NumberTextOfNegative(n);
    ParseIntOfMinusDigits(-n, m);
  }

  lemma ParseIntOfNegativeText(n: int)
    requires n < 0
    ensures ParseInt(NumberText(Num(n))) == Num(n)
  {
    ParseIntOfNegativeNumber(n, NumberText(Num(n)));
  }

  /** `parseInt` reads back every number written as text, and `NaN` as `NaN`. */
  lemma ParseIntOfNumberText(x: Number)
    ensures ParseInt(NumberText(x)) == x
  {
    match x
    case NaN => ParseIntOfNaN();
    case Num(n) =>
      if n < 0 {
        ParseIntOfNegativeText(n);
      } else {
        ParseIntOfNonNegative(n);
      }
  }

  // ---------------------------------------------------------------------------
  // The form
  // ---------------------------------------------------------------------------

  /** The raw values of the form's inputs, and whether the chapter-number method is chosen. */
  datatype Form = Form(
    useChapterNumber: bool,
    key: string, domain: string, content: string, title: string,
    nextCheerio: string, nextPuppeteer: string, prevCheerio: string, prevPuppeteer: string,
    regex: string, group: string)

  /** What `getFormData` builds. */
  datatype FormData = FormData(key: string, domain: string, selectors: Selectors, chapterNumber: Option<ChapterNumberPattern>)

  /** A string `trim()` leaves as it is. */
  predicate Trimmed(s: string) {
    Trim(s) == s
  }

  /**
   * `getFormData()`: every text value trimmed; the chapter-number pattern in
   * that mode, the two chapter selector pairs otherwise.
   */
  function GetFormData(form: Form): (r: FormData)
    ensures r.chapterNumber.Some? <==> form.useChapterNumber
    ensures r.chapterNumber.Some? ==> r.selectors.nextChapter.None? && r.selectors.prevChapter.None?
    ensures r.chapterNumber.None? ==> r.selectors.nextChapter.Some? && r.selectors.prevChapter.Some?
  {
    var selectors := Selectors(Trim(form.content), Trim(form.title), None, None);
    if form.useChapterNumber then
      FormData(Trim(form.key), Trim(form.domain), selectors,
               Some(ChapterNumberPattern(Trim(form.regex), ParseInt(form.group))))
    else
      FormData(Trim(form.key), Trim(form.domain),
               selectors.(nextChapter := Some(SelectorConfig(Trim(form.nextCheerio), Trim(form.nextPuppeteer))),
                          prevChapter := Some(SelectorConfig(Trim(form.prevCheerio), Trim(form.prevPuppeteer)))),
               None)
  }

  /** `getFormData` trims every text value: trimming any of them again changes nothing. */
  lemma FormDataTrimmed(form: Form)
    ensures var fd := GetFormData(form);
      && Trimmed(fd.key) && Trimmed(fd.domain) && Trimmed(fd.selectors.content) && Trimmed(fd.selectors.title)
      && (fd.chapterNumber.Some? ==> Trimmed(fd.chapterNumber.value.regex))
      && (fd.chapterNumber.None? ==>
            && Trimmed(fd.selectors.nextChapter.value.cheerio) && Trimmed(fd.selectors.nextChapter.value.puppeteer)
            && Trimmed(fd.selectors.prevChapter.value.cheerio) && Trimmed(fd.selectors.prevChapter.value.puppeteer))
  {
    TrimIdempotent(form.key);
    TrimIdempotent(form.domain);
    TrimIdempotent(form.content);
    TrimIdempotent(form.title);
    if form.useChapterNumber {
      TrimIdempotent(form.regex);
    } else {
      TrimIdempotent(form.nextCheerio);
      TrimIdempotent(form.nextPuppeteer);
      TrimIdempotent(form.prevCheerio);
      TrimIdempotent(form.prevPuppeteer);
    }
  }

  /**
   * `fillForm(config)` for `editConfig(key)`: the inputs show the stored
   * configuration; a missing chapter selector shows as empty, and the
   * pattern inputs keep their previous values when there is no pattern.
   */
  function FillForm(previous: Form, key: string, c: ScraperConfig): (r: Form)
    requires c.selectors.Some?
    ensures r.useChapterNumber <==> c.chapterNumber.Some?
    ensures r.key == key && r.domain == c.domain
    ensures r.content == c.selectors.value.content && r.title == c.selectors.value.title
    ensures c.selectors.value.nextChapter.None? ==> r.nextCheerio == [] && r.nextPuppeteer == []
    ensures c.selectors.value.nextChapter.Some? ==>
      r.nextCheerio == c.selectors.value.nextChapter.value.cheerio && r.nextPuppeteer == c.selectors.value.nextChapter.value.puppeteer
    ensures c.selectors.value.prevChapter.None? ==> r.prevCheerio == [] && r.prevPuppeteer == []
    ensures c.selectors.value.prevChapter.Some? ==>
      r.prevCheerio == c.selectors.value.prevChapter.value.cheerio && r.prevPuppeteer == c.selectors.value.prevChapter.value.puppeteer
    ensures c.chapterNumber.Some? ==>
      r.regex == c.chapterNumber.value.regex && ParseInt(r.group) == c.chapterNumber.value.groupIndex
    ensures c.chapterNumber.None? ==> r.regex == previous.regex && r.group == previous.group
  {
    var s := c.selectors.value;
    var next := s.nextChapter.GetOr(SelectorConfig([], []));
    var prev := s.prevChapter.GetOr(SelectorConfig([], []));
    var filled := Form(c.chapterNumber.Some?, key, c.domain, s.content, s.title,
                       next.cheerio, next.puppeteer, prev.cheerio, prev.puppeteer, previous.regex, previous.group);
    match c.chapterNumber
    case Some(p) =>
      ParseIntOfNumberText(p.groupIndex);
      filled.(regex := p.regex, group := NumberText(p.groupIndex))
    case None => filled
  }

  /** What a configuration reads back as: in chapter-number mode the chapter selectors are not read. */
  function AsFormData(key: string, c: ScraperConfig): FormData
    requires c.selectors.Some?
  {
    var s := c.selectors.value;
    FormData(key, c.domain,
             if c.chapterNumber.Some? then s.(nextChapter := None, prevChapter := None) else s,
             c.chapterNumber)
  }

  /** Every text field of a stored configuration is already trimmed. */
  predicate TrimmedConfig(key: string, c: ScraperConfig) {
    && c.selectors.Some?
    && Trimmed(key) && Trimmed(c.domain) && Trimmed(c.selectors.value.content) && Trimmed(c.selectors.value.title)
    && (c.chapterNumber.Some? ==> Trimmed(c.chapterNumber.value.regex))
    && (c.chapterNumber.None? ==>
          && c.selectors.value.nextChapter.Some? && c.selectors.value.prevChapter.Some?
          && Trimmed(c.selectors.value.nextChapter.value.cheerio) && Trimmed(c.selectors.value.nextChapter.value.puppeteer)
          && Trimmed(c.selectors.value.prevChapter.value.cheerio) && Trimmed(c.selectors.value.prevChapter.value.puppeteer))
  }

  /** Opening a stored configuration for editing and reading the form back gives the configuration again. */
  lemma FillThenRead(previous: Form, key: string, c: ScraperConfig)
    requires TrimmedConfig(key, c)
    ensures GetFormData(FillForm(previous, key, c)) == AsFormData(key, c)
  {
  }

  // ---------------------------------------------------------------------------
  // validateForm
  // ---------------------------------------------------------------------------

  /** The messages `validateForm` can list. */
  datatype FormError =
    | KeyRequired | DomainRequired | ContentRequired | TitleRequired
    | RegexRequired | GroupIndexRequired | NextRequired | PrevRequired

  function Message(e: FormError): string {
    match e
    case KeyRequired => "Configuration key is required"
    case DomainRequired => "Domain is required"
    case ContentRequired => "Content selector is required"
    case TitleRequired => "Title selector is required"
    case RegexRequired => "Chapter regex pattern is required"
    case GroupIndexRequired => "Valid group index is required"
    case NextRequired => "Next chapter selector is required"
    case PrevRequired => "Previous chapter selector is required"
  }

  /** The order in which the checks run. */
  function Rank(e: FormError): nat {
    match e
    case KeyRequired => 0
    case DomainRequired => 1
    case ContentRequired => 2
    case TitleRequired => 3
    case RegexRequired => 4
    case GroupIndexRequired => 5
    case NextRequired => 6
    case PrevRequired => 7
  }

  /** Whether the check behind `e` fails for `fd`. */
  predicate Fails(fd: FormData, e: FormError)
    requires fd.chapterNumber.Some? || (fd.selectors.nextChapter.Some? && fd.selectors.prevChapter.Some?)
  {
    match e
    case KeyRequired => fd.key == []
    case DomainRequired => fd.domain == []
    case ContentRequired => fd.selectors.content == []
    case TitleRequired => fd.selectors.title == []
    case RegexRequired => fd.chapterNumber.Some? && fd.chapterNumber.value.regex == []
    case GroupIndexRequired => fd.chapterNumber.Some? && fd.chapterNumber.value.groupIndex.NaN?
    case NextRequired =>
      fd.chapterNumber.None? && fd.selectors.nextChapter.value.cheerio == [] && fd.selectors.nextChapter.value.puppeteer == []
    case PrevRequired =>
      fd.chapterNumber.None? && fd.selectors.prevChapter.value.cheerio == [] && fd.selectors.prevChapter.value.puppeteer == []
  }

  function If(c: bool, e: FormError): seq<FormError> {
    if c then [e] else []
  }

  /** The checks every form goes through: key, domain, content and title. */
  function CommonErrors(fd: FormData): seq<FormError> {
    If(fd.key == [], KeyRequired) + (If(fd.domain == [], DomainRequired)
    + (If(fd.selectors.content == [], ContentRequired) + If(fd.selectors.title == [], TitleRequired)))
  }

  /** The checks of the chosen method: the pattern, or the two chapter selector pairs. */
  function MethodErrors(fd: FormData): seq<FormError>
    requires fd.chapterNumber.Some? || (fd.selectors.nextChapter.Some? && fd.selectors.prevChapter.Some?)
  {
    match fd.chapterNumber
    case Some(p) => If(p.regex == [], RegexRequired) + If(p.groupIndex.NaN?, GroupIndexRequired)
    case None =>
      var next := fd.selectors.nextChapter.value;
      var prev := fd.selectors.prevChapter.value;
      If(next.cheerio == [] && next.puppeteer == [], NextRequired) + If(prev.cheerio == [] && prev.puppeteer == [], PrevRequired)
  }

  /**
   * `validateForm(formData)`: the list of errors, in check order, and whether
   * it is empty. A form read in selector mode always has both chapter selector
   * objects, which the selector-mode checks dereference.
   */
  function ValidateForm(fd: FormData): (r: (bool, seq<FormError>))
    requires fd.chapterNumber.Some? || (fd.selectors.nextChapter.Some? && fd.selectors.prevChapter.Some?)
    ensures r.0 <==> r.1 == []
  {
    var errors := CommonErrors(fd) + MethodErrors(fd);
    (errors == [], errors)
  }

  /** The errors listed are exactly the checks that fail. */
  lemma ValidateFormErrors(fd: FormData)
    requires fd.chapterNumber.Some? || (fd.selectors.nextChapter.Some? && fd.selectors.prevChapter.Some?)
    ensures forall e :: e in ValidateForm(fd).1 <==> Fails(fd, e)
  {
    var c := CommonErrors(fd);
    var m := MethodErrors(fd);
    forall e
      ensures e in c + m <==> Fails(fd, e)
    {
      assert e in c + m <==> e in c || e in m;
    }
  }

  /** Errors strictly ordered by check order: each check at most once, common checks first. */
  predicate Sorted(errors: seq<FormError>) {
    forall i, j :: 0 <= i < j < |errors| ==> Rank(errors[i]) < Rank(errors[j])
  }

  lemma SortedAppend(a: seq<FormError>, b: seq<FormError>, k: nat)
    requires Sorted(a) && Sorted(b)
    requires forall i :: 0 <= i < |a| ==> Rank(a[i]) < k
    requires forall j :: 0 <= j < |b| ==> k <= Rank(b[j])
    ensures Sorted(a + b)
  {
    forall i, j | 0 <= i < j < |a + b|
      ensures Rank((a + b)[i]) < Rank((a + b)[j])
    {
      if j < |a| {
        assert (a + b)[i] == a[i] && (a + b)[j] == a[j];
      } else if i < |a| {
        assert (a + b)[i] == a[i] && (a + b)[j] == b[j - |a|];
      } else {
        assert (a + b)[i] == b[i - |a|] && (a + b)[j] == b[j - |a|];
      }
    }
  }

  /** Putting a check before later ones keeps the list sorted and within the ranks below `hi`. */
  lemma SortedCons(c: bool, e: FormError, rest: seq<FormError>, hi: nat)
    requires Sorted(rest) && Rank(e) < hi
    requires forall j :: 0 <= j < |rest| ==> Rank(e) < Rank(rest[j]) < hi
    ensures Sorted(If(c, e) + rest)
    ensures forall j :: 0 <= j < |If(c, e) + rest| ==> Rank(e) <= Rank((If(c, e) + rest)[j]) < hi
  {
    if c {
      assert forall j :: 1 <= j < |[e] + rest| ==> ([e] + rest)[j] == rest[j - 1];
    } else {
      assert If(c, e) + rest == rest;
    }
  }

  /** The title check alone. */
  lemma TitleSorted(title: bool)
    ensures Sorted(If(title, TitleRequired))
    ensures forall j :: 0 <= j < |If(title, TitleRequired)| ==> 3 <= Rank(If(title, TitleRequired)[j]) < 4
  {
  }

  lemma ContentTitleSorted(content: bool, title: bool)
    ensures Sorted(If(content, ContentRequired) + If(title, TitleRequired))
    ensures forall j :: 0 <= j < |If(content, ContentRequired) + If(title, TitleRequired)| ==>
      2 <= Rank((If(content, ContentRequired) + If(title, TitleRequired))[j]) < 4
  {
    TitleSorted(title);
    SortedCons(content, ContentRequired, If(title, TitleRequired), 4);
  }

  lemma DomainContentTitleSorted(domain: bool, content: bool, title: bool)
    ensures var r := If(domain, DomainRequired) + (If(content, ContentRequired) + If(title, TitleRequired));
      Sorted(r) && forall j :: 0 <= j < |r| ==> 1 <= Rank(r[j]) < 4
  {
    ContentTitleSorted(content, title);
    SortedCons(domain, DomainRequired, If(content, ContentRequired) + If(title, TitleRequired), 4);
  }

  lemma CommonSorted(fd: FormData)
    ensures Sorted(CommonErrors(fd))
    ensures forall i :: 0 <= i < |CommonErrors(fd)| ==> Rank(CommonErrors(fd)[i]) < 4
  {
    var rest := If(fd.domain == [], DomainRequired)
      + (If(fd.selectors.content == [], ContentRequired) + If(fd.selectors.title == [], TitleRequired));
    DomainContentTitleSorted(fd.domain == [], fd.selectors.content == [], fd.selectors.title == []);
    SortedCons(fd.key == [], KeyRequired, rest, 4);
  }

  lemma MethodSorted(fd: FormData)
    requires fd.chapterNumber.Some? || (fd.selectors.nextChapter.Some? && fd.selectors.prevChapter.Some?)
    ensures Sorted(MethodErrors(fd))
    ensures forall i :: 0 <= i < |MethodErrors(fd)| ==> 4 <= Rank(MethodErrors(fd)[i])
  {
    if fd.chapterNumber.Some? {
      var p := fd.chapterNumber.value;
      SortedAppend(If(p.regex == [], RegexRequired), If(p.groupIndex.NaN?, GroupIndexRequired), 5);
    } else {
      var next := fd.selectors.nextChapter.value;
      var prev := fd.selectors.prevChapter.value;
      SortedAppend(If(next.cheerio == [] && next.puppeteer == [], NextRequired),
                   If(prev.cheerio == [] && prev.puppeteer == [], PrevRequired), 7);
    }
  }

  /** The errors come in the order the checks run. */
  lemma ValidateFormOrder(fd: FormData)
    requires fd.chapterNumber.Some? || (fd.selectors.nextChapter.Some? && fd.selectors.prevChapter.Some?)
    ensures Sorted(ValidateForm(fd).1)
  {
    CommonSorted(fd);
    MethodSorted(fd);
    SortedAppend(CommonErrors(fd), MethodErrors(fd), 4);
  }

  // ---------------------------------------------------------------------------
  // handleSubmit
  // ---------------------------------------------------------------------------

  datatype HttpMethod = Post | Put

  /** The save request: `/api/selectors/configs/<key>` with the configuration as its JSON body. */
  datatype Request = Request(url: string, verb: HttpMethod, body: ScraperConfig)

  /** The editing state of the form: `isEditing` and `currentKey`. */
  datatype Editor = Editor(isEditing: bool, currentKey: Option<string>)

  /**
   * `closeForm()`: the form element's `reset()` puts every input back to its
   * default (`defaults`, fixed by the page markup), and the editor goes back to
   * adding a new configuration.
   */
  function CloseForm(e: Editor, form: Form, defaults: Form): (r: (Editor, Form))
    ensures !r.0.isEditing && r.0.currentKey.None?
    ensures r.1 == defaults
  {
    (Editor(false, None), defaults)
  }

  /** `editConfig(key)`: the form now edits `key`. */
  function EditConfig(e: Editor, key: string): (r: Editor)
    ensures r.isEditing && r.currentKey == Some(key)
  {
    Editor(true, Some(key))
  }

  /**
   * The request `handleSubmit()` sends, or nothing when validation fails: PUT
   * while editing and POST otherwise, with the pattern only when there is one.
   */
  function HandleSubmit(e: Editor, form: Form): (r: Option<Request>)
    ensures r.None? <==> !ValidateForm(GetFormData(form)).0
    ensures r.Some? ==>
      && r.value.url == "/api/selectors/configs/" + Trim(form.key)
      && (r.value.verb == Put <==> e.isEditing)
      && (r.value.body.chapterNumber.Some? <==> form.useChapterNumber)
      && r.value.body.domain == Trim(form.domain)
      && r.value.body.selectors == Some(GetFormData(form).selectors)
  {
    var fd := GetFormData(form);
    if !ValidateForm(fd).0 then None
    else Some(Request("/api/selectors/configs/" + fd.key, if e.isEditing then Put else Post,
                      ScraperConfig(fd.domain, Some(fd.selectors), fd.chapterNumber)))
  }

  /**
   * Editing a stored configuration and saving it unchanged sends it back with
   * PUT to its own key: in selector mode the body is the stored configuration
   * itself, and in chapter-number mode it lacks only the chapter selectors.
   */
  lemma EditThenSubmit(e: Editor, previous: Form, key: string, c: ScraperConfig)
    requires TrimmedConfig(key, c) && ValidateForm(AsFormData(key, c)).0
    ensures var r := HandleSubmit(EditConfig(e, key), FillForm(previous, key, c));
      && r == Some(Request("/api/selectors/configs/" + key, Put,
                           ScraperConfig(c.domain, Some(AsFormData(key, c).selectors), c.chapterNumber)))
      && (c.chapterNumber.None? ==> r.value.body == c)
  {
    FillThenRead(previous, key, c);
  }

  /**
   * Closing the form forgets an edit: whatever the inputs then hold, a save is
   * a POST, and the inputs submit exactly what their defaults submit.
   */
  lemma CloseThenSubmit(e: Editor, form: Form, defaults: Form, entered: Form)
    ensures var (closed, reset) := CloseForm(e, form, defaults);
      && HandleSubmit(closed, reset) == HandleSubmit(Editor(false, None), defaults)
      && (HandleSubmit(closed, entered).Some? ==> HandleSubmit(closed, entered).value.verb == Post)
  {
  }

  /**
   * A chapter-number configuration passes the form's checks but never the
   * server's: the form omits the chapter selectors the server requires, so
   * saving it is answered with 400 whether it is added or updated.
   */
  lemma ChapterNumberFormRejected(e: Editor, form: Form, store: Store, db: ConfigService.Db,
                                  merge: (ScraperConfig, ScraperConfig) -> ScraperConfig)
    requires form.useChapterNumber && HandleSubmit(e, form).Some?
    ensures !ConfigService.ValidateConfig(HandleSubmit(e, form).value.body)
    ensures ConfigController.AddConfig(store, Trim(form.key), HandleSubmit(e, form).value.body, db).1.status == 400
    ensures ConfigController.UpdateConfig(store, Trim(form.key), HandleSubmit(e, form).value.body, db, merge).1.status == 400
  {
    ConfigService.ChapterSelectorsRequired(HandleSubmit(e, form).value.body);
  }

  /** A selector-mode form that passes the form's checks passes the server's too. */
  lemma SelectorFormAccepted(e: Editor, form: Form)
    requires !form.useChapterNumber && HandleSubmit(e, form).Some?
    ensures ConfigService.ValidateConfig(HandleSubmit(e, form).value.body)
  {
    var fd := GetFormData(form);
    assert !Fails(fd, KeyRequired) && !Fails(fd, DomainRequired);
    assert !Fails(fd, ContentRequired) && !Fails(fd, TitleRequired);
  }

  // ---------------------------------------------------------------------------
  // handleTokenRefresh and logout
  // ---------------------------------------------------------------------------

  /** `localStorage`. */
  type Storage = map<string, string>

  /** The three keys `logout()` removes. */
  const SessionKeys: set<string> := {"accessToken", "refreshToken", "user"}

  /** `logout()` (the redirect is not modelled). */
  function Logout(storage: Storage): (r: Storage)
    ensures forall k :: k in r <==> k in storage && k !in SessionKeys
    ensures forall k :: k in r ==> r[k] == storage[k]
  {
    storage - SessionKeys
  }

  /** The refresh endpoint's answer: a failure (network, non-ok status, bad JSON), or the JSON's two fields. */
  datatype RefreshReply = RefreshFailed | Refreshed(token: Option<string>, refreshToken: Option<string>)

  /** The stored refresh token, when it is truthy. */
  function StoredRefreshToken(storage: Storage): Option<string> {
    if "refreshToken" in storage && storage["refreshToken"] != [] then Some(storage["refreshToken"]) else None
  }

  /**
   * `handleTokenRefresh()`: with no stored refresh token no request is made.
   * On success the access token is stored (an absent one as the text
   * "undefined", as `setItem` converts it) and the refresh token only when a
   * new one came back; any failure logs out.
   */
  function HandleTokenRefresh(storage: Storage, reply: RefreshReply): (r: (Storage, bool))
    ensures r.1 <==> StoredRefreshToken(storage).Some? && reply.Refreshed?
    ensures !r.1 ==> r.0 == Logout(storage)
    ensures r.1 ==> "accessToken" in r.0 && r.0["accessToken"] == reply.token.GetOr("undefined")
    ensures r.1 ==> "refreshToken" in r.0
    ensures r.1 && reply.Refreshed? && reply.refreshToken.Some? && reply.refreshToken.value != [] ==>
      r.0["refreshToken"] == reply.refreshToken.value
    ensures r.1 && !(reply.Refreshed? && reply.refreshToken.Some? && reply.refreshToken.value != []) ==>
      r.0["refreshToken"] == storage["refreshToken"]
    ensures r.1 ==> forall k :: k != "accessToken" && k != "refreshToken" ==> (k in r.0 <==> k in storage) && (k in r.0 ==> r.0[k] == storage[k])
  {
    if StoredRefreshToken(storage).None? then (Logout(storage), false)
    else match reply
      case RefreshFailed => (Logout(storage), false)
      case Refreshed(token, renewed) =>
        var withAccess := storage["accessToken" := token.GetOr("undefined")];
        if renewed.Some? && renewed.value != [] then (withAccess["refreshToken" := renewed.value], true)
        else (withAccess, true)
  }
}
