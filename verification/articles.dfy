/**
 * The article extractor: how `_document_from_page` composes a document from
 * what it reads on an article page (title, publication date, paragraphs, meta
 * description, author, category).
 */
module Articles {
  import opened Wrappers

  /** A Python `datetime`: its calendar fields and its tzinfo, as an offset from UTC in minutes. */
  datatype DateTime = DateTime(
    year: int, month: int, day: int,
    hour: int, minute: int, second: int, microsecond: int,
    utcOffset: Option<int>)

  /**
   * What the browser shows at an article URL:
   * `opens` — the visit there returns normally (`_initial_access_source`: navigation,
   *   settle delay and cookie pass, whose wait for a clickable consent button can raise);
   * `heroAppears` — the article hero turns up within the 10-second wait;
   * `title` — the text of the title heading, None when there is none;
   * `datetimeAttr` — the `datetime` attribute of the publication time element, None when there is none;
   * `paragraphs` — the texts of the body paragraphs, in document order;
   * `metaDescriptions` — the `content` attribute of each meta description element, None where it is missing;
   * `author`, `category` — their element's text, None when the 20-second wait for it times out.
   */
  datatype ArticlePage = ArticlePage(
    opens: bool,
    heroAppears: bool,
    title: Option<string>,
    datetimeAttr: Option<string>,
    paragraphs: seq<string>,
    metaDescriptions: seq<Option<string>>,
    author: Option<string>,
    category: Option<string>)

  /** The document handed to the host; `id` and `storage` are always None and are not kept. */
  datatype Document = Document(
    title: string,
    abstractText: Option<string>,
    text: Option<string>,
    link: string,
    author: string,
    category: string,
    published: DateTime,
    loaded: DateTime)

  /** Why building a document raised. */
  datatype ExtractError = LoadFailed | NoHero | NoTitle | NoDateElement | BadDate | NoAuthor | NoCategory

  /** The fallback abstract keeps this many characters of the first paragraph. */
  const AbstractLimit: nat := 200
  const Ellipsis: string := "..."

  function Min(a: nat, b: nat): nat { if a <= b then a else b }

  predicate NoNewline(s: string) { forall i :: 0 <= i < |s| ==> s[i] != '\n' }

  /** The total number of characters in the paragraphs. */
  function TotalLength(ps: seq<string>): nat {
    if ps == [] then 0 else |ps[0]| + TotalLength(ps[1..])
  }

  /** `'\n'.join(ps)`: every paragraph and one separator between each two. */
  function JoinLines(ps: seq<string>): (r: string)
    ensures ps != [] ==> |r| + 1 == TotalLength(ps) + |ps|
    ensures ps != [] ==> |ps[0]| <= |r| && r[..|ps[0]|] == ps[0]
  {
    if ps == [] then "" else if |ps| == 1 then ps[0] else ps[0] + "\n" + JoinLines(ps[1..])
  }

  /** `s.split('\n')`: the pieces between newlines; always at least one. */
  function SplitLines(s: string): (r: seq<string>)
    ensures |r| >= 1
    decreases |s|
  {
    if s == [] then [""]
    else
      var rest := SplitLines(s[1..]);
      if s[0] == '\n' then [""] + rest else [[s[0]] + rest[0]] + rest[1..]
  }

  /** Python's `s[:n]`. */
  function Take(s: string, n: nat): (r: string)
    ensures |r| == Min(|s|, n) && r == s[..|r|]
  {
    if |s| <= n then s else s[..n]
  }

  /** The body text: the paragraphs joined by newlines, or None when there are none. */
  function TextOf(paragraphs: seq<string>): (r: Option<string>)
    ensures r.None? <==> paragraphs == []
    ensures r.Some? ==> |r.value| + 1 == TotalLength(paragraphs) + |paragraphs|
  {
    if paragraphs == [] then None else Some(JoinLines(paragraphs))
  }

  /** The abstract: the first meta description's content, else the first paragraph cut to 200 characters with "...", else None. */
  function AbstractOf(metaDescriptions: seq<Option<string>>, paragraphs: seq<string>): (r: Option<string>)
    ensures metaDescriptions != [] ==> r == metaDescriptions[0]
    ensures metaDescriptions == [] ==> (r.Some? <==> paragraphs != [])
    ensures metaDescriptions == [] && paragraphs != [] ==>
      |r.value| == Min(|paragraphs[0]|, AbstractLimit) + |Ellipsis| &&
      r.value[|r.value| - |Ellipsis|..] == Ellipsis
  {
    if metaDescriptions != [] then metaDescriptions[0]
    else if paragraphs != [] then Some(Take(paragraphs[0], AbstractLimit) + Ellipsis)
    else None
  }

  /** `replace(tzinfo=None)`: the wall-clock fields are kept as they are and the offset is dropped. */
  function DropTimezone(d: DateTime): (r: DateTime)
    ensures r.utcOffset.None?
    ensures r.(utcOffset := d.utcOffset) == d
  {
    d.(utcOffset := None)
  }

  /** The first step of `_document_from_page` that raises on this page, if any, in the order the source takes them. */
  function ExtractionFailure(page: ArticlePage, parseIso: string -> Option<DateTime>): (r: Option<ExtractError>)
    ensures r.None? <==> page.opens && page.heroAppears && page.title.Some? && page.datetimeAttr.Some? &&
                         parseIso(page.datetimeAttr.value).Some? && page.author.Some? && page.category.Some?
    ensures r == Some(LoadFailed) <==> !page.opens
    ensures r == Some(NoHero) <==> page.opens && !page.heroAppears
    ensures r == Some(NoTitle) <==> page.opens && page.heroAppears && page.title.None?
    ensures r == Some(NoDateElement) <==> page.opens && page.heroAppears && page.title.Some? && page.datetimeAttr.None?
    ensures r == Some(BadDate) <==> page.opens && page.heroAppears && page.title.Some? && page.datetimeAttr.Some? &&
                                    parseIso(page.datetimeAttr.value).None?
    ensures r == Some(NoAuthor) ==> page.datetimeAttr.Some? && parseIso(page.datetimeAttr.value).Some? && page.author.None?
    ensures r == Some(NoCategory) ==> page.author.Some? && page.category.None?
  {
    if !page.opens then Some(LoadFailed)
    else if !page.heroAppears then Some(NoHero)
    else if page.title.None? then Some(NoTitle)
    else if page.datetimeAttr.None? then Some(NoDateElement)
    else if parseIso(page.datetimeAttr.value).None? then Some(BadDate)
    else if page.author.None? then Some(NoAuthor)
    else if page.category.None? then Some(NoCategory)
    else None
  }

  /**
   * `_document_from_page(url)` on the page the browser shows at `url`, with
   * `parseIso` standing for `datetime.fromisoformat` and `now` for the clock.
   */
  function BuildDocument(url: string, page: ArticlePage, parseIso: string -> Option<DateTime>, now: DateTime)
    : (r: Result<Document, ExtractError>)
    ensures r.Ok? <==> page.opens && page.heroAppears && page.title.Some? && page.datetimeAttr.Some? &&
                       parseIso(page.datetimeAttr.value).Some? && page.author.Some? && page.category.Some?
    ensures r.Err? ==> ExtractionFailure(page, parseIso) == Some(r.error)
    ensures r.Ok? ==> r.value.link == url && r.value.loaded == now && r.value.published.utcOffset.None?
    ensures r.Ok? ==> (r.value.text.None? <==> page.paragraphs == [])
    ensures r.Ok? ==> r.value.title == page.title.value &&
                      r.value.abstractText == AbstractOf(page.metaDescriptions, page.paragraphs) &&
                      r.value.text == TextOf(page.paragraphs) &&
                      r.value.published == DropTimezone(parseIso(page.datetimeAttr.value).value) &&
                      r.value.author == page.author.value && r.value.category == page.category.value
  {
    match ExtractionFailure(page, parseIso)
    case Some(e) => Err(e)
    case None =>
      Ok(Document(
        title := page.title.value,
        abstractText := AbstractOf(page.metaDescriptions, page.paragraphs),
        text := TextOf(page.paragraphs),
        link := url,
        author := page.author.value,
        category := page.category.value,
        published := DropTimezone(parseIso(page.datetimeAttr.value).value),
        loaded := now))
  }

  /** A single line splits back into itself. */
  lemma {:induction false} SplitSingleLine(p: string)
    requires NoNewline(p)
    ensures SplitLines(p) == [p]
  {
    if p != [] {
      SplitSingleLine(p[1..]);
      assert p[0] != '\n';
      assert [p[0]] + p[1..] == p;
    }
  }

  /** Splitting after a leading line gives that line and then the split of the rest. */
  lemma {:induction false} SplitAfterLine(p: string, t: string)
    requires NoNewline(p)
    ensures SplitLines(p + "\n" + t) == [p] + SplitLines(t)
  {
    var s := p + "\n" + t;
    if p == [] {
      assert s[0] == '\n' && s[1..] == t;
    } else {
      assert s[1..] == p[1..] + "\n" + t;
      SplitAfterLine(p[1..], t);
      assert s[0] == p[0] && [p[0]] + p[1..] == p;
    }
  }

  /** Splitting the joined body on newlines gives back the paragraphs, when no paragraph holds a newline. */
  lemma {:induction false} SplitJoin(ps: seq<string>)
    requires ps != []
    requires forall i :: 0 <= i < |ps| ==> NoNewline(ps[i])
    ensures SplitLines(JoinLines(ps)) == ps
  {
    if |ps| == 1 {
      SplitSingleLine(ps[0]);
    } else {
      SplitJoin(ps[1..]);
      SplitAfterLine(ps[0], JoinLines(ps[1..]));
    }
  }

  /** Joining the pieces of any string with newlines gives the string back. */
  lemma {:induction false} JoinSplit(s: string)
    ensures JoinLines(SplitLines(s)) == s
    decreases |s|
  {
    if s != [] {
      var rest := SplitLines(s[1..]);
      JoinSplit(s[1..]);
      if s[0] == '\n' {
        assert SplitLines(s)[1..] == rest;
      } else if |rest| == 1 {
        assert JoinLines(SplitLines(s)) == [s[0]] + rest[0];
      } else {
        var pieces := SplitLines(s);
        assert pieces[1..] == rest[1..];
        assert JoinLines(rest) == rest[0] + "\n" + JoinLines(rest[1..]);
        assert JoinLines(pieces) == ([s[0]] + rest[0]) + "\n" + JoinLines(rest[1..]);
      }
    }
  }

  /** The joined body starts with the first paragraph. */
  lemma {:induction false} JoinStartsWithFirst(ps: seq<string>)
    requires ps != []
    ensures |ps[0]| <= |JoinLines(ps)| && JoinLines(ps)[..|ps[0]|] == ps[0]
  {
    if |ps| > 1 {
      assert JoinLines(ps) == ps[0] + ("\n" + JoinLines(ps[1..]));
    }
  }

  /**
   * When no paragraph holds a newline, the body text holds the paragraphs in
   * order, one per line.
   */
  lemma TextLaw(ps: seq<string>)
    requires forall i :: 0 <= i < |ps| ==> NoNewline(ps[i])
    ensures TextOf(ps).Some? ==> SplitLines(TextOf(ps).value) == ps
  {
    if ps != [] {
      SplitJoin(ps);
    }
  }

  /**
   * The abstract: the first meta description's content whenever there is one,
   * whatever the body; otherwise the first paragraph's first min(len, 200)
   * characters followed by "...", which is also a prefix of the body text and
   * equals the body's first 200 characters plus "..." when the first paragraph
   * is that long; None when there is neither.
   */
  lemma AbstractLaw(metas: seq<Option<string>>, ps: seq<string>)
    ensures metas != [] ==> AbstractOf(metas, ps) == metas[0]
    ensures metas == [] && ps == [] ==> AbstractOf(metas, ps) == None
    ensures metas == [] && ps != [] ==>
      var a := AbstractOf(metas, ps).value;
      var n := Min(|ps[0]|, AbstractLimit);
      && |a| == n + 3
      && a == ps[0][..n] + Ellipsis
      && n <= |TextOf(ps).value| && a[..n] == TextOf(ps).value[..n]
      && (|ps[0]| >= AbstractLimit ==> a == TextOf(ps).value[..AbstractLimit] + Ellipsis)
  {
    if metas == [] && ps != [] {
      JoinStartsWithFirst(ps);
      var a := AbstractOf(metas, ps).value;
      var n := Min(|ps[0]|, AbstractLimit);
      var text := JoinLines(ps);
      assert text[..n] == text[..|ps[0]|][..n];
      assert a[..n] == ps[0][..n];
    }
  }

  /** Dropping the timezone keeps every wall-clock field, forgets the offset, and is idempotent. */
  lemma DropTimezoneLaw(d: DateTime, e: DateTime)
    ensures DropTimezone(d).utcOffset == None
    ensures var r := DropTimezone(d);
      r.year == d.year && r.month == d.month && r.day == d.day &&
      r.hour == d.hour && r.minute == d.minute && r.second == d.second && r.microsecond == d.microsecond
    ensures DropTimezone(DropTimezone(d)) == DropTimezone(d)
    ensures d.(utcOffset := e.utcOffset) == e ==> DropTimezone(d) == DropTimezone(e)
  {
  }

  /** The same article page gives the same document whenever it is read; only `loaded` follows the clock. */
  lemma BuildIsIdempotent(url: string, page: ArticlePage, parseIso: string -> Option<DateTime>, now1: DateTime, now2: DateTime)
    ensures BuildDocument(url, page, parseIso, now1).Ok? == BuildDocument(url, page, parseIso, now2).Ok?
    ensures BuildDocument(url, page, parseIso, now1).Ok? ==>
      BuildDocument(url, page, parseIso, now1).value.(loaded := now2) == BuildDocument(url, page, parseIso, now2).value
  {
  }
}
