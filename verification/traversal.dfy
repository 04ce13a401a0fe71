/**
 * The traversal driver (`_parse`): walk the listing pages, collect each page's
 * article links, build a document per link and hand it to the host's `_find`,
 * stopping on a listing that cannot be opened or on a document outside the
 * date restriction.
 *
 * The browser and the host are oracles gathered in `Env`. The endless page
 * walk is cut to a budget of listing pages; a run that uses its budget up
 * without stopping ends `Suspended`, where the source would go on to the next
 * page.
 */
module Traversal {
  import opened Wrappers
  import opened Listing
  import opened LinkExtractor
  import opened Articles

  /** The restriction a refused document violates; only the date lower bound is told apart. */
  datatype Restriction = FromDate | OtherRestriction(name: string)

  /** What the host's `_find` does with a document: accept it or raise an out-of-restriction error. */
  datatype Verdict = Accepted | OutOfRestriction(restriction: Restriction)

  /**
   * The world the driver talks to:
   * `listing`, `article` — what the browser shows at a URL;
   * `parseIso` — `datetime.fromisoformat`, None where it raises;
   * `find` — the host's `_find`, given the documents submitted before;
   * `clock` — `datetime.now()` when the k-th document (from 0) is built.
   */
  datatype Env = Env(
    listing: string -> ListingPage,
    article: string -> ArticlePage,
    parseIso: string -> Option<DateTime>,
    find: (seq<Document>, Document) -> Verdict,
    clock: nat -> DateTime)

  /** How a run ends. None of them is a normal return: the source's loop never ends by itself. */
  datatype Outcome =
    | ListingUnreachable(url: string)        // S3PPluginParserFinish: the listing page cannot be opened
    | OutOfDateRange(doc: Document)          // S3PPluginParserFinish: `doc` is older than the date restriction
    | Raised(url: string, error: LinkError)  // an exception of the link extractor escapes
    | Suspended                              // the page budget is used up; the source would carry on

  /** A whole run: how it ended and every document submitted to `_find`, in order. */
  datatype Run = Run(outcome: Outcome, submitted: seq<Document>)

  /** The links of one page: the document that crossed the date bound, if any, and the documents submitted so far. */
  datatype LinksRun = LinksRun(dateStop: Option<Document>, submitted: seq<Document>)

  /** Building a document from this link does not raise. */
  predicate Extracts(env: Env, url: string) {
    ExtractionFailure(env.article(url), env.parseIso).None?
  }

  /** The document built from `url` when it is the k-th document built. */
  function DocumentAt(env: Env, url: string, k: nat): Document
    requires Extracts(env, url)
  {
    BuildDocument(url, env.article(url), env.parseIso, env.clock(k)).value
  }

  /** The links whose extraction succeeds, in their order. */
  function ExtractableLinks(env: Env, links: seq<string>): (r: seq<string>)
    ensures |r| <= |links|
    ensures forall i :: 0 <= i < |r| ==> Extracts(env, r[i])
  {
    if links == [] then []
    else (if Extracts(env, links[0]) then [links[0]] else []) + ExtractableLinks(env, links[1..])
  }

  /** The inner loop of `_parse` over the links of one page. */
  function ProcessLinks(env: Env, links: seq<string>, submitted: seq<Document>): (r: LinksRun)
    ensures |submitted| <= |r.submitted| <= |submitted| + |links|
    ensures r.dateStop.Some? ==> |r.submitted| > |submitted|
    decreases |links|
  {
    if links == [] then LinksRun(None, submitted)
    else
      var post := links[0];
      match BuildDocument(post, env.article(post), env.parseIso, env.clock(|submitted|))
      case Err(_) => ProcessLinks(env, links[1..], submitted)
      case Ok(doc) =>
        if env.find(submitted, doc) == OutOfRestriction(FromDate) then LinksRun(Some(doc), submitted + [doc])
        else ProcessLinks(env, links[1..], submitted + [doc])
  }

  /** The outer loop of `_parse`, from listing page `pageNumber` on, for at most `budget` pages. */
  function ProcessPages(env: Env, pageNumber: nat, budget: nat, submitted: seq<Document>): (r: Run)
    ensures |r.submitted| >= |submitted|
    ensures r.outcome.OutOfDateRange? ==> |r.submitted| > |submitted|
    ensures budget == 0 ==> r.outcome == Suspended
    decreases budget
  {
    if budget == 0 then Run(Suspended, submitted)
    else
      var url := PageUrl(pageNumber);
      var page := env.listing(url);
      if !page.opens then Run(ListingUnreachable(url), submitted)
      else match PageLinksOf(page)
        case Err(e) => Run(Raised(url, e), submitted)
        case Ok(links) =>
          var r := ProcessLinks(env, links, submitted);
          if r.dateStop.Some? then Run(OutOfDateRange(r.dateStop.value), r.submitted)
          else ProcessPages(env, pageNumber + 1, budget - 1, r.submitted)
  }

  /** The article links of the listing pages a run from `pageNumber` reaches, page after page. */
  function ReachedLinks(env: Env, pageNumber: nat, budget: nat): seq<string>
    decreases budget
  {
    if budget == 0 then []
    else
      var page := env.listing(PageUrl(pageNumber));
      if !page.opens then []
      else match PageLinksOf(page)
        case Err(_) => []
        case Ok(links) => links + ReachedLinks(env, pageNumber + 1, budget - 1)
  }

  /** No submitted document was refused for the date restriction. */
  ghost predicate NoDateRefusal(env: Env, sub: seq<Document>) {
    forall i :: 0 <= i < |sub| ==> env.find(sub[..i], sub[i]) != OutOfRestriction(FromDate)
  }

  /**
   * A document is refused for the date restriction exactly when it is the last
   * one submitted and the run ended on it.
   */
  ghost predicate DateStopLaw(env: Env, run: Run) {
    (run.outcome.OutOfDateRange? ==> |run.submitted| > 0 && run.submitted[|run.submitted| - 1] == run.outcome.doc) &&
    forall i :: 0 <= i < |run.submitted| ==>
      (env.find(run.submitted[..i], run.submitted[i]) == OutOfRestriction(FromDate) <==>
       run.outcome.OutOfDateRange? && i == |run.submitted| - 1)
  }

  /** `_parse` over the first `budget` listing pages. */
  method Parse(env: Env, budget: nat) returns (outcome: Outcome, submitted: seq<Document>)
    ensures Run(outcome, submitted) == ProcessPages(env, 1, budget, [])
  {
    var walker := new PageLinkWalker();
    submitted := [];
    var visited := 0;
    while visited < budget
      invariant walker.Valid() && walker.pageNumber == visited + 1 && visited <= budget
      invariant ProcessPages(env, 1, budget, []) == ProcessPages(env, walker.pageNumber, budget - visited, submitted)
    {
      var pageLink := walker.Next();
      var page := env.listing(pageLink);
      if !page.opens {
        return ListingUnreachable(pageLink), submitted;
      }
      var found := PageLinks(page);
      if found.Err? {
        return Raised(pageLink, found.error), submitted;
      }
      var posts := found.value;
      ghost var before := submitted;
      var i := 0;
      while i < |posts|
        invariant 0 <= i <= |posts|
        invariant ProcessLinks(env, posts, before) == ProcessLinks(env, posts[i..], submitted)
      {
        var post := posts[i];
        assert posts[i..][1..] == posts[i + 1..];
        var built := BuildDocument(post, env.article(post), env.parseIso, env.clock(|submitted|));
        if built.Ok? {
          var doc := built.value;
          var verdict := env.find(submitted, doc);
          submitted := submitted + [doc];
          if verdict == OutOfRestriction(FromDate) {
            return OutOfDateRange(doc), submitted;
          }
        }
        i := i + 1;
      }
      visited := visited + 1;
    }
    outcome := Suspended;
  }

  lemma {:induction false} ExtractableLinksAppend(env: Env, a: seq<string>, b: seq<string>)
    ensures ExtractableLinks(env, a + b) == ExtractableLinks(env, a) + ExtractableLinks(env, b)
  {
    if a != [] {
      assert (a + b)[0] == a[0];
      assert (a + b)[1..] == a[1..] + b;
      ExtractableLinksAppend(env, a[1..], b);
      var head := if Extracts(env, a[0]) then [a[0]] else [];
      assert ExtractableLinks(env, a + b) == head + ExtractableLinks(env, a[1..] + b);
      assert ExtractableLinks(env, a) == head + ExtractableLinks(env, a[1..]);
      assert head + (ExtractableLinks(env, a[1..]) + ExtractableLinks(env, b))
          == (head + ExtractableLinks(env, a[1..])) + ExtractableLinks(env, b);
    } else {
      assert a + b == b;
    }
  }

  /** A link whose extraction fails is skipped: the page runs as if it were not there. */
  lemma {:induction false} FailedExtractionsAreSkipped(env: Env, links: seq<string>, s: seq<Document>)
    ensures ProcessLinks(env, links, s) == ProcessLinks(env, ExtractableLinks(env, links), s)
  {
    if links != [] {
      FailedExtractionsAreSkipped(env, links[1..], s);
      var post := links[0];
      var built := BuildDocument(post, env.article(post), env.parseIso, env.clock(|s|));
      if !Extracts(env, post) {
        assert built.Err?;
        assert ExtractableLinks(env, links) == ExtractableLinks(env, links[1..]);
      } else {
        var rest := ExtractableLinks(env, links[1..]);
        assert built.Ok?;
        assert ExtractableLinks(env, links) == [post] + rest;
        assert ([post] + rest)[0] == post && ([post] + rest)[1..] == rest;
        FailedExtractionsAreSkipped(env, links[1..], s + [built.value]);
      }
    }
  }

  /**
   * The documents of one page are submitted in link order: the k-th document
   * after `s` is built from the k-th extractable link with the clock reading
   * of its position, and all extractable links are used unless the date bound
   * stopped the page.
   */
  lemma {:induction false} LinksSubmittedInOrder(env: Env, links: seq<string>, s: seq<Document>)
    ensures var r := ProcessLinks(env, links, s);
      var good := ExtractableLinks(env, links);
      && |s| <= |r.submitted| <= |s| + |good|
      && r.submitted[..|s|] == s
      && (forall i :: |s| <= i < |r.submitted| ==> r.submitted[i] == DocumentAt(env, good[i - |s|], i))
      && (r.dateStop.None? ==> |r.submitted| == |s| + |good|)
  {
    if links != [] {
      var post := links[0];
      var rest := ExtractableLinks(env, links[1..]);
      if !Extracts(env, post) {
        assert ProcessLinks(env, links, s) == ProcessLinks(env, links[1..], s);
        assert ExtractableLinks(env, links) == rest;
        LinksSubmittedInOrder(env, links[1..], s);
      } else {
        var doc := DocumentAt(env, post, |s|);
        var good := ExtractableLinks(env, links);
        assert good == [post] + rest;
        if env.find(s, doc) == OutOfRestriction(FromDate) {
          assert ProcessLinks(env, links, s) == LinksRun(Some(doc), s + [doc]);
          assert (s + [doc])[..|s|] == s;
        } else {
          assert ProcessLinks(env, links, s) == ProcessLinks(env, links[1..], s + [doc]);
          LinksSubmittedInOrder(env, links[1..], s + [doc]);
          var r := ProcessLinks(env, links, s);
          assert r.submitted[..|s| + 1] == s + [doc];
          assert r.submitted[..|s|] == (s + [doc])[..|s|];
          forall i | |s| <= i < |r.submitted| ensures r.submitted[i] == DocumentAt(env, good[i - |s|], i) {
            if i == |s| {
              assert r.submitted[i] == (s + [doc])[i];
            } else {
              assert good[i - |s|] == rest[i - (|s| + 1)];
            }
          }
        }
      }
    }
  }

  /**
   * Documents are submitted in page order and, within a page, in link order:
   * the k-th document after `s` is built from the k-th extractable link among
   * the pages reached, and every such link is used unless the run ended on the
   * date bound.
   */
  lemma {:induction false} PagesSubmittedInOrder(env: Env, n: nat, budget: nat, s: seq<Document>)
    ensures var r := ProcessPages(env, n, budget, s);
      var good := ExtractableLinks(env, ReachedLinks(env, n, budget));
      && |s| <= |r.submitted| <= |s| + |good|
      && r.submitted[..|s|] == s
      && (forall i :: |s| <= i < |r.submitted| ==> r.submitted[i] == DocumentAt(env, good[i - |s|], i))
      && (!r.outcome.OutOfDateRange? ==> |r.submitted| == |s| + |good|)
    decreases budget
  {
    if budget > 0 {
      var page := env.listing(PageUrl(n));
      if page.opens && PageLinksOf(page).Ok? {
        var links := PageLinksOf(page).value;
        var lr := ProcessLinks(env, links, s);
        LinksSubmittedInOrder(env, links, s);
        var here := ExtractableLinks(env, links);
        var later := ExtractableLinks(env, ReachedLinks(env, n + 1, budget - 1));
        ExtractableLinksAppend(env, links, ReachedLinks(env, n + 1, budget - 1));
        var good := here + later;
        if lr.dateStop.None? {
          PagesSubmittedInOrder(env, n + 1, budget - 1, lr.submitted);
          var r := ProcessPages(env, n, budget, s);
          assert r == ProcessPages(env, n + 1, budget - 1, lr.submitted);
          assert r.submitted[..|s|] == r.submitted[..|lr.submitted|][..|s|];
          forall i | |s| <= i < |r.submitted| ensures r.submitted[i] == DocumentAt(env, good[i - |s|], i) {
            if i < |lr.submitted| {
              assert r.submitted[i] == r.submitted[..|lr.submitted|][i];
            }
          }
        }
      }
    }
  }

  /** Within a page: a date refusal ends the page on the refused document, and no earlier document of the page was refused for the date. */
  lemma {:induction false} LinksDateStop(env: Env, links: seq<string>, s: seq<Document>)
    requires NoDateRefusal(env, s)
    ensures var r := ProcessLinks(env, links, s);
      && |r.submitted| >= |s| && r.submitted[..|s|] == s
      && (r.dateStop.None? ==> NoDateRefusal(env, r.submitted))
      && (r.dateStop.Some? ==>
            var last := |r.submitted| - 1;
            last >= |s| && r.submitted[last] == r.dateStop.value &&
            NoDateRefusal(env, r.submitted[..last]) &&
            env.find(r.submitted[..last], r.submitted[last]) == OutOfRestriction(FromDate))
  {
    if links != [] {
      var post := links[0];
      if !Extracts(env, post) {
        LinksDateStop(env, links[1..], s);
      } else {
        var doc := DocumentAt(env, post, |s|);
        var s' := s + [doc];
        assert s'[..|s|] == s;
        if env.find(s, doc) == OutOfRestriction(FromDate) {
          assert ProcessLinks(env, links, s) == LinksRun(Some(doc), s');
        } else {
          assert NoDateRefusal(env, s') by {
            forall i | 0 <= i < |s'| ensures env.find(s'[..i], s'[i]) != OutOfRestriction(FromDate) {
              if i < |s| {
                assert s'[..i] == s[..i] && s'[i] == s[i];
              }
            }
          }
          LinksDateStop(env, links[1..], s');
          var r := ProcessLinks(env, links, s);
          assert r.submitted[..|s|] == r.submitted[..|s'|][..|s|];
        }
      }
    }
  }

  /** Across pages: the run ends on a date refusal exactly at the refused document. */
  lemma {:induction false} PagesDateStop(env: Env, n: nat, budget: nat, s: seq<Document>)
    requires NoDateRefusal(env, s)
    ensures var r := ProcessPages(env, n, budget, s);
      && |r.submitted| >= |s|
      && (!r.outcome.OutOfDateRange? ==> NoDateRefusal(env, r.submitted))
      && (r.outcome.OutOfDateRange? ==>
            var last := |r.submitted| - 1;
            last >= |s| && r.submitted[last] == r.outcome.doc &&
            NoDateRefusal(env, r.submitted[..last]) &&
            env.find(r.submitted[..last], r.submitted[last]) == OutOfRestriction(FromDate))
    decreases budget
  {
    var r := ProcessPages(env, n, budget, s);
    if budget > 0 {
      var page := env.listing(PageUrl(n));
      if page.opens && PageLinksOf(page).Ok? {
        var links := PageLinksOf(page).value;
        LinksDateStop(env, links, s);
        var lr := ProcessLinks(env, links, s);
        if lr.dateStop.None? {
          assert r == ProcessPages(env, n + 1, budget - 1, lr.submitted);
          PagesDateStop(env, n + 1, budget - 1, lr.submitted);
        } else {
          assert r == Run(OutOfDateRange(lr.dateStop.value), lr.submitted);
        }
      } else {
        assert r.submitted == s && !r.outcome.OutOfDateRange?;
      }
    } else {
      assert r == Run(Suspended, s);
    }
  }

  /**
   * In a whole run, a document refused for the date restriction is the last one
   * submitted and the run ends on it; a refusal for any other restriction never
   * ends the run.
   */
  lemma ParseDateStop(env: Env, budget: nat)
    ensures DateStopLaw(env, ProcessPages(env, 1, budget, []))
  {
    PagesDateStop(env, 1, budget, []);
    var r := ProcessPages(env, 1, budget, []);
    if r.outcome.OutOfDateRange? {
      var last := |r.submitted| - 1;
      forall i | 0 <= i < |r.submitted|
        ensures env.find(r.submitted[..i], r.submitted[i]) == OutOfRestriction(FromDate) <==> i == last
      {
        if i < last {
          assert r.submitted[..last][..i] == r.submitted[..i] && r.submitted[..last][i] == r.submitted[i];
        }
      }
    }
  }

  /** A run that has stopped stays stopped: a larger page budget changes neither the outcome nor the documents submitted. */
  lemma {:induction false} StopIsFinal(env: Env, n: nat, b1: nat, b2: nat, s: seq<Document>)
    requires b1 <= b2
    requires ProcessPages(env, n, b1, s).outcome != Suspended
    ensures ProcessPages(env, n, b2, s) == ProcessPages(env, n, b1, s)
    decreases b1
  {
    var page := env.listing(PageUrl(n));
    if page.opens && PageLinksOf(page).Ok? {
      var lr := ProcessLinks(env, PageLinksOf(page).value, s);
      if lr.dateStop.None? {
        StopIsFinal(env, n + 1, b1 - 1, b2 - 1, lr.submitted);
      }
    }
  }

  /**
   * A run that ends on a listing page names that page: it is one of the pages
   * within the budget, and it either could not be opened (Finish) or its link
   * extraction raised.
   */
  lemma {:induction false} StopNamesItsPage(env: Env, n: nat, budget: nat, s: seq<Document>)
    ensures var r := ProcessPages(env, n, budget, s);
      (r.outcome.ListingUnreachable? ==>
         exists k :: n <= k < n + budget && r.outcome.url == PageUrl(k) && !env.listing(PageUrl(k)).opens) &&
      (r.outcome.Raised? ==>
         exists k :: n <= k < n + budget && r.outcome.url == PageUrl(k) &&
                     env.listing(PageUrl(k)).opens && PageLinksOf(env.listing(PageUrl(k))) == Err(r.outcome.error))
    decreases budget
  {
    if budget > 0 {
      var page := env.listing(PageUrl(n));
      var r := ProcessPages(env, n, budget, s);
      if !page.opens || PageLinksOf(page).Err? {
        assert r.outcome.ListingUnreachable? || r.outcome.Raised? ==> r.outcome.url == PageUrl(n);
      } else {
        var lr := ProcessLinks(env, PageLinksOf(page).value, s);
        if lr.dateStop.None? {
          StopNamesItsPage(env, n + 1, budget - 1, lr.submitted);
        }
      }
    }
  }

  /** A listing page that cannot be opened ends the run at once: nothing more is submitted, for it or for any later page. */
  lemma UnreachableListingEndsRun(env: Env, n: nat, budget: nat, s: seq<Document>)
    requires budget > 0 && !env.listing(PageUrl(n)).opens
    ensures ProcessPages(env, n, budget, s) == Run(ListingUnreachable(PageUrl(n)), s)
  {
  }

  /**
   * A listing page with no cards never ends the run normally: the wait raises,
   * or, when a card shows up late, the page contributes no link and the run
   * goes on with the next page.
   */
  lemma EmptyListingNeverFinishes(env: Env, n: nat, budget: nat, s: seq<Document>)
    requires budget > 0
    requires var page := env.listing(PageUrl(n)); page.opens && page.reopens && page.cards == []
    ensures var page := env.listing(PageUrl(n));
      ProcessPages(env, n, budget, s) ==
        if page.cardAppearsLater then ProcessPages(env, n + 1, budget - 1, s)
        else Run(Raised(PageUrl(n), NoCardsInTime), s)
  {
  }
}
