/**
 * The link extractor: reload a listing page, wait for article cards, and read
 * the href of the title link of every card, in card order (`_page_links`).
 */
module LinkExtractor {
  import opened Wrappers

  /** One article card; `titleHref` is the href of the anchor in its title heading, None when the heading or the anchor is missing. */
  datatype Card = Card(titleHref: Option<string>)

  /**
   * What the browser shows at a listing URL:
   * `opens` — the driver's first visit there returns normally (`_initial_access_source`:
   *   navigation, settle delay and cookie pass, whose wait for a clickable consent button can raise);
   * `reopens` — the second visit, made by the link extractor itself, returns normally;
   * `cards` — the card elements found right after that navigation, in document order;
   * `cardAppearsLater` — some card element turns up within the 20-second wait.
   */
  datatype ListingPage = ListingPage(opens: bool, reopens: bool, cards: seq<Card>, cardAppearsLater: bool)

  /** The exceptions the link extractor lets escape. */
  datatype LinkError =
    | ReloadFailed                  // the navigation at the start raised
    | NoCardsInTime                 // the wait for a card timed out
    | CardWithoutTitle(index: nat)  // the card at `index` has no title link

  /**
   * The wait for a card succeeds when a card was already found (the cards found
   * match the condition waited for) or one appears in time.
   */
  predicate CardWaitSucceeds(page: ListingPage) {
    |page.cards| > 0 || page.cardAppearsLater
  }

  /** One href per card in card order, or the index of the first card without a title link. */
  function CardHrefs(cards: seq<Card>): (r: Result<seq<string>, nat>)
    ensures r.Ok? ==> |r.value| == |cards| && forall i :: 0 <= i < |cards| ==> cards[i].titleHref == Some(r.value[i])
    ensures r.Err? ==> r.error < |cards| && cards[r.error].titleHref.None? &&
                       forall i :: 0 <= i < r.error ==> cards[i].titleHref.Some?
  {
    if cards == [] then Ok([])
    else match cards[0].titleHref
      case None => Err(0)
      case Some(href) =>
        match CardHrefs(cards[1..])
        case Ok(rest) => Ok([href] + rest)
        case Err(k) => Err(k + 1)
  }

  /** What `_page_links` returns or raises on a listing page. */
  function PageLinksOf(page: ListingPage): (r: Result<seq<string>, LinkError>)
    ensures r.Ok? <==> page.reopens && CardWaitSucceeds(page) &&
                       forall i :: 0 <= i < |page.cards| ==> page.cards[i].titleHref.Some?
    ensures r.Ok? ==> |r.value| == |page.cards| &&
                      forall i :: 0 <= i < |page.cards| ==> page.cards[i].titleHref == Some(r.value[i])
    ensures r == Err(ReloadFailed) <==> !page.reopens
    ensures r == Err(NoCardsInTime) <==> page.reopens && !CardWaitSucceeds(page)
    ensures r.Err? && r.error.CardWithoutTitle? ==>
      page.reopens && CardWaitSucceeds(page) && r.error.index < |page.cards| &&
      page.cards[r.error.index].titleHref.None? &&
      forall i :: 0 <= i < r.error.index ==> page.cards[i].titleHref.Some?
  {
    if !page.reopens then Err(ReloadFailed)
    else if !CardWaitSucceeds(page) then Err(NoCardsInTime)
    else match CardHrefs(page.cards)
      case Ok(links) => Ok(links)
      case Err(k) => Err(CardWithoutTitle(k))
  }

  /** A page whose cards all have a title link yields exactly one link per card, in order. */
  lemma AllTitledCardsGiveAllLinks(page: ListingPage)
    requires page.reopens && |page.cards| >= 1
    requires forall i :: 0 <= i < |page.cards| ==> page.cards[i].titleHref.Some?
    ensures PageLinksOf(page).Ok?
    ensures |PageLinksOf(page).value| == |page.cards|
    ensures forall i :: 0 <= i < |page.cards| ==> PageLinksOf(page).value[i] == page.cards[i].titleHref.value
  {
  }

  /** A page with no cards never yields links unless a card shows up late, and then it yields none. */
  lemma EmptyListing(page: ListingPage)
    requires page.reopens && page.cards == []
    ensures PageLinksOf(page) == if page.cardAppearsLater then Ok([]) else Err(NoCardsInTime)
  {
  }

  /** The loop of `_page_links`: append the title href of each card, raising at the first card without one. */
  method PageLinks(page: ListingPage) returns (r: Result<seq<string>, LinkError>)
    ensures r == PageLinksOf(page)
  {
    if !page.reopens {
      return Err(ReloadFailed);
    }
    var docTable := page.cards;
    if !CardWaitSucceeds(page) {
      return Err(NoCardsInTime);
    }
    var postLinks: seq<string> := [];
    var i := 0;
    while i < |docTable|
      invariant 0 <= i <= |docTable|
      invariant |postLinks| == i
      invariant forall j :: 0 <= j < i ==> docTable[j].titleHref == Some(postLinks[j])
    {
      match docTable[i].titleHref {
        case None =>
          assert CardHrefs(docTable).Err? && CardHrefs(docTable).error == i;
          return Err(CardWithoutTitle(i));
        case Some(webLink) =>
          postLinks := postLinks + [webLink];
      }
      i := i + 1;
    }
    assert CardHrefs(docTable).Ok?;
    assert CardHrefs(docTable).value == postLinks;
    r := Ok(postLinks);
  }
}
