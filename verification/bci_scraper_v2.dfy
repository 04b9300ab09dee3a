/**
  bci/scraper_v2.py: the second BCI scraper. It reads only carousel items: the link of an item,
  the article inside that link, and fixed selectors inside the article.
*/
module BciScraperV2 {
  import opened Wrappers
  import opened Text
  import opened Seqs
  import opened Dom
  import opened Browser
  import opened Classify
  import opened BciBenefit
  import BciPager

  const ItemSel: Selector := TagClassSel("div", "carrousel__item")
  const TitleSel: Selector := TagClassSel("p", "card__title")
  const BajadaSel: Selector := TagClassSel("p", "card__bajada")
  const OfferSel: Selector := TagClassSel("p", "badge-offer")
  const BadgeSel: Selector := TagClassSel("span", "badge")
  /** Bajada lines that are only the start of a date or schedule phrase. */
  const Fillers: seq<string> := ["Hasta", "Del", "Todos los", "De lunes a viernes"]
  const MaxAttempts: nat := 20

  /** A stripped bajada text worth keeping: not empty and not a filler. */
  predicate KeptText(t: string) {
    t != "" && t !in Fillers
  }

  /** The stripped texts of the bajada elements, in order. */
  function StrippedTexts(bajadas: seq<Node>): (r: seq<string>)
    ensures |r| == |bajadas|
  {
    seq(|bajadas|, i requires 0 <= i < |bajadas| => Strip(bajadas[i].text))
  }

  /** The stripped bajada texts kept for the description: not empty and not a filler. */
  function KeptBajadas(bajadas: seq<Node>): (r: seq<string>)
    ensures |r| <= |bajadas|
    ensures forall t :: t in r ==> t != "" && t !in Fillers
  {
    if bajadas == [] then []
    else
      var t := Strip(bajadas[0].text);
      (if t != "" && t !in Fillers then [t] else []) + KeptBajadas(bajadas[1..])
  }

  lemma {:induction false} KeptBajadasIsFilter(bajadas: seq<Node>)
    ensures KeptBajadas(bajadas) == Filter(StrippedTexts(bajadas), KeptText)
  {
    if bajadas != [] {
      var texts := StrippedTexts(bajadas);
      KeptBajadasIsFilter(bajadas[1..]);
      assert texts[1..] == StrippedTexts(bajadas[1..]);
      var t := texts[0];
      assert t == Strip(bajadas[0].text);
      assert KeptBajadas(bajadas) == (if KeptText(t) then [t] else []) + KeptBajadas(bajadas[1..]);
      assert Filter(texts, KeptText) == (if KeptText(t) then [t] else []) + Filter(texts[1..], KeptText);
    }
  }

  /**
    The description keeps every stripped bajada text that is not empty and not a filler, as
    often as it occurs, in bajada order, and no other text.
  */
  lemma KeptBajadasMeaning(bajadas: seq<Node>)
    ensures IsSubsequence(KeptBajadas(bajadas), StrippedTexts(bajadas))
    ensures forall t ::
      multiset(KeptBajadas(bajadas))[t] == (if KeptText(t) then multiset(StrippedTexts(bajadas))[t] else 0)
  {
    KeptBajadasIsFilter(bajadas);
    FilterMeaning(StrippedTexts(bajadas), KeptText);
  }

  lemma KeptBajadasStep(bajadas: seq<Node>, i: nat)
    requires i < |bajadas|
    ensures var t := Strip(bajadas[i].text);
      KeptBajadas(bajadas[i..]) == (if KeptText(t) then [t] else []) + KeptBajadas(bajadas[i + 1..])
  {
    assert bajadas[i..][0] == bajadas[i] && bajadas[i..][1..] == bajadas[i + 1..];
  }

  /** The description loop over the bajada elements. */
  method KeepBajadas(bajadas: seq<Node>) returns (descriptions: seq<string>)
    ensures descriptions == KeptBajadas(bajadas)
  {
    descriptions := [];
    assert bajadas[0..] == bajadas;
    for i := 0 to |bajadas|
      invariant descriptions + KeptBajadas(bajadas[i..]) == KeptBajadas(bajadas)
    {
      KeptBajadasStep(bajadas, i);
      var text := Strip(bajadas[i].text);
      if KeptText(text) {
        assert (descriptions + [text]) + KeptBajadas(bajadas[i + 1..]) == descriptions + ([text] + KeptBajadas(bajadas[i + 1..]));
        descriptions := descriptions + [text];
      } else {
        assert KeptBajadas(bajadas[i..]) == KeptBajadas(bajadas[i + 1..]);
      }
    }
    assert bajadas[|bajadas|..] == [];
  }

  /** The record read from the article of an item whose link is `link`. */
  function ArticleBenefit(link: Node, article: Node): (b: Benefit)
    ensures b.title == match FindFirst(article, TitleSel) case Some(e) => Strip(e.text) case None => ""
    ensures b.description == Join(" ", KeptBajadas(FindAll(article, BajadaSel)))
    ensures b.offerValue == match FindFirst(article, OfferSel) case Some(e) => Strip(e.text) case None => ""
    ensures b.paymentMethod == match FindFirst(article, BadgeSel) case Some(e) => Strip(e.text) case None => ""
    ensures b.url == AttrOr(link, "href")
    ensures b.offerType == NoOffer <==> FindFirst(article, OfferSel).None?
    ensures b.offerType != NoOffer ==> b.offerType == ClassifyOffer(b.offerValue)
    ensures b.category == Categorize(CarrouselRules, DefaultCategory, Lower(b.title), Lower(b.description))
  {
    var title := match FindFirst(article, TitleSel) case Some(e) => Strip(e.text) case None => "";
    var desc := Join(" ", KeptBajadas(FindAll(article, BajadaSel)));
    var offer := FindFirst(article, OfferSel);
    var offerText := if offer.Some? then Strip(offer.value.text) else "";
    var payment := match FindFirst(article, BadgeSel) case Some(e) => Strip(e.text) case None => "";
    Benefit(
      title, desc, AttrOr(link, "href"),
      if offer.Some? then ClassifyOffer(offerText) else NoOffer,
      offerText, payment,
      Categorize(CarrouselRules, DefaultCategory, Lower(title), Lower(desc)))
  }

  /**
    `extract_benefit_from_carrousel_item`: None when the item has no link, the link no
    article, or the article no title; otherwise the article's record.
  */
  function CarrouselBenefit(item: Node): (r: Option<Benefit>)
    ensures FindFirst(item, TagSel("a")).None? ==> r.None?
    ensures r.Some? ==> r.value.title != ""
    ensures r.Some? ==> exists link, article ::
      FindFirst(item, TagSel("a")) == Some(link) && FindFirst(link, TagSel("article")) == Some(article) &&
      r.value == ArticleBenefit(link, article)
    ensures forall link, article ::
      FindFirst(item, TagSel("a")) == Some(link) && FindFirst(link, TagSel("article")) == Some(article) ==>
        r == if ArticleBenefit(link, article).title != "" then Some(ArticleBenefit(link, article)) else None
  {
    match FindFirst(item, TagSel("a"))
    case None => None
    case Some(link) =>
      match FindFirst(link, TagSel("article"))
      case None => None
      case Some(article) =>
        var b := ArticleBenefit(link, article);
        if b.title != "" then Some(b) else None
  }

  method ExtractBenefitFromCarrouselItem(item: Node) returns (r: Option<Benefit>)
    ensures r == CarrouselBenefit(item)
  {
    var link := FindFirst(item, TagSel("a"));
    if link.None? {
      return None;
    }
    var article := FindFirst(link.value, TagSel("article"));
    if article.None? {
      return None;
    }
    var titleElem := FindFirst(article.value, TitleSel);
    var title := if titleElem.Some? then Strip(titleElem.value.text) else "";
    var descriptions := KeepBajadas(FindAll(article.value, BajadaSel));
    var desc := Join(" ", descriptions);
    var offerElem := FindFirst(article.value, OfferSel);
    var offerType, offerValue := NoOffer, "";
    if offerElem.Some? {
      offerValue := Strip(offerElem.value.text);
      offerType := ClassifyOffer(offerValue);
    }
    var badge := FindFirst(article.value, BadgeSel);
    var payment := if badge.Some? then Strip(badge.value.text) else "";
    var b := Benefit(
      title, desc, AttrOr(link.value, "href"), offerType, offerValue, payment,
      Categorize(CarrouselRules, DefaultCategory, Lower(title), Lower(desc)));
    r := if b.title != "" then Some(b) else None;
  }

  /** An item with a title longer than ten characters. */
  predicate ItemHasTitle(item: Node) {
    var t := FindFirst(item, TitleSel);
    t.Some? && |Strip(t.value.text)| > 10
  }

  /** At least five items, five of the first eight with a long title. */
  predicate ItemsReady(dom: Node) {
    var items := FindAll(dom, ItemSel);
    |items| >= 5 && CountIf(Prefix(items, 8), ItemHasTitle) >= 5
  }

  /** The body of one attempt of `wait_for_dynamic_content`. */
  method CheckItemsReady(dom: Node) returns (ready: bool)
    ensures ready == ItemsReady(dom)
  {
    var items := FindAll(dom, ItemSel);
    if |items| < 5 {
      return false;
    }
    var firstEight := Prefix(items, 8);
    var validItems := CountWhere(firstEight, ItemHasTitle);
    ready := validItems >= 5;
  }

  /** What `wait_for_dynamic_content` does: up to 20 polls for readiness. */
  function WaitForContent(s: Session): (bool, Session) {
    Poll(s, MaxAttempts, ItemsReady)
  }

  method WaitForDynamicContent(s: Session) returns (ok: bool, t: Session)
    ensures (ok, t) == WaitForContent(s)
  {
    t := s;
    var attempt := 0;
    while attempt < MaxAttempts
      invariant 0 <= attempt <= MaxAttempts
      invariant Poll(s, MaxAttempts, ItemsReady) == Poll(t, MaxAttempts - attempt, ItemsReady)
    {
      var ready := CheckItemsReady(Current(t));
      if ready {
        return true, t;
      }
      t := Tick(t);
      attempt := attempt + 1;
    }
    return false, t;
  }

  /** `get_page_benefits` on the DOM the driver shows: the records of the items that yield one, in item order. */
  function PageBenefits(dom: Node): seq<Benefit> {
    Collect(FindAll(dom, ItemSel), CarrouselBenefit)
  }

  /** The item loop of `get_page_benefits`: at most one record per item, each with a title. */
  method GetPageBenefits(dom: Node) returns (benefits: seq<Benefit>)
    ensures |benefits| <= |FindAll(dom, ItemSel)|
    ensures forall b :: b in benefits ==> b.title != ""
    ensures benefits == PageBenefits(dom)
  {
    var items := FindAll(dom, ItemSel);
    benefits := CollectEach(items, CarrouselBenefit);
    CollectFrom(items, CarrouselBenefit);
  }

  /** `get_total_pages`: the page count over every paginator button of the document. */
  function TotalPages(dom: Node): nat {
    BciPager.MaxPage(FindAll(dom, BciPager.ButtonSel))
  }

  method GetTotalPages(dom: Node) returns (n: nat)
    ensures n == TotalPages(dom)
  {
    n := BciPager.CountPages(FindAll(dom, BciPager.ButtonSel));
  }
}
