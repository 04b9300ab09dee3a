/**
  bci/scraper.py: the first BCI scraper. Each card is read through fallback chains of
  selectors; a page counts as loaded once one of three card selectors finds at least three
  cards, three of the first five of which carry a text longer than five characters.
*/
module BciScraper {
  import opened Wrappers
  import opened Text
  import opened Seqs
  import opened Dom
  import opened Browser
  import opened Locate
  import opened Classify
  import opened BciBenefit
  import BciPager

  const TitleSels: seq<Selector> := [TagClassSel("p", "card__title"), ClassSel("card__title"), TagSel("h3"), TagSel("h2")]
  const DescSels: seq<Selector> := [TagClassSel("p", "card__bajada"), ClassSel("card__bajada"), TagSel("p")]
  const OfferSels: seq<Selector> := [TagClassSel("p", "badge-offer"), ClassSel("badge-offer"), ClassSel("badge")]
  const PaymentSels: seq<Selector> := [TagClassSel("span", "badge"), ClassSel("badge-pill")]
  /** The card selectors, tried in this order both by the readiness check and by the page reader. */
  const CardSels: seq<Selector> := [
    TagClassSel("article", "card-benefit-v2"),
    TagClassSel("div", "carrousel__item"),
    Selector(Some("a"), [], HasAttr("id-comercio"))
  ]
  /** Where the readiness check looks for a card's text. */
  const TextSels: seq<Selector> := [TagClassSel("p", "card__title"), ClassSel("card__title"), TagSel("h3"), TagSel("h2"), TagSel("p")]
  const AppSel: Selector := Selector(None, [], AttrIs("id", "app"))
  /** The timeout of the `#app` wait, counted in polls. */
  const AppWait: nat := 15
  const Attempts: nat := 18

  /** `extract_benefit_info`: the record read from one card. */
  function BenefitInfo(card: Node): Benefit {
    var title := FirstFound(card, TitleSels).GetOr("");
    var desc := FirstAccepted(card, DescSels, 0, [title]).GetOr("");
    var offer := FirstFound(card, OfferSels);
    var payment := FirstAccepted(card, PaymentSels, 0, ["cashback", "descuento"]).GetOr("");
    Benefit(
      title, desc, CardUrl(card),
      if offer.Some? then ClassifyOffer(offer.value) else NoOffer,
      offer.GetOr(""),
      payment,
      Categorize(BciRules, DefaultCategory, Lower(title), Lower(desc)))
  }

  /**
    A card's record: a description never repeats the title, the payment method is never an
    offer word, an offer type goes with its value, the category is the one its title and
    description give, and the link is the card's.
  */
  lemma BenefitInfoShape(card: Node)
    ensures var b := BenefitInfo(card);
      && (b.description != "" ==> b.description != b.title)
      && b.paymentMethod != "cashback" && b.paymentMethod != "descuento"
      && (b.offerType == NoOffer ==> b.offerValue == "")
      && (b.offerType != NoOffer ==> b.offerType == ClassifyOffer(b.offerValue))
      && b.category == Categorize(BciRules, DefaultCategory, Lower(b.title), Lower(b.description))
      && b.url == CardUrl(card)
  {
  }

  /** The selector loops of `extract_benefit_info`, one per field. */
  method ExtractBenefitInfo(card: Node) returns (b: Benefit)
    ensures b == BenefitInfo(card)
  {
    var title := FindFirstText(card, TitleSels);
    var titleText := if title.Some? then title.value else "";
    var desc := FindAcceptedText(card, DescSels, 0, [titleText]);
    var offer := FindFirstText(card, OfferSels);
    var offerType, offerValue := NoOffer, "";
    if offer.Some? {
      offerType, offerValue := ClassifyOffer(offer.value), offer.value;
    }
    var payment := FindAcceptedText(card, PaymentSels, 0, ["cashback", "descuento"]);
    var descText := if desc.Some? then desc.value else "";
    b := Benefit(
      titleText, descText, CardUrl(card), offerType, offerValue,
      if payment.Some? then payment.value else "",
      Categorize(BciRules, DefaultCategory, Lower(titleText), Lower(descText)));
  }

  /** A card with real content: one of the text selectors finds a text longer than five characters. */
  predicate CardHasText(card: Node) {
    FirstAccepted(card, TextSels, 5, []).Some?
  }

  /** At least three cards, and three of the first five with real content. */
  predicate SelectorReady(dom: Node, sel: Selector) {
    var elements := FindAll(dom, sel);
    |elements| >= 3 && CountIf(Prefix(elements, 5), CardHasText) >= 3
  }

  /** Some selector of `sels` is ready. */
  predicate AnyReady(dom: Node, sels: seq<Selector>) {
    sels != [] && (SelectorReady(dom, sels[0]) || AnyReady(dom, sels[1..]))
  }

  /** A selector list is ready exactly when one of its selectors is. */
  lemma {:induction false} AnyReadyMeaning(dom: Node, sels: seq<Selector>)
    ensures AnyReady(dom, sels) <==> exists i :: 0 <= i < |sels| && SelectorReady(dom, sels[i])
  {
    if sels != [] {
      AnyReadyMeaning(dom, sels[1..]);
      if AnyReady(dom, sels[1..]) {
        var i :| 0 <= i < |sels[1..]| && SelectorReady(dom, sels[1..][i]);
        assert sels[1..][i] == sels[i + 1];
      }
      forall i | 1 <= i < |sels| ensures sels[i] == sels[1..][i - 1] {
      }
    }
  }

  /** The loaded page of `wait_for_benefits_to_load`: one of the card selectors is ready. */
  predicate PageReady(dom: Node) {
    AnyReady(dom, CardSels)
  }

  /** One card selector of the readiness test: its cards, and how many of the first five carry a text. */
  method CheckSelector(dom: Node, sel: Selector) returns (ready: bool)
    ensures ready == SelectorReady(dom, sel)
  {
    var elements := FindAll(dom, sel);
    if |elements| < 3 {
      return false;
    }
    var validElements := CountWhere(Prefix(elements, 5), CardHasText);
    ready := validElements >= 3;
  }

  /** The body of one attempt of `wait_for_benefits_to_load`: the loops over selectors, cards and text selectors. */
  method CheckPageReady(dom: Node) returns (ready: bool)
    ensures ready == PageReady(dom)
  {
    ready := false;
    assert CardSels[0..] == CardSels;
    for k := 0 to |CardSels|
      invariant AnyReady(dom, CardSels[k..]) == PageReady(dom)
    {
      assert CardSels[k..][0] == CardSels[k] && CardSels[k..][1..] == CardSels[k + 1..];
      ready := CheckSelector(dom, CardSels[k]);
      if ready {
        return;
      }
    }
  }

  predicate HasApp(dom: Node) {
    FindFirst(dom, AppSel).Some?
  }

  /**
    What `wait_for_benefits_to_load` does: wait for the `#app` element, then poll the page up
    to 18 times for readiness.
  */
  function WaitForBenefits(s: Session): (bool, Session) {
    GatedPoll(s, AppWait, HasApp, Attempts, PageReady)
  }

  method WaitForBenefitsToLoad(s: Session) returns (ok: bool, t: Session)
    ensures (ok, t) == WaitForBenefits(s)
  {
    var (app, s1) := Poll(s, AppWait, HasApp);
    if !app {
      return false, s1;
    }
    t := s1;
    var attempt := 0;
    while attempt < Attempts
      invariant 0 <= attempt <= Attempts
      invariant Poll(s1, Attempts, PageReady) == Poll(t, Attempts - attempt, PageReady)
    {
      var ready := CheckPageReady(Current(t));
      if ready {
        return true, t;
      }
      t := Tick(t);
      attempt := attempt + 1;
    }
    return false, t;
  }

  /** The cards of the first selector that finds any (`if elements: ... break`). */
  function CardsOf(dom: Node, sels: seq<Selector>): (cards: seq<Node>)
    ensures cards == [] <==> forall i :: 0 <= i < |sels| ==> FindAll(dom, sels[i]) == []
  {
    if sels == [] then []
    else if FindAll(dom, sels[0]) != [] then FindAll(dom, sels[0])
    else
      var rest := CardsOf(dom, sels[1..]);
      assert forall i :: 1 <= i < |sels| ==> sels[i] == sels[1..][i - 1];
      rest
  }

  /** A card's record when it has a title: `if benefit and benefit.get('title')`. */
  function TitledInfo(card: Node): Option<Benefit> {
    var b := BenefitInfo(card);
    if b.title != "" then Some(b) else None
  }

  /** The records of `cards` that have a title, in card order. */
  function WithTitle(cards: seq<Node>): seq<Benefit> {
    Collect(cards, TitledInfo)
  }

  /** `get_current_page_benefits` on the DOM the driver shows. */
  function PageBenefits(dom: Node): seq<Benefit> {
    WithTitle(CardsOf(dom, CardSels))
  }

  /** The selector loop of `get_current_page_benefits`. */
  method FindCards(dom: Node) returns (cards: seq<Node>)
    ensures cards == CardsOf(dom, CardSels)
  {
    cards := [];
    var k := 0;
    while k < |CardSels|
      invariant 0 <= k <= |CardSels|
      invariant CardsOf(dom, CardSels) == CardsOf(dom, CardSels[k..])
    {
      assert CardSels[k..][1..] == CardSels[k + 1..];
      var elements := FindAll(dom, CardSels[k]);
      if elements != [] {
        return elements;
      }
      k := k + 1;
    }
  }

  /** The card loop of `get_current_page_benefits`: every card read, the ones with a title kept in order. */
  method KeepWithTitle(cards: seq<Node>) returns (benefits: seq<Benefit>)
    ensures |benefits| <= |cards|
    ensures forall b :: b in benefits ==> b.title != ""
    ensures benefits == WithTitle(cards)
  {
    benefits := CollectEach(cards, TitledInfo);
    CollectFrom(cards, TitledInfo);
  }

  method GetCurrentPageBenefits(dom: Node) returns (benefits: seq<Benefit>)
    ensures benefits == PageBenefits(dom)
  {
    var cards := FindCards(dom);
    benefits := KeepWithTitle(cards);
  }

  /** `get_total_pages`: the paginator's page count, or 1 when there is no paginator. */
  function TotalPages(dom: Node): nat {
    match FindFirst(dom, TagClassSel("div", "paginator"))
    case Some(paginator) => BciPager.MaxPage(FindAll(paginator, BciPager.ButtonSel))
    case None => 1
  }

  method GetTotalPages(dom: Node) returns (n: nat)
    ensures n == TotalPages(dom)
  {
    var paginator := FindFirst(dom, TagClassSel("div", "paginator"));
    if paginator.None? {
      return 1;
    }
    n := BciPager.CountPages(FindAll(paginator.value, BciPager.ButtonSel));
  }
}
