/** The record the three BCI scrapers build for one benefit card (one row of their CSV file). */
module BciBenefit {
  import opened Wrappers
  import opened Dom
  import opened Classify

  datatype Benefit = Benefit(
    title: string,
    description: string,
    url: string,
    offerType: Offer,
    offerValue: string,
    paymentMethod: string,
    category: string)

  /** The dedup key of every BCI scraper. */
  function Title(b: Benefit): string {
    b.title
  }

  /**
    The url of bci/scraper.py and bci/scraper_final.py: a card that is itself a link gives its
    own `href`, any other card the `href` of the first link inside it, and '' when it has none.
  */
  function CardUrl(card: Node): string {
    if card.tag == "a" then AttrOr(card, "href")
    else
      match FindFirst(card, TagSel("a"))
      case Some(link) => AttrOr(link, "href")
      case None => ""
  }
}
