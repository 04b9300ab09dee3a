# Offline benefit scrapers, modelled in Dafny

The repository collects the card benefits that Chilean banks and clubs publish and turns them
into SQL. It has two parts:

- Selenium scrapers for BCI (three generations), Entel and Banco de Chile. A BeautifulSoup
  interpreter for a saved page of Universidad Mayor.
- Two migration scripts that turn the scraped CSV files into `INSERT` statements.

This project models the logic that sits between the browser and those files:

- how each scraper reads a benefit card through chains of selectors;
- how offers and categories are classified;
- the readiness quorum and the bounded attempt loops;
- the page count and the page traversal with its dedup over a growing set of seen titles;
- the Entel payload decoding, with its markdown stripping and its merge of cards and banners;
- the UMayor card-to-record mapping;
- the SQL literal escaping and statement assembly of the two migrations.

The browser is data. A DOM is a tree of `Dom.Node` values, which are searched with simple CSS
selectors. A `Browser.Session` is a site given as a list of pages. Each page is the sequence of
DOM snapshots it passes through while it is polled. The session also says which page is shown
and how many polls have gone by. Each Python loop is a Dafny method with a loop. The method is
proved equal to a specification function, and the promises of the source are lemmas about that
function.

Files:

| file | what it holds |
|---|---|
| `wrappers.dfy`, `seqs.dfy`, `text.dfy` | Option/Result; flattening, filtering and counting loops; Python's `strip`, `lower`, `split`, `replace`, `join`, `isdigit` |
| `dom.dfy`, `browser.dfy` | the DOM tree and selector search; sessions, polls and waits |
| `locate.dfy`, `classify.dfy`, `dedup.dfy` | selector fallback chains; offer type and category rules; the seen-title dedup shared by every scraper |
| `bci_benefit.dfy`, `bci_scraper.dfy`, `bci_scraper_v2.dfy`, `bci_pager.dfy`, `bci_paging.dfy`, `bci_scraper_final.dfy` | the three BCI scrapers |
| `entel_scraper.dfy`, `bancochile_scraper.dfy`, `umayor_interpreter.dfy` | the other scrapers |
| `sql.dfy`, `migration_builder.dfy`, `umayor_migration.dfy` | SQL escaping, an SQL literal reader as its inverse, the two migrations |

## Model

| member | source | states |
|---|---|---|
| Text.Strip | bci/scraper.py:76 | `strip()`: the result has no leading or trailing whitespace and is no longer than the input |
| Text.StripMeaning | bci/scraper.py:76 | `strip()` is the slice of the text between a whitespace prefix and a whitespace suffix |
| Text.Lower | bci/scraper.py:116-121 | `lower()`: same length, each character lowered |
| Text.Split | bci/scraper_final.py:184 | `split('\n')`: at least one part, no part holds the separator |
| Text.SplitJoin | bci/scraper_final.py:184 | joining the parts of `split(sep)` with `sep` gives back the text |
| Text.Take | bci/scraper_final.py:197 | `s[:500]`: the prefix of `s` of length exactly 500 when `s` is longer, all of `s` otherwise |
| Seqs.Prefix | bci/scraper.py:198 | `elements[:5]`: a prefix of at most n elements, all of them when fewer |
| Seqs.CountWhere | bci/scraper.py:197-212 | the counting loop returns the number of elements satisfying the test |
| Seqs.CountIfPositive | bci/scraper_final.py:297-312 | a count is positive exactly when some element passes (the `if not text_elements` test) |
| Seqs.CollectEach | bci/scraper.py:248-252 | the element loop that appends each record read, skipping elements that give none, yields the records in element order |
| Seqs.CollectFrom | bci/scraper_v2.py:188-192 | every record collected was read from some element |
| Seqs.ConcatAppend | bci/scraper.py:345-358 | flattening the page lists distributes over appending pages |
| Seqs.FilterMeaning | bci/scraper_v2.py:82-88 | a filter keeps each passing element as often as it occurs, in order, and no other |
| Dom.FindFirst | bci/scraper.py:75 | `find_element` finds something exactly when `find_elements` does |
| Dom.Select | bci/scraper.py:194 | every element found matches the selector |
| Dom.SelectMeaning | bci/scraper.py:194 | a search returns every matching node, once per occurrence, in document order, and no other node |
| Browser.PollMeaning | bci/scraper.py:180-224 | a bounded attempt loop succeeds exactly at the first ready poll within its budget, else spends every attempt; the page never changes |
| Browser.PollSucceeds | bci/scraper_v2.py:143-178 | a readiness loop succeeds exactly when the page is ready at one of its polls |
| Browser.GatedPollMeaning | bci/scraper.py:175-180 | a presence wait then attempts: success implies a ready page; a gate that never shows fails the wait; with the gate present, success iff some attempt is ready |
| Locate.Probe | bci/scraper.py:75-76 | a selector yields a text exactly when it finds an element |
| Locate.FirstAccepted | bci/scraper.py:85-94 | a text taken by an accepting chain passes its length and exclusion test |
| Locate.FindFirstText | bci/scraper.py:72-79 | the `try/break/except: continue` loop computes the first-found chain |
| Locate.FindAcceptedText | bci/scraper.py:85-94 | the loop that also tests the text computes the accepting chain |
| Locate.FirstFoundIsFirstHit | bci/scraper.py:72-79 | the first selector that finds an element decides the title, even when its text is empty |
| Locate.FirstFoundNone | bci/scraper.py:72-82 | the chain finds nothing exactly when no selector finds an element |
| Locate.FirstAcceptedIsFirstHit | bci/scraper.py:85-94 | the first selector with an acceptable text decides; earlier unacceptable finds are passed over |
| Locate.FirstAcceptedNone | bci/scraper.py:85-97 | the accepting chain yields nothing exactly when every selector finds nothing or an unacceptable text |
| Classify.ClassifyOffer | bci/scraper.py:116-123 | an offer text is never "no offer"; cashback > descuento > cuotas > otro on the lowered text, each an iff |
| Classify.CategorizeFirstHit | bci/scraper.py:153-164 | the first keyword set, in order, that hits the title or description decides the category |
| Classify.CategorizeDefault | bci/scraper.py:163-164 | with no keyword present the default category is given |
| Classify.CategorizeOnlyListed | bci/scraper.py:153-164 | the category given is the default or one of the rules' categories, never another text |
| Classify.RestaurantFirst | bci/scraper.py:153-156 | in all three scrapers a text is a restaurant exactly when the title or description holds one of the restaurant keywords, whatever else it holds |
| Classify.SameHitsSameCategory | bci/scraper.py:153-164 | rule lists with the same categories that hit alike categorize alike |
| Classify.AggressiveMatchesBci | bci/scraper_final.py:246-257 | the final scraper's keyword sets categorize exactly as bci/scraper.py's |
| Classify.CarrouselMatchesBciWithoutComida | bci/scraper_v2.py:125-136 | v2 categorizes as v1 on every text without 'comida' |
| Dedup.DistinctAppend | entel/scraper.py:211-259 | two title-distinct lists, the second using none of the first's titles, join without repeats |
| Dedup.KeepFirstUnique | bci/scraper.py:353-358 | every kept record has a new title longer than the minimum, and the kept titles are pairwise distinct |
| Dedup.KeepFirstSubsequence | bci/scraper.py:353-358 | dedup only filters: kept records appear in the input, in input order |
| Dedup.KeepFirstKeepsFirstOccurrence | bci/scraper.py:353-358 | the first admissible record with a given title is kept |
| Dedup.SeenAfterKeys | bci/scraper.py:356-357 | the seen set grows by exactly the titles of the records kept |
| Dedup.KeepFirstAppend | bci/scraper.py:341-358 | dedup over two pages continues on the second from the seen set the first left |
| Dedup.DedupPages | bci/scraper.py:341-358 | dedup over a page followed by later pages, with one shared seen set |
| Dedup.AddCollected | bci/scraper_final.py:338-345 | the element loop appends exactly the dedup of the records read and returns the grown seen set |
| Dedup.AddNew | bci/scraper.py:354-358 | the candidate loop appends exactly the dedup of the candidates and returns the grown seen set |
| BciScraper.BenefitInfoShape | bci/scraper.py:66-166 | a card's description never equals its title; its payment method is never 'cashback'/'descuento'; no offer means empty value, else the type classifies the value; category and url as the rules give |
| BciScraper.ExtractBenefitInfo | bci/scraper.py:66-166 | the four selector loops build the card's record |
| BciScraper.AnyReadyMeaning | bci/scraper.py:193-217 | the page is ready exactly when some card selector is ready |
| BciScraper.CheckSelector | bci/scraper.py:194-217 | a selector is ready iff it finds at least 3 cards and at least 3 of the first 5 carry a text longer than 5 |
| BciScraper.CheckPageReady | bci/scraper.py:187-217 | one attempt answers exactly the readiness quorum over the three card selectors |
| BciScraper.WaitForBenefitsToLoad | bci/scraper.py:171-227 | the `#app` wait then 18 attempts compute the gated poll |
| BciScraper.CardsOf | bci/scraper.py:241-246 | no cards exactly when every card selector finds nothing |
| BciScraper.FindCards | bci/scraper.py:241-246 | the selector loop takes the cards of the first selector that finds any |
| BciScraper.KeepWithTitle | bci/scraper.py:248-254 | at most one record per card, only records with a title, in card order |
| BciScraper.GetCurrentPageBenefits | bci/scraper.py:229-259 | the page's records as the selector and card loops give them |
| BciScraper.GetTotalPages | bci/scraper.py:261-279 | the paginator's page count, or 1 without a paginator |
| BciPager.MaxPageBounds | bci/scraper.py:267-276 | the page count is at least 1 and at least every all-digit label |
| BciPager.MaxPageAttained | bci/scraper.py:267-276 | the page count is 1 or the value of one of the labels |
| BciPager.CountPages | bci/scraper.py:267-276 | the `max_page` loop computes the maximum label |
| BciPager.GoToNextPage | bci/scraper.py:281-295 | "next" moves iff the right button exists and is not disabled; a move goes to the next page, otherwise nothing changes |
| BciPaging.VisitNumber | bci/scraper.py:345-363 | one page number: what it keeps, then what later pages keep, is what the walk keeps from here; a stop ends the loop |
| BciPaging.CrawlPages | bci/scraper.py:339-363 | the page loop keeps the first-occurrence dedup of every page read, in page order |
| BciPaging.ScrapeBciBenefits | bci/scraper.py:334-368 | `scrape_bci_benefits` of v1 or v2 returns the crawl of its wait, reader, count and click |
| BciPaging.ScrapeTitlesDistinct | bci/scraper.py:353-358 | no result has an empty title and no two share a title |
| BciPaging.ScrapeFromPages | bci/scraper.py:345-358 | every result was read from a page, in the order the pages were read |
| BciPaging.PagesReadBound | bci/scraper.py:345-363 | at most one page list per page number; skips and an early stop only shorten it |
| BciPaging.WaitKeepsPage | bci/scraper.py:348-349 | a skipped page clicks nothing: the next page number polls the same browser page |
| BciScraperV2.KeptBajadas | bci/scraper_v2.py:82-88 | description parts are non-empty, not fillers, at most one per bajada |
| BciScraperV2.KeptBajadasMeaning | bci/scraper_v2.py:82-88 | the description keeps every stripped bajada text that is non-empty and not a filler, as often as it occurs, in bajada order, and no other |
| BciScraperV2.KeepBajadas | bci/scraper_v2.py:82-88 | the bajada loop computes the kept parts |
| BciScraperV2.ArticleBenefit | bci/scraper_v2.py:73-136 | title, offer value and payment are the stripped texts of the first `card__title`, `badge-offer` and `badge` elements, '' when missing; the description joins the kept bajada texts with spaces; url from the link; no offer iff no offer badge, else the type classifies the value; carrousel category rules |
| BciScraperV2.CarrouselBenefit | bci/scraper_v2.py:60-141 | no link, no article or an empty title gives None; an item whose link holds an article with a non-empty title gives that article's record |
| BciScraperV2.ExtractBenefitFromCarrouselItem | bci/scraper_v2.py:60-141 | the lookups compute the item's record |
| BciScraperV2.CheckItemsReady | bci/scraper_v2.py:154-169 | ready iff at least 5 items and 5 of the first 8 have a title longer than 10 |
| BciScraperV2.WaitForDynamicContent | bci/scraper_v2.py:143-178 | 20 attempts compute the poll |
| BciScraperV2.GetPageBenefits | bci/scraper_v2.py:180-201 | at most one record per item, all titled, in item order |
| BciScraperV2.GetTotalPages | bci/scraper_v2.py:203-220 | the maximum label over all paginator buttons of the page |
| BciScraperFinal.Attempts | bci/scraper_final.py:76 | `max_wait // 5` attempts |
| BciScraperFinal.AnyHasContentMeaning | bci/scraper_final.py:98-125 | the page has content iff some selector has |
| BciScraperFinal.CheckSelector | bci/scraper_final.py:109-125 | a selector has content iff it finds elements and 3 of the first 10 have a text longer than 10 |
| BciScraperFinal.CheckContent | bci/scraper_final.py:107-129 | the selector loop answers the content check |
| BciScraperFinal.WaitAndInteractLoop | bci/scraper_final.py:61-151 | the `body` wait then `max_wait // 5` attempts compute the gated poll |
| BciScraperFinal.DigitsEnd | bci/scraper_final.py:215 | `\d+` runs to the first non-digit |
| BciScraperFinal.SpacesEnd | bci/scraper_final.py:215 | `\s*` runs over whitespace only, to the first non-space |
| BciScraperFinal.MatchEnd | bci/scraper_final.py:215 | a match at i starts with a digit and ends right after the word, matched ignoring case |
| BciScraperFinal.MatchEndComplete | bci/scraper_final.py:215 | digits, an optional '%', spaces and the word, ignoring case, always match, ending right after the word |
| BciScraperFinal.FirstMatch | bci/scraper_final.py:215 | `re.search` finds the leftmost match: none before it, none at all when None |
| BciScraperFinal.AmountMention | bci/scraper_final.py:215-217 | no amount exactly when no position matches |
| BciScraperFinal.AmountMentionShape | bci/scraper_final.py:215-217 | a found amount starts with a digit and ends with the word |
| BciScraperFinal.MatchText | bci/scraper_final.py:215 | the text of a match is an amount's text |
| BciScraperFinal.MentionOrWord | bci/scraper_final.py:215-226 | the offer value ends with the offer word: the amount, or the word itself |
| BciScraperFinal.OfferFromText | bci/scraper_final.py:210-232 | cashback > descuento > cuotas > none on the lowered text, each an iff; the cashback and descuento values are the amount found, else the word; cuotas value 'cuotas sin interés'; no offer has value '' |
| BciScraperFinal.OfferValueShape | bci/scraper_final.py:210-232 | no offer iff empty value; a cashback or descuento value ends with its word |
| BciScraperFinal.OfferAsWrittenDiffers | bci/scraper_final.py:214-226 | as written, exactly the descuento texts fail; every other text reads as intended |
| BciScraperFinal.PaymentOf | bci/scraper_final.py:235-240 | 'Online' iff 'online'; 'Presencial' iff 'presencial' and not 'online'; '' iff neither |
| BciScraperFinal.LineTitle | bci/scraper_final.py:184-189 | the title is a stripped line with 5 < length < 100; None iff no line fits |
| BciScraperFinal.LineTitleFirst | bci/scraper_final.py:184-189 | the first line that fits once stripped is the title |
| BciScraperFinal.FirstLineTitle | bci/scraper_final.py:182-189 | the line loop computes the line title |
| BciScraperFinal.TitleOf | bci/scraper_final.py:164-192 | a title is longer than 5: a selector text, else a line |
| BciScraperFinal.TitleOfMeaning | bci/scraper_final.py:164-192 | no title exactly when no selector gives a text longer than 5 and no line fits; an accepted selector text is the title |
| BciScraperFinal.BenefitOf | bci/scraper_final.py:195-257 | the record carries the title; its description is the stripped text with the title replaced by '', cut to 500 characters; the url is the card's link; the offer and value as found; the payment from the lowered text; the category by the keyword rules |
| BciScraperFinal.AnyBenefitInfo | bci/scraper_final.py:153-262 | a text shorter than 10 gives None; otherwise a record exactly when a title is found, carrying that title, the description, url, offer and payment of `BenefitOf` |
| BciScraperFinal.AsWrittenDropsDescuento | bci/scraper_final.py:214-222 | the function as written is the corrected one except that descuento cards give None |
| BciScraperFinal.ExtractAnyBenefitInfo | bci/scraper_final.py:153-262 | the title loops and text rules compute the record |
| BciScraperFinal.ExtractedTitles | bci/scraper_final.py:175-192 | every record read has a title longer than 5 |
| BciScraperFinal.HarvestBenefits | bci/scraper_final.py:333-351 | with the corrected reader: the selector loop stops at the first selector yielding a new title longer than 10 |
| BciScraperFinal.HarvestMeaning | bci/scraper_final.py:333-351 | for any reader, the corrected one included: titles longer than 10, pairwise distinct, and empty exactly when no selector yields anything |
| BciScraperFinal.HarvestIsFirst | bci/scraper_final.py:333-351 | for any reader: the harvest is what the first selector yielding anything yields |
| BciScraperFinal.AsWrittenCollectsNoDescuento | bci/scraper_final.py:214-222 | as written, elements whose records are all descuento cards yield nothing |
| BciScraperFinal.AsWrittenSkipsDescuentoSelector | bci/scraper_final.py:214-222 | as written, a selector of descuento cards is passed over for the next selector |
| BciScraperFinal.AsWrittenCollectsAlike | bci/scraper_final.py:214-222 | as written and corrected readers collect alike where no card is descuento |
| BciScraperFinal.AsWrittenHarvestAgrees | bci/scraper_final.py:214-222 | on a page with no descuento card the harvest as written equals the corrected one |
| BciScraperFinal.HasTextElements | bci/scraper_final.py:297-312 | the fallback scan finds an element with 20 < text length < 1000 iff one exists |
| BciScraperFinal.ScrapeBciAggressive | bci/scraper_final.py:289-361 | with the corrected reader: nothing when the wait and the fallback both fail, else the harvest |
| EntelScraper.UnescapePlain | entel/scraper.py:97-100 | an attribute without `&quot;` is parsed as it stands |
| EntelScraper.CloseAt | entel/scraper.py:113 | the lazy `.*?` closes at a `**` with no newline and no other `**` between the search start and it; None only when no `**` follows on the same line |
| EntelScraper.CloseAtFirst | entel/scraper.py:113 | the first `**` on the line, with none before it, is where the span closes |
| EntelScraper.StripBold | entel/scraper.py:113 | removing markers never lengthens the text |
| EntelScraper.BoldSpan | entel/scraper.py:113 | `**b**t`, with b one line free of `**` and not ending in `*`, becomes b followed by t with its own bold spans removed |
| EntelScraper.NoStarsAppend | entel/scraper.py:113 | deleting asterisks distributes over concatenation |
| EntelScraper.StripBoldOnlyDeletesStars | entel/scraper.py:113 | removing bold markers deletes asterisks only; all other characters stay, in order |
| EntelScraper.BoldSpanStars | entel/scraper.py:113 | a leading bold span loses only asterisks |
| EntelScraper.MarkersVanish | entel/scraper.py:113 | `**body**tail` without asterisks is body then tail without asterisks |
| EntelScraper.StripBoldPlain | entel/scraper.py:113 | a text without `**` is unchanged |
| EntelScraper.TextField | entel/scraper.py:107-109 | a missing key reads as '' |
| EntelScraper.CardFromJson | entel/scraper.py:104-125 | a card exactly when the payload is a non-empty list whose first entry is an object whose title, text and href are each a string, null or missing; its title and href are that entry's, its description the text with bold markers removed and stripped |
| EntelScraper.FirstEntryOnly | entel/scraper.py:104-105 | entries after the first never matter |
| EntelScraper.CardCandidate | entel/scraper.py:206-222 | a record exactly when the element has a payload that decodes to a card with a non-empty title; it is that card's title, description and url with category 'Club Entel' |
| EntelScraper.FreshCons | entel/scraper.py:247-259 | a new titled record in front of fresh records stays fresh |
| EntelScraper.FreshAppend | entel/scraper.py:236-263 | fresh runs against successive seen sets join into a fresh run |
| EntelScraper.BannerItemsFresh | entel/scraper.py:244-259 | a banner's items add only new non-empty titles, pairwise distinct, all recorded as seen |
| EntelScraper.BannersFresh | entel/scraper.py:236-263 | the same across all banners, threading one seen set |
| EntelScraper.ReadBannerItems | entel/scraper.py:244-259 | the item loop computes the banner's records and seen set |
| EntelScraper.ReadBanner | entel/scraper.py:237-259 | one banner element: payload, parse, list check, then its items |
| EntelScraper.VisitBanner | entel/scraper.py:236-263 | one pass of the banner loop keeps the loop's total result |
| EntelScraper.ReadBanners | entel/scraper.py:232-265 | the banner loop computes all banner records and the final seen set |
| EntelScraper.ScrapeEntelBenefits | entel/scraper.py:177-282 | nothing if no card shows in time; else, one poll later for the five-second pause, the cards then the banners |
| EntelScraper.TitlesDistinct | entel/scraper.py:211-259 | every output title is non-empty and appears once, across cards and banners |
| EntelScraper.CollectedCards | entel/scraper.py:203-222 | every card record has a title and category 'Club Entel' |
| EntelScraper.CardsBeforeBanners | entel/scraper.py:203-263 | all card records come before all banner records |
| EntelScraper.SplitConcat | entel/scraper.py:216-257 | card records then banner records split at the first banner |
| BancoChileScraper.ReadCard | bancodechile/scraper.py:105-119 | a card yields a record iff both its title and description elements exist; category 'Beneficios Bancarios' |
| BancoChileScraper.PageCardsCategory | bancodechile/scraper.py:111-115 | every record of a page is a bank benefit |
| BancoChileScraper.NextPage | bancodechile/scraper.py:122-127 | a successful click moves exactly one page on; a failed one moves nothing |
| BancoChileScraper.NextPageMeaning | bancodechile/scraper.py:122-127 | the page moves exactly when the right arrow shows at one of the ten polls, and then a fresh page shows |
| BancoChileScraper.WalkDedupStep | bancodechile/scraper.py:105-127 | the dedup over the walk is the current page's, then the rest's against its seen set |
| BancoChileScraper.Prepare | bancodechile/scraper.py:65-88 | the region selection and card wait keep the same site |
| BancoChileScraper.PrepareMeaning | bancodechile/scraper.py:65-88 | the setup succeeds exactly when the region select shows within its wait, is a `select` holding the Santiago option, and a card shows on the filtered listing within its wait; the loop starts there, on a page with cards |
| BancoChileScraper.GatherIsKept | bancodechile/scraper.py:95-134 | the page-by-page loop keeps what one dedup over all pages keeps, and returns when the walk returns |
| BancoChileScraper.VisitPage | bancodechile/scraper.py:98-134 | one pass keeps the loop's total and moves iff the click succeeded |
| BancoChileScraper.WalkPages | bancodechile/scraper.py:95-134 | the `while` loop computes the records kept and whether it ended by `return` |
| BancoChileScraper.ScrapeBancoChileAsWritten | bancodechile/scraper.py:56-134 | the function as written: the list on a failed click, None past the ceiling |
| BancoChileScraper.ScrapeBancoChileBenefits | bancodechile/scraper.py:56-134 | the corrected function: the records kept however the loop ends |
| BancoChileScraper.PagesBound | bancodechile/scraper.py:92-95 | no page past the fiftieth is read |
| BancoChileScraper.AtMostFiftyPages | bancodechile/scraper.py:92-95 | at most 50 pages are read |
| BancoChileScraper.AllBankAppend | bancodechile/scraper.py:111-115 | bank-only lists join into a bank-only list |
| BancoChileScraper.WalkCategory | bancodechile/scraper.py:111-115 | with a bank-only page reader, every page read holds bank benefits only |
| BancoChileScraper.ScrapeRecords | bancodechile/scraper.py:105-119 | the result holds bank benefits with pairwise distinct titles |
| BancoChileScraper.WalkHitsCeiling | bancodechile/scraper.py:95-134 | if "next" always works, the loop ends on its ceiling and never by `return` |
| BancoChileScraper.ArrowMeansMove | bancodechile/scraper.py:122-127 | a right arrow on every page means every click moves |
| BancoChileScraper.AsWrittenLosesRecordsAtCeiling | bancodechile/scraper.py:95-134 | as written, None exactly when the loop ends at the ceiling, which happens whenever the arrow is always there; otherwise the intended list |
| UMayorInterpreter.ModalCards | umayor/interpreter_umayor.py:19 | exactly the `a.card` elements whose `data-target` matches `modalBeneficios\d+` |
| UMayorInterpreter.ModalCardsMeaning | umayor/interpreter_umayor.py:19 | the cards kept are the matching `a.card` elements, in document order, each as often as it occurs |
| UMayorInterpreter.NoHash | umayor/interpreter_umayor.py:25 | the id holds no '#' |
| UMayorInterpreter.RemoveHashCons | umayor/interpreter_umayor.py:25 | `replace('#', '')` drops a '#' and keeps any other character |
| UMayorInterpreter.RemoveHashIsNoHash | umayor/interpreter_umayor.py:25 | the modal id is the target with every '#' removed, wherever it stands |
| UMayorInterpreter.RemoveHashAppend | umayor/interpreter_umayor.py:25 | removing '#' distributes over concatenation |
| UMayorInterpreter.RemoveHashKeepsMarker | umayor/interpreter_umayor.py:19-25 | the id still holds the `modalBeneficios<digit>` the card was chosen for |
| UMayorInterpreter.TextOf | umayor/interpreter_umayor.py:29-49 | a key is present exactly when its element is found |
| UMayorInterpreter.ImageOf | umayor/interpreter_umayor.py:52-54 | image_url is present iff there is an `img` with a non-empty `src` |
| UMayorInterpreter.CardRecord | umayor/interpreter_umayor.py:22-55 | the id has no '#'; title, date present iff found in the card; category, details present iff the modal exists and holds them; an image_url is non-empty and needs the modal |
| UMayorInterpreter.Records | umayor/interpreter_umayor.py:21-57 | one record per card |
| UMayorInterpreter.ReadText | umayor/interpreter_umayor.py:29-36 | the find-then-get_text step computes the optional text |
| UMayorInterpreter.ReadImage | umayor/interpreter_umayor.py:52-54 | the img step computes the optional url |
| UMayorInterpreter.ReadCard | umayor/interpreter_umayor.py:22-55 | the loop body fills the record key by key |
| UMayorInterpreter.ReadCards | umayor/interpreter_umayor.py:21-57 | the card loop computes the records |
| UMayorInterpreter.RecordsPerCard | umayor/interpreter_umayor.py:21-57 | every card yields exactly one record, in card order, keyed by its modal id |
| UMayorInterpreter.RecordIdsNameModals | umayor/interpreter_umayor.py:19-26 | every record id has no '#' and still names a `modalBeneficios<digit>` modal |
| UMayorInterpreter.CsvTable | umayor/interpreter_umayor.py:64-70 | a CSV only when there are records: the header first, then line i holds the six cells of record i |
| UMayorInterpreter.ReadLine | umayor/interpreter_umayor.py:65-70 | `csv.DictReader` on one line under the header gives exactly the six columns as keys |
| UMayorInterpreter.CsvRows | umayor/interpreter_umayor.py:64-70 | the written table reads back as one row per record; no records, no file and no rows |
| UMayorInterpreter.CsvRow | umayor/interpreter_umayor.py:65-70 | the line written for a record, read back under the header, has exactly the six columns; `id` and every key the record holds read back as its value; a key it lacks reads as '' |
| UMayorInterpreter.CsvRoundTrip | umayor/interpreter_umayor.py:64-70 | reading back the table written gives, for record i, line i with the record's values and '' for its missing keys |
| UMayorInterpreter.CleanHtmlFile | umayor/interpreter_umayor.py:7-70 | the run gives the records and the CSV exactly when there are records |
| UMayorInterpreter.AsWrittenFailsWithoutCards | umayor/interpreter_umayor.py:64-72 | as written the run fails iff there is no card, else it gives the intended output |
| SqlText.EscapeCons | migrations/builder.py:27-32 | escaping doubles a quote and keeps any other character |
| SqlText.EscapePlain | migrations/builder.py:27-32 | a field without quotes is written as it is |
| SqlText.EscapeLength | migrations/builder.py:27-32 | escaping adds exactly one character per quote |
| SqlText.UnescapeEscape | migrations/builder.py:27-32 | collapsing `''` back to `'` returns the original field |
| SqlText.Quote | migrations/builder.py:34 | a literal starts and ends with a quote |
| SqlText.ReadBody | migrations/builder.py:34 | the literal reader consumes input |
| SqlText.ReadLiteral | migrations/builder.py:34 | the literal reader consumes input |
| SqlText.BodyRoundTrip | migrations/builder.py:34 | an escaped field followed by the closing quote reads back as the field |
| SqlText.LiteralRoundTrip | migrations/builder.py:34 | a quoted field reads back as the field, whatever it holds |
| SqlText.ReadListCons | migrations/builder.py:34 | after a literal and `, `, reading goes on with the next literal |
| SqlText.ListRoundTrip | migrations/builder.py:34 | a comma-separated list of literals reads back as its fields |
| SqlText.TupleRoundTrip | migrations/builder.py:34 | a parenthesised row of literals reads back as its fields |
| MigrationBuilder.WriteStatements | migrations/builder.py:26-35 | the row loop writes the statements after what is already written |
| MigrationBuilder.GenerateSql | migrations/builder.py:10-35 | the writes give the DROP, the CREATE, then the INSERTs |
| MigrationBuilder.InsertRoundTrip | migrations/builder.py:27-34 | every INSERT reads back as the row's six values in column order; a missing column as '' |
| MigrationBuilder.ScriptShape | migrations/builder.py:12-35 | the script starts with DROP then CREATE, then exactly one INSERT per row, in row order |
| UMayorMigration.GenerateUMayorSql | umayor/migration_umayor.py:6-16 | the loop computes the header, the tuples joined by `,\n` and `;\n`, or the KeyError of the first incomplete row |
| UMayorMigration.RowTupleIsTuple | umayor/migration_umayor.py:11-15 | a complete row's tuple is its title, details, category and image_url, each escaped and quoted |
| UMayorMigration.RowTupleReadsBack | umayor/migration_umayor.py:11-15 | that tuple reads back as those four values |
| UMayorMigration.FourLiterals | umayor/migration_umayor.py:15 | the f-string is the parenthesised list of four literals |
| UMayorMigration.TuplesOfRows | umayor/migration_umayor.py:9-15 | rows convert iff each has the four columns; then one tuple per row, in row order |
| UMayorMigration.TuplesMeaning | umayor/migration_umayor.py:9-15 | the same, and each tuple reads back as its row's values |
| UMayorMigration.MigrationShape | umayor/migration_umayor.py:8-16 | header, one tuple per row joined by `,\n`, then `;\n`; no rows gives the header then `;\n` |
| UMayorMigration.InterpreterCsvConverts | umayor/interpreter_umayor.py:64-70 | the CSV the interpreter writes, read back line by line, always converts |

## Left out

- Selenium setup and teardown: Chrome options, `webdriver.Chrome`, `driver.get`, `driver.quit` and the fingerprint script. They are driver plumbing. A failure to start the browser or load the page is not modelled.
- Waits are counted in polls of the current DOM snapshot, not in seconds. `time.sleep`, scrolling, mouse moves and the click on a random visible element in bci/scraper_final.py:131-143 are what make one poll follow another. Here that is `Browser.Tick`. The random click does not change the page.
- `element_to_be_clickable` in bancodechile/scraper.py:123-124 is modelled as presence of the arrow. Visibility and enabledness are not modelled.
- The region selection in bancodechile/scraper.py:66-72 needs a `select` holding the option. The filtered listing is the next page of the site.
- The `break` when `find_elements` raises (bancodechile/scraper.py:101-103) is left out, because a DOM snapshot cannot raise. The same holds for the stale-element exceptions every `try/except: continue` guards against.
- `json.loads` is a parameter (`parse`) that gives None where it raises. The HTML tree is given as a `Dom.Node`.
- EntelScraper.TextField: a title, text or href that is not a string is treated as a failed card. The source emits all three. A non-string truthy title passes `if title` and is written as it is. A non-string href is passed through untouched (entel/scraper.py:109 and 255). A falsy non-string text (0, false, [] or {}) skips `if description:` and so the `re.sub` (entel/scraper.py:112 and 250), and is written as it is.
- UMayorInterpreter.TextOf reads an element's text as `Strip(e.text)`, the node's whole text stripped at its two ends. BeautifulSoup's `get_text(strip=True)` strips each text piece inside the element on its own and joins the non-empty pieces with no separator. So `<h4> Cine <b>2x1</b> </h4>` gives "Cine2x1" in the source and "Cine 2x1" here. The two agree on an element with a single text piece. `Dom.Node` keeps one text per node, not its pieces, so the model does not capture this joining. UMayorInterpreter.ReadText inherits the same difference.
- Text.IsSpace is the whitespace set of Python's `str.isspace()`, which `strip()` and `re`'s `\s` use. It is not limited to ASCII.
- Text.LowerChar lowers the ASCII and Latin-1 capitals only. Capitals of other scripts are kept as they are, where Python's `lower()` would lower them.
- Text.IsDigit accepts the ASCII digits only. Python's `\d` and `str.isdigit()` also accept the other Unicode decimal digits.
- Dom.FindAll searches strictly below the node it is given, so a search of the document leaves out the root `<html>` element, which Selenium and BeautifulSoup include. Only the `*` scan of bci/scraper_final.py:297 could match the root, on a page whose whole text is 21 to 999 characters long.
- EntelScraper.TextField reads a JSON `null` as '' where Python's `get` gives None. A null title skips the card either way. A null text or href is emitted as None in the source and as '' here, which `csv.DictWriter` writes as the same empty cell.
- CSV and JSON files are not modelled byte for byte. The UMayor CSV is a table of cells, and the CSV read by the migrations is a sequence of column-to-cell maps. Quoting and newlines inside cells are not modelled, and neither are `DictReader`'s None values for short lines.
- UMayorMigration.GenerateUMayorSql: on a KeyError the source has already written the header to the SQL file. The model returns the error only.
- The `save_benefits_to_csv` functions, `test_internet_connection` (entel/scraper.py:23-35), `print` logging, the category statistics in each `main`, the `input()` pause in bci/scraper_final.py:357, the `new_benefits` counter of bci/scraper_v2.py:286-292 and `datetime.now()` are I/O or logging only. bci/debug_scraper.py is not part of this model.
- Text.Strip: its own contract gives the shape of the result only. Text.StripMeaning states that it is the slice of the input between a whitespace prefix and a whitespace suffix.
- Text.Split: its own contract does not tie the parts to the text. Text.SplitJoin does.
- Dom.Select: its own contract states that every node found matches. Completeness, order and multiplicity are in Dom.SelectMeaning.
- BciScraperV2.KeptBajadas: its own contract bounds the kept parts. BciScraperV2.KeptBajadasMeaning states which texts are kept, in which order.
- BciScraperFinal.MatchEnd: its own contract is soundness only. BciScraperFinal.MatchEndComplete gives the other direction, so None means no match starts there.
- BciScraperFinal.LineTitle: its own contract gives the shape of the title. BciScraperFinal.LineTitleFirst states that it is the first line that fits.
- BciScraperFinal.TitleOf: its own contract bounds the length. BciScraperFinal.TitleOfMeaning gives the None case and the selector-before-line order.
- EntelScraper.StripBold: its own contract bounds the length. EntelScraper.BoldSpan, EntelScraper.StripBoldOnlyDeletesStars and EntelScraper.StripBoldPlain state what it does to a span and to plain text.
- BancoChileScraper.NextPage: its own contract gives the page move only. BancoChileScraper.NextPageMeaning states when the click succeeds.
- BancoChileScraper.Prepare: its own contract keeps the site. BancoChileScraper.PrepareMeaning states when the setup succeeds.
- UMayorInterpreter.ModalCards: its own contract gives membership. UMayorInterpreter.ModalCardsMeaning gives order and multiplicity.
- BciScraper.KeepWithTitle and BciScraperV2.GetPageBenefits apply the record function to each card. The selector-loop methods ExtractBenefitInfo and ExtractBenefitFromCarrouselItem are proved equal to that function, but the card loops do not call them.
- BciScraper.CheckSelector and BciScraperFinal.CheckSelector count with the card predicate instead of calling the text-selector loop.

## Findings

| source | as written | input that shows it | evidently intended | confidence | as-written member | corrected member |
|---|---|---|---|---|---|---|
| bci/scraper_final.py:214-222 | `import re` inside the cashback branch makes `re` local to the whole function, so the descuento branch raises UnboundLocalError; the bare `except` turns the card into None, and a selector holding only descuento cards is passed over by the harvest | a card whose text contains 'descuento' but not 'cashback' | the descuento branch reads its amount like the cashback branch | not executed | BciScraperFinal.OfferAsWrittenDiffers, BciScraperFinal.AsWrittenDropsDescuento, BciScraperFinal.AsWrittenSkipsDescuentoSelector | BciScraperFinal.OfferFromText, BciScraperFinal.AnyBenefitInfo, BciScraperFinal.HarvestBenefits |
| bancodechile/scraper.py:95-134 | the only `return` is inside the loop, after a failed click; when the loop ends at its 50-page ceiling, the function returns None and `main` saves nothing | a site whose right arrow is present on each of the first 50 pages | return the gathered list whenever the loop ends | not executed | BancoChileScraper.AsWrittenLosesRecordsAtCeiling | BancoChileScraper.ScrapeBancoChileBenefits |
| umayor/interpreter_umayor.py:64-72 | `csv_path` is bound only inside `if benefits:`, but the final message names it, so a page without cards ends in UnboundLocalError | a document with no `a.card` whose `data-target` matches | report with no CSV written | not executed | UMayorInterpreter.AsWrittenFailsWithoutCards | UMayorInterpreter.CleanHtmlFile |
