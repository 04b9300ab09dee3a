/**
  The page loop shared by bci/scraper.py and bci/scraper_v2.py: wait for the first page, read
  the page count, then for each page number wait, read the page, keep the benefits whose
  titles are new, and click "next". A page that does not load is skipped with `continue`,
  which does not click "next": the following page number polls the same browser page again.
*/
module BciPaging {
  import opened Seqs
  import opened Dom
  import opened Browser
  import opened Dedup
  import opened BciBenefit
  import BciPager
  import BciScraper
  import BciScraperV2

  /** Which of the two scrapers runs the loop. */
  datatype Version = First | Second

  /** What the loop needs from a scraper: its wait, its page reader, its page count and its "next" click. */
  datatype Steps = Steps(
    wait: Session -> (bool, Session),
    read: Node -> seq<Benefit>,
    count: Node -> nat,
    next: Session -> (bool, Session))

  function StepsOf(v: Version): Steps {
    match v
    case First => Steps(BciScraper.WaitForBenefits, BciScraper.PageBenefits, BciScraper.TotalPages, BciPager.GoToNextPage)
    case Second => Steps(BciScraperV2.WaitForContent, BciScraperV2.PageBenefits, BciScraperV2.TotalPages, BciPager.GoToNextPage)
  }

  /** What one page number of the loop does: skip a page that does not load, or read it and try "next". */
  datatype Visit = Skipped(after: Session) | Read(page: seq<Benefit>, moved: bool, next: Session)

  /** One page number; on the last one (`last`) "next" is not clicked. */
  function VisitOf(st: Steps, s: Session, last: bool): Visit {
    var (ready, t) := st.wait(s);
    if !ready then Skipped(t)
    else if last then Read(st.read(Current(t)), false, t)
    else
      var (moved, u) := st.next(t);
      Read(st.read(Current(t)), moved, u)
  }

  /** The benefit lists of the pages read from page number `pageNum` to `total`, before dedup. */
  function PagesRead(st: Steps, s: Session, pageNum: nat, total: nat): seq<seq<Benefit>>
    decreases total + 1 - pageNum
  {
    if pageNum > total then []
    else
      match VisitOf(st, s, pageNum == total)
      case Skipped(t) => PagesRead(st, t, pageNum + 1, total)
      case Read(page, moved, u) => [page] + if moved then PagesRead(st, u, pageNum + 1, total) else []
  }

  /** The loop's result for a session that has just loaded the benefits page. */
  function Crawl(st: Steps, s0: Session): seq<Benefit> {
    var (ok, s) := st.wait(s0);
    if !ok then []
    else KeepFirst(Concat(PagesRead(st, s, 1, st.count(Current(s)))), Title, 0, {})
  }

  /** What `scrape_bci_benefits` of either scraper returns. */
  function ScrapeResult(v: Version, s0: Session): seq<Benefit> {
    Crawl(StepsOf(v), s0)
  }

  /** What the pages from `pageNum` on add to the benefits kept so far, with the titles `seen` already taken. */
  function Remaining(st: Steps, s: Session, pageNum: nat, total: nat, seen: set<string>): seq<Benefit> {
    KeepFirst(Concat(PagesRead(st, s, pageNum, total)), Title, 0, seen)
  }

  /**
    One page number of the loop: a page that does not load is skipped, else its new benefits
    are kept and, before the last page, "next" is clicked; `stop` is the `break` of a failed
    click. What is kept now, followed by what the later page numbers keep, is what the page
    numbers from this one on keep.
  */
  method VisitNumber(st: Steps, s: Session, pageNum: nat, total: nat, all: seq<Benefit>, seen: set<string>)
    returns (all': seq<Benefit>, seen': set<string>, stop: bool, s': Session)
    requires 1 <= pageNum <= total
    ensures stop ==> all' == all + Remaining(st, s, pageNum, total, seen)
    ensures !stop ==> all' + Remaining(st, s', pageNum + 1, total, seen') == all + Remaining(st, s, pageNum, total, seen)
  {
    var (ready, t) := st.wait(s);
    if !ready {
      return all, seen, false, t;
    }
    var page := st.read(Current(t));
    var moved, u := false, t;
    if pageNum < total {
      moved, u := st.next(t).0, st.next(t).1;
    }
    ghost var rest := if moved then PagesRead(st, u, pageNum + 1, total) else [];
    assert PagesRead(st, s, pageNum, total) == [page] + rest;
    DedupPages(page, rest, Title, 0, seen);
    ghost var later := KeepFirst(Concat(rest), Title, 0, SeenAfter(page, Title, 0, seen));
    assert (all + KeepFirst(page, Title, 0, seen)) + later == all + Remaining(st, s, pageNum, total, seen);
    all', seen' := AddNew(all, seen, page, Title, 0);
    if !moved {
      assert later == [];
      assert all' + [] == all';
      return all', seen', true, u;
    }
    return all', seen', false, u;
  }

  /**
    The page loop of `scrape_bci_benefits`, for the steps of either scraper (each step is
    proved equal, in its own module, to the method that carries out its loops).
  */
  method CrawlPages(st: Steps, s0: Session) returns (all: seq<Benefit>)
    ensures all == Crawl(st, s0)
  {
    var (ok, s) := st.wait(s0);
    if !ok {
      return [];
    }
    var total := st.count(Current(s));
    ghost var goal := Remaining(st, s, 1, total, {});
    all := [];
    var seen: set<string> := {};
    var pageNum := 1;
    var stop := false;
    assert all + goal == goal;
    while pageNum <= total && !stop
      invariant 1 <= pageNum <= total + 1
      invariant !stop ==> all + Remaining(st, s, pageNum, total, seen) == goal
      invariant stop ==> all == goal
      decreases total + 1 - pageNum, !stop
    {
      all, seen, stop, s := VisitNumber(st, s, pageNum, total, all, seen);
      if !stop {
        pageNum := pageNum + 1;
      }
    }
    if !stop {
      assert all + [] == all;
    }
  }

  /** `scrape_bci_benefits` of bci/scraper.py (`First`) or bci/scraper_v2.py (`Second`). */
  method ScrapeBciBenefits(v: Version, s0: Session) returns (all: seq<Benefit>)
    ensures all == ScrapeResult(v, s0)
  {
    all := CrawlPages(StepsOf(v), s0);
  }

  /** The result has no benefit without a title and no two benefits with the same title. */
  lemma ScrapeTitlesDistinct(st: Steps, s0: Session)
    ensures forall b :: b in Crawl(st, s0) ==> b.title != ""
    ensures DistinctKeys(Crawl(st, s0), Title)
  {
    var (ok, s) := st.wait(s0);
    if ok {
      KeepFirstUnique(Concat(PagesRead(st, s, 1, st.count(Current(s)))), Title, 0, {});
    }
  }

  /** Every benefit kept was read from a page, and they keep the order in which the pages were read. */
  lemma ScrapeFromPages(st: Steps, s0: Session)
    ensures st.wait(s0).0 ==>
      IsSubsequence(Crawl(st, s0), Concat(PagesRead(st, st.wait(s0).1, 1, st.count(Current(st.wait(s0).1)))))
  {
    var (ok, s) := st.wait(s0);
    if ok {
      KeepFirstSubsequence(Concat(PagesRead(st, s, 1, st.count(Current(s)))), Title, 0, {});
    }
  }

  /** At most one list per page number: skipped pages and an early stop only shorten the list. */
  lemma {:induction false} PagesReadBound(st: Steps, s: Session, pageNum: nat, total: nat)
    requires pageNum <= total + 1
    ensures |PagesRead(st, s, pageNum, total)| <= total + 1 - pageNum
    decreases total + 1 - pageNum
  {
    if pageNum <= total {
      match VisitOf(st, s, pageNum == total)
      case Skipped(t) => PagesReadBound(st, t, pageNum + 1, total);
      case Read(page, moved, u) =>
        if moved {
          PagesReadBound(st, u, pageNum + 1, total);
        }
    }
  }

  /**
    Neither scraper's wait changes the page the browser shows, so after a skipped page the next
    page number polls the same browser page again.
  */
  lemma WaitKeepsPage(v: Version, s: Session)
    ensures StepsOf(v).wait(s).1.page == s.page
  {
    match v
    case First => GatedPollMeaning(s, BciScraper.AppWait, BciScraper.HasApp, BciScraper.Attempts, BciScraper.PageReady);
    case Second => PollMeaning(s, BciScraperV2.MaxAttempts, BciScraperV2.ItemsReady);
  }
}
