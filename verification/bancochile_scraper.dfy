/**
  bancodechile/scraper.py: pick the Santiago region, then read the `a.card` benefits page by
  page, clicking the right arrow, for at most 50 pages, with a dedup on the title.
*/
module BancoChileScraper {
  import opened Wrappers
  import opened Text
  import opened Seqs
  import opened Dom
  import opened Browser
  import opened Dedup

  datatype Record = Record(title: string, description: string, category: string)

  function RecordTitle(r: Record): string {
    r.title
  }

  const MaxPages: nat := 50
  const Category := "Beneficios Bancarios"
  const Region := "Metropolitana de Santiago"
  /** Timeouts of the three waits, counted in polls. */
  const RegionWait: nat := 20
  const CardsWait: nat := 20
  const NextWait: nat := 10

  const RegionSel: Selector := Selector(None, [], AttrIs("id", "regionSearch"))
  const OptionSel: Selector := Selector(Some("option"), [], AttrIs("value", Region))
  const CardSel: Selector := TagClassSel("a", "card")
  const TitleSel: Selector := Selector(Some("p"), ["font-700", "text-3", "text-gray-dark"], NoAttrTest)
  const DescSel: Selector := Selector(Some("p"), ["overflow-ellipsis", "mb-2", "text-2", "text-gray"], NoAttrTest)
  const NextSel: Selector := Selector(Some("i"), ["icos-arrow-right-2", "cursor-pointer"], NoAttrTest)

  /** A card's record: both its title and its description element must exist (else the card raises). */
  function ReadCard(card: Node): (r: Option<Record>)
    ensures r.Some? <==> FindFirst(card, TitleSel).Some? && FindFirst(card, DescSel).Some?
    ensures r.Some? ==> r.value.category == Category
  {
    match FindFirst(card, TitleSel)
    case None => None
    case Some(t) =>
      match FindFirst(card, DescSel)
      case None => None
      case Some(d) => Some(Record(Strip(t.text), Strip(d.text), Category))
  }

  /**
    The cards of a page that have both parts, in order. The card loop skips a seen title before
    it looks up the description, and adds a title to the seen set only once its description was
    found: that is the dedup of these records, with every title, even the empty one, admissible.
  */
  function PageCards(dom: Node): seq<Record> {
    Collect(FindAll(dom, CardSel), ReadCard)
  }

  /** Every card record is a bank benefit. */
  lemma PageCardsCategory(dom: Node)
    ensures forall r :: r in PageCards(dom) ==> r.category == Category
  {
    CollectFrom(FindAll(dom, CardSel), ReadCard);
  }

  predicate HasNext(dom: Node) {
    FindFirst(dom, NextSel).Some?
  }

  /** The wait for a clickable right arrow and the click; the following page loads. */
  function NextPage(s: Session): (r: (bool, Session))
    ensures r.0 ==> r.1.page == s.page + 1
    ensures !r.0 ==> r.1.page == s.page
  {
    PollMeaning(s, NextWait, HasNext);
    var (ok, t) := Poll(s, NextWait, HasNext);
    if ok then (true, Click(t)) else (false, t)
  }

  /**
    The page moves on exactly when the right arrow shows at one of the `NextWait` polls; it
    then shows the following page freshly loaded.
  */
  lemma NextPageMeaning(s: Session)
    ensures NextPage(s).0 <==> exists k: nat :: k < NextWait && HasNext(Later(s, k))
    ensures NextPage(s).0 ==> NextPage(s).1.clock == 0 && NextPage(s).1.site == s.site
  {
    PollSucceeds(s, NextWait, HasNext);
    PollMeaning(s, NextWait, HasNext);
    var (ok, t) := Poll(s, NextWait, HasNext);
    assert NextPage(s) == if ok then (true, Click(t)) else (false, t);
  }

  /** The pages read, each as its list of card records, and whether the loop ended by `return` (a failed click). */
  datatype Walked = Walked(pages: seq<seq<Record>>, returned: bool)

  /**
    The `while pagina_actual <= max_paginas` loop from page `pageNum` on, for a page reader
    `cards` and a step `next` to the following page; the counter moves only after a click.
  */
  function WalkWith(cards: Node -> seq<Record>, next: Session -> (bool, Session), s: Session, pageNum: nat): (w: Walked)
    ensures pageNum > MaxPages ==> w == Walked([], false)
    decreases MaxPages + 1 - pageNum
  {
    if pageNum > MaxPages then Walked([], false)
    else
      var page := cards(Current(s));
      var (moved, t) := next(s);
      if !moved then Walked([page], true)
      else
        var rest := WalkWith(cards, next, t, pageNum + 1);
        Walked([page] + rest.pages, rest.returned)
  }

  /** One page of the walk: it reads the current page, then goes on from the next one only if the click went through. */
  lemma WalkUnfold(cards: Node -> seq<Record>, next: Session -> (bool, Session), s: Session, pageNum: nat)
    requires pageNum <= MaxPages
    ensures next(s).0 ==>
      WalkWith(cards, next, s, pageNum) ==
        Walked([cards(Current(s))] + WalkWith(cards, next, next(s).1, pageNum + 1).pages,
               WalkWith(cards, next, next(s).1, pageNum + 1).returned)
    ensures !next(s).0 ==> WalkWith(cards, next, s, pageNum) == Walked([cards(Current(s))], true)
  {
  }

  /** The dedup over the pages of the walk is the dedup of the first page, then of the rest with its titles seen. */
  lemma WalkDedupStep(cards: Node -> seq<Record>, next: Session -> (bool, Session), s: Session, pageNum: nat, seen: set<string>)
    requires pageNum <= MaxPages
    ensures KeepFirst(Concat(WalkWith(cards, next, s, pageNum).pages), RecordTitle, -1, seen) ==
      KeepFirst(cards(Current(s)), RecordTitle, -1, seen) +
      if next(s).0 then
        KeepFirst(Concat(WalkWith(cards, next, next(s).1, pageNum + 1).pages), RecordTitle, -1,
                  SeenAfter(cards(Current(s)), RecordTitle, -1, seen))
      else []
  {
    var page := cards(Current(s));
    var rest := if next(s).0 then WalkWith(cards, next, next(s).1, pageNum + 1).pages else [];
    WalkUnfold(cards, next, s, pageNum);
    DedupPages(page, rest, RecordTitle, -1, seen);
  }

  /** The loop over the site's pages. */
  function Walk(s: Session): Walked {
    WalkWith(PageCards, NextPage, s, 1)
  }

  /** The records kept: the dedup, with one seen set, of the pages in the order they were read. */
  function Kept(w: Walked): seq<Record> {
    KeepFirst(Concat(w.pages), RecordTitle, -1, {})
  }

  predicate RegionReady(dom: Node) {
    FindFirst(dom, RegionSel).Some?
  }

  /** `Select(...).select_by_value(...)` needs a `select` element holding the option. */
  predicate RegionSelectable(dom: Node) {
    match FindFirst(dom, RegionSel)
    case None => false
    case Some(e) => e.tag == "select" && FindFirst(e, OptionSel).Some?
  }

  predicate HasCards(dom: Node) {
    FindFirst(dom, CardSel).Some?
  }

  /**
    The steps before the loop: the region wait and selection (the filtered listing is the next
    page of the site), then the wait for the cards; None where the function returns `[]`.
  */
  function Prepare(s0: Session): (r: Option<Session>)
    ensures r.Some? ==> r.value.site == s0.site
  {
    PollMeaning(s0, RegionWait, RegionReady);
    var (found, s1) := Poll(s0, RegionWait, RegionReady);
    if !found || !RegionSelectable(Current(s1)) then None
    else
      PollMeaning(Click(s1), CardsWait, HasCards);
      var (loaded, s2) := Poll(Click(s1), CardsWait, HasCards);
      if !loaded then None else Some(s2)
  }

  /**
    The steps before the loop succeed exactly when the region select shows within its wait, is
    a `select` holding the Santiago option when the wait ends, and the filtered listing shows a
    card within its wait; the loop then starts on the filtered listing, with cards on it.
  */
  lemma PrepareMeaning(s0: Session)
    ensures var s1 := Poll(s0, RegionWait, RegionReady).1;
      Prepare(s0).Some? <==>
        && (exists k: nat :: k < RegionWait && RegionReady(Later(s0, k)))
        && RegionSelectable(Current(s1))
        && (exists k: nat :: k < CardsWait && HasCards(Later(Click(s1), k)))
    ensures Prepare(s0).Some? ==> Prepare(s0).value.page == s0.page + 1 && HasCards(Current(Prepare(s0).value))
  {
    PollSucceeds(s0, RegionWait, RegionReady);
    PollMeaning(s0, RegionWait, RegionReady);
    var s1 := Poll(s0, RegionWait, RegionReady).1;
    PollSucceeds(Click(s1), CardsWait, HasCards);
    PollMeaning(Click(s1), CardsWait, HasCards);
  }

  /** What the function returns as written: the list when a click fails, but None past the ceiling. */
  function ScrapeAsWritten(s0: Session): Option<seq<Record>> {
    match Prepare(s0)
    case None => Some([])
    case Some(s) =>
      var w := Walk(s);
      if w.returned then Some(Kept(w)) else None
  }

  /** What the function evidently means to return: the records gathered, however the loop ends. */
  function Scrape(s0: Session): seq<Record> {
    match Prepare(s0)
    case None => []
    case Some(s) => Kept(Walk(s))
  }

  /**
    What the walk from `pageNum` on keeps when the titles `seen` are already taken: the new
    titles of the current page, then, after a click, what the rest of the walk keeps.
  */
  function Gather(cards: Node -> seq<Record>, next: Session -> (bool, Session), s: Session, pageNum: nat,
                  seen: set<string>): seq<Record>
    decreases MaxPages + 1 - pageNum
  {
    if pageNum > MaxPages then []
    else
      var page := cards(Current(s));
      KeepFirst(page, RecordTitle, -1, seen) +
      if next(s).0 then Gather(cards, next, next(s).1, pageNum + 1, SeenAfter(page, RecordTitle, -1, seen)) else []
  }

  /** Whether the walk from `pageNum` on ends by `return`, that is by a click that fails before the ceiling. */
  function Returns(next: Session -> (bool, Session), s: Session, pageNum: nat): bool
    decreases MaxPages + 1 - pageNum
  {
    pageNum <= MaxPages && (!next(s).0 || Returns(next, next(s).1, pageNum + 1))
  }

  /** Page by page, the loop keeps what the one dedup over all pages read keeps, and returns when the walk says so. */
  lemma {:induction false} GatherIsKept(cards: Node -> seq<Record>, next: Session -> (bool, Session), s: Session,
                                        pageNum: nat, seen: set<string>)
    ensures Gather(cards, next, s, pageNum, seen) ==
      KeepFirst(Concat(WalkWith(cards, next, s, pageNum).pages), RecordTitle, -1, seen)
    ensures Returns(next, s, pageNum) == WalkWith(cards, next, s, pageNum).returned
    decreases MaxPages + 1 - pageNum
  {
    if pageNum <= MaxPages {
      WalkDedupStep(cards, next, s, pageNum, seen);
      WalkUnfold(cards, next, s, pageNum);
      if next(s).0 {
        GatherIsKept(cards, next, next(s).1, pageNum + 1, SeenAfter(cards(Current(s)), RecordTitle, -1, seen));
      }
    }
  }

  /**
    One pass of the page loop: read the current page's cards, keep those with new titles, and
    try "next". What is kept now, followed by what the rest of the walk will keep, is what the
    walk from this page keeps.
  */
  method VisitPage(cards: Node -> seq<Record>, next: Session -> (bool, Session), s: Session, pageNum: nat,
                   records: seq<Record>, seen: set<string>)
    returns (records': seq<Record>, seen': set<string>, moved: bool, t: Session)
    requires pageNum <= MaxPages
    ensures moved == next(s).0 && t == next(s).1
    ensures moved ==>
      records' + Gather(cards, next, t, pageNum + 1, seen') == records + Gather(cards, next, s, pageNum, seen)
    ensures !moved ==> records' == records + Gather(cards, next, s, pageNum, seen)
  {
    var page := cards(Current(s));
    moved, t := next(s).0, next(s).1;
    records', seen' := AddNew(records, seen, page, RecordTitle, -1);
    var kept := KeepFirst(page, RecordTitle, -1, seen);
    var rest := if moved then Gather(cards, next, t, pageNum + 1, seen') else [];
    assert Gather(cards, next, s, pageNum, seen) == kept + rest;
    assert records + (kept + rest) == (records + kept) + rest;
  }

  /**
    The page loop: `returned` is set where the function returns its list from inside the loop,
    and stays false when the ceiling ends the loop.
  */
  method WalkPages(cards: Node -> seq<Record>, next: Session -> (bool, Session), s0: Session)
    returns (records: seq<Record>, returned: bool)
    ensures records == Gather(cards, next, s0, 1, {})
    ensures returned == Returns(next, s0, 1)
  {
    records := [];
    var seen: set<string> := {};
    var s := s0;
    var pageNum := 1;
    returned := false;
    while pageNum <= MaxPages && !returned
      invariant 1 <= pageNum <= MaxPages + 1
      invariant !returned ==> records + Gather(cards, next, s, pageNum, seen) == Gather(cards, next, s0, 1, {})
      invariant !returned ==> Returns(next, s, pageNum) == Returns(next, s0, 1)
      invariant returned ==> records == Gather(cards, next, s0, 1, {}) && Returns(next, s0, 1)
      decreases MaxPages + 1 - pageNum, !returned
    {
      var moved, t;
      records, seen, moved, t := VisitPage(cards, next, s, pageNum, records, seen);
      returned := !moved;
      s := t;
      pageNum := if moved then pageNum + 1 else pageNum;
    }
    if !returned {
      assert records + [] == records;
    }
  }

  method ScrapeBancoChileAsWritten(s0: Session) returns (r: Option<seq<Record>>)
    ensures r == ScrapeAsWritten(s0)
  {
    var s := Prepare(s0);
    if s.None? {
      return Some([]);
    }
    var records, returned := WalkPages(PageCards, NextPage, s.value);
    GatherIsKept(PageCards, NextPage, s.value, 1, {});
    r := if returned then Some(records) else None;
  }

  method ScrapeBancoChileBenefits(s0: Session) returns (records: seq<Record>)
    ensures records == Scrape(s0)
  {
    var s := Prepare(s0);
    if s.None? {
      return [];
    }
    var returned;
    records, returned := WalkPages(PageCards, NextPage, s.value);
    GatherIsKept(PageCards, NextPage, s.value, 1, {});
  }

  /** The loop reads no page past the fiftieth. */
  lemma {:induction false} PagesBound(cards: Node -> seq<Record>, next: Session -> (bool, Session), s: Session, pageNum: nat)
    ensures var w := WalkWith(cards, next, s, pageNum); w.pages == [] || pageNum + |w.pages| <= MaxPages + 1
    decreases MaxPages + 1 - pageNum
  {
    if pageNum <= MaxPages && next(s).0 {
      PagesBound(cards, next, next(s).1, pageNum + 1);
    }
  }

  /** At most 50 pages are read. */
  lemma AtMostFiftyPages(s: Session)
    ensures |Walk(s).pages| <= MaxPages
  {
    PagesBound(PageCards, NextPage, s, 1);
  }

  /** Records that are all bank benefits. */
  predicate AllBank(rs: seq<Record>) {
    forall r :: r in rs ==> r.category == Category
  }

  lemma AllBankAppend(page: seq<Record>, more: seq<Record>)
    requires AllBank(page) && AllBank(more)
    ensures AllBank(page + more)
  {
  }

  /** Every record read comes from the page reader; with card records only, the pages hold bank benefits only. */
  lemma {:induction false} WalkCategory(cards: Node -> seq<Record>, next: Session -> (bool, Session), s: Session, pageNum: nat)
    requires forall d :: AllBank(cards(d))
    ensures AllBank(Concat(WalkWith(cards, next, s, pageNum).pages))
    decreases MaxPages + 1 - pageNum
  {
    if pageNum <= MaxPages {
      var page := cards(Current(s));
      assert AllBank(page);
      WalkUnfold(cards, next, s, pageNum);
      if next(s).0 {
        var rest := WalkWith(cards, next, next(s).1, pageNum + 1).pages;
        WalkCategory(cards, next, next(s).1, pageNum + 1);
        ConcatAppend([page], rest);
        assert Concat([page]) == page + Concat([]);
        AllBankAppend(page, Concat(rest));
      } else {
        assert Concat([page]) == page + Concat([]);
        assert page + [] == page;
      }
    }
  }

  /** The scrape gives bank benefits with pairwise distinct titles. */
  lemma ScrapeRecords(s0: Session)
    ensures forall r :: r in Scrape(s0) ==> r.category == Category
    ensures DistinctKeys(Scrape(s0), RecordTitle)
  {
    if Prepare(s0).Some? {
      forall d ensures AllBank(PageCards(d)) {
        PageCardsCategory(d);
      }
      var all := Concat(Walk(Prepare(s0).value).pages);
      WalkCategory(PageCards, NextPage, Prepare(s0).value, 1);
      KeepFirstUnique(all, RecordTitle, -1, {});
      KeepFirstSubsequence(all, RecordTitle, -1, {});
      SubsequenceMembers(KeepFirst(all, RecordTitle, -1, {}), all);
    } else {
      assert Scrape(s0) == [];
    }
  }

  /** A step that always moves on, for the pages `first` to `last` of a site. */
  ghost predicate AlwaysMoves(next: Session -> (bool, Session), site: seq<seq<Node>>, first: nat, last: int) {
    forall x: Session :: x.site == site && first <= x.page <= last ==> next(x) == (true, Click(x))
  }

  /** If "next" always works on the pages still to come, the loop ends on its ceiling and not by `return`. */
  lemma {:induction false} WalkHitsCeiling(cards: Node -> seq<Record>, next: Session -> (bool, Session), s: Session, pageNum: nat)
    requires pageNum <= MaxPages + 1 && AlwaysMoves(next, s.site, s.page, s.page + MaxPages - pageNum)
    ensures !WalkWith(cards, next, s, pageNum).returned
    decreases MaxPages + 1 - pageNum
  {
    if pageNum <= MaxPages {
      assert next(s) == (true, Click(s));
      WalkHitsCeiling(cards, next, Click(s), pageNum + 1);
    }
  }

  /** A right arrow on every page of the site from `first` to `last`. */
  ghost predicate ArrowAhead(site: seq<seq<Node>>, first: nat, last: int) {
    forall p: nat, c: nat :: first <= p <= last ==> HasNext(Current(Session(site, p, c)))
  }

  lemma ArrowMeansMove(site: seq<seq<Node>>, first: nat, last: int)
    requires ArrowAhead(site, first, last)
    ensures AlwaysMoves(NextPage, site, first, last)
  {
    forall x: Session | x.site == site && first <= x.page <= last ensures NextPage(x) == (true, Click(x)) {
      assert x == Session(site, x.page, x.clock);
      assert HasNext(Current(x));
    }
  }

  /**
    The two readings differ exactly when the loop passes its ceiling: then the function as
    written returns None, which its caller treats as "no benefits", and the records of fifty
    pages are lost. Otherwise both give the same list.
  */
  lemma AsWrittenLosesRecordsAtCeiling(s0: Session)
    ensures ScrapeAsWritten(s0).None? <==> Prepare(s0).Some? && !Walk(Prepare(s0).value).returned
    ensures ScrapeAsWritten(s0).Some? ==> ScrapeAsWritten(s0).value == Scrape(s0)
    ensures Prepare(s0).Some? && ArrowAhead(s0.site, Prepare(s0).value.page, Prepare(s0).value.page + MaxPages - 1) ==>
      ScrapeAsWritten(s0).None?
  {
    if Prepare(s0).Some? {
      var s := Prepare(s0).value;
      if ArrowAhead(s0.site, s.page, s.page + MaxPages - 1) {
        ArrowMeansMove(s.site, s.page, s.page + MaxPages - 1);
        WalkHitsCeiling(PageCards, NextPage, s, 1);
      }
    }
  }
}
