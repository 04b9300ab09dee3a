/**
  bci/scraper_final.py: the "aggressive" BCI scraper. It waits for any of six selectors to show
  three elements with text, reads a benefit out of any element that has enough text, and
  harvests from the first of eight selectors that yields a benefit with a long enough title.
*/
module BciScraperFinal {
  import opened Wrappers
  import opened Text
  import opened Seqs
  import opened Dom
  import opened Browser
  import opened Locate
  import opened Classify
  import opened Dedup
  import opened BciBenefit

  const MaxWait: nat := 120
  /** The timeout of the `body` wait, counted in polls. */
  const BodyWait: nat := 30
  const BodySel: Selector := TagSel("body")

  /** `[class*='fragment']` */
  function ClassLike(fragment: string): Selector {
    Selector(None, [], ClassHas(fragment))
  }

  const CheckSels: seq<Selector> := [
    TagClassSel("div", "carrousel__item"),
    TagClassSel("article", "card-benefit-v2"),
    Selector(Some("a"), [], HasAttr("id-comercio")),
    ClassSel("card__title"),
    ClassLike("card"),
    ClassLike("benefit")
  ]

  const TitleSels: seq<Selector> := [
    TagSel("h1"), TagSel("h2"), TagSel("h3"), TagSel("h4"), TagSel("h5"), TagSel("h6"),
    ClassSel("title"), ClassSel("card__title"), ClassLike("title"),
    TagSel("strong"), TagSel("b"), ClassSel("font-weight-bold")
  ]

  const HarvestSels: seq<Selector> := [
    TagClassSel("div", "carrousel__item"),
    TagClassSel("article", "card-benefit-v2"),
    Selector(Some("a"), [], HasAttr("id-comercio")),
    ClassLike("card"),
    ClassLike("benefit"),
    Selector(Some("div"), [], ClassHas("item")),
    TagSel("article"),
    TagSel("section")
  ]

  // ---------------------------------------------------------------- waiting

  /** `range(max_wait // 5)`: one attempt per five seconds of the budget. */
  function Attempts(maxWait: nat): (n: nat)
    ensures 5 * n <= maxWait < 5 * n + 5
  {
    maxWait / 5
  }

  predicate HasContent(e: Node) {
    |Strip(e.text)| > 10
  }

  /** Some element found, and three of the first ten with a stripped text longer than ten. */
  predicate SelectorHasContent(dom: Node, sel: Selector) {
    var elements := FindAll(dom, sel);
    elements != [] && CountIf(Prefix(elements, 10), HasContent) >= 3
  }

  /** The selectors tried in order until one has content. */
  predicate AnyHasContent(dom: Node, sels: seq<Selector>) {
    sels != [] && (SelectorHasContent(dom, sels[0]) || AnyHasContent(dom, sels[1..]))
  }

  /** The page is ready exactly when some selector of the list has content. */
  lemma {:induction false} AnyHasContentMeaning(dom: Node, sels: seq<Selector>)
    ensures AnyHasContent(dom, sels) <==> exists i :: 0 <= i < |sels| && SelectorHasContent(dom, sels[i])
  {
    if sels != [] {
      AnyHasContentMeaning(dom, sels[1..]);
      if AnyHasContent(dom, sels[1..]) {
        var i :| 0 <= i < |sels[1..]| && SelectorHasContent(dom, sels[1..][i]);
        assert sels[1..][i] == sels[i + 1];
      }
      if exists i :: 0 <= i < |sels| && SelectorHasContent(dom, sels[i]) {
        var i :| 0 <= i < |sels| && SelectorHasContent(dom, sels[i]);
        if i > 0 {
          assert sels[1..][i - 1] == sels[i];
        }
      }
    }
  }

  predicate ContentReady(dom: Node) {
    AnyHasContent(dom, CheckSels)
  }

  /** One selector of the content test: its elements, and how many of the first ten have content. */
  method CheckSelector(dom: Node, sel: Selector) returns (ready: bool)
    ensures ready == SelectorHasContent(dom, sel)
  {
    var elements := FindAll(dom, sel);
    if elements == [] {
      return false;
    }
    var withContent := CountWhere(Prefix(elements, 10), HasContent);
    ready := withContent >= 3;
  }

  /** The selector check of one attempt of `wait_and_interact`. */
  method CheckContent(dom: Node, sels: seq<Selector>) returns (ready: bool)
    ensures ready == AnyHasContent(dom, sels)
  {
    assert sels[0..] == sels;
    for k := 0 to |sels|
      invariant AnyHasContent(dom, sels[k..]) == AnyHasContent(dom, sels)
    {
      assert sels[k..][0] == sels[k] && sels[k..][1..] == sels[k + 1..];
      ready := CheckSelector(dom, sels[k]);
      if ready {
        return;
      }
    }
    assert sels[|sels|..] == [];
    return false;
  }

  predicate HasBody(dom: Node) {
    FindFirst(dom, BodySel).Some?
  }

  /** What `wait_and_interact` does: wait for `body`, then poll `max_wait // 5` times for content. */
  function WaitAndInteract(s: Session, maxWait: nat): (bool, Session) {
    GatedPoll(s, BodyWait, HasBody, Attempts(maxWait), ContentReady)
  }

  method WaitAndInteractLoop(s: Session, maxWait: nat) returns (ok: bool, t: Session)
    ensures (ok, t) == WaitAndInteract(s, maxWait)
  {
    var (body, s1) := Poll(s, BodyWait, HasBody);
    if !body {
      return false, s1;
    }
    var attempts := Attempts(maxWait);
    t := s1;
    var attempt := 0;
    while attempt < attempts
      invariant 0 <= attempt <= attempts
      invariant Poll(s1, attempts, ContentReady) == Poll(t, attempts - attempt, ContentReady)
    {
      var ready := CheckContent(Current(t), CheckSels);
      if ready {
        return true, t;
      }
      t := Tick(t);
      attempt := attempt + 1;
    }
    return false, t;
  }

  // ---------------------------------------------------------------- offers

  function DigitsEnd(t: string, j: nat): (e: nat)
    requires j <= |t|
    ensures j <= e <= |t|
    ensures forall k :: j <= k < e ==> IsDigit(t[k])
    ensures e == |t| || !IsDigit(t[e])
    decreases |t| - j
  {
    if j < |t| && IsDigit(t[j]) then DigitsEnd(t, j + 1) else j
  }

  function SpacesEnd(t: string, j: nat): (e: nat)
    requires j <= |t|
    ensures j <= e <= |t|
    ensures forall k :: j <= k < e ==> IsSpace(t[k])
    ensures e == |t| || !IsSpace(t[e])
    decreases |t| - j
  {
    if j < |t| && IsSpace(t[j]) then SpacesEnd(t, j + 1) else j
  }

  /**
    Where `\d+%?\s*word`, with `word` matched ignoring case, ends if a match starts at `i`.
    Greedy matching is the only way to match: giving back a digit, the `%` or a space leaves a
    character that cannot start `word`.
  */
  function MatchEnd(t: string, i: nat, word: string): (e: Option<nat>)
    requires i <= |t|
    ensures e.Some? ==>
      i + |word| < e.value <= |t| && IsDigit(t[i]) && Lower(t[e.value - |word|..e.value]) == word
  {
    if i < |t| && IsDigit(t[i]) then
      var d := DigitsEnd(t, i);
      var p := if d < |t| && t[d] == '%' then d + 1 else d;
      var w := SpacesEnd(t, p);
      if w + |word| <= |t| && Lower(t[w..w + |word|]) == word then Some(w + |word|) else None
    else None
  }

  /**
    Every way `\d+%?\s*word` can match at `i` ends where `MatchEnd` says, for a word that
    starts with a letter: digits from `i` to `d`, an optional `%` up to `p`, spaces up to `w`,
    then the word. So `MatchEnd` is None only where no match starts at `i`.
  */
  lemma MatchEndComplete(t: string, i: nat, word: string, d: nat, p: nat, w: nat)
    requires word != [] && !IsDigit(word[0]) && word[0] != '%' && !IsSpace(word[0])
    requires i < d <= p <= w && w + |word| <= |t|
    requires forall k :: i <= k < d ==> IsDigit(t[k])
    requires p == d || (p == d + 1 && t[d] == '%')
    requires forall k :: p <= k < w ==> IsSpace(t[k])
    requires Lower(t[w..w + |word|]) == word
    ensures MatchEnd(t, i, word) == Some(w + |word|)
  {
    assert LowerChar(t[w]) == word[0] by {
      assert t[w..w + |word|][0] == t[w];
    }
    assert !IsDigit(t[w]) && t[w] != '%' && !IsSpace(t[w]);
    var d' := DigitsEnd(t, i);
    assert !IsDigit(t[d]) && (t[d] == '%' <==> p == d + 1) by {
      if p == d && p < w {
        assert IsSpace(t[p]);
      }
    }
    assert d' == d;
    var p' := if d' < |t| && t[d'] == '%' then d' + 1 else d';
    assert p' == p;
    var w' := SpacesEnd(t, p');
    assert w' >= w;
    assert w' == w;
  }

  /** Where the leftmost match of `\d+%?\s*word` at or after `i` starts. */
  function FirstMatch(t: string, word: string, i: nat): (j: Option<nat>)
    requires i <= |t|
    ensures j.Some? ==> i <= j.value < |t| && MatchEnd(t, j.value, word).Some?
    ensures j.Some? ==> forall k :: i <= k < j.value ==> MatchEnd(t, k, word).None?
    ensures j.None? ==> forall k :: i <= k <= |t| ==> MatchEnd(t, k, word).None?
    decreases |t| - i
  {
    if MatchEnd(t, i, word).Some? then Some(i)
    else if i < |t| then FirstMatch(t, word, i + 1)
    else None
  }

  /** `re.search(r'(\d+%?\s*word)', text, re.IGNORECASE)`: the text of the leftmost match, if any. */
  function AmountMention(t: string, word: string): (r: Option<string>)
    ensures r.None? <==> forall k :: 0 <= k <= |t| ==> MatchEnd(t, k, word).None?
  {
    match FirstMatch(t, word, 0)
    case Some(j) => Some(t[j..MatchEnd(t, j, word).value])
    case None => None
  }

  /**
    The offer of bci/scraper_final.py lines 210-232 read from a card's text, with `re` usable in
    every branch: cashback, then descuento (each with the amount mentioned before the word, if
    any), then cuotas; none gives no offer.
  */
  function OfferFromText(text: string): (o: (Offer, string))
    ensures o.0 == Cashback <==> Contains(Lower(text), "cashback")
    ensures o.0 == Descuento <==> !Contains(Lower(text), "cashback") && Contains(Lower(text), "descuento")
    ensures o.0 == Cuotas <==>
      !Contains(Lower(text), "cashback") && !Contains(Lower(text), "descuento") && Contains(Lower(text), "cuotas")
    ensures o.0 == Cashback ==> o.1 == AmountMention(text, "cashback").GetOr("cashback")
    ensures o.0 == Descuento ==> o.1 == AmountMention(text, "descuento").GetOr("descuento")
    ensures o.0 == Cuotas ==> o.1 == "cuotas sin interés"
    ensures o.0 == NoOffer ==> o.1 == ""
  {
    var lower := Lower(text);
    if Contains(lower, "cashback") then (Cashback, AmountMention(text, "cashback").GetOr("cashback"))
    else if Contains(lower, "descuento") then (Descuento, AmountMention(text, "descuento").GetOr("descuento"))
    else if Contains(lower, "cuotas") then (Cuotas, "cuotas sin interés")
    else (NoOffer, "")
  }

  /** An amount's text: a digit first, then more than the word, which ends it, matched ignoring case. */
  predicate AmountText(m: string, word: string) {
    |m| > |word| && IsDigit(m[0]) && Lower(m[|m| - |word|..]) == word
  }

  /** A found amount starts with a digit and ends with the word, matched ignoring case. */
  lemma AmountMentionShape(t: string, word: string)
    ensures AmountMention(t, word).Some? ==> AmountText(AmountMention(t, word).value, word)
  {
    var j := FirstMatch(t, word, 0);
    if j.Some? {
      MatchText(t, word, j.value);
    }
  }

  /** The text of a match at `i` is an amount's text. */
  lemma MatchText(t: string, word: string, i: nat)
    requires i <= |t| && MatchEnd(t, i, word).Some?
    ensures AmountText(t[i..MatchEnd(t, i, word).value], word)
  {
    var e := MatchEnd(t, i, word).value;
    var m := t[i..e];
    assert m[0] == t[i];
    assert m[|m| - |word|..] == t[e - |word|..e];
  }

  /** `v` ends with `word`, matched ignoring case. */
  predicate EndsWithWord(v: string, word: string) {
    |v| >= |word| && Lower(v[|v| - |word|..]) == word
  }

  /** The offer value read for a word: the amount mentioned before it, or else the word itself. */
  lemma MentionOrWord(t: string, word: string)
    requires Lower(word) == word
    ensures EndsWithWord(AmountMention(t, word).GetOr(word), word)
  {
    AmountMentionShape(t, word);
    if AmountMention(t, word).None? {
      assert word[|word| - |word|..] == word;
    }
  }

  /** The value read with an offer: a non-empty text ending in the offer's word, or none for no offer. */
  lemma OfferValueShape(text: string)
    ensures var o := OfferFromText(text);
      && (o.0 == NoOffer <==> o.1 == "")
      && (o.0 == Cashback ==> EndsWithWord(o.1, "cashback"))
      && (o.0 == Descuento ==> EndsWithWord(o.1, "descuento"))
  {
    assert Lower("cashback") == "cashback";
    assert Lower("descuento") == "descuento";
    MentionOrWord(text, "cashback");
    MentionOrWord(text, "descuento");
  }

  /**
    The same lines as written: `import re` inside the cashback branch makes `re` a local name
    of the whole function, so the descuento branch raises UnboundLocalError (None here).
  */
  function OfferFromTextAsWritten(text: string): Option<(Offer, string)> {
    var lower := Lower(text);
    if Contains(lower, "cashback") then Some((Cashback, AmountMention(text, "cashback").GetOr("cashback")))
    else if Contains(lower, "descuento") then None
    else if Contains(lower, "cuotas") then Some((Cuotas, "cuotas sin interés"))
    else Some((NoOffer, ""))
  }

  /** As written, every text with 'descuento' and no 'cashback' fails; on all other texts the two agree. */
  lemma OfferAsWrittenDiffers(text: string)
    ensures OfferFromTextAsWritten(text).None? <==>
      !Contains(Lower(text), "cashback") && Contains(Lower(text), "descuento")
    ensures OfferFromTextAsWritten(text).Some? ==> OfferFromTextAsWritten(text).value == OfferFromText(text)
  {
  }

  function PaymentOf(lower: string): (p: string)
    ensures p in ["Online", "Presencial", ""]
    ensures p == "Online" <==> Contains(lower, "online")
    ensures p == "Presencial" <==> !Contains(lower, "online") && Contains(lower, "presencial")
    ensures p == "" <==> !Contains(lower, "online") && !Contains(lower, "presencial")
  {
    if Contains(lower, "online") then "Online"
    else if Contains(lower, "presencial") then "Presencial"
    else ""
  }

  // ---------------------------------------------------------------- extraction

  /** The first line that, stripped, is longer than 5 and shorter than 100 characters. */
  function LineTitle(lines: seq<string>): (r: Option<string>)
    ensures r.Some? ==> 5 < |r.value| < 100
    ensures r.None? <==> forall i :: 0 <= i < |lines| ==> !(5 < |Strip(lines[i])| < 100)
  {
    if lines == [] then None
    else
      var line := Strip(lines[0]);
      if 5 < |line| < 100 then Some(line)
      else
        var rest := LineTitle(lines[1..]);
        assert forall i :: 1 <= i < |lines| ==> lines[i] == lines[1..][i - 1];
        rest
  }

  /** The first line that fits, and only it, gives the title. */
  lemma {:induction false} LineTitleFirst(lines: seq<string>, i: nat)
    requires i < |lines| && 5 < |Strip(lines[i])| < 100
    requires forall k :: 0 <= k < i ==> !(5 < |Strip(lines[k])| < 100)
    ensures LineTitle(lines) == Some(Strip(lines[i]))
  {
    if i > 0 {
      assert !(5 < |Strip(lines[0])| < 100);
      assert lines[1..][i - 1] == lines[i];
      forall k | 0 <= k < i - 1 ensures !(5 < |Strip(lines[1..][k])| < 100) {
        assert lines[1..][k] == lines[k + 1];
      }
      LineTitleFirst(lines[1..], i - 1);
    }
  }

  lemma LineTitleStep(lines: seq<string>, i: nat)
    requires i < |lines|
    ensures LineTitle(lines[i..]) ==
      if 5 < |Strip(lines[i])| < 100 then Some(Strip(lines[i])) else LineTitle(lines[i + 1..])
  {
    assert lines[i..][0] == lines[i] && lines[i..][1..] == lines[i + 1..];
  }

  /** The loop over `text_content.split('\n')`. */
  method FirstLineTitle(lines: seq<string>) returns (title: Option<string>)
    ensures title == LineTitle(lines)
  {
    var i := 0;
    assert lines[0..] == lines;
    while i < |lines|
      invariant 0 <= i <= |lines|
      invariant LineTitle(lines) == LineTitle(lines[i..])
    {
      LineTitleStep(lines, i);
      var line := Strip(lines[i]);
      if 5 < |line| < 100 {
        return Some(line);
      }
      i := i + 1;
    }
    return None;
  }

  /** The title: the first title selector with a text longer than five, else the first fitting line. */
  function TitleOf(element: Node, text: string): (r: Option<string>)
    ensures r.Some? ==> |r.value| > 5
  {
    match FirstAccepted(element, TitleSels, 5, [])
    case Some(t) => Some(t)
    case None => LineTitle(Split(text, '\n'))
  }

  /**
    No title exactly when no title selector finds a text longer than five and no line fits; a
    selector's text, when there is one, wins over every line.
  */
  lemma TitleOfMeaning(element: Node, text: string)
    ensures TitleOf(element, text).None? <==>
      && (forall i :: 0 <= i < |TitleSels| ==>
            Probe(element, TitleSels[i]).None? || |Probe(element, TitleSels[i]).value| <= 5)
      && (forall i :: 0 <= i < |Split(text, '\n')| ==> !(5 < |Strip(Split(text, '\n')[i])| < 100))
    ensures FirstAccepted(element, TitleSels, 5, []).Some? ==>
      TitleOf(element, text) == FirstAccepted(element, TitleSels, 5, [])
  {
    FirstAcceptedNone(element, TitleSels, 5, []);
    forall i | 0 <= i < |TitleSels| && Probe(element, TitleSels[i]).Some?
      ensures Acceptable(Probe(element, TitleSels[i]).value, 5, []) <==> |Probe(element, TitleSels[i]).value| > 5
    {
    }
    var fa := FirstAccepted(element, TitleSels, 5, []);
    if fa.Some? {
      assert TitleOf(element, text) == fa;
    } else {
      assert TitleOf(element, text) == LineTitle(Split(text, '\n'));
    }
  }

  /** The record built once the text and the title are known. */
  function BenefitOf(element: Node, text: string, title: string, offer: (Offer, string)): (b: Benefit)
    requires title != []
    ensures b.title == title && |b.description| <= 500
    ensures b.description == Take(Strip(ReplaceAll(text, title, "")), 500)
    ensures b.url == CardUrl(element)
    ensures (b.offerType, b.offerValue) == offer
    ensures b.paymentMethod == PaymentOf(Lower(text))
    ensures b.category == Categorize(AggressiveRules, DefaultCategory, Lower(title), Lower(b.description))
  {
    var desc := Take(Strip(ReplaceAll(text, title, "")), 500);
    Benefit(
      title, desc, CardUrl(element), offer.0, offer.1, PaymentOf(Lower(text)),
      Categorize(AggressiveRules, DefaultCategory, Lower(title), Lower(desc)))
  }

  /**
    `extract_any_benefit_info` with `re` usable in every branch: None for an element whose
    stripped text is shorter than ten characters or that yields no title.
  */
  function AnyBenefitInfo(element: Node): (r: Option<Benefit>)
    ensures |Strip(element.text)| < 10 ==> r.None?
    ensures |Strip(element.text)| >= 10 ==> (r.Some? <==> TitleOf(element, Strip(element.text)).Some?)
    ensures r.Some? ==> Some(r.value.title) == TitleOf(element, Strip(element.text))
    ensures r.Some? ==> |r.value.title| > 5 && |r.value.description| <= 500
    ensures r.Some? ==>
      r.value.description == Take(Strip(ReplaceAll(Strip(element.text), r.value.title, "")), 500)
    ensures r.Some? ==> r.value.url == CardUrl(element)
    ensures r.Some? ==> r.value.paymentMethod == PaymentOf(Lower(Strip(element.text)))
    ensures r.Some? ==>
      r.value.category == Categorize(AggressiveRules, DefaultCategory, Lower(r.value.title), Lower(r.value.description))
    ensures r.Some? ==> (r.value.offerType, r.value.offerValue) == OfferFromText(Strip(element.text))
  {
    var text := Strip(element.text);
    if |text| < 10 then None
    else
      match TitleOf(element, text)
      case None => None
      case Some(title) => Some(BenefitOf(element, text, title, OfferFromText(text)))
  }

  /** The function as written: a card whose offer text takes the descuento branch is lost. */
  function AnyBenefitInfoAsWritten(element: Node): Option<Benefit> {
    var text := Strip(element.text);
    if |text| < 10 then None
    else
      match TitleOf(element, text)
      case None => None
      case Some(title) =>
        match OfferFromTextAsWritten(text)
        case None => None
        case Some(offer) => Some(BenefitOf(element, text, title, offer))
  }

  /** The code as written drops exactly the cards the corrected offer reading calls descuento. */
  lemma AsWrittenDropsDescuento(element: Node)
    ensures AnyBenefitInfoAsWritten(element) ==
      if AnyBenefitInfo(element).Some? && AnyBenefitInfo(element).value.offerType == Descuento then None
      else AnyBenefitInfo(element)
  {
    OfferAsWrittenDiffers(Strip(element.text));
  }

  method ExtractAnyBenefitInfo(element: Node) returns (r: Option<Benefit>)
    ensures r == AnyBenefitInfo(element)
  {
    var text := Strip(element.text);
    if |text| < 10 {
      return None;
    }
    var title := FindAcceptedText(element, TitleSels, 5, []);
    if title.None? {
      title := FirstLineTitle(Split(text, '\n'));
    }
    assert title == TitleOf(element, text);
    if title.None? {
      return None;
    }
    r := Some(BenefitOf(element, text, title.value, OfferFromText(text)));
  }

  // ---------------------------------------------------------------- harvesting

  /** Every record read from an element carries a title longer than five characters. */
  lemma {:induction false} ExtractedTitles(elements: seq<Node>)
    ensures forall b :: b in Collect(elements, AnyBenefitInfo) ==> |b.title| > 5
  {
    CollectFrom(elements, AnyBenefitInfo);
  }

  /** What one selector yields: its new records with a title longer than ten, read by `read`. */
  function Kept(dom: Node, sel: Selector, read: Node -> Option<Benefit>): seq<Benefit> {
    KeepFirst(Collect(FindAll(dom, sel), read), Title, 10, {})
  }

  /**
    The benefits of the first selector that yields any new title longer than ten characters.
    `read` is the record reader: `AnyBenefitInfo` as intended, `AnyBenefitInfoAsWritten` as the
    code stands.
  */
  function Harvest(dom: Node, sels: seq<Selector>, read: Node -> Option<Benefit>): seq<Benefit> {
    if sels == [] then []
    else
      var kept := Kept(dom, sels[0], read);
      if kept != [] then kept else Harvest(dom, sels[1..], read)
  }

  /** The selector loop of `scrape_bci_aggressive`, with the corrected reader: stop at the first selector that yields benefits. */
  method HarvestBenefits(dom: Node, sels: seq<Selector>) returns (all: seq<Benefit>)
    ensures all == Harvest(dom, sels, AnyBenefitInfo)
  {
    var k := 0;
    while k < |sels|
      invariant 0 <= k <= |sels|
      invariant Harvest(dom, sels, AnyBenefitInfo) == Harvest(dom, sels[k..], AnyBenefitInfo)
    {
      assert sels[k..][0] == sels[k] && sels[k..][1..] == sels[k + 1..];
      var seen;
      all, seen := AddCollected([], {}, FindAll(dom, sels[k]), AnyBenefitInfo, Title, 10);
      if all != [] {
        return;
      }
      k := k + 1;
    }
    return [];
  }

  /**
    The harvest keeps titles longer than ten, each once, and is empty exactly when no selector
    yields anything.
  */
  lemma {:induction false} HarvestMeaning(dom: Node, sels: seq<Selector>, read: Node -> Option<Benefit>)
    ensures forall b :: b in Harvest(dom, sels, read) ==> |b.title| > 10
    ensures DistinctKeys(Harvest(dom, sels, read), Title)
    ensures Harvest(dom, sels, read) == [] <==> forall k :: 0 <= k < |sels| ==> Kept(dom, sels[k], read) == []
  {
    if sels != [] {
      KeepFirstUnique(Collect(FindAll(dom, sels[0]), read), Title, 10, {});
      if Kept(dom, sels[0], read) == [] {
        HarvestMeaning(dom, sels[1..], read);
        forall k | 1 <= k < |sels| ensures sels[k] == sels[1..][k - 1] {
        }
      }
    }
  }

  /** A non-empty harvest is what the first selector yielding anything yields, and nothing from later ones. */
  lemma {:induction false} HarvestIsFirst(dom: Node, sels: seq<Selector>, read: Node -> Option<Benefit>, k: nat)
    requires k < |sels| && Kept(dom, sels[k], read) != []
    requires forall j :: 0 <= j < k ==> Kept(dom, sels[j], read) == []
    ensures Harvest(dom, sels, read) == Kept(dom, sels[k], read)
  {
    if k > 0 {
      assert sels[1..][k - 1] == sels[k];
      forall j | 0 <= j < k - 1 ensures Kept(dom, sels[1..][j], read) == [] {
        assert sels[1..][j] == sels[j + 1];
      }
      HarvestIsFirst(dom, sels[1..], read, k - 1);
    }
  }

  /** As written, a selector whose every record is a descuento card yields nothing. */
  lemma {:induction false} AsWrittenCollectsNoDescuento(elements: seq<Node>)
    requires forall e :: e in elements && AnyBenefitInfo(e).Some? ==> AnyBenefitInfo(e).value.offerType == Descuento
    ensures Collect(elements, AnyBenefitInfoAsWritten) == []
  {
    if elements != [] {
      AsWrittenDropsDescuento(elements[0]);
      AsWrittenCollectsNoDescuento(elements[1..]);
    }
  }

  /**
    So, as written, such a selector is passed over for the next one, where the intended code
    would have stopped at it.
  */
  lemma AsWrittenSkipsDescuentoSelector(dom: Node, sels: seq<Selector>)
    requires sels != []
    requires forall e :: e in FindAll(dom, sels[0]) && AnyBenefitInfo(e).Some? ==> AnyBenefitInfo(e).value.offerType == Descuento
    ensures Harvest(dom, sels, AnyBenefitInfoAsWritten) == Harvest(dom, sels[1..], AnyBenefitInfoAsWritten)
  {
    AsWrittenCollectsNoDescuento(FindAll(dom, sels[0]));
  }

  /** Reading with the code as written and as intended agree on elements without a descuento record. */
  lemma {:induction false} AsWrittenCollectsAlike(elements: seq<Node>)
    requires forall e :: e in elements && AnyBenefitInfo(e).Some? ==> AnyBenefitInfo(e).value.offerType != Descuento
    ensures Collect(elements, AnyBenefitInfoAsWritten) == Collect(elements, AnyBenefitInfo)
  {
    if elements != [] {
      AsWrittenDropsDescuento(elements[0]);
      AsWrittenCollectsAlike(elements[1..]);
    }
  }

  /** On a page with no descuento card the harvest as written is the intended one. */
  lemma {:induction false} AsWrittenHarvestAgrees(dom: Node, sels: seq<Selector>)
    requires forall k, e :: 0 <= k < |sels| && e in FindAll(dom, sels[k]) && AnyBenefitInfo(e).Some? ==>
      AnyBenefitInfo(e).value.offerType != Descuento
    ensures Harvest(dom, sels, AnyBenefitInfoAsWritten) == Harvest(dom, sels, AnyBenefitInfo)
  {
    if sels != [] {
      AsWrittenCollectsAlike(FindAll(dom, sels[0]));
      forall k, e | 0 <= k < |sels| - 1 && e in FindAll(dom, sels[1..][k]) && AnyBenefitInfo(e).Some?
        ensures AnyBenefitInfo(e).value.offerType != Descuento
      {
        assert sels[1..][k] == sels[k + 1];
      }
      AsWrittenHarvestAgrees(dom, sels[1..]);
    }
  }

  /** An element with a stripped text longer than 20 and shorter than 1000 characters. */
  predicate TextElement(e: Node) {
    20 < |Strip(e.text)| < 1000
  }

  /** The fallback scan over every element (`*`) when the wait fails. */
  method HasTextElements(dom: Node) returns (found: bool)
    ensures found <==> exists e :: e in FindAll(dom, AnySel) && TextElement(e)
  {
    var all := FindAll(dom, AnySel);
    var count := CountWhere(all, TextElement);
    CountIfPositive(all, TextElement);
    found := count > 0;
  }

  /** What `scrape_bci_aggressive` returns for a browser that has just opened the benefits page. */
  function ScrapeAggressive(s0: Session, read: Node -> Option<Benefit>): seq<Benefit> {
    var (ok, t) := WaitAndInteract(s0, MaxWait);
    if !ok && !(exists e :: e in FindAll(Current(t), AnySel) && TextElement(e)) then []
    else Harvest(Current(t), HarvestSels, read)
  }

  /** `scrape_bci_aggressive` with the corrected reader. */
  method ScrapeBciAggressive(s0: Session) returns (all: seq<Benefit>)
    ensures all == ScrapeAggressive(s0, AnyBenefitInfo)
  {
    var ok, t := WaitAndInteractLoop(s0, MaxWait);
    if !ok {
      var found := HasTextElements(Current(t));
      if !found {
        return [];
      }
    }
    all := HarvestBenefits(Current(t), HarvestSels);
  }
}
