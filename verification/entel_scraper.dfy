/**
  entel/scraper.py: each `andino-card-general` element carries its benefit as a JSON list in its
  `eds-card` attribute, HTML-escaped; the first entry is the benefit. The `eds-card-general`
  banners carry lists of featured benefits. Cards and then banners go through one shared dedup
  on the title.
*/
module EntelScraper {
  import opened Wrappers
  import opened Text
  import opened Seqs
  import opened Dom
  import opened Browser
  import opened Dedup

  /** A JSON value as `json.loads` returns it. */
  datatype Json = JNull | JBool(b: bool) | JNum(n: int) | JStr(s: string) | JArr(items: seq<Json>) | JObj(fields: map<string, Json>)

  /** The dict `extract_benefit_from_json` returns. */
  datatype Card = Card(title: string, description: string, url: string)

  /** An output row. */
  datatype Record = Record(title: string, description: string, url: string, category: string)

  function RecordTitle(r: Record): string {
    r.title
  }

  const CardTag := "andino-card-general"
  const BannerTag := "eds-card-general"
  const PayloadAttr := "eds-card"
  const CardCategory := "Club Entel"
  const BannerCategory := "Club Entel - Destacados"
  /** The timeout of the wait for the first card, counted in polls. */
  const CardWait: nat := 20

  /** `json_data.replace('&quot;', '"')`. */
  function Unescape(attr: string): string {
    ReplaceAll(attr, "&quot;", "\"")
  }

  /** An attribute without entities is parsed as it stands. */
  lemma UnescapePlain(attr: string)
    requires !Contains(attr, "&quot;")
    ensures Unescape(attr) == attr
  {
    ReplaceAllNoMatch(attr, "&quot;", "\"");
  }

  // ---------------------------------------------------------------- markdown

  /** Where the line holding position `j` ends: the first newline at or after `j`, or the end of `s`. */
  function LineEnd(s: string, j: nat): (e: nat)
    requires j <= |s|
    ensures j <= e <= |s|
    ensures forall i :: j <= i < e ==> s[i] != '\n'
    ensures e == |s| || s[e] == '\n'
    decreases |s| - j
  {
    if j < |s| && s[j] != '\n' then LineEnd(s, j + 1) else j
  }

  /**
    Where the closing `**` of `\*\*(.*?)\*\*` is, searching from `j`; `.` does not match a
    newline, and the lazy `.*?` takes the first `**` on the line.
  */
  function CloseAt(s: string, j: nat): (k: Option<nat>)
    requires j <= |s|
    ensures k.Some? ==> j <= k.value && k.value + 2 <= |s| && s[k.value] == '*' && s[k.value + 1] == '*'
    ensures k.Some? ==> forall i :: j <= i < k.value ==> s[i] != '\n'
    ensures k.Some? ==> forall i :: j <= i < k.value ==> !(s[i] == '*' && s[i + 1] == '*')
    ensures k.None? ==> forall i :: j <= i && i + 1 < LineEnd(s, j) ==> !(s[i] == '*' && s[i + 1] == '*')
    decreases |s| - j
  {
    if j + 2 <= |s| && s[j] == '*' && s[j + 1] == '*' then Some(j)
    else if j < |s| && s[j] != '\n' then CloseAt(s, j + 1)
    else None
  }

  /** `re.sub(r'\*\*(.*?)\*\*', r'\1', s)`: every bold span, found left to right, loses its markers. */
  function StripBold(s: string): (r: string)
    ensures |r| <= |s|
    decreases |s|
  {
    if |s| >= 2 && s[0] == '*' && s[1] == '*' && CloseAt(s, 2).Some? then
      var k := CloseAt(s, 2).value;
      s[2..k] + StripBold(s[k + 2..])
    else if s == [] then []
    else [s[0]] + StripBold(s[1..])
  }

  /** The closing search stops at the first `**` when the text before it on the line holds none. */
  lemma {:induction false} CloseAtFirst(s: string, j: nat, k: nat)
    requires j <= k && k + 2 <= |s| && s[k] == '*' && s[k + 1] == '*'
    requires forall i :: j <= i < k ==> s[i] != '\n' && !(s[i] == '*' && s[i + 1] == '*')
    ensures CloseAt(s, j) == Some(k)
    decreases k - j
  {
    if j < k {
      CloseAtFirst(s, j + 1, k);
    }
  }

  /** In `**b**t`, the span from the third character to the closing marker is one line without `**`. */
  lemma SpanClear(b: string, t: string)
    requires '\n' !in b
    requires forall i :: 0 <= i < |b| - 1 ==> !(b[i] == '*' && b[i + 1] == '*')
    requires b != [] ==> b[|b| - 1] != '*'
    ensures var s := "**" + b + "**" + t;
      forall i :: 2 <= i < 2 + |b| ==> s[i] != '\n' && !(s[i] == '*' && s[i + 1] == '*')
  {
    var s := "**" + b + "**" + t;
    var k := 2 + |b|;
    forall i | 2 <= i < k ensures s[i] != '\n' && !(s[i] == '*' && s[i + 1] == '*') {
      assert s[i] == b[i - 2];
      assert b[i - 2] in b;
      if i + 1 < k {
        assert s[i + 1] == b[i - 1];
      }
    }
  }

  /**
    A bold span loses its markers: `**b**` followed by `t` becomes `b` followed by `t` with its
    own spans removed, for a one-line `b` that holds no `**` and does not end in `*`.
  */
  lemma BoldSpan(b: string, t: string)
    requires '\n' !in b
    requires forall i :: 0 <= i < |b| - 1 ==> !(b[i] == '*' && b[i + 1] == '*')
    requires b != [] ==> b[|b| - 1] != '*'
    ensures StripBold("**" + b + "**" + t) == b + StripBold(t)
  {
    var s := "**" + b + "**" + t;
    var k := 2 + |b|;
    SpanClear(b, t);
    assert s[k] == '*' && s[k + 1] == '*';
    CloseAtFirst(s, 2, k);
    assert s[2..k] == b && s[k + 2..] == t;
    assert StripBold(s) == s[2..k] + StripBold(s[k + 2..]);
  }

  /** The text without its asterisks. */
  function NoStars(s: string): string {
    if s == [] then [] else (if s[0] == '*' then [] else [s[0]]) + NoStars(s[1..])
  }

  lemma {:induction false} NoStarsAppend(a: string, b: string)
    ensures NoStars(a + b) == NoStars(a) + NoStars(b)
  {
    if a == [] {
      assert a + b == b;
    } else {
      assert (a + b)[0] == a[0] && (a + b)[1..] == a[1..] + b;
      NoStarsAppend(a[1..], b);
    }
  }

  lemma NoStarsMarker(m: string)
    requires |m| == 2 && m[0] == '*' && m[1] == '*'
    ensures NoStars(m) == []
  {
    assert NoStars(m) == NoStars(m[1..]);
    assert m[1..][0] == '*' && m[1..][1..] == [];
  }

  /** Removing bold markers deletes asterisks and nothing else, and keeps the other characters in order. */
  lemma {:induction false} StripBoldOnlyDeletesStars(s: string)
    ensures NoStars(StripBold(s)) == NoStars(s)
    decreases |s|
  {
    if |s| >= 2 && s[0] == '*' && s[1] == '*' && CloseAt(s, 2).Some? {
      var k := CloseAt(s, 2).value;
      StripBoldOnlyDeletesStars(s[k + 2..]);
      BoldSpanStars(s, k);
    } else if s != [] {
      StripBoldOnlyDeletesStars(s[1..]);
      NoStarsAppend([s[0]], StripBold(s[1..]));
      NoStarsAppend([s[0]], s[1..]);
      assert [s[0]] + s[1..] == s;
    }
  }

  /** A bold span: its markers hold only asterisks, so they vanish from the text without asterisks. */
  lemma BoldSpanStars(s: string, k: nat)
    requires |s| >= 2 && s[0] == '*' && s[1] == '*' && CloseAt(s, 2) == Some(k)
    requires NoStars(StripBold(s[k + 2..])) == NoStars(s[k + 2..])
    ensures NoStars(StripBold(s)) == NoStars(s)
  {
    var body, tail := s[2..k], s[k + 2..];
    MarkersVanish(s, k);
    assert StripBold(s) == body + StripBold(tail);
    NoStarsAppend(body, StripBold(tail));
  }

  /** Without its asterisks, `**body**tail` is `body` and then `tail`, each without asterisks. */
  lemma MarkersVanish(s: string, k: nat)
    requires 2 <= k && k + 2 <= |s|
    requires s[0] == '*' && s[1] == '*' && s[k] == '*' && s[k + 1] == '*'
    ensures NoStars(s) == NoStars(s[2..k]) + NoStars(s[k + 2..])
  {
    var open, body, close, tail := s[..2], s[2..k], s[k..k + 2], s[k + 2..];
    assert s == s[..k + 2] + tail;
    assert s[..k + 2] == s[..k] + close;
    assert s[..k] == open + body;
    NoStarsAppend(s[..k + 2], tail);
    NoStarsAppend(s[..k], close);
    NoStarsAppend(open, body);
    NoStarsMarker(open);
    NoStarsMarker(close);
    assert [] + NoStars(body) + [] == NoStars(body);
  }

  /** A text with no `**` is left as it is. */
  lemma {:induction false} StripBoldPlain(s: string)
    requires !Contains(s, "**")
    ensures StripBold(s) == s
    decreases |s|
  {
    if s != [] {
      assert !StartsWith(s, "**");
      StripBoldPlain(s[1..]);
      assert [s[0]] + s[1..] == s;
    }
  }

  // ---------------------------------------------------------------- payloads

  /** `obj.get(key, '')`: a missing key or `null` reads as empty; a value that is not a string is a failure. */
  function TextField(fields: map<string, Json>, key: string): (r: Option<string>)
    ensures key !in fields ==> r == Some("")
  {
    if key !in fields then Some("")
    else match fields[key]
      case JStr(s) => Some(s)
      case JNull => Some("")
      case _ => None
  }

  /** The card description: markdown removed and stripped, when there is one. */
  function CleanDescription(d: string): string {
    if d != "" then Strip(StripBold(d)) else d
  }

  /** `extract_benefit_from_json` on a parsed payload: only a non-empty list, and only its first entry. */
  function CardFromJson(data: Json): (r: Option<Card>)
    ensures r.Some? <==>
      && data.JArr? && |data.items| > 0 && data.items[0].JObj?
      && TextField(data.items[0].fields, "title").Some?
      && TextField(data.items[0].fields, "text").Some?
      && TextField(data.items[0].fields, "href").Some?
    ensures r.Some? ==> TextField(data.items[0].fields, "title") == Some(r.value.title)
    ensures r.Some? ==> TextField(data.items[0].fields, "href") == Some(r.value.url)
    ensures r.Some? ==> r.value.description == CleanDescription(TextField(data.items[0].fields, "text").value)
  {
    if data.JArr? && |data.items| > 0 && data.items[0].JObj? then
      var fields := data.items[0].fields;
      var title := TextField(fields, "title");
      var text := TextField(fields, "text");
      var href := TextField(fields, "href");
      if title.Some? && text.Some? && href.Some? then Some(Card(title.value, CleanDescription(text.value), href.value))
      else None
    else None
  }

  /** Entries after the first never matter. */
  lemma FirstEntryOnly(items: seq<Json>)
    requires |items| > 0
    ensures CardFromJson(JArr(items)) == CardFromJson(JArr(items[..1]))
  {
  }

  /** `extract_benefit_from_json` on the attribute text; `parse` is `json.loads` (None when it raises). */
  function CardFromAttr(attr: string, parse: string -> Option<Json>): Option<Card> {
    match parse(Unescape(attr))
    case None => None
    case Some(data) => CardFromJson(data)
  }

  /** The record one card element contributes before dedup: none without payload, card or title; otherwise the decoded card. */
  function CardCandidate(parse: string -> Option<Json>, element: Node): (r: Option<Record>)
    ensures r.Some? ==> r.value.title != "" && r.value.category == CardCategory
    ensures AttrOr(element, PayloadAttr) == "" ==> r.None?
    ensures var card := CardFromAttr(AttrOr(element, PayloadAttr), parse);
      r.Some? <==> AttrOr(element, PayloadAttr) != "" && card.Some? && card.value.title != ""
    ensures var card := CardFromAttr(AttrOr(element, PayloadAttr), parse);
      r.Some? ==> r.value == Record(card.value.title, card.value.description, card.value.url, CardCategory)
  {
    var attr := AttrOr(element, PayloadAttr);
    if attr == "" then None
    else match CardFromAttr(attr, parse)
      case None => None
      case Some(c) => if c.title != "" then Some(Record(c.title, c.description, c.url, CardCategory)) else None
  }

  /** The card reader with its parser fixed, for the element loop. */
  function CardReader(parse: string -> Option<Json>): Node -> Option<Record> {
    element => CardCandidate(parse, element)
  }

  // ---------------------------------------------------------------- banners

  /**
    The item loop of one banner: an unseen non-empty title gives a record whose description
    loses its markdown but is not stripped. An item that is not an object, or a field that is
    not a string, raises and ends the banner; the records before it stay.
  */
  function BannerItems(items: seq<Json>, seen: set<string>): (r: (seq<Record>, set<string>)) {
    if items == [] then ([], seen)
    else if !items[0].JObj? then ([], seen)
    else
      var fields := items[0].fields;
      match TextField(fields, "title")
      case None => ([], seen)
      case Some(title) =>
        if title != "" && title !in seen then
          var text := TextField(fields, "text");
          var href := TextField(fields, "href");
          if text.None? || href.None? then ([], seen)
          else
            var description := if text.value != "" then StripBold(text.value) else text.value;
            var rest := BannerItems(items[1..], seen + {title});
            ([Record(title, description, href.value, BannerCategory)] + rest.0, rest.1)
        else BannerItems(items[1..], seen)
  }

  /** One banner element: no payload, a payload that does not parse or is not a list gives nothing. */
  function Banner(element: Node, parse: string -> Option<Json>, seen: set<string>): (seq<Record>, set<string>) {
    var attr := AttrOr(element, PayloadAttr);
    if attr == "" then ([], seen)
    else match parse(Unescape(attr))
      case Some(JArr(items)) => BannerItems(items, seen)
      case _ => ([], seen)
  }

  /** All banners in order, threading the seen titles. */
  function Banners(elements: seq<Node>, parse: string -> Option<Json>, seen: set<string>): (seq<Record>, set<string>) {
    if elements == [] then ([], seen)
    else
      var first := Banner(elements[0], parse, seen);
      var rest := Banners(elements[1..], parse, first.1);
      (first.0 + rest.0, rest.1)
  }

  /** The banner dedup invariant: new non-empty titles, pairwise distinct, all added to the seen set. */
  predicate FreshRecords(r: seq<Record>, seen: set<string>, seen': set<string>, category: string) {
    && (forall x :: x in r ==> x.title != "" && x.title !in seen && x.category == category)
    && DistinctKeys(r, RecordTitle)
    && seen' == seen + KeySet(r, RecordTitle)
  }

  lemma FreshCons(x: Record, r: seq<Record>, seen: set<string>, seen': set<string>, category: string)
    requires x.title != "" && x.title !in seen && x.category == category
    requires FreshRecords(r, seen + {x.title}, seen', category)
    ensures FreshRecords([x] + r, seen, seen', category)
  {
    var r' := [x] + r;
    forall i, j | 0 <= i < j < |r'| ensures r'[i].title != r'[j].title {
      assert r'[j] == r[j - 1] && r[j - 1] in r;
      if i > 0 {
        assert r'[i] == r[i - 1];
      }
    }
    assert KeySet(r', RecordTitle) == {x.title} + KeySet(r, RecordTitle) by {
      forall k | k in KeySet(r', RecordTitle) ensures k in {x.title} + KeySet(r, RecordTitle) {
        var y :| y in r' && RecordTitle(y) == k;
        if y != x {
          assert y in r;
        }
      }
      assert x in r' && RecordTitle(x) == x.title;
      forall k | k in KeySet(r, RecordTitle) ensures k in KeySet(r', RecordTitle) {
        var y :| y in r && RecordTitle(y) == k;
        assert y in r';
      }
    }
  }

  lemma FreshAppend(a: seq<Record>, b: seq<Record>, seen: set<string>, mid: set<string>, seen': set<string>, category: string)
    requires FreshRecords(a, seen, mid, category) && FreshRecords(b, mid, seen', category)
    ensures FreshRecords(a + b, seen, seen', category)
  {
    var r := a + b;
    forall i, j | 0 <= i < j < |r| ensures r[i].title != r[j].title {
      if j >= |a| {
        assert r[j] == b[j - |a|] && b[j - |a|] in b;
        if i < |a| {
          assert r[i] == a[i] && a[i] in a;
        } else {
          assert r[i] == b[i - |a|];
        }
      } else {
        assert r[i] == a[i] && r[j] == a[j];
      }
    }
    assert KeySet(r, RecordTitle) == KeySet(a, RecordTitle) + KeySet(b, RecordTitle) by {
      forall k | k in KeySet(r, RecordTitle) ensures k in KeySet(a, RecordTitle) + KeySet(b, RecordTitle) {
        var y :| y in r && RecordTitle(y) == k;
        if y in a {
        } else {
          assert y in b;
        }
      }
    }
  }

  lemma {:induction false} BannerItemsFresh(items: seq<Json>, seen: set<string>)
    ensures var r := BannerItems(items, seen); FreshRecords(r.0, seen, r.1, BannerCategory)
  {
    if items == [] || !items[0].JObj? || TextField(items[0].fields, "title").None? {
      assert KeySet([], RecordTitle) == {};
    } else {
      var fields := items[0].fields;
      var title := TextField(fields, "title").value;
      if title != "" && title !in seen {
        if TextField(fields, "text").None? || TextField(fields, "href").None? {
          assert KeySet([], RecordTitle) == {};
        } else {
          BannerItemsFresh(items[1..], seen + {title});
          var rest := BannerItems(items[1..], seen + {title});
          var x := BannerItems(items, seen).0[0];
          assert BannerItems(items, seen) == ([x] + rest.0, rest.1);
          FreshCons(x, rest.0, seen, rest.1, BannerCategory);
        }
      } else {
        BannerItemsFresh(items[1..], seen);
      }
    }
  }

  lemma {:induction false} BannersFresh(elements: seq<Node>, parse: string -> Option<Json>, seen: set<string>)
    ensures var r := Banners(elements, parse, seen); FreshRecords(r.0, seen, r.1, BannerCategory)
  {
    if elements == [] {
      assert KeySet([], RecordTitle) == {};
    } else {
      var first := Banner(elements[0], parse, seen);
      var attr := AttrOr(elements[0], PayloadAttr);
      if attr != "" && parse(Unescape(attr)).Some? && parse(Unescape(attr)).value.JArr? {
        BannerItemsFresh(parse(Unescape(attr)).value.items, seen);
      } else {
        assert KeySet([], RecordTitle) == {};
      }
      BannersFresh(elements[1..], parse, first.1);
      var rest := Banners(elements[1..], parse, first.1);
      FreshAppend(first.0, rest.0, seen, first.1, rest.1, BannerCategory);
    }
  }

  // ---------------------------------------------------------------- the page

  /** The records of the page: the deduplicated cards, then the banners against the same seen set. */
  function PageRecords(dom: Node, parse: string -> Option<Json>): seq<Record> {
    var cards := Collect(FindAll(dom, TagSel(CardTag)), CardReader(parse));
    var seen := SeenAfter(cards, RecordTitle, 0, {});
    KeepFirst(cards, RecordTitle, 0, {}) + Banners(FindAll(dom, TagSel(BannerTag)), parse, seen).0
  }

  predicate HasCard(dom: Node) {
    FindFirst(dom, TagSel(CardTag)).Some?
  }

  /**
    What `scrape_entel_benefits` returns once the page is open: nothing if no card shows in
    time; otherwise, after the five-second pause (one tick), the records of the page.
  */
  function ScrapeResult(s0: Session, parse: string -> Option<Json>): seq<Record> {
    var (ok, t) := Poll(s0, CardWait, HasCard);
    if !ok then [] else PageRecords(Current(Tick(t)), parse)
  }

  /** The item loop of one banner, with `break` where an item raises. */
  method ReadBannerItems(items: seq<Json>, seen: set<string>) returns (records: seq<Record>, seen': set<string>)
    ensures records == BannerItems(items, seen).0 && seen' == BannerItems(items, seen).1
  {
    records, seen' := [], seen;
    var i := 0;
    assert items[0..] == items;
    while i < |items|
      invariant 0 <= i <= |items|
      invariant records + BannerItems(items[i..], seen').0 == BannerItems(items, seen).0
      invariant BannerItems(items[i..], seen').1 == BannerItems(items, seen).1
    {
      assert items[i..][0] == items[i] && items[i..][1..] == items[i + 1..];
      if !items[i].JObj? {
        assert BannerItems(items[i..], seen') == ([], seen');
        return;
      }
      var fields := items[i].fields;
      var title := TextField(fields, "title");
      if title.None? {
        assert BannerItems(items[i..], seen') == ([], seen');
        return;
      }
      if title.value != "" && title.value !in seen' {
        var text := TextField(fields, "text");
        var href := TextField(fields, "href");
        if text.None? || href.None? {
          assert BannerItems(items[i..], seen') == ([], seen');
          return;
        }
        var description := if text.value != "" then StripBold(text.value) else text.value;
        var record := Record(title.value, description, href.value, BannerCategory);
        var rest := BannerItems(items[i + 1..], seen' + {title.value});
        assert (records + [record]) + rest.0 == records + ([record] + rest.0);
        records := records + [record];
        seen' := seen' + {title.value};
      }
      i := i + 1;
    }
    assert items[|items|..] == [];
  }

  /** One banner element: its payload, if it parses to a list, goes through the item loop. */
  method ReadBanner(element: Node, parse: string -> Option<Json>, seen: set<string>)
    returns (records: seq<Record>, seen': set<string>)
    ensures records == Banner(element, parse, seen).0 && seen' == Banner(element, parse, seen).1
  {
    records, seen' := [], seen;
    var attr := AttrOr(element, PayloadAttr);
    if attr != "" {
      var data := parse(Unescape(attr));
      if data.Some? && data.value.JArr? {
        records, seen' := ReadBannerItems(data.value.items, seen);
      }
    }
  }

  /** The banners from `i` on: banner `i`, then the later ones against the titles it added. */
  lemma BannersStep(elements: seq<Node>, i: nat, parse: string -> Option<Json>, records: seq<Record>, seen: set<string>)
    requires i < |elements|
    ensures var first := Banner(elements[i], parse, seen);
      var rest := Banners(elements[i + 1..], parse, first.1);
      && (records + first.0) + rest.0 == records + Banners(elements[i..], parse, seen).0
      && rest.1 == Banners(elements[i..], parse, seen).1
  {
    assert elements[i..][0] == elements[i] && elements[i..][1..] == elements[i + 1..];
    var first := Banner(elements[i], parse, seen);
    var rest := Banners(elements[i + 1..], parse, first.1);
    assert (records + first.0) + rest.0 == records + (first.0 + rest.0);
  }

  /**
    One pass of the banner loop: what it adds, followed by what the later banners give, is what
    the banners from `i` on give.
  */
  method VisitBanner(elements: seq<Node>, i: nat, parse: string -> Option<Json>, records: seq<Record>, seen: set<string>)
    returns (records': seq<Record>, seen': set<string>)
    requires i < |elements|
    ensures records' + Banners(elements[i + 1..], parse, seen').0 == records + Banners(elements[i..], parse, seen).0
    ensures Banners(elements[i + 1..], parse, seen').1 == Banners(elements[i..], parse, seen).1
  {
    BannersStep(elements, i, parse, records, seen);
    var found;
    found, seen' := ReadBanner(elements[i], parse, seen);
    records' := records + found;
  }

  /** The banner loop; a banner that raises is skipped (`continue`). */
  method ReadBanners(elements: seq<Node>, parse: string -> Option<Json>, seen: set<string>)
    returns (records: seq<Record>, seen': set<string>)
    ensures records == Banners(elements, parse, seen).0 && seen' == Banners(elements, parse, seen).1
  {
    ghost var goal := Banners(elements, parse, seen);
    records, seen' := [], seen;
    assert elements[0..] == elements;
    assert records + goal.0 == goal.0;
    for i := 0 to |elements|
      invariant records + Banners(elements[i..], parse, seen').0 == goal.0
      invariant Banners(elements[i..], parse, seen').1 == goal.1
    {
      records, seen' := VisitBanner(elements, i, parse, records, seen');
    }
    assert elements[|elements|..] == [];
    assert records + [] == records;
  }

  /** `scrape_entel_benefits` from the page load on. */
  method ScrapeEntelBenefits(s0: Session, parse: string -> Option<Json>) returns (benefits: seq<Record>)
    ensures benefits == ScrapeResult(s0, parse)
  {
    var ok, t := Poll(s0, CardWait, HasCard).0, Poll(s0, CardWait, HasCard).1;
    if !ok {
      return [];
    }
    t := Tick(t);
    var dom := Current(t);
    var seen;
    benefits, seen := AddCollected([], {}, FindAll(dom, TagSel(CardTag)), CardReader(parse), RecordTitle, 0);
    SeenAfterKeys(Collect(FindAll(dom, TagSel(CardTag)), CardReader(parse)), RecordTitle, 0, {});
    var banners;
    banners, seen := ReadBanners(FindAll(dom, TagSel(BannerTag)), parse, seen);
    benefits := benefits + banners;
  }

  /** Every output title is non-empty and appears once, across cards and banners together. */
  lemma TitlesDistinct(dom: Node, parse: string -> Option<Json>)
    ensures forall r :: r in PageRecords(dom, parse) ==> r.title != ""
    ensures DistinctKeys(PageRecords(dom, parse), RecordTitle)
  {
    var cards := Collect(FindAll(dom, TagSel(CardTag)), CardReader(parse));
    var kept := KeepFirst(cards, RecordTitle, 0, {});
    var seen := SeenAfter(cards, RecordTitle, 0, {});
    KeepFirstUnique(cards, RecordTitle, 0, {});
    SeenAfterKeys(cards, RecordTitle, 0, {});
    BannersFresh(FindAll(dom, TagSel(BannerTag)), parse, seen);
    var banners := Banners(FindAll(dom, TagSel(BannerTag)), parse, seen).0;
    DistinctAppend(kept, banners, RecordTitle);
  }

  /** The first `k` records are card records and the rest banner records. */
  predicate SplitAt(r: seq<Record>, k: nat) {
    && k <= |r|
    && (forall i :: 0 <= i < k ==> r[i].category == CardCategory)
    && (forall i :: k <= i < |r| ==> r[i].category == BannerCategory)
  }

  /** The card reader only yields card records with a title. */
  lemma {:induction false} CollectedCards(elements: seq<Node>, parse: string -> Option<Json>)
    ensures forall r :: r in Collect(elements, CardReader(parse)) ==> r.title != "" && r.category == CardCategory
  {
    if elements != [] {
      CollectedCards(elements[1..], parse);
      var y := CardReader(parse)(elements[0]);
      assert y == CardCandidate(parse, elements[0]);
    }
  }

  /** Cards come first: every card record precedes every banner record. */
  lemma CardsBeforeBanners(dom: Node, parse: string -> Option<Json>)
    ensures exists k :: SplitAt(PageRecords(dom, parse), k)
  {
    var cards := Collect(FindAll(dom, TagSel(CardTag)), CardReader(parse));
    var kept := KeepFirst(cards, RecordTitle, 0, {});
    var seen := SeenAfter(cards, RecordTitle, 0, {});
    KeepFirstSubsequence(cards, RecordTitle, 0, {});
    SubsequenceMembers(kept, cards);
    CollectedCards(FindAll(dom, TagSel(CardTag)), parse);
    BannersFresh(FindAll(dom, TagSel(BannerTag)), parse, seen);
    var banners := Banners(FindAll(dom, TagSel(BannerTag)), parse, seen).0;
    SplitConcat(kept, banners);
    assert PageRecords(dom, parse) == kept + banners;
  }

  lemma SplitConcat(a: seq<Record>, b: seq<Record>)
    requires forall x :: x in a ==> x.category == CardCategory
    requires forall x :: x in b ==> x.category == BannerCategory
    ensures SplitAt(a + b, |a|)
  {
    var r := a + b;
    forall i | 0 <= i < |a| ensures r[i].category == CardCategory {
      assert r[i] == a[i] && a[i] in a;
    }
    forall i | |a| <= i < |r| ensures r[i].category == BannerCategory {
      assert r[i] == b[i - |a|] && b[i - |a|] in b;
    }
  }
}
