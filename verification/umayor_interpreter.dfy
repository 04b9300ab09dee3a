/**
  umayor/interpreter_umayor.py: read a saved UMayor benefits page, map every benefit card to a
  record (its modal id, title and date from the card; category, details and image from the
  modal the card opens), and lay the records out as a CSV table.
*/
module UMayorInterpreter {
  import opened Wrappers
  import opened Text
  import opened Seqs
  import opened Dom

  /** A record: `id` is always set; every other key is present only when its element was found. */
  datatype UBenefit = UBenefit(
    id: string,
    title: Option<string>,
    date: Option<string>,
    category: Option<string>,
    details: Option<string>,
    imageUrl: Option<string>)

  const Marker := "modalBeneficios"

  /** `re.compile(r'modalBeneficios\d+')` searched anywhere in the value (BeautifulSoup uses `search`). */
  predicate MarksModal(v: string)
    decreases |v|
  {
    || (|Marker| < |v| && v[..|Marker|] == Marker && IsDigit(v[|Marker|]))
    || (v != [] && MarksModal(v[1..]))
  }

  const CardSel: Selector := TagClassSel("a", "card")

  /** A card opens a modal: its `data-target` is there and matches the pattern. */
  predicate IsModalCard(n: Node) {
    "data-target" in n.attrs && MarksModal(n.attrs["data-target"])
  }

  function ModalCards(ns: seq<Node>): (r: seq<Node>)
    ensures |r| <= |ns|
    ensures forall c :: c in r <==> c in ns && IsModalCard(c)
  {
    if ns == [] then []
    else (if IsModalCard(ns[0]) then [ns[0]] else []) + ModalCards(ns[1..])
  }

  lemma {:induction false} ModalCardsIsFilter(ns: seq<Node>)
    ensures ModalCards(ns) == Filter(ns, IsModalCard)
  {
    if ns != [] {
      ModalCardsIsFilter(ns[1..]);
    }
  }

  /**
    The cards kept are the `a.card` elements that open a modal, in document order, each as
    often as it occurs, and no other element.
  */
  lemma ModalCardsMeaning(ns: seq<Node>)
    ensures IsSubsequence(ModalCards(ns), ns)
    ensures forall c :: multiset(ModalCards(ns))[c] == if IsModalCard(c) then multiset(ns)[c] else 0
  {
    ModalCardsIsFilter(ns);
    FilterMeaning(ns, IsModalCard);
  }

  /** The `find_all('a', class_='card', attrs={'data-target': ...})` of the document, in document order. */
  function Cards(soup: Node): seq<Node> {
    ModalCards(FindAll(soup, CardSel))
  }

  /** `s.replace('#', '')`. */
  function RemoveHash(s: string): string {
    ReplaceAll(s, "#", "")
  }

  /** `s` with its '#' characters left out and the others kept in order. */
  function NoHash(s: string): (r: string)
    ensures '#' !in r
  {
    if s == [] then [] else (if s[0] == '#' then [] else [s[0]]) + NoHash(s[1..])
  }

  lemma RemoveHashCons(c: char, s: string)
    ensures RemoveHash([c] + s) == (if c == '#' then [] else [c]) + RemoveHash(s)
  {
    var t := [c] + s;
    assert t[..1] == [c] && t[1..] == s;
  }

  /** The modal id is the target with every '#' removed, wherever it stands. */
  lemma {:induction false} RemoveHashIsNoHash(s: string)
    ensures RemoveHash(s) == NoHash(s)
  {
    if s != [] {
      RemoveHashCons(s[0], s[1..]);
      assert [s[0]] + s[1..] == s;
      RemoveHashIsNoHash(s[1..]);
    }
  }

  lemma {:induction false} RemoveHashAppend(a: string, b: string)
    ensures RemoveHash(a + b) == RemoveHash(a) + RemoveHash(b)
  {
    if a == [] {
      assert a + b == b;
    } else {
      var c, t := a[0], a[1..];
      assert a == [c] + t;
      assert a + b == [c] + (t + b);
      RemoveHashCons(c, t + b);
      RemoveHashCons(c, t);
      RemoveHashAppend(t, b);
    }
  }

  /** Removing the '#' keeps the `modalBeneficios<digit>` the card was chosen for. */
  lemma {:induction false} RemoveHashKeepsMarker(v: string)
    requires MarksModal(v)
    ensures MarksModal(RemoveHash(v))
    decreases |v|
  {
    var m := |Marker|;
    if m < |v| && v[..m] == Marker && IsDigit(v[m]) {
      var head := v[..m + 1];
      assert '#' !in head by {
        assert '#' !in Marker;
        forall i | 0 <= i < m + 1 ensures head[i] != '#' {
          if i < m {
            assert head[i] == v[..m][i] == Marker[i];
          }
        }
      }
      if Contains(head, "#") {
        ContainsHasChar(head, '#');
      }
      ReplaceAllNoMatch(head, "#", "");
      assert head + v[m + 1..] == v;
      RemoveHashAppend(head, v[m + 1..]);
      var r := RemoveHash(v);
      assert r[..m + 1] == head;
      assert r[..m] == Marker && r[m] == v[m];
    } else {
      RemoveHashKeepsMarker(v[1..]);
      RemoveHashCons(v[0], v[1..]);
      assert [v[0]] + v[1..] == v;
      var r := RemoveHash(v);
      if v[0] != '#' {
        assert r == [v[0]] + RemoveHash(v[1..]);
        assert r != [] && r[1..] == RemoveHash(v[1..]);
      } else {
        assert r == RemoveHash(v[1..]);
      }
    }
  }

  /** `card.get('data-target', '').replace('#', '')`. */
  function ModalId(card: Node): string {
    RemoveHash(AttrOr(card, "data-target"))
  }

  /** `soup.find('div', id=modal_id)`. */
  function Modal(soup: Node, id: string): Option<Node> {
    FindFirst(soup, Selector(Some("div"), [], AttrIs("id", id)))
  }

  /**
    `elem.get_text(strip=True)` of the first match of `sel` below `n`, if there is one, read
    as the node's text stripped at both ends (its inner text pieces are not kept apart).
  */
  function TextOf(n: Node, sel: Selector): (r: Option<string>)
    ensures r.Some? <==> FindFirst(n, sel).Some?
  {
    match FindFirst(n, sel)
    case None => None
    case Some(e) => Some(Strip(e.text))
  }

  const TitleSel: Selector := TagSel("h4")
  const DateSel: Selector := TagSel("small")
  const CategorySel: Selector := TagClassSel("p", "catBeneficios")
  const DetailsSel: Selector := TagClassSel("p", "boxCuerpo")
  const ImageSel: Selector := TagSel("img")

  /** The `src` of the modal's first image when that is there and not empty. */
  function ImageOf(modal: Node): (r: Option<string>)
    ensures r.Some? <==> FindFirst(modal, ImageSel).Some? && AttrOr(FindFirst(modal, ImageSel).value, "src") != ""
  {
    match FindFirst(modal, ImageSel)
    case None => None
    case Some(img) => if AttrOr(img, "src") != "" then Some(img.attrs["src"]) else None
  }

  /** The record of one card. */
  function CardRecord(soup: Node, card: Node): (b: UBenefit)
    ensures '#' !in b.id
    ensures b.title.Some? <==> FindFirst(card, TitleSel).Some?
    ensures b.date.Some? <==> FindFirst(card, DateSel).Some?
    ensures b.category.Some? <==> Modal(soup, b.id).Some? && FindFirst(Modal(soup, b.id).value, CategorySel).Some?
    ensures b.details.Some? <==> Modal(soup, b.id).Some? && FindFirst(Modal(soup, b.id).value, DetailsSel).Some?
    ensures b.imageUrl.Some? ==> Modal(soup, b.id).Some? && b.imageUrl.value != ""
  {
    var id := ModalId(card);
    RemoveHashIsNoHash(AttrOr(card, "data-target"));
    var modal := Modal(soup, id);
    UBenefit(
      id,
      TextOf(card, TitleSel),
      TextOf(card, DateSel),
      if modal.Some? then TextOf(modal.value, CategorySel) else None,
      if modal.Some? then TextOf(modal.value, DetailsSel) else None,
      if modal.Some? then ImageOf(modal.value) else None)
  }

  /** The records of `cards`, one each, in card order. */
  function Records(soup: Node, cards: seq<Node>): (r: seq<UBenefit>)
    ensures |r| == |cards|
  {
    if cards == [] then [] else [CardRecord(soup, cards[0])] + Records(soup, cards[1..])
  }

  /** `elem = n.find(...)`, then `if elem: benefit[key] = elem.get_text(strip=True)`. */
  method ReadText(n: Node, sel: Selector) returns (r: Option<string>)
    ensures r == TextOf(n, sel)
  {
    r := None;
    var e := FindFirst(n, sel);
    if e.Some? {
      r := Some(Strip(e.value.text));
    }
  }

  /** `img_elem = modal.find('img')`, then `if img_elem and img_elem.get('src'): benefit['image_url'] = ...`. */
  method ReadImage(modal: Node) returns (r: Option<string>)
    ensures r == ImageOf(modal)
  {
    r := None;
    var img := FindFirst(modal, ImageSel);
    if img.Some? && AttrOr(img.value, "src") != "" {
      r := Some(img.value.attrs["src"]);
    }
  }

  /** The loop body: the `benefit` dict filled key by key under its presence checks. */
  method ReadCard(soup: Node, card: Node) returns (b: UBenefit)
    ensures b == CardRecord(soup, card)
  {
    var id := RemoveHash(AttrOr(card, "data-target"));
    var title := ReadText(card, TitleSel);
    var date := ReadText(card, DateSel);
    var category, details, imageUrl := None, None, None;
    var modal := Modal(soup, id);
    if modal.Some? {
      category := ReadText(modal.value, CategorySel);
      details := ReadText(modal.value, DetailsSel);
      imageUrl := ReadImage(modal.value);
    }
    b := UBenefit(id, title, date, category, details, imageUrl);
  }

  /**
    The card loop of `clean_html_file`. The dict always holds `id`, so `if benefit:` always
    holds and every card gives one record.
  */
  method ReadCards(soup: Node, cards: seq<Node>) returns (benefits: seq<UBenefit>)
    ensures benefits == Records(soup, cards)
  {
    benefits := [];
    var i := 0;
    while i < |cards|
      invariant 0 <= i <= |cards|
      invariant benefits + Records(soup, cards[i..]) == Records(soup, cards)
    {
      var b := ReadCard(soup, cards[i]);
      assert cards[i..][1..] == cards[i + 1..];
      assert benefits + [b] + Records(soup, cards[i + 1..]) == Records(soup, cards);
      benefits := benefits + [b];
      i := i + 1;
    }
    assert cards[|cards|..] == [];
  }

  /** Every card yields exactly one record, in card order, each keyed by that card's modal id. */
  lemma {:induction false} RecordsPerCard(soup: Node, cards: seq<Node>)
    ensures forall i :: 0 <= i < |cards| ==> Records(soup, cards)[i] == CardRecord(soup, cards[i])
    ensures forall i :: 0 <= i < |cards| ==> Records(soup, cards)[i].id == ModalId(cards[i])
  {
    if cards != [] {
      var rest := Records(soup, cards[1..]);
      RecordsPerCard(soup, cards[1..]);
      assert Records(soup, cards) == [CardRecord(soup, cards[0])] + rest;
      forall i | 0 < i < |cards| ensures Records(soup, cards)[i] == CardRecord(soup, cards[i]) {
        assert Records(soup, cards)[i] == rest[i - 1];
        assert cards[1..][i - 1] == cards[i];
      }
    }
  }

  /** Every record of the document is keyed by an id without '#' that still names a `modalBeneficios<digit>` modal. */
  lemma RecordIdsNameModals(soup: Node)
    ensures forall i :: 0 <= i < |Cards(soup)| ==>
      var id := Records(soup, Cards(soup))[i].id;
      '#' !in id && MarksModal(id)
  {
    var cards := Cards(soup);
    RecordsPerCard(soup, cards);
    forall i | 0 <= i < |cards| ensures MarksModal(ModalId(cards[i])) {
      assert cards[i] in cards;
      RemoveHashKeepsMarker(cards[i].attrs["data-target"]);
    }
  }

  /** The CSV columns, in order. */
  const Columns: seq<string> := ["id", "title", "date", "category", "details", "image_url"]

  /** A record as a CSV line: `DictWriter` writes '' for a key the record lacks. */
  function CsvCells(b: UBenefit): (cells: seq<string>)
    ensures |cells| == |Columns|
  {
    [b.id, b.title.GetOr(""), b.date.GetOr(""), b.category.GetOr(""), b.details.GetOr(""), b.imageUrl.GetOr("")]
  }

  /** The CSV table written, header first; no file at all when there are no records. */
  function CsvTable(benefits: seq<UBenefit>): (t: Option<seq<seq<string>>>)
    ensures t.Some? <==> benefits != []
    ensures t.Some? ==> |t.value| == |benefits| + 1 && t.value[0] == Columns
    ensures t.Some? ==> forall i :: 0 < i < |t.value| ==> |t.value[i]| == |Columns|
    ensures t.Some? ==> forall i :: 0 < i < |t.value| ==> t.value[i] == CsvCells(benefits[i - 1])
  {
    if benefits == [] then None
    else Some([Columns] + seq(|benefits|, i requires 0 <= i < |benefits| => CsvCells(benefits[i])))
  }

  /** `csv.DictReader` on one line of the table: each header column names the cell in its place. */
  function ReadLine(line: seq<string>): (row: map<string, string>)
    requires |line| == |Columns|
    ensures row.Keys == {"id", "title", "date", "category", "details", "image_url"}
  {
    var row := map j | 0 <= j < |Columns| :: Columns[j] := line[j];
    assert row.Keys == {Columns[0], Columns[1], Columns[2], Columns[3], Columns[4], Columns[5]};
    row
  }

  /** The lines of the written table as `csv.DictReader` gives them back; no file, no lines. */
  function CsvRows(benefits: seq<UBenefit>): (rows: seq<map<string, string>>)
    ensures |rows| == |benefits|
  {
    match CsvTable(benefits)
    case None => []
    case Some(t) => seq(|t| - 1, i requires 0 <= i < |t| - 1 => ReadLine(t[i + 1]))
  }

  /** The line written for `b`, read back with `csv.DictReader` under the header. */
  function CsvRow(b: UBenefit): (row: map<string, string>)
    ensures row.Keys == {"id", "title", "date", "category", "details", "image_url"}
    ensures row["id"] == b.id
    ensures row["title"] == if b.title.Some? then b.title.value else ""
    ensures row["date"] == if b.date.Some? then b.date.value else ""
    ensures row["category"] == if b.category.Some? then b.category.value else ""
    ensures row["details"] == if b.details.Some? then b.details.value else ""
    ensures row["image_url"] == if b.imageUrl.Some? then b.imageUrl.value else ""
  {
    var cells := CsvCells(b);
    assert Columns[0] == "id" && Columns[1] == "title" && Columns[2] == "date";
    assert Columns[3] == "category" && Columns[4] == "details" && Columns[5] == "image_url";
    ReadLine(cells)
  }

  /**
    Reading back the table `CsvTable` writes gives, line i, the row of record i: every
    column the record holds with its value, and '' for the others.
  */
  lemma CsvRoundTrip(benefits: seq<UBenefit>)
    ensures forall i :: 0 <= i < |benefits| ==> CsvRows(benefits)[i] == CsvRow(benefits[i])
  {
    if benefits != [] {
      var t := CsvTable(benefits).value;
      forall i | 0 <= i < |benefits| ensures CsvRows(benefits)[i] == CsvRow(benefits[i]) {
        assert CsvRows(benefits)[i] == ReadLine(t[i + 1]);
        assert t[i + 1] == CsvCells(benefits[i]);
      }
    }
  }

  /** What a run leaves behind: the JSON list and the CSV table, if one was written. */
  datatype Output = Output(json: seq<UBenefit>, csv: Option<seq<seq<string>>>)

  /**
    `clean_html_file` as written: the closing message names `csv_path`, which is only bound
    inside `if benefits:`, so a document without cards ends in UnboundLocalError once the JSON
    file is written.
  */
  function CleanHtmlAsWritten(soup: Node): Result<Output> {
    var benefits := Records(soup, Cards(soup));
    if benefits == [] then Err("UnboundLocalError") else Ok(Output(benefits, CsvTable(benefits)))
  }

  /** The run as intended: the records, and the CSV table exactly when there is a record. */
  function CleanHtml(soup: Node): Output {
    var benefits := Records(soup, Cards(soup));
    Output(benefits, CsvTable(benefits))
  }

  method CleanHtmlFile(soup: Node) returns (out: Output)
    ensures out == CleanHtml(soup)
  {
    var cards := Cards(soup);
    var benefits := ReadCards(soup, cards);
    var csv: Option<seq<seq<string>>> := None;
    if benefits != [] {
      csv := CsvTable(benefits);
    }
    out := Output(benefits, csv);
  }

  /**
    The run fails exactly on a document with no modal card; otherwise it leaves what the
    intended run leaves, one record per card and a CSV table of them.
  */
  lemma AsWrittenFailsWithoutCards(soup: Node)
    ensures CleanHtmlAsWritten(soup).Err? <==> Cards(soup) == []
    ensures CleanHtmlAsWritten(soup).Ok? ==> CleanHtmlAsWritten(soup).value == CleanHtml(soup)
    ensures |CleanHtml(soup).json| == |Cards(soup)|
    ensures CleanHtml(soup).csv.Some? <==> Cards(soup) != []
  {
  }
}
