/**
  An abstract DOM snapshot: what the scrapers read through Selenium and BeautifulSoup.
  A node has a (lower-case) tag name, its class list, its other attributes, the text the
  library reports for it, and its children. The class list stands for the `class` attribute.
*/
module Dom {
  import opened Wrappers
  import opened Text
  import opened Seqs

  datatype Node = Node(tag: string, classes: seq<string>, attrs: map<string, string>, text: string, children: seq<Node>)

  /** The attribute part of a CSS selector. */
  datatype AttrTest =
    | NoAttrTest
    | HasAttr(name: string)                  // [name]
    | AttrIs(name: string, value: string)    // #id, or BeautifulSoup's id=... keyword
    | ClassHas(fragment: string)             // [class*='fragment']

  /** The simple CSS selectors the scrapers use: an optional tag, required classes, one attribute test. */
  datatype Selector = Selector(tag: Option<string>, classes: seq<string>, attr: AttrTest)

  function TagSel(tag: string): Selector { Selector(Some(tag), [], NoAttrTest) }
  function ClassSel(c: string): Selector { Selector(None, [c], NoAttrTest) }
  function TagClassSel(tag: string, c: string): Selector { Selector(Some(tag), [c], NoAttrTest) }
  const AnySel: Selector := Selector(None, [], NoAttrTest)

  predicate Matches(n: Node, sel: Selector) {
    && (sel.tag.None? || n.tag == sel.tag.value)
    && (forall c :: c in sel.classes ==> c in n.classes)
    && match sel.attr
       case NoAttrTest => true
       case HasAttr(a) => a in n.attrs
       case AttrIs(a, v) => a in n.attrs && n.attrs[a] == v
       case ClassHas(f) => Contains(Join(" ", n.classes), f)
  }

  /** Every node strictly below `n`, in document order (pre-order). */
  function Descendants(n: Node): seq<Node> {
    Forest(n.children)
  }

  function Forest(ns: seq<Node>): seq<Node> {
    if ns == [] then [] else [ns[0]] + Descendants(ns[0]) + Forest(ns[1..])
  }

  function Select(ns: seq<Node>, sel: Selector): (r: seq<Node>)
    ensures forall x :: x in r ==> Matches(x, sel)
  {
    if ns == [] then []
    else (if Matches(ns[0], sel) then [ns[0]] else []) + Select(ns[1..], sel)
  }

  /** `Select` is the filter of the nodes by the selector. */
  lemma {:induction false} SelectIsFilter(ns: seq<Node>, sel: Selector)
    ensures Select(ns, sel) == Filter(ns, (n: Node) => Matches(n, sel))
  {
    if ns != [] {
      SelectIsFilter(ns[1..], sel);
    }
  }

  /**
    A search returns every node that matches, once per occurrence, and no other, in document
    order: the result is a subsequence of the nodes holding each matching node as often as they do.
  */
  lemma SelectMeaning(ns: seq<Node>, sel: Selector)
    ensures IsSubsequence(Select(ns, sel), ns)
    ensures forall x :: multiset(Select(ns, sel))[x] == if Matches(x, sel) then multiset(ns)[x] else 0
  {
    SelectIsFilter(ns, sel);
    FilterMeaning(ns, (n: Node) => Matches(n, sel));
  }

  /** `find_elements` / `find_all`: every descendant of `n` that `sel` matches, in document order. */
  function FindAll(n: Node, sel: Selector): seq<Node> {
    Select(Descendants(n), sel)
  }

  /** `find_element` / `find`: the first of them; Selenium raises NoSuchElementException where this is None. */
  function FindFirst(n: Node, sel: Selector): (r: Option<Node>)
    ensures r.Some? <==> FindAll(n, sel) != []
  {
    var all := FindAll(n, sel);
    if all == [] then None else Some(all[0])
  }

  /** `get_attribute(name) or ''`: a missing attribute reads as the empty string. */
  function AttrOr(n: Node, name: string): string {
    if name in n.attrs then n.attrs[name] else ""
  }
}
