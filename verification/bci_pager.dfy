/**
  The paginator of the BCI benefits page, as bci/scraper.py and bci/scraper_v2.py read it: the
  page count is the largest number shown on a paginator button (at least 1), and "next" is a
  button that can be disabled.
*/
module BciPager {
  import opened Wrappers
  import opened Text
  import opened Dom
  import opened Browser

  const ButtonSel: Selector := TagClassSel("button", "paginator__button")
  const NextSel: Selector := TagClassSel("button", "paginator__button--right")

  /** The page number a button's stripped label spells, when it is all digits (`isdigit()`). */
  function ButtonNumber(button: Node): Option<nat> {
    var t := Strip(button.text);
    if IsDigits(t) then Some(DigitsValue(t)) else None
  }

  /** `max_page = 1` followed by `max_page = max(max_page, int(label))` over the buttons. */
  function MaxPage(buttons: seq<Node>): nat {
    if buttons == [] then 1
    else
      var m := MaxPage(buttons[..|buttons| - 1]);
      match ButtonNumber(buttons[|buttons| - 1])
      case Some(v) => if v > m then v else m
      case None => m
  }

  /** The page count is at least 1 and at least every numbered button. */
  lemma {:induction false} MaxPageBounds(buttons: seq<Node>)
    ensures MaxPage(buttons) >= 1
    ensures forall i :: 0 <= i < |buttons| && ButtonNumber(buttons[i]).Some? ==>
      ButtonNumber(buttons[i]).value <= MaxPage(buttons)
  {
    if buttons != [] {
      var init := buttons[..|buttons| - 1];
      MaxPageBounds(init);
      forall i | 0 <= i < |buttons| - 1 ensures buttons[i] == init[i] {
      }
    }
  }

  /** The page count is 1 or the number of one of the buttons. */
  lemma {:induction false} MaxPageAttained(buttons: seq<Node>)
    ensures MaxPage(buttons) == 1 ||
      exists i :: 0 <= i < |buttons| && ButtonNumber(buttons[i]) == Some(MaxPage(buttons))
  {
    if buttons != [] {
      var init := buttons[..|buttons| - 1];
      MaxPageAttained(init);
      if MaxPage(buttons) == MaxPage(init) && MaxPage(init) != 1 {
        var i :| 0 <= i < |init| && ButtonNumber(init[i]) == Some(MaxPage(init));
        assert buttons[i] == init[i];
      }
    }
  }

  /** The loop of `get_total_pages` over the paginator buttons. */
  method CountPages(buttons: seq<Node>) returns (maxPage: nat)
    ensures maxPage == MaxPage(buttons)
  {
    maxPage := 1;
    for i := 0 to |buttons|
      invariant maxPage == MaxPage(buttons[..i])
    {
      assert buttons[..i + 1][..i] == buttons[..i];
      var pageText := Strip(buttons[i].text);
      if IsDigits(pageText) {
        var v := DigitsValue(pageText);
        if v > maxPage {
          maxPage := v;
        }
      }
    }
    assert buttons[..|buttons|] == buttons;
  }

  /**
    `go_to_next_page`: it fails, leaving the browser where it is, when there is no "next" button
    or the button is disabled; otherwise the click shows the following page.
  */
  function GoToNextPage(s: Session): (r: (bool, Session))
    ensures r.0 ==> r.1 == Click(s)
    ensures !r.0 ==> r.1 == s
    ensures r.0 <==> FindFirst(Current(s), NextSel).Some? && "disabled" !in FindFirst(Current(s), NextSel).value.attrs
  {
    match FindFirst(Current(s), NextSel)
    case None => (false, s)
    case Some(next) => if "disabled" in next.attrs then (false, s) else (true, Click(s))
  }
}
