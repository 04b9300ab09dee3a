/**
  Fallback chains of locators: a field is read by trying an ordered list of CSS selectors
  inside a card until one gives a usable text. Each probe is one `find_element` whose
  NoSuchElementException the scrapers swallow and treat as "try the next selector".
*/
module Locate {
  import opened Wrappers
  import opened Text
  import opened Dom

  /** The stripped text of the first element `sel` finds inside `card`, or None if it finds none. */
  function Probe(card: Node, sel: Selector): (r: Option<string>)
    ensures r.Some? <==> FindFirst(card, sel).Some?
  {
    match FindFirst(card, sel)
    case Some(e) => Some(Strip(e.text))
    case None => None
  }

  /** The test a chain puts to a found text: longer than `minLen` and none of `reject`. */
  predicate Acceptable(t: string, minLen: nat, reject: seq<string>) {
    |t| > minLen && t !in reject
  }

  /** The chain that stops at the first selector finding an element, whatever its text. */
  function FirstFound(card: Node, sels: seq<Selector>): Option<string> {
    if sels == [] then None
    else if Probe(card, sels[0]).Some? then Probe(card, sels[0])
    else FirstFound(card, sels[1..])
  }

  /** The chain that goes on past found elements whose text is not acceptable. */
  function FirstAccepted(card: Node, sels: seq<Selector>, minLen: nat, reject: seq<string>): (r: Option<string>)
    ensures r.Some? ==> Acceptable(r.value, minLen, reject)
  {
    if sels == [] then None
    else
      var p := Probe(card, sels[0]);
      if p.Some? && Acceptable(p.value, minLen, reject) then p
      else FirstAccepted(card, sels[1..], minLen, reject)
  }

  /** The `for selector in ...: try: ...; break / except: continue` loop of a first-found chain. */
  method FindFirstText(card: Node, sels: seq<Selector>) returns (t: Option<string>)
    ensures t == FirstFound(card, sels)
  {
    t := None;
    var i := 0;
    while i < |sels|
      invariant 0 <= i <= |sels|
      invariant FirstFound(card, sels) == FirstFound(card, sels[i..])
    {
      assert sels[i..][1..] == sels[i + 1..];
      var p := Probe(card, sels[i]);
      if p.Some? {
        t := p;
        return;
      }
      i := i + 1;
    }
  }

  /** The same loop when a found text must also pass the chain's test before it is taken. */
  method FindAcceptedText(card: Node, sels: seq<Selector>, minLen: nat, reject: seq<string>) returns (t: Option<string>)
    ensures t == FirstAccepted(card, sels, minLen, reject)
  {
    t := None;
    var i := 0;
    while i < |sels|
      invariant 0 <= i <= |sels|
      invariant FirstAccepted(card, sels, minLen, reject) == FirstAccepted(card, sels[i..], minLen, reject)
    {
      assert sels[i..][1..] == sels[i + 1..];
      var p := Probe(card, sels[i]);
      if p.Some? && |p.value| > minLen && p.value !in reject {
        t := p;
        return;
      }
      i := i + 1;
    }
  }

  /** Fallback determinism: the first selector that finds an element decides, even on an empty text. */
  lemma {:induction false} FirstFoundIsFirstHit(card: Node, sels: seq<Selector>, i: nat)
    requires i < |sels| && Probe(card, sels[i]).Some?
    requires forall j :: 0 <= j < i ==> Probe(card, sels[j]).None?
    ensures FirstFound(card, sels) == Probe(card, sels[i])
  {
    if i > 0 {
      assert Probe(card, sels[0]).None?;
      FirstFoundIsFirstHit(card, sels[1..], i - 1);
    }
  }

  lemma {:induction false} FirstFoundNone(card: Node, sels: seq<Selector>)
    ensures FirstFound(card, sels).None? <==> forall i :: 0 <= i < |sels| ==> Probe(card, sels[i]).None?
  {
    if sels != [] {
      FirstFoundNone(card, sels[1..]);
      forall i | 1 <= i < |sels| ensures sels[i] == sels[1..][i - 1] {
      }
    }
  }

  /** The first selector whose text passes the test decides; earlier finds that fail it are passed over. */
  lemma {:induction false} FirstAcceptedIsFirstHit(card: Node, sels: seq<Selector>, minLen: nat, reject: seq<string>, i: nat)
    requires i < |sels| && Probe(card, sels[i]).Some? && Acceptable(Probe(card, sels[i]).value, minLen, reject)
    requires forall j :: 0 <= j < i ==> Probe(card, sels[j]).None? || !Acceptable(Probe(card, sels[j]).value, minLen, reject)
    ensures FirstAccepted(card, sels, minLen, reject) == Probe(card, sels[i])
  {
    if i > 0 {
      assert Probe(card, sels[0]).None? || !Acceptable(Probe(card, sels[0]).value, minLen, reject);
      FirstAcceptedIsFirstHit(card, sels[1..], minLen, reject, i - 1);
    }
  }

  lemma {:induction false} FirstAcceptedNone(card: Node, sels: seq<Selector>, minLen: nat, reject: seq<string>)
    ensures FirstAccepted(card, sels, minLen, reject).None? <==>
      forall i :: 0 <= i < |sels| ==> Probe(card, sels[i]).None? || !Acceptable(Probe(card, sels[i]).value, minLen, reject)
  {
    if sels != [] {
      FirstAcceptedNone(card, sels[1..], minLen, reject);
      forall i | 1 <= i < |sels| ensures sels[i] == sels[1..][i - 1] {
      }
    }
  }
}
