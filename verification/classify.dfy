/**
  The keyword rules of the BCI scrapers: the offer type read from a badge text, and the
  category chosen by an ordered list of keyword sets.
*/
module Classify {
  import opened Text

  /** The `offer_type` values: 'cashback', 'descuento', 'cuotas', 'otro', and '' for no offer. */
  datatype Offer = Cashback | Descuento | Cuotas | Otro | NoOffer {
    function Name(): string {
      match this
      case Cashback => "cashback"
      case Descuento => "descuento"
      case Cuotas => "cuotas"
      case Otro => "otro"
      case NoOffer => ""
    }
  }

  /**
    The offer type of a badge text (bci/scraper.py and bci/scraper_v2.py): a keyword test on the
    lower-cased text with the precedence cashback, then descuento, then cuotas, else otro.
  */
  function ClassifyOffer(text: string): (o: Offer)
    ensures o != NoOffer
    ensures o == Cashback <==> Contains(Lower(text), "cashback")
    ensures o == Descuento <==> !Contains(Lower(text), "cashback") && Contains(Lower(text), "descuento")
    ensures o == Cuotas <==>
      !Contains(Lower(text), "cashback") && !Contains(Lower(text), "descuento") && Contains(Lower(text), "cuotas")
  {
    var t := Lower(text);
    if Contains(t, "cashback") then Cashback
    else if Contains(t, "descuento") then Descuento
    else if Contains(t, "cuotas") then Cuotas
    else Otro
  }

  /** One `elif any(word in title_lower or word in desc_lower for word in [...])` branch. */
  datatype Rule = Rule(category: string, words: seq<string>)

  predicate Hits(r: Rule, titleLower: string, descLower: string) {
    exists w :: w in r.words && (Contains(titleLower, w) || Contains(descLower, w))
  }

  /** The first rule, in order, with a keyword in the title or the description decides; else `default`. */
  function Categorize(rules: seq<Rule>, default: string, titleLower: string, descLower: string): string {
    if rules == [] then default
    else if Hits(rules[0], titleLower, descLower) then rules[0].category
    else Categorize(rules[1..], default, titleLower, descLower)
  }

  const DefaultCategory := "Beneficios BCI"

  /** bci/scraper.py, lines 153-164. */
  const BciRules: seq<Rule> := [
    Rule("Restaurantes", ["restaurant", "comida", "burger", "starbucks", "coca-cola"]),
    Rule("Salud y bienestar", ["salud", "farmacia", "salcobrand", "seguro"]),
    Rule("Viajes", ["viaje", "cuotas sin interés"]),
    Rule("Deportes", ["deporte", "adidas", "fitness"]),
    Rule("Supermercados", ["oxxo", "tienda", "supermercado"])
  ]

  /** bci/scraper_v2.py, lines 125-136: the restaurant set has no 'comida'. */
  const CarrouselRules: seq<Rule> := [
    Rule("Restaurantes", ["burger", "starbucks", "coca-cola", "restaurant"]),
    Rule("Salud y bienestar", ["salcobrand", "farmacia", "seguro", "salud"]),
    Rule("Viajes", ["viaje", "cuotas sin interés"]),
    Rule("Deportes", ["adidas", "deporte", "fitness"]),
    Rule("Supermercados", ["oxxo", "supermercado", "tienda"])
  ]

  /** bci/scraper_final.py, lines 246-257: the sets of bci/scraper.py, listed in another order. */
  const AggressiveRules: seq<Rule> := [
    Rule("Restaurantes", ["burger", "starbucks", "coca-cola", "restaurant", "comida"]),
    Rule("Salud y bienestar", ["salcobrand", "farmacia", "seguro", "salud"]),
    Rule("Viajes", ["viaje", "cuotas sin interés"]),
    Rule("Deportes", ["adidas", "deporte", "fitness"]),
    Rule("Supermercados", ["oxxo", "supermercado", "tienda"])
  ]

  /** Category precedence: the first rule that hits decides, whatever later rules would say. */
  lemma {:induction false} CategorizeFirstHit(rules: seq<Rule>, default: string, t: string, d: string, i: nat)
    requires i < |rules| && Hits(rules[i], t, d)
    requires forall j :: 0 <= j < i ==> !Hits(rules[j], t, d)
    ensures Categorize(rules, default, t, d) == rules[i].category
  {
    if i > 0 {
      assert !Hits(rules[0], t, d);
      CategorizeFirstHit(rules[1..], default, t, d, i - 1);
    }
  }

  /** With no keyword of any rule present, the default category is given. */
  lemma {:induction false} CategorizeDefault(rules: seq<Rule>, default: string, t: string, d: string)
    requires forall j :: 0 <= j < |rules| ==> !Hits(rules[j], t, d)
    ensures Categorize(rules, default, t, d) == default
  {
    if rules != [] {
      assert !Hits(rules[0], t, d);
      CategorizeDefault(rules[1..], default, t, d);
    }
  }

  /** The category given is the default or the category of a rule; never any other text. */
  lemma {:induction false} CategorizeOnlyListed(rules: seq<Rule>, default: string, t: string, d: string, c: string)
    requires c != default
    requires forall j :: 0 <= j < |rules| ==> rules[j].category != c
    ensures Categorize(rules, default, t, d) != c
  {
    if rules != [] && !Hits(rules[0], t, d) {
      CategorizeOnlyListed(rules[1..], default, t, d, c);
    }
  }

  /**
    The restaurant rule comes first in every list: a text is a restaurant exactly when the title
    or the description holds one of its keywords, whatever other keywords it holds too.
  */
  lemma RestaurantFirst(t: string, d: string)
    ensures Categorize(BciRules, DefaultCategory, t, d) == "Restaurantes" <==> Hits(BciRules[0], t, d)
    ensures Categorize(CarrouselRules, DefaultCategory, t, d) == "Restaurantes" <==> Hits(CarrouselRules[0], t, d)
    ensures Categorize(AggressiveRules, DefaultCategory, t, d) == "Restaurantes" <==> Hits(AggressiveRules[0], t, d)
  {
    CategorizeOnlyListed(BciRules[1..], DefaultCategory, t, d, "Restaurantes");
    CategorizeOnlyListed(CarrouselRules[1..], DefaultCategory, t, d, "Restaurantes");
    CategorizeOnlyListed(AggressiveRules[1..], DefaultCategory, t, d, "Restaurantes");
  }

  /** Rules with the same categories that hit the same texts categorize alike. */
  lemma {:induction false} SameHitsSameCategory(r1: seq<Rule>, r2: seq<Rule>, default: string, t: string, d: string)
    requires |r1| == |r2|
    requires forall i :: 0 <= i < |r1| ==> r1[i].category == r2[i].category && (Hits(r1[i], t, d) <==> Hits(r2[i], t, d))
    ensures Categorize(r1, default, t, d) == Categorize(r2, default, t, d)
  {
    if r1 != [] {
      assert Hits(r1[0], t, d) <==> Hits(r2[0], t, d);
      SameHitsSameCategory(r1[1..], r2[1..], default, t, d);
    }
  }

  /** bci/scraper_final.py categorizes exactly as bci/scraper.py does: only the order of the words differs. */
  lemma AggressiveMatchesBci(t: string, d: string)
    ensures Categorize(AggressiveRules, DefaultCategory, t, d) == Categorize(BciRules, DefaultCategory, t, d)
  {
    forall i | 0 <= i < |AggressiveRules|
      ensures Hits(AggressiveRules[i], t, d) <==> Hits(BciRules[i], t, d)
    {
      assert forall w :: w in AggressiveRules[i].words <==> w in BciRules[i].words;
    }
    SameHitsSameCategory(AggressiveRules, BciRules, DefaultCategory, t, d);
  }

  /** bci/scraper_v2.py categorizes as bci/scraper.py does on every text without 'comida'. */
  lemma CarrouselMatchesBciWithoutComida(t: string, d: string)
    requires !Contains(t, "comida") && !Contains(d, "comida")
    ensures Categorize(CarrouselRules, DefaultCategory, t, d) == Categorize(BciRules, DefaultCategory, t, d)
  {
    forall i | 0 <= i < |CarrouselRules|
      ensures Hits(CarrouselRules[i], t, d) <==> Hits(BciRules[i], t, d)
    {
      assert forall w :: w in BciRules[i].words && w != "comida" <==> w in CarrouselRules[i].words;
    }
    SameHitsSameCategory(CarrouselRules, BciRules, DefaultCategory, t, d);
  }
}
