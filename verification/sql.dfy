/**
  SQL text as the two migration scripts write it: every value becomes a single-quoted string
  literal whose inner quotes are doubled, and a row becomes a parenthesised, comma-separated
  list of such literals. Beside the writer sits a reader of the same literals, the inverse the
  escaping is proved against: a database reading the statement gets back the original field.
*/
module SqlText {
  import opened Wrappers
  import opened Text

  /** `field.replace("'", "''")`. */
  function Escape(s: string): string {
    ReplaceAll(s, "'", "''")
  }

  /** The inverse collapse, `text.replace("''", "'")`. */
  function Unescape(t: string): string {
    ReplaceAll(t, "''", "'")
  }

  /** Escaping works character by character: a quote is doubled and every other character is kept as it is. */
  lemma EscapeCons(c: char, s: string)
    ensures Escape([c] + s) == (if c == '\'' then "''" else [c]) + Escape(s)
  {
    var t := [c] + s;
    assert t[..1] == [c] && t[1..] == s;
  }

  /** A field without quotes is written as it is. */
  lemma EscapePlain(s: string)
    requires '\'' !in s
    ensures Escape(s) == s
  {
    if Contains(s, "'") {
      ContainsHasChar(s, '\'');
    }
    ReplaceAllNoMatch(s, "'", "''");
  }

  /** The number of quotes in `s`. */
  function Quotes(s: string): nat {
    if s == [] then 0 else (if s[0] == '\'' then 1 else 0) + Quotes(s[1..])
  }

  /** Escaping adds exactly one character per quote. */
  lemma {:induction false} EscapeLength(s: string)
    ensures |Escape(s)| == |s| + Quotes(s)
  {
    if s != [] {
      EscapeCons(s[0], s[1..]);
      assert [s[0]] + s[1..] == s;
      EscapeLength(s[1..]);
    }
  }

  /** The escaping round-trips: collapsing the doubled quotes gives back the field. */
  lemma {:induction false} UnescapeEscape(s: string)
    ensures Unescape(Escape(s)) == s
  {
    if s != [] {
      var c, x := s[0], Escape(s[1..]);
      EscapeCons(c, s[1..]);
      assert [c] + s[1..] == s;
      UnescapeEscape(s[1..]);
      if c == '\'' {
        var t := "''" + x;
        assert t[..2] == "''" && t[2..] == x;
      } else {
        var t := [c] + x;
        if |t| >= 2 {
          assert t[..2] != "''" by {
            assert t[..2][0] == c;
          }
          assert t[1..] == x;
        } else {
          assert x == [] && s[1..] == [];
        }
      }
    }
  }

  /** `'{field}'`: the field as an SQL string literal. */
  function Quote(s: string): (r: string)
    ensures |r| >= 2 && r[0] == '\'' && r[|r| - 1] == '\''
  {
    "'" + Escape(s) + "'"
  }

  function QuoteAll(fields: seq<string>): (r: seq<string>)
    ensures |r| == |fields|
    ensures forall i :: 0 <= i < |fields| ==> r[i] == Quote(fields[i])
  {
    seq(|fields|, i requires 0 <= i < |fields| => Quote(fields[i]))
  }

  /** `('{a}', '{b}', ...)`: a row of values. */
  function Tuple(fields: seq<string>): string {
    "(" + Join(", ", QuoteAll(fields)) + ")"
  }

  /**
    How an SQL reader takes the inside of a string literal: up to the first quote not followed
    by another; a doubled quote stands for one. The value and the text after the literal.
  */
  function ReadBody(t: string): (r: Option<(string, string)>)
    ensures r.Some? ==> |r.value.1| < |t|
    decreases |t|
  {
    if t == [] then None
    else if t[0] == '\'' then
      if |t| >= 2 && t[1] == '\'' then
        var p := ReadBody(t[2..]);
        if p.None? then None else Some((['\''] + p.value.0, p.value.1))
      else Some(([], t[1..]))
    else
      var p := ReadBody(t[1..]);
      if p.None? then None else Some(([t[0]] + p.value.0, p.value.1))
  }

  /** A whole string literal, opening quote included. */
  function ReadLiteral(t: string): (r: Option<(string, string)>)
    ensures r.Some? ==> |r.value.1| < |t|
  {
    if t != [] && t[0] == '\'' then ReadBody(t[1..]) else None
  }

  /** Literals separated by `, `. */
  function ReadList(t: string): Option<(seq<string>, string)>
    decreases |t|
  {
    var p := ReadLiteral(t);
    if p.None? then None
    else if StartsWith(p.value.1, ", ") then
      var q := ReadList(p.value.1[2..]);
      if q.None? then None else Some(([p.value.0] + q.value.0, q.value.1))
    else Some(([p.value.0], p.value.1))
  }

  /** A parenthesised row of literals. */
  function ReadTuple(t: string): Option<(seq<string>, string)> {
    if StartsWith(t, "(") then
      var q := ReadList(t[1..]);
      if q.Some? && StartsWith(q.value.1, ")") then Some((q.value.0, q.value.1[1..])) else None
    else None
  }

  /** Text that cannot continue a literal: anything but a quote right after the closing one. */
  predicate EndsLiteral(rest: string) {
    rest == [] || rest[0] != '\''
  }

  /** A doubled quote inside a literal reads as one quote, in front of what follows. */
  lemma ReadBodyQuote(tail: string)
    ensures ReadBody("''" + tail) ==
      var p := ReadBody(tail);
      if p.None? then None else Some((['\''] + p.value.0, p.value.1))
  {
    assert ("''" + tail)[2..] == tail;
  }

  /** Any other character inside a literal reads as itself. */
  lemma ReadBodyChar(c: char, tail: string)
    requires c != '\''
    ensures ReadBody([c] + tail) ==
      var p := ReadBody(tail);
      if p.None? then None else Some(([c] + p.value.0, p.value.1))
  {
    assert ([c] + tail)[1..] == tail;
  }

  lemma {:induction false} BodyRoundTrip(s: string, rest: string)
    requires EndsLiteral(rest)
    ensures ReadBody(Escape(s) + "'" + rest) == Some((s, rest))
  {
    if s == [] {
      assert Escape(s) + "'" + rest == "'" + rest;
      assert ("'" + rest)[1..] == rest;
    } else {
      var c := s[0];
      EscapeCons(c, s[1..]);
      assert [c] + s[1..] == s;
      BodyRoundTrip(s[1..], rest);
      var tail := Escape(s[1..]) + "'" + rest;
      if c == '\'' {
        assert Escape(s) + "'" + rest == "''" + tail;
        ReadBodyQuote(tail);
      } else {
        assert Escape(s) + "'" + rest == [c] + tail;
        ReadBodyChar(c, tail);
      }
    }
  }

  /** A quoted field reads back as the field, whatever it holds, and the reader stops right after it. */
  lemma LiteralRoundTrip(s: string, rest: string)
    requires EndsLiteral(rest)
    ensures ReadLiteral(Quote(s) + rest) == Some((s, rest))
  {
    BodyRoundTrip(s, rest);
    assert (Quote(s) + rest)[1..] == Escape(s) + "'" + rest;
  }

  /** After a literal and its `, `, the reader goes on with the next literal. */
  lemma ReadListCons(f: string, t: string)
    ensures ReadList(Quote(f) + (", " + t)) ==
      var q := ReadList(t);
      if q.None? then None else Some(([f] + q.value.0, q.value.1))
  {
    LiteralRoundTrip(f, ", " + t);
    assert (", " + t)[2..] == t;
  }

  lemma {:induction false} ListRoundTrip(fields: seq<string>, rest: string)
    requires fields != [] && EndsLiteral(rest) && !StartsWith(rest, ", ")
    ensures ReadList(Join(", ", QuoteAll(fields)) + rest) == Some((fields, rest))
    decreases |fields|
  {
    var q := QuoteAll(fields);
    if |fields| == 1 {
      LiteralRoundTrip(fields[0], rest);
      assert [fields[0]] == fields;
    } else {
      var more := Join(", ", QuoteAll(fields[1..]));
      assert q[1..] == QuoteAll(fields[1..]);
      assert Join(", ", q) + rest == Quote(fields[0]) + (", " + (more + rest));
      ReadListCons(fields[0], more + rest);
      ListRoundTrip(fields[1..], rest);
      assert [fields[0]] + fields[1..] == fields;
    }
  }

  /** A row of values reads back as its fields: the partner of `Tuple`. */
  lemma TupleRoundTrip(fields: seq<string>, rest: string)
    requires fields != []
    ensures ReadTuple(Tuple(fields) + rest) == Some((fields, rest))
  {
    var inner := Join(", ", QuoteAll(fields));
    ListRoundTrip(fields, ")" + rest);
    assert (Tuple(fields) + rest)[1..] == inner + (")" + rest);
    assert (")" + rest)[1..] == rest;
  }
}
