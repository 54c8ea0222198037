/**
 * The CSV text both export buttons produce: every field is enclosed in
 * double quotes with each inner double quote doubled (rule 7 of section 2
 * of RFC 4180), fields are joined by "," and rows by a line feed.
 *
 * `ParseCsv` reads such text back; the round trip `ParseCsv(EncodeCsv(rows))
 * == Some(rows)` shows that the encoding loses nothing.
 */
module Csv {
  import opened Wrappers

  const Quote: char := '"'

  /** `replaceAll('"', '""')` */
  function Escape(v: string): (e: string)
    ensures |e| >= |v|
    decreases |v|
  {
    if v == [] then []
    else (if v[0] == Quote then [Quote, Quote] else [v[0]]) + Escape(v[1..])
  }

  /** Replaces each pair of double quotes by one, reading left to right. */
  function CollapseQuotes(e: string): string
    decreases |e|
  {
    if e == [] then []
    else if |e| >= 2 && e[0] == Quote && e[1] == Quote then [Quote] + CollapseQuotes(e[2..])
    else [e[0]] + CollapseQuotes(e[1..])
  }

  /** One field of the output: `"${value.replaceAll('"', '""')}"`. */
  function QuoteField(v: string): (f: string)
    ensures |f| >= 2 && f[0] == Quote && f[|f| - 1] == Quote
  {
    [Quote] + Escape(v) + [Quote]
  }

  /** Collapsing doubled quotes undoes the escaping. */
  lemma {:induction false} CollapseEscape(v: string)
    ensures CollapseQuotes(Escape(v)) == v
    decreases |v|
  {
    if v != [] {
      CollapseEscape(v[1..]);
      if v[0] == Quote {
        assert Escape(v) == [Quote, Quote] + Escape(v[1..]);
        assert Escape(v)[2..] == Escape(v[1..]);
      } else {
        assert Escape(v) == [v[0]] + Escape(v[1..]);
        assert Escape(v)[1..] == Escape(v[1..]);
      }
    }
  }

  /** Stripping the outer quotes of a field and collapsing the doubled ones gives the value back. */
  lemma QuoteFieldRoundTrip(v: string)
    ensures var f := QuoteField(v); CollapseQuotes(f[1..|f| - 1]) == v
  {
    var f := QuoteField(v);
    assert f[1..|f| - 1] == Escape(v);
    CollapseEscape(v);
  }

  /** `parts.join(sep)` */
  function Join(parts: seq<string>, sep: char): string
    decreases |parts|
  {
    if parts == [] then []
    else if |parts| == 1 then parts[0]
    else parts[0] + [sep] + Join(parts[1..], sep)
  }

  function QuoteAll(row: seq<string>): (q: seq<string>)
    ensures |q| == |row|
  {
    seq(|row|, i requires 0 <= i < |row| => QuoteField(row[i]))
  }

  /** `row.map(quote).join(",")` */
  function EncodeRow(row: seq<string>): string {
    Join(QuoteAll(row), ',')
  }

  function EncodeRows(rows: seq<seq<string>>): (lines: seq<string>)
    ensures |lines| == |rows|
  {
    seq(|rows|, i requires 0 <= i < |rows| => EncodeRow(rows[i]))
  }

  /** `rows.map(encodeRow).join("\n")` */
  function EncodeCsv(rows: seq<seq<string>>): string {
    Join(EncodeRows(rows), '\n')
  }

  /* ---------------------------------------------------------------- */
  /* Reading the text back                                              */
  /* ---------------------------------------------------------------- */

  /**
   * Reads the body of a quoted field, just after its opening quote: `""`
   * stands for one quote and a lone `"` closes the field. Gives the value
   * and the text after the closing quote.
   */
  function ParseQuoted(s: string): (r: Option<(string, string)>)
    ensures r.Some? ==> |r.value.1| < |s|
    decreases |s|
  {
    if s == [] then None
    else if s[0] == Quote then
      if |s| >= 2 && s[1] == Quote then
        match ParseQuoted(s[2..])
        case None => None
        case Some((v, rest)) => Some(([Quote] + v, rest))
      else Some(([], s[1..]))
    else
      match ParseQuoted(s[1..])
      case None => None
      case Some((v, rest)) => Some(([s[0]] + v, rest))
  }

  /** Reads quoted fields separated by "," up to the end of a line; gives them and what follows. */
  function ParseFields(s: string): (r: Option<(seq<string>, string)>)
    ensures r.Some? ==> |r.value.1| < |s|
    decreases |s|
  {
    if s == [] || s[0] != Quote then None
    else
      match ParseQuoted(s[1..])
      case None => None
      case Some((v, rest)) =>
        if rest != [] && rest[0] == ',' then
          match ParseFields(rest[1..])
          case None => None
          case Some((vs, rest')) => Some(([v] + vs, rest'))
        else Some(([v], rest))
  }

  /** Reads lines of quoted fields separated by line feeds, up to the end of the text. */
  function ParseCsv(s: string): Option<seq<seq<string>>>
    decreases |s|
  {
    match ParseFields(s)
    case None => None
    case Some((row, rest)) =>
      if rest == [] then Some([row])
      else if rest[0] == '\n' then
        match ParseCsv(rest[1..])
        case None => None
        case Some(rows) => Some([row] + rows)
      else None
  }

  /** What may follow a field: nothing, or a separator. */
  predicate FieldEnd(rest: string) {
    rest == [] || rest[0] == ',' || rest[0] == '\n'
  }

  lemma {:induction false} ParseQuotedEscape(v: string, rest: string)
    requires FieldEnd(rest)
    ensures ParseQuoted(Escape(v) + [Quote] + rest) == Some((v, rest))
    decreases |v|
  {
    var s := Escape(v) + [Quote] + rest;
    if v == [] {
      assert s == [Quote] + rest;
      assert s[1..] == rest;
    } else {
      ParseQuotedEscape(v[1..], rest);
      if v[0] == Quote {
        assert s == [Quote, Quote] + (Escape(v[1..]) + [Quote] + rest);
        assert s[2..] == Escape(v[1..]) + [Quote] + rest;
        assert [Quote] + v[1..] == v;
      } else {
        assert s == [v[0]] + (Escape(v[1..]) + [Quote] + rest);
        assert s[1..] == Escape(v[1..]) + [Quote] + rest;
        assert [v[0]] + v[1..] == v;
      }
    }
  }

  /** A quoted field followed by a separator or the end is read back whole. */
  lemma ParseFirstField(v: string, tail: string)
    requires FieldEnd(tail)
    ensures var s := QuoteField(v) + tail; s[0] == Quote && ParseQuoted(s[1..]) == Some((v, tail))
  {
    var s := QuoteField(v) + tail;
    assert s[1..] == Escape(v) + [Quote] + tail;
    ParseQuotedEscape(v, tail);
  }

  lemma EncodeRowCons(row: seq<string>)
    requires |row| >= 2
    ensures EncodeRow(row) == QuoteField(row[0]) + [','] + EncodeRow(row[1..])
  {
    assert QuoteAll(row)[1..] == QuoteAll(row[1..]);
  }

  /** A field followed by the end of its line is read as the last field of the line. */
  lemma ParseLastField(v: string, rest: string)
    requires rest == [] || rest[0] == '\n'
    ensures ParseFields(QuoteField(v) + rest) == Some(([v], rest))
  {
    ParseFirstField(v, rest);
  }

  /** A field followed by "," is read, then the fields after it. */
  lemma ParseFieldThenMore(v: string, more: string)
    ensures ParseFields(QuoteField(v) + ([','] + more)) ==
      match ParseFields(more)
      case None => None
      case Some((vs, rest)) => Some(([v] + vs, rest))
  {
    var tail := [','] + more;
    ParseFirstField(v, tail);
    assert tail[1..] == more;
  }

  lemma {:induction false} ParseFieldsEncodeRow(row: seq<string>, rest: string)
    requires row != []
    requires rest == [] || rest[0] == '\n'
    ensures ParseFields(EncodeRow(row) + rest) == Some((row, rest))
    decreases |row|
  {
    if |row| == 1 {
      assert EncodeRow(row) == QuoteField(row[0]);
      ParseLastField(row[0], rest);
      assert [row[0]] == row;
    } else {
      EncodeRowCons(row);
      var more := EncodeRow(row[1..]) + rest;
      assert EncodeRow(row) + rest == QuoteField(row[0]) + ([','] + more);
      ParseFieldsEncodeRow(row[1..], rest);
      ParseFieldThenMore(row[0], more);
      assert [row[0]] + row[1..] == row;
    }
  }

  /** Every row with at least one field is read back exactly from the CSV text. */
  lemma {:induction false} ParseEncodeCsv(rows: seq<seq<string>>)
    requires rows != []
    requires forall i | 0 <= i < |rows| :: rows[i] != []
    ensures ParseCsv(EncodeCsv(rows)) == Some(rows)
    decreases |rows|
  {
    var lines := EncodeRows(rows);
    if |rows| == 1 {
      assert EncodeCsv(rows) == EncodeRow(rows[0]);
      ParseFieldsEncodeRow(rows[0], []);
      assert EncodeRow(rows[0]) + [] == EncodeRow(rows[0]);
      assert [rows[0]] == rows;
    } else {
      assert lines[1..] == EncodeRows(rows[1..]);
      var rest := ['\n'] + EncodeCsv(rows[1..]);
      assert EncodeCsv(rows) == EncodeRow(rows[0]) + rest;
      ParseFieldsEncodeRow(rows[0], rest);
      assert rest[1..] == EncodeCsv(rows[1..]);
      ParseEncodeCsv(rows[1..]);
      assert [rows[0]] + rows[1..] == rows;
    }
  }
}
