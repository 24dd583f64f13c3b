/** The provider table: `providers.csv` is trimmed, split into lines, the header
    line is dropped, every line is split on commas into `[name, ipv4, ipv6]`, and
    each address column is split on semicolons with the empty pieces dropped
    (index.js:97-99 and 164-165). */
module Providers {
  import opened Options
  import opened Text

  /** One row of the table once its address columns are split. */
  datatype Provider = Provider(name: string, ipv4Addresses: seq<string>, ipv6Addresses: seq<string>)

  /** Every address in listed order: the IPv4 column first, then the IPv6 column. */
  function Addresses(p: Provider): seq<string> {
    p.ipv4Addresses + p.ipv6Addresses
  }

  /** An address is a non-empty string free of the column's `;` delimiter. */
  predicate WellFormedAddress(a: string) {
    a != [] && ';' !in a
  }

  /** `column.split(";").filter(Boolean)`: the non-empty `;`-free pieces of the
      column in order, which together hold every character of the column except
      the semicolons; a column with no `;` is one address, or none when empty. */
  function SplitAddresses(column: string): (addrs: seq<string>)
    ensures forall i :: 0 <= i < |addrs| ==> WellFormedAddress(addrs[i])
    ensures forall a :: a in addrs <==> a in Split(column, ';') && a != []
    ensures Concat(addrs) == Remove(column, ';')
    ensures ';' !in column ==> addrs == if column == [] then [] else [column]
  {
    var parts := Split(column, ';');
    ConcatNonEmpty(parts);
    ConcatSplit(column, ';');
    var addrs := NonEmpty(parts);
    assert forall i :: 0 <= i < |addrs| ==> addrs[i] in parts;
    if ';' in column then addrs
    else
      SplitSeparatorFree(column, "", ';');
      assert column + "" == column && parts == [column];
      NonEmptySingle(column);
      addrs
  }

  /** The addresses of two columns joined by a `;` are those of the first column
      followed by those of the second, so with the single-column case the order and
      multiplicity of the kept addresses are fixed. */
  lemma SplitAddressesAround(c1: string, c2: string)
    ensures SplitAddresses(c1 + [';'] + c2) == SplitAddresses(c1) + SplitAddresses(c2)
  {
    SplitAround(c1, c2, ';');
    NonEmptyConcat(Split(c1, ';'), Split(c2, ';'));
  }

  /** Empty pieces vanish and the others keep their order: "aa;;a" gives ["aa", "a"]. */
  lemma SplitAddressesExample()
    ensures SplitAddresses("aa;;a") == ["aa", "a"]
  {
    var aa, a, none := "aa", "a", "";
    assert ';' !in aa && ';' !in a && ';' !in none;
    var tail := none + [';'] + a;
    SplitAddressesAround(none, a);
    assert SplitAddresses(tail) == [a];
    SplitAddressesAround(aa, tail);
    assert "aa;;a" == aa + [';'] + tail;
  }

  /** Writing the addresses out with `;` between them and splitting again gives them back;
      an empty list is written as an empty column. */
  lemma SplitAddressesRoundTrip(addrs: seq<string>)
    requires forall i :: 0 <= i < |addrs| ==> WellFormedAddress(addrs[i])
    ensures SplitAddresses(Join(addrs, ';')) == addrs
  {
    if |addrs| == 0 {
      assert Split("", ';') == [""];
    } else {
      SplitJoin(addrs, ';');
      NonEmptyKeeps(addrs);
    }
  }

  /** The message of the TypeError thrown when a row has no IPv4 or no IPv6 column,
      in the wording of the V8 engine that Node uses; another engine words it
      differently, and only the fact of the error carries over. */
  const MissingColumn: string := "Cannot read properties of undefined (reading 'split')"

  /** `const [name, ipv4, ipv6] = provider` followed by the two column splits: a row
      with fewer than three fields leaves a column `undefined`, and calling `split`
      on it throws; fields after the third are ignored. */
  function ParseProvider(fields: seq<string>): (r: Result<Provider>)
    ensures r.Ok? <==> |fields| >= 3
    ensures r.Err? ==> r.message == MissingColumn
    ensures r.Ok? ==> r.value.name == fields[0]
  {
    if |fields| < 3 then Err(MissingColumn)
    else Ok(Provider(fields[0], SplitAddresses(fields[1]), SplitAddresses(fields[2])))
  }

  /** The table line that describes `p`. */
  function FormatRow(p: Provider): string {
    Join([p.name, Join(p.ipv4Addresses, ';'), Join(p.ipv6Addresses, ';')], ',')
  }

  /** A provider whose name and addresses hold no comma, and whose addresses are
      well formed, can be written as a row and read back unchanged. */
  predicate Representable(p: Provider) {
    && ',' !in p.name
    && (forall i :: 0 <= i < |p.ipv4Addresses| ==> WellFormedAddress(p.ipv4Addresses[i]) && ',' !in p.ipv4Addresses[i])
    && (forall i :: 0 <= i < |p.ipv6Addresses| ==> WellFormedAddress(p.ipv6Addresses[i]) && ',' !in p.ipv6Addresses[i])
  }

  lemma ParseFormatRow(p: Provider)
    requires Representable(p)
    ensures ParseProvider(Split(FormatRow(p), ',')) == Ok(p)
  {
    var v4 := Join(p.ipv4Addresses, ';');
    var v6 := Join(p.ipv6Addresses, ';');
    JoinAvoids(p.ipv4Addresses, ';', ',');
    JoinAvoids(p.ipv6Addresses, ';', ',');
    SplitJoin([p.name, v4, v6], ',');
    SplitAddressesRoundTrip(p.ipv4Addresses);
    SplitAddressesRoundTrip(p.ipv6Addresses);
  }

  /** A character that is neither the separator nor in any piece is not in the join. */
  lemma {:induction false} JoinAvoids(parts: seq<string>, sep: char, c: char)
    requires c != sep
    requires forall i :: 0 <= i < |parts| ==> c !in parts[i]
    ensures c !in Join(parts, sep)
    decreases |parts|
  {
    if |parts| > 1 {
      JoinAvoids(parts[1..], sep, c);
    }
  }

  /** The data lines of the table: `csv.trim().split("\n").slice(1)`. */
  function Rows(csv: string): (rows: seq<string>)
    ensures forall i :: 0 <= i < |rows| ==> '\n' !in rows[i]
  {
    Split(Trim(csv), '\n')[1..]
  }

  /** `lines.slice(1).map((line) => line.split(","))`: line `i`'s fields are
      comma-free and, joined with commas, give back that line. */
  function RowFields(csv: string): (table: seq<seq<string>>)
    ensures |table| == |Rows(csv)|
    ensures forall i :: 0 <= i < |table| ==> |table[i]| >= 1
    ensures forall i :: 0 <= i < |table| ==> Join(table[i], ',') == Rows(csv)[i]
    ensures forall i, j :: 0 <= i < |table| && 0 <= j < |table[i]| ==> ',' !in table[i][j]
  {
    var rows := Rows(csv);
    var table := seq(|rows|, i requires 0 <= i < |rows| => Split(rows[i], ','));
    assert forall i :: 0 <= i < |table| ==> Join(table[i], ',') == rows[i] by {
      forall i | 0 <= i < |table|
        ensures Join(table[i], ',') == rows[i]
      {
        JoinSplit(rows[i], ',');
      }
    }
    table
  }

  /** The table text for a header and providers: one line per provider. */
  function FormatTable(header: string, ps: seq<Provider>): string {
    Join([header] + seq(|ps|, i requires 0 <= i < |ps| => FormatRow(ps[i])), '\n')
  }

  /** A table written as a header line and data lines, with any whitespace around
      it, yields exactly its data lines. */
  lemma RowsRoundTrip(lead: string, header: string, rows: seq<string>, trail: string)
    requires AllWhitespace(lead) && AllWhitespace(trail)
    requires '\n' !in header && forall i :: 0 <= i < |rows| ==> '\n' !in rows[i]
    requires Trimmed(Join([header] + rows, '\n'))
    ensures Rows(lead + Join([header] + rows, '\n') + trail) == rows
  {
    var lines := [header] + rows;
    var body := Join(lines, '\n');
    assert forall i :: 0 <= i < |lines| ==> '\n' !in lines[i] by {
      forall i | 0 <= i < |lines|
        ensures '\n' !in lines[i]
      {
        if i > 0 {
          assert lines[i] == rows[i - 1];
        }
      }
    }
    TrimRecovers(lead, body, trail);
    SplitJoin(lines, '\n');
    assert Split(Trim(lead + body + trail), '\n') == lines;
    assert lines[1..] == rows;
  }

  /** A table written out from representable providers, with any whitespace around
      it, reads back as those providers, row by row. */
  lemma TableRoundTrip(lead: string, header: string, ps: seq<Provider>, trail: string)
    requires AllWhitespace(lead) && AllWhitespace(trail)
    requires '\n' !in header
    requires forall i :: 0 <= i < |ps| ==> Representable(ps[i]) && '\n' !in FormatRow(ps[i])
    requires Trimmed(FormatTable(header, ps))
    ensures var table := RowFields(lead + FormatTable(header, ps) + trail);
      && |table| == |ps|
      && forall i :: 0 <= i < |ps| ==> ParseProvider(table[i]) == Ok(ps[i])
  {
    var lines := seq(|ps|, i requires 0 <= i < |ps| => FormatRow(ps[i]));
    var csv := lead + FormatTable(header, ps) + trail;
    RowsRoundTrip(lead, header, lines, trail);
    assert Rows(csv) == lines;
    var table := RowFields(csv);
    forall i | 0 <= i < |ps|
      ensures ParseProvider(table[i]) == Ok(ps[i])
    {
      assert table[i] == Split(lines[i], ',');
      ParseFormatRow(ps[i]);
    }
  }
}
