/** The catalog: the CSV text of the Google Sheet turned into products
    (script.js:434-451), the category chips (script.js:465) and the category
    filter of the product grid (script.js:489). */
module Catalog {
  import opened JsText
  import opened Wrappers

  /** A numeric cell after JavaScript's coercion, where the model can state
      it: a blank or digit-only cell is a whole number; any other text keeps
      its raw form, whose value this model does not compute. For price and
      fee JavaScript makes such text NaN, a fraction, a negative number or
      an exponent form; for stock, `isNaN(stock) ? 0 : +stock` makes NaN
      text 0 and keeps any other number. */
  datatype Numeric = Whole(n: nat) | Uncoerced(text: string)

  /** One product row, in the column order of the sheet. */
  datatype Product = Product(name: string, shop: string, price: Numeric, img: string,
                             fee: Numeric, category: string, promo: string, stock: Numeric)

  /** The `i`-th comma-separated cell, `undefined` past the end of the row. */
  function Cell(parts: seq<string>, i: nat): Option<string> {
    if i < |parts| then Some(parts[i]) else None
  }

  /** `x ? x.trim() : ''`, and `(x || '').trim()`: a missing cell is empty,
      a present one is its trimmed text. */
  function TextCell(cell: Option<string>): (r: string)
    ensures cell.None? ==> r == ""
    ensures cell.Some? ==> r == Trim(cell.value)
    ensures Trimmed(r)
    ensures cell.Some? && !Blank(cell.value) ==> r != []
  {
    match cell
    case None => ""
    case Some(x) => Trim(x)
  }

  /** `+(x || 0)` for price and fee, `isNaN(x) ? 0 : +x` for stock: a missing
      or blank cell is 0, a cell of digits is their value, and any other
      cell keeps its text. */
  function ToNumeric(cell: Option<string>): (r: Numeric)
    ensures cell.None? || Blank(cell.value) ==> r == Whole(0)
    ensures cell.Some? && AllDigits(Trim(cell.value)) ==> r == Whole(ValueOf(Trim(cell.value)))
    ensures cell.Some? && !AllDigits(Trim(cell.value)) ==> r == Uncoerced(cell.value)
  {
    match cell
    case None => Whole(0)
    case Some(x) =>
      var t := Trim(x);
      if AllDigits(t) then Whole(ValueOf(t)) else Uncoerced(x)
  }

  /** No upper-case ASCII letter. */
  predicate LowerCase(s: string) {
    forall k :: 0 <= k < |s| ==> !('A' <= s[k] <= 'Z')
  }

  /** The text fields of a product are trimmed and its promo flag is lower case. */
  predicate Normalised(p: Product) {
    Trimmed(p.name) && Trimmed(p.shop) && Trimmed(p.img) && Trimmed(p.category)
    && Trimmed(p.promo) && LowerCase(p.promo)
  }

  /** `(promo || '').trim().toLowerCase()`: empty for a missing cell,
      otherwise the trimmed cell lower-cased. */
  function PromoCell(cell: Option<string>): (r: string)
    ensures cell.None? ==> r == ""
    ensures cell.Some? ==> r == ToLower(Trim(cell.value))
    ensures Trimmed(r) && LowerCase(r)
  {
    var t := TextCell(cell);
    var r := ToLower(t);
    assert r != [] ==> !IsSpace(t[0]) && !IsSpace(t[|t| - 1]);
    r
  }

  /** One data row, split on every comma with no quoting, read by position. */
  function ParseRow(row: string): (p: Product)
    ensures Normalised(p)
    ensures p.name == Trim(Split(row, ',')[0])
  {
    var parts := Split(row, ',');
    Product(TextCell(Cell(parts, 0)), TextCell(Cell(parts, 1)), ToNumeric(Cell(parts, 2)),
            TextCell(Cell(parts, 3)), ToNumeric(Cell(parts, 4)), TextCell(Cell(parts, 5)),
            PromoCell(Cell(parts, 6)), ToNumeric(Cell(parts, 7)))
  }

  /** Each field of a parsed row is the cell of its column: trimmed text,
      the lower-cased promo flag or the coerced number, and `""` or 0 past
      the end of the row. */
  lemma RowColumns(row: string)
    ensures var parts := Split(row, ',');
            var p := ParseRow(row);
            && p.name == Trim(parts[0])
            && p.shop == (if |parts| > 1 then Trim(parts[1]) else "")
            && p.price == (if |parts| > 2 then ToNumeric(Some(parts[2])) else Whole(0))
            && p.img == (if |parts| > 3 then Trim(parts[3]) else "")
            && p.fee == (if |parts| > 4 then ToNumeric(Some(parts[4])) else Whole(0))
            && p.category == (if |parts| > 5 then Trim(parts[5]) else "")
            && p.promo == (if |parts| > 6 then ToLower(Trim(parts[6])) else "")
            && p.stock == (if |parts| > 7 then ToNumeric(Some(parts[7])) else Whole(0))
  {
  }

  /** A row written from eight comma-free cells, the text cells already
      trimmed, the promo already lower case and the numbers as digits, reads
      back as the product with exactly those fields. */
  lemma ParseJoinedRow(cells: seq<string>)
    requires |cells| == 8
    requires forall k :: 0 <= k < 8 ==> ',' !in cells[k] && Trimmed(cells[k])
    requires LowerCase(cells[6])
    requires AllDigits(cells[2]) && AllDigits(cells[4]) && AllDigits(cells[7])
    ensures ParseRow(Join(cells, ',')) ==
              Product(cells[0], cells[1], Whole(ValueOf(cells[2])), cells[3],
                      Whole(ValueOf(cells[4])), cells[5], cells[6], Whole(ValueOf(cells[7])))
  {
    var row := Join(cells, ',');
    SplitJoin(cells, ',');
    RowColumns(row);
    LowerKept(cells[6]);
    TrimmedCells(cells);
  }

  /** Lower-casing a string with no upper-case letter leaves it as it is. */
  lemma LowerKept(s: string)
    requires LowerCase(s)
    ensures ToLower(s) == s
  {
    var r := ToLower(s);
    forall k | 0 <= k < |s| ensures r[k] == s[k] {
    }
  }

  /** Trimming leaves trimmed cells as they are. */
  lemma TrimmedCells(cells: seq<string>)
    requires forall k :: 0 <= k < |cells| ==> Trimmed(cells[k])
    ensures forall k :: 0 <= k < |cells| ==> Trim(cells[k]) == cells[k]
  {
  }

  /** `map(r => r.trim())`. */
  function TrimAll(lines: seq<string>): (r: seq<string>)
    ensures |r| == |lines| && forall k :: 0 <= k < |r| ==> r[k] == Trim(lines[k])
  {
    seq(|lines|, k requires 0 <= k < |lines| => Trim(lines[k]))
  }

  /** `filter(Boolean)` on strings: drops the empty ones, keeps the order. */
  function NonEmpty(rows: seq<string>): (r: seq<string>)
    ensures |r| <= |rows|
    ensures forall x :: x in r <==> x in rows && x != ""
  {
    if rows == [] then []
    else (if rows[0] == "" then [] else [rows[0]]) + NonEmpty(rows[1..])
  }

  /** `filter(Boolean)` works piece by piece and keeps a single non-empty
      string: it keeps the order and the repeats of what it keeps. */
  lemma {:induction false} NonEmptyConcat(a: seq<string>, b: seq<string>)
    ensures NonEmpty(a + b) == NonEmpty(a) + NonEmpty(b)
    decreases |a|
  {
    if a == [] {
      assert a + b == b;
    } else {
      var h := if a[0] == "" then [] else [a[0]];
      assert (a + b)[1..] == a[1..] + b;
      assert NonEmpty(a + b) == h + NonEmpty(a[1..] + b);
      NonEmptyConcat(a[1..], b);
      Associative(h, NonEmpty(a[1..]), NonEmpty(b));
    }
  }

  /** Concatenation is associative. */
  lemma Associative<T>(x: seq<T>, y: seq<T>, z: seq<T>)
    ensures x + (y + z) == (x + y) + z
  {
  }

  /** A single string is kept exactly when it is not empty. */
  lemma NonEmptyOne(x: string)
    ensures NonEmpty([x]) == if x == "" then [] else [x]
  {
    assert [x][1..] == [];
  }

  /** `csv.split("\n").slice(1).map(r => r.trim()).filter(Boolean)`. */
  function DataRows(csv: string): (r: seq<string>)
    ensures |r| < |Split(csv, '\n')|
    ensures forall row :: row in r ==> row != "" && Trimmed(row)
    ensures forall row :: row in r <==>
              exists k :: 1 <= k < |Split(csv, '\n')| && row == Trim(Split(csv, '\n')[k]) && row != ""
  {
    var lines := Split(csv, '\n');
    TrimmedAfterFirst(lines);
    NonEmpty(TrimAll(lines[1..]))
  }

  /** A text is among the trimmed lines after the first exactly when it is
      the trim of one of them. */
  lemma TrimmedAfterFirst(lines: seq<string>)
    requires |lines| >= 1
    ensures forall row :: row in TrimAll(lines[1..]) <==> exists k :: 1 <= k < |lines| && row == Trim(lines[k])
  {
    var trimmed := TrimAll(lines[1..]);
    forall row ensures row in trimmed <==> exists k :: 1 <= k < |lines| && row == Trim(lines[k]) {
      if row in trimmed {
        var i :| 0 <= i < |trimmed| && trimmed[i] == row;
        assert row == Trim(lines[i + 1]);
      }
      if exists k :: 1 <= k < |lines| && row == Trim(lines[k]) {
        var k :| 1 <= k < |lines| && row == Trim(lines[k]);
        assert trimmed[k - 1] == row;
      }
    }
  }

  /** `filter(p => p.name)`: drops the products with an empty name. */
  function Named(ps: seq<Product>): (r: seq<Product>)
    ensures |r| <= |ps|
    ensures forall p :: p in r <==> p in ps && p.name != ""
  {
    if ps == [] then []
    else (if ps[0].name == "" then [] else [ps[0]]) + Named(ps[1..])
  }

  /** `filter(p => p.name)` works piece by piece and keeps a single named
      product: it keeps the order and the repeats of what it keeps. */
  lemma {:induction false} NamedConcat(a: seq<Product>, b: seq<Product>)
    ensures Named(a + b) == Named(a) + Named(b)
    decreases |a|
  {
    if a == [] {
      assert a + b == b;
    } else {
      var h := if a[0].name == "" then [] else [a[0]];
      assert (a + b)[1..] == a[1..] + b;
      assert Named(a + b) == h + Named(a[1..] + b);
      NamedConcat(a[1..], b);
      Associative(h, Named(a[1..]), Named(b));
    }
  }

  /** A single product is kept exactly when it has a name. */
  lemma NamedOne(p: Product)
    ensures Named([p]) == if p.name == "" then [] else [p]
  {
    assert [p][1..] == [];
  }

  /** `rows.map(f)`: the `k`-th product is the image of the `k`-th row. */
  function MapRows(rows: seq<string>, f: string -> Product): (r: seq<Product>)
    ensures |r| == |rows|
    ensures forall k :: 0 <= k < |r| ==> r[k] == f(rows[k])
    ensures forall p :: p in r <==> exists row :: row in rows && p == f(row)
  {
    if rows == [] then [] else [f(rows[0])] + MapRows(rows[1..], f)
  }

  /** `rows.map(r => ...)`: the products of the data rows, row by row, every one normalised. */
  function ParseRows(rows: seq<string>): (r: seq<Product>)
    ensures |r| == |rows|
    ensures forall k :: 0 <= k < |r| ==> r[k] == ParseRow(rows[k])
    ensures forall p :: p in r ==> Normalised(p)
    ensures forall p :: p in r <==> exists row :: row in rows && p == ParseRow(row)
  {
    MapRows(rows, ParseRow)
  }

  /** The body of the `then` that fills `PRODUCTS`. */
  function ParseCatalog(csv: string): (r: seq<Product>)
    ensures |r| <= |DataRows(csv)|
    ensures forall p :: p in r ==> p.name != "" && Normalised(p)
    ensures forall p :: p in r <==> p.name != "" && exists row :: row in DataRows(csv) && p == ParseRow(row)
  {
    Named(ParseRows(DataRows(csv)))
  }

  /** Trimming one more line adds its trimmed text at the end. */
  lemma TrimAllSnoc(lines: seq<string>, line: string)
    ensures TrimAll(lines + [line]) == TrimAll(lines) + [Trim(line)]
  {
    var l, r := TrimAll(lines + [line]), TrimAll(lines) + [Trim(line)];
    forall k | 0 <= k < |l| ensures l[k] == r[k] {
      if k < |lines| { assert (lines + [line])[k] == lines[k]; }
    }
  }

  /** Mapping works row by row: the images of two runs of rows follow each other. */
  lemma MapRowsConcat(a: seq<string>, b: seq<string>, f: string -> Product)
    ensures MapRows(a + b, f) == MapRows(a, f) + MapRows(b, f)
  {
    var l, r := MapRows(a + b, f), MapRows(a, f) + MapRows(b, f);
    forall k | 0 <= k < |l| ensures l[k] == r[k] {
      if k < |a| { assert (a + b)[k] == a[k]; } else { assert (a + b)[k] == b[k - |a|]; }
    }
  }

  /** One more line at the end of the sheet adds at most one product, at the
      end of the catalog: the product of that line when it is not blank and
      has a name. With `HeaderOnly` this fixes the catalog's order and
      repeats line by line. */
  lemma ParseCatalogSnoc(csv: string, line: string)
    requires '\n' !in line
    ensures ParseCatalog(csv + "\n" + line) ==
              ParseCatalog(csv) + (if Trim(line) != "" && ParseRow(Trim(line)).name != ""
                                   then [ParseRow(Trim(line))] else [])
  {
    var lines := Split(csv, '\n');
    SplitSnoc(csv, '\n', line);
    var lines' := Split(csv + "\n" + line, '\n');
    assert lines'[1..] == lines[1..] + [line];
    TrimAllSnoc(lines[1..], line);
    NonEmptyConcat(TrimAll(lines[1..]), [Trim(line)]);
    NonEmptyOne(Trim(line));
    var rows := DataRows(csv);
    var extra := if Trim(line) == "" then [] else [Trim(line)];
    assert DataRows(csv + "\n" + line) == rows + extra;
    MapRowsConcat(rows, extra, ParseRow);
    NamedConcat(ParseRows(rows), ParseRows(extra));
    if extra != [] {
      assert ParseRows(extra) == [ParseRow(Trim(line))];
      NamedOne(ParseRow(Trim(line)));
    }
  }

  /** The header line never matters: only the lines after the first one are read. */
  lemma HeaderIgnored(header1: string, header2: string, body: string)
    requires '\n' !in header1 && '\n' !in header2
    ensures ParseCatalog(header1 + "\n" + body) == ParseCatalog(header2 + "\n" + body)
  {
    SplitCons(header1, '\n', body);
    SplitCons(header2, '\n', body);
    assert Split(header1 + "\n" + body, '\n')[1..] == Split(body, '\n');
    assert Split(header2 + "\n" + body, '\n')[1..] == Split(body, '\n');
  }

  /** A sheet with a header line only, or with no line break at all, has no products. */
  lemma HeaderOnly(csv: string)
    requires '\n' !in csv
    ensures ParseCatalog(csv) == []
  {
    assert Split(csv, '\n') == [csv];
  }

  // ---------------------------------------------------------------------------
  // categories

  /** The index of the first occurrence of `x`. */
  function FirstIndex<T(==,!new)>(xs: seq<T>, x: T): (i: nat)
    requires x in xs
    ensures i < |xs| && xs[i] == x
    ensures forall k :: 0 <= k < i ==> xs[k] != x
  {
    if xs[0] == x then 0 else 1 + FirstIndex(xs[1..], x)
  }

  /** The elements of `xs` not in `seen`, each once, in the order of their
      first occurrence: `[...new Set(xs)]` when `seen` is empty. */
  function FirstSeen<T(==,!new)>(xs: seq<T>, seen: set<T>): (r: seq<T>)
    ensures forall x :: x in r <==> x in xs && x !in seen
    ensures forall i, j :: 0 <= i < j < |r| ==> r[i] != r[j]
    ensures forall i, j :: 0 <= i < j < |r| ==> FirstIndex(xs, r[i]) < FirstIndex(xs, r[j])
  {
    if xs == [] then []
    else
      var rest := FirstSeen(xs[1..], seen + {xs[0]});
      var r := if xs[0] in seen then rest else [xs[0]] + rest;
      FirstSeenStep(xs, seen, rest, r);
      r
  }

  lemma FirstIndexTail<T(!new)>(xs: seq<T>, y: T)
    requires xs != [] && y in xs[1..] && y != xs[0]
    ensures y in xs && FirstIndex(xs, y) == 1 + FirstIndex(xs[1..], y)
  {
    assert xs == [xs[0]] + xs[1..];
  }

  /** One step of `FirstSeen`: the first element is listed ahead of the
      rest unless it was already seen. */
  lemma FirstSeenStep<T(!new)>(xs: seq<T>, seen: set<T>, rest: seq<T>, r: seq<T>)
    requires xs != []
    requires forall x :: x in rest <==> x in xs[1..] && x !in seen + {xs[0]}
    requires forall i, j :: 0 <= i < j < |rest| ==> rest[i] != rest[j]
    requires forall i, j :: 0 <= i < j < |rest| ==> FirstIndex(xs[1..], rest[i]) < FirstIndex(xs[1..], rest[j])
    requires r == if xs[0] in seen then rest else [xs[0]] + rest
    ensures forall x :: x in r <==> x in xs && x !in seen
    ensures forall i, j :: 0 <= i < j < |r| ==> r[i] != r[j]
    ensures forall i, j :: 0 <= i < j < |r| ==> r[i] in xs && r[j] in xs && FirstIndex(xs, r[i]) < FirstIndex(xs, r[j])
  {
    assert xs == [xs[0]] + xs[1..];
    if xs[0] in seen {
      forall i, j | 0 <= i < j < |r| ensures r[i] in xs && r[j] in xs && FirstIndex(xs, r[i]) < FirstIndex(xs, r[j]) {
        assert r[i] in rest && r[j] in rest;
        FirstIndexTail(xs, r[i]);
        FirstIndexTail(xs, r[j]);
      }
    } else {
      FirstSeenCons(xs, rest, r);
    }
  }

  /** Listing the first element ahead of a first-seen list of the tail
      keeps the list distinct and in first-seen order. */
  lemma FirstSeenCons<T(!new)>(xs: seq<T>, rest: seq<T>, r: seq<T>)
    requires xs != []
    requires forall x :: x in rest ==> x in xs[1..] && x != xs[0]
    requires forall i, j :: 0 <= i < j < |rest| ==> rest[i] != rest[j]
    requires forall i, j :: 0 <= i < j < |rest| ==> FirstIndex(xs[1..], rest[i]) < FirstIndex(xs[1..], rest[j])
    requires r == [xs[0]] + rest
    ensures forall i, j :: 0 <= i < j < |r| ==> r[i] != r[j]
    ensures forall i, j :: 0 <= i < j < |r| ==> r[i] in xs && r[j] in xs && FirstIndex(xs, r[i]) < FirstIndex(xs, r[j])
  {
    TailIndices(xs, rest);
    assert FirstIndex(xs, xs[0]) == 0;
    forall i, j | 0 <= i < j < |r|
      ensures r[i] != r[j] && r[i] in xs && r[j] in xs && FirstIndex(xs, r[i]) < FirstIndex(xs, r[j])
    {
      assert r[j] == rest[j - 1];
      if i > 0 {
        assert r[i] == rest[i - 1];
      }
    }
  }

  /** Every element of the tail other than the head is first met one place
      later in the whole sequence than in its tail. */
  lemma TailIndices<T(!new)>(xs: seq<T>, rest: seq<T>)
    requires xs != []
    requires forall x :: x in rest ==> x in xs[1..] && x != xs[0]
    ensures forall k :: 0 <= k < |rest| ==> rest[k] in xs && FirstIndex(xs, rest[k]) == 1 + FirstIndex(xs[1..], rest[k])
  {
    forall k | 0 <= k < |rest| ensures rest[k] in xs && FirstIndex(xs, rest[k]) == 1 + FirstIndex(xs[1..], rest[k]) {
      FirstIndexTail(xs, rest[k]);
    }
  }

  /** `[...new Set(xs)].filter(Boolean)` is the first-seen list with the empty
      string counted as seen from the start. */
  lemma {:induction false} DedupThenFilter(xs: seq<string>, seen: set<string>)
    ensures NonEmpty(FirstSeen(xs, seen)) == FirstSeen(xs, seen + {""})
    decreases |xs|
  {
    if xs != [] {
      var x := xs[0];
      DedupThenFilter(xs[1..], seen + {x});
      assert seen + {x} + {""} == seen + {""} + {x};
      var r := FirstSeen(xs, seen);
      if x !in seen {
        assert r == [x] + FirstSeen(xs[1..], seen + {x});
        assert r[1..] == FirstSeen(xs[1..], seen + {x});
      }
    }
  }

  /** The category of every product, in catalog order. */
  function CategoryColumn(ps: seq<Product>): (r: seq<string>)
    ensures |r| == |ps| && forall k :: 0 <= k < |r| ==> r[k] == ps[k].category
  {
    seq(|ps|, k requires 0 <= k < |ps| => ps[k].category)
  }

  /** `[...new Set(PRODUCTS.map(p => p.category))].filter(Boolean)`: the
      distinct non-empty categories in the order they are first met. */
  function Categories(ps: seq<Product>): (r: seq<string>)
    ensures "" !in r
    ensures forall c :: c in r ==> c in CategoryColumn(ps)
    ensures forall c :: c in r <==> c != "" && exists k :: 0 <= k < |ps| && ps[k].category == c
    ensures forall i, j :: 0 <= i < j < |r| ==> r[i] != r[j]
    ensures forall i, j :: 0 <= i < j < |r| ==>
              FirstIndex(CategoryColumn(ps), r[i]) < FirstIndex(CategoryColumn(ps), r[j])
  {
    var cats := CategoryColumn(ps);
    DedupThenFilter(cats, {});
    assert {} + {""} == {""};
    ColumnMembers(ps);
    NonEmpty(FirstSeen(cats, {}))
  }

  /** A category is in the column exactly when some product has it. */
  lemma ColumnMembers(ps: seq<Product>)
    ensures forall c :: c in CategoryColumn(ps) <==> exists k :: 0 <= k < |ps| && ps[k].category == c
  {
    var cats := CategoryColumn(ps);
    forall c ensures c in cats <==> exists k :: 0 <= k < |ps| && ps[k].category == c {
      if c in cats {
        var k :| 0 <= k < |cats| && cats[k] == c;
        assert ps[k].category == c;
      }
    }
  }

  // ---------------------------------------------------------------------------
  // category filter

  /** `PRODUCTS.filter(p => !currentCategory || p.category === currentCategory)`. */
  function Visible(ps: seq<Product>, current: string): (r: seq<Product>)
    ensures |r| <= |ps|
    ensures current == "" ==> r == ps
    ensures forall p :: p in r <==> p in ps && (current == "" || p.category == current)
  {
    if ps == [] then []
    else (if current == "" || ps[0].category == current then [ps[0]] else []) + Visible(ps[1..], current)
  }

  /** The category filter works piece by piece and keeps a single product
      exactly when it is in the chosen category: the grid keeps the catalog's
      order and repeats. */
  lemma {:induction false} VisibleConcat(a: seq<Product>, b: seq<Product>, current: string)
    ensures Visible(a + b, current) == Visible(a, current) + Visible(b, current)
    decreases |a|
  {
    if a == [] {
      assert a + b == b;
    } else {
      var h := if current == "" || a[0].category == current then [a[0]] else [];
      assert (a + b)[1..] == a[1..] + b;
      assert Visible(a + b, current) == h + Visible(a[1..] + b, current);
      VisibleConcat(a[1..], b, current);
      Associative(h, Visible(a[1..], current), Visible(b, current));
    }
  }

  /** A single product is shown exactly when it is in the chosen category, or none is chosen. */
  lemma VisibleOne(p: Product, current: string)
    ensures Visible([p], current) == if current == "" || p.category == current then [p] else []
  {
    assert [p][1..] == [];
  }

  /** `p.price + p.fee`, the unit price a product card passes to `addToCart`
      (script.js:504-505), where both cells are whole numbers. */
  function UnitPrice(p: Product): (r: Option<nat>)
    ensures r.Some? <==> p.price.Whole? && p.fee.Whole?
    ensures r.Some? ==> r.value - p.fee.n == p.price.n && r.value >= p.fee.n
  {
    match (p.price, p.fee)
    case (Whole(a), Whole(b)) => Some(a + b)
    case _ => None
  }
}
