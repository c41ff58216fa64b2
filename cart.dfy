/** The shopping cart (script.js:120-196): a table from product name to
    {name, price, qty}, kept in the insertion order `Object.values` lists it
    in, the derived count badge and total, the cart drawer, and the order
    that `checkout` builds from a cart (script.js:545-564). */
module Cart {
  import opened Wrappers
  import opened Money
  import SheetUrl
  import Catalog

  /** One cart line; `price` is the unit price (product price plus fee). */
  datatype Line = Line(name: string, price: nat, qty: int)

  /** The cart object: its keys in insertion order and its entries. */
  datatype CartState = CartState(order: seq<string>, lines: map<string, Line>)

  const Empty: CartState := CartState([], map[])

  predicate Distinct(keys: seq<string>) {
    forall i, j :: 0 <= i < j < |keys| ==> keys[i] != keys[j]
  }

  /** The cart invariant: each key listed once, each line stored under its
      own name, and every line present has a positive quantity. */
  predicate WellFormed(st: CartState) {
    && Distinct(st.order)
    && (forall k :: k in st.lines ==> k in st.order)
    && (forall k :: k in st.order ==> k in st.lines)
    && (forall k :: k in st.lines ==> st.lines[k].name == k && st.lines[k].qty > 0)
  }

  /** `Object.values(cart)`. */
  function Items(st: CartState): (r: seq<Line>)
    requires WellFormed(st)
    ensures |r| == |st.order|
    ensures forall i :: 0 <= i < |r| ==> r[i] == st.lines[st.order[i]] && r[i].qty > 0
  {
    seq(|st.order|, i requires 0 <= i < |st.order| => st.lines[st.order[i]])
  }

  /** What a sum adds up per line: the quantity (the badge) or price times
      quantity (the total). */
  datatype Tally = Qty | Amount

  function Weight(l: Line, t: Tally): int {
    if t == Qty then l.qty else l.price * l.qty
  }

  /** `items.reduce((a, b) => a + weight(b), 0)`, folded from the left. */
  function Sum(items: seq<Line>, t: Tally): int {
    if items == [] then 0 else Sum(items[..|items| - 1], t) + Weight(items[|items| - 1], t)
  }

  /** The number shown on the cart badge (script.js:136). */
  function TotalQty(st: CartState): (n: int)
    requires WellFormed(st)
    ensures n >= |st.order|
  {
    SumBounds(Items(st));
    Sum(Items(st), Qty)
  }

  /** The cart total (script.js:163-165 and script.js:554). */
  function Total(st: CartState): (n: int)
    requires WellFormed(st)
    ensures n >= 0
  {
    SumBounds(Items(st));
    Sum(Items(st), Amount)
  }

  // ---------------------------------------------------------------------------
  // the three cart operations on values

  /** The keys without `k`: what `delete cart[k]` leaves of the key order. */
  function Without(keys: seq<string>, k: string): (r: seq<string>)
    ensures forall x :: x in r <==> x in keys && x != k
    ensures Distinct(keys) ==> Distinct(r)
  {
    if keys == [] then []
    else
      var init := keys[..|keys| - 1];
      var rest := Without(init, k);
      var last := keys[|keys| - 1];
      assert keys == init + [last];
      assert Distinct(keys) ==> Distinct(init) && last !in init;
      if last == k then rest else rest + [last]
  }

  /** `addToCart(name, price)`: a new line at quantity 1, or one more of an
      existing line at its stored price. */
  function WithAdded(st: CartState, name: string, price: nat): (r: CartState)
    requires WellFormed(st)
    ensures WellFormed(r) && name in r.lines
    ensures name !in st.lines ==> r.lines[name] == Line(name, price, 1) && r.order == st.order + [name]
    ensures name in st.lines ==> r.lines[name] == st.lines[name].(qty := st.lines[name].qty + 1)
                                 && r.order == st.order
    ensures forall k :: k != name ==> (k in r.lines <==> k in st.lines)
    ensures forall k :: k != name && k in st.lines ==> r.lines[k] == st.lines[k]
  {
    if name in st.lines then
      var l := st.lines[name];
      st.(lines := st.lines[name := l.(qty := l.qty + 1)])
    else
      CartState(st.order + [name], st.lines[name := Line(name, price, 1)])
  }

  /** `removeItem(name)`: the line is gone, nothing else changes. */
  function WithRemoved(st: CartState, name: string): (r: CartState)
    requires WellFormed(st)
    ensures WellFormed(r)
    ensures name !in r.lines
    ensures forall k :: k != name ==> (k in r.lines <==> k in st.lines)
    ensures forall k :: k != name && k in st.lines ==> r.lines[k] == st.lines[k]
  {
    CartState(Without(st.order, name), st.lines - {name})
  }

  /** `changeQty(name, delta)`: nothing for an unknown name; otherwise the
      quantity moves by `delta` and the line goes when it reaches 0 or less. */
  function WithQtyChanged(st: CartState, name: string, delta: int): (r: CartState)
    requires WellFormed(st)
    ensures WellFormed(r)
    ensures name !in st.lines ==> r == st
    ensures name in st.lines && st.lines[name].qty + delta <= 0 ==> name !in r.lines
    ensures name in st.lines && st.lines[name].qty + delta > 0 ==>
              name in r.lines && r.lines[name] == st.lines[name].(qty := st.lines[name].qty + delta) && r.order == st.order
    ensures forall k :: k != name ==> (k in r.lines <==> k in st.lines)
    ensures forall k :: k != name && k in st.lines ==> r.lines[k] == st.lines[k]
  {
    if name !in st.lines then st
    else
      var l := st.lines[name];
      if l.qty + delta <= 0 then WithRemoved(st, name)
      else st.(lines := st.lines[name := l.(qty := l.qty + delta)])
  }

  // ---------------------------------------------------------------------------
  // the sums

  lemma {:induction false} SumAppend(a: seq<Line>, b: seq<Line>, t: Tally)
    ensures Sum(a + b, t) == Sum(a, t) + Sum(b, t)
    decreases |b|
  {
    if b == [] {
      assert a + b == a;
    } else {
      var b' := b[..|b| - 1];
      assert (a + b)[..|a + b| - 1] == a + b';
      SumAppend(a, b', t);
    }
  }

  lemma SumSnoc(s: seq<Line>, l: Line, t: Tally)
    ensures Sum(s + [l], t) == Sum(s, t) + Weight(l, t)
  {
    assert (s + [l])[..|s|] == s;
  }

  /** Replacing one line changes a sum by the difference of the two lines. */
  lemma SumUpdate(s: seq<Line>, i: nat, x: Line, t: Tally)
    requires i < |s|
    ensures Sum(s[i := x], t) == Sum(s, t) - Weight(s[i], t) + Weight(x, t)
  {
    var u := s[i := x];
    assert s == s[..i] + [s[i]] + s[i + 1..];
    assert u == s[..i] + [x] + s[i + 1..];
    SumAppend(s[..i] + [s[i]], s[i + 1..], t);
    SumAppend(s[..i], [s[i]], t);
    SumAppend(s[..i] + [x], s[i + 1..], t);
    SumAppend(s[..i], [x], t);
    assert Sum([x], t) == Weight(x, t) by { assert [x][..0] == []; }
    assert Sum([s[i]], t) == Weight(s[i], t) by { assert [s[i]][..0] == []; }
  }

  /** Dropping one line takes that line's weight off a sum. */
  lemma SumDrop(s: seq<Line>, i: nat, t: Tally)
    requires i < |s|
    ensures Sum(s[..i] + s[i + 1..], t) == Sum(s, t) - Weight(s[i], t)
  {
    assert s == s[..i] + [s[i]] + s[i + 1..];
    SumAppend(s[..i] + [s[i]], s[i + 1..], t);
    SumAppend(s[..i], [s[i]], t);
    SumAppend(s[..i], s[i + 1..], t);
    assert Sum([s[i]], t) == Weight(s[i], t) by { assert [s[i]][..0] == []; }
  }

  /** A sum over lines of positive quantity is at least the number of lines
      (for quantities) and never negative. */
  lemma {:induction false} SumBounds(s: seq<Line>)
    requires forall i :: 0 <= i < |s| ==> s[i].qty > 0
    ensures Sum(s, Qty) >= |s|
    ensures Sum(s, Amount) >= 0
    decreases |s|
  {
    if s != [] {
      SumBounds(s[..|s| - 1]);
      var l := s[|s| - 1];
      assert l.price * l.qty >= 0;
    }
  }

  /** The position of a key in the key order. */
  function Position(keys: seq<string>, k: string): (i: nat)
    requires k in keys
    ensures i < |keys| && keys[i] == k
  {
    if keys[0] == k then 0 else 1 + Position(keys[1..], k)
  }

  /** Without a key listed once is the order with that one position cut out. */
  lemma {:induction false} WithoutAt(keys: seq<string>, i: nat)
    requires Distinct(keys) && i < |keys|
    ensures Without(keys, keys[i]) == keys[..i] + keys[i + 1..]
    decreases |keys|
  {
    var n := |keys|;
    var init := keys[..n - 1];
    if i == n - 1 {
      assert keys[i] !in init;
      WithoutAbsent(init, keys[i]);
      assert keys[..i] + keys[i + 1..] == init;
    } else {
      assert Distinct(init);
      assert init[i] == keys[i];
      WithoutAt(init, i);
      assert keys == init + [keys[n - 1]];
      assert keys[..i] == init[..i];
      assert keys[i + 1..] == init[i + 1..] + [keys[n - 1]];
      assert keys[..i] + keys[i + 1..] == init[..i] + init[i + 1..] + [keys[n - 1]];
    }
  }

  lemma {:induction false} WithoutAbsent(keys: seq<string>, k: string)
    requires k !in keys
    ensures Without(keys, k) == keys
    decreases |keys|
  {
    if keys != [] {
      var init := keys[..|keys| - 1];
      WithoutAbsent(init, k);
      assert init + [keys[|keys| - 1]] == keys;
    }
  }

  /** The lines left after a removal are the old ones with that line cut out. */
  lemma ItemsWithout(st: CartState, name: string, i: nat)
    requires WellFormed(st) && i < |st.order| && st.order[i] == name
    ensures Items(WithRemoved(st, name)) == Items(st)[..i] + Items(st)[i + 1..]
  {
    var r := WithRemoved(st, name);
    WithoutAt(st.order, i);
    var s := Items(st);
    var t := Items(r);
    assert |t| == |s| - 1;
    forall k | 0 <= k < |t| ensures t[k] == (s[..i] + s[i + 1..])[k] {
      if k < i {
        assert r.order[k] == st.order[k];
      } else {
        assert r.order[k] == st.order[k + 1];
      }
    }
  }

  /** The lines after one line changed are the old ones with that position replaced. */
  lemma ItemsUpdate(st: CartState, r: CartState, name: string, i: nat, l: Line)
    requires WellFormed(st) && WellFormed(r) && i < |st.order| && st.order[i] == name
    requires r == st.(lines := st.lines[name := l])
    ensures Items(r) == Items(st)[i := l]
  {
  }

  /** A cart's badge count is at least its number of lines: it is shown,
      being positive, exactly when the cart has a line; its total is never
      negative. */
  lemma CountPositiveIffLines(st: CartState)
    requires WellFormed(st)
    ensures TotalQty(st) >= |st.order|
    ensures TotalQty(st) > 0 <==> st.order != []
    ensures Total(st) >= 0
    ensures st.order == [] ==> TotalQty(st) == 0 && Total(st) == 0
  {
    SumBounds(Items(st));
  }

  /** A new key adds its line at the end of the items. */
  lemma ItemsAppend(st: CartState, name: string, l: Line)
    requires WellFormed(st) && name !in st.lines
    requires WellFormed(CartState(st.order + [name], st.lines[name := l]))
    ensures Items(CartState(st.order + [name], st.lines[name := l])) == Items(st) + [l]
  {
  }

  /** Replacing the line at position `i` moves both sums by the difference. */
  lemma SumsUpdate(st: CartState, r: CartState, name: string, l: Line)
    requires WellFormed(st) && WellFormed(r) && name in st.lines
    requires r == st.(lines := st.lines[name := l])
    ensures TotalQty(r) == TotalQty(st) - st.lines[name].qty + l.qty
    ensures Total(r) == Total(st) - Weight(st.lines[name], Amount) + Weight(l, Amount)
  {
    var i := Position(st.order, name);
    ItemsUpdate(st, r, name, i, l);
    SumUpdate(Items(st), i, l, Qty);
    SumUpdate(Items(st), i, l, Amount);
  }

  /** Adding a product raises the count by one and the total by the unit
      price of its line: the stored price when the line existed. */
  lemma AddTotals(st: CartState, name: string, price: nat)
    requires WellFormed(st)
    ensures TotalQty(WithAdded(st, name, price)) == TotalQty(st) + 1
    ensures Total(WithAdded(st, name, price)) ==
              Total(st) + (if name in st.lines then st.lines[name].price else price)
  {
    var r := WithAdded(st, name, price);
    if name in st.lines {
      var l := st.lines[name];
      assert r == st.(lines := st.lines[name := l.(qty := l.qty + 1)]);
      AddExistingTotals(st, name, r);
    } else {
      assert r == CartState(st.order + [name], st.lines[name := Line(name, price, 1)]);
      AddNewTotals(st, name, Line(name, price, 1), r);
    }
  }

  /** The buttons of a product card add the product under its name at the
      card's unit price, price plus fee (script.js:504-505): the count rises
      by one and the total by that sum for a new line, or by the stored
      price of a line already in the cart. */
  lemma CardAddTotals(st: CartState, p: Catalog.Product)
    requires WellFormed(st) && Catalog.UnitPrice(p).Some?
    ensures TotalQty(WithAdded(st, p.name, Catalog.UnitPrice(p).value)) == TotalQty(st) + 1
    ensures Total(WithAdded(st, p.name, Catalog.UnitPrice(p).value)) ==
              Total(st) + (if p.name in st.lines then st.lines[p.name].price else p.price.n + p.fee.n)
  {
    AddTotals(st, p.name, Catalog.UnitPrice(p).value);
  }

  /** One more of an existing line adds one to the count and its price to the total. */
  lemma AddExistingTotals(st: CartState, name: string, r: CartState)
    requires WellFormed(st) && name in st.lines
    requires r == st.(lines := st.lines[name := st.lines[name].(qty := st.lines[name].qty + 1)])
    requires WellFormed(r)
    ensures TotalQty(r) == TotalQty(st) + 1
    ensures Total(r) == Total(st) + st.lines[name].price
  {
    var l := st.lines[name];
    var l' := l.(qty := l.qty + 1);
    SumsUpdate(st, r, name, l');
    MoreUnits(l, l', 1);
  }

  /** `delta` more units add `delta` times the unit price to a line's amount. */
  lemma MoreUnits(l: Line, l': Line, delta: int)
    requires l' == l.(qty := l.qty + delta)
    ensures Weight(l', Amount) == Weight(l, Amount) + l.price * delta
  {
    assert l.price * (l.qty + delta) == l.price * l.qty + l.price * delta;
  }

  /** A new line adds its own quantity and amount to the totals. */
  lemma AddNewTotals(st: CartState, name: string, l: Line, r: CartState)
    requires WellFormed(st) && name !in st.lines
    requires r == CartState(st.order + [name], st.lines[name := l]) && WellFormed(r)
    ensures TotalQty(r) == TotalQty(st) + l.qty
    ensures Total(r) == Total(st) + Weight(l, Amount)
  {
    ItemsAppend(st, name, l);
    SumSnoc(Items(st), l, Qty);
    SumSnoc(Items(st), l, Amount);
  }

  /** Removing a line takes exactly its quantity and amount off the totals;
      an absent name changes nothing. */
  lemma RemoveTotals(st: CartState, name: string)
    requires WellFormed(st)
    ensures TotalQty(WithRemoved(st, name)) ==
              TotalQty(st) - (if name in st.lines then st.lines[name].qty else 0)
    ensures Total(WithRemoved(st, name)) ==
              Total(st) - (if name in st.lines then Weight(st.lines[name], Amount) else 0)
  {
    if name in st.lines {
      RemovePresentTotals(st, name, Position(st.order, name));
    } else {
      WithoutAbsent(st.order, name);
      assert st.lines - {name} == st.lines;
      assert WithRemoved(st, name) == st;
    }
  }

  /** Removing the line at position `i` takes its weight off both sums. */
  lemma RemovePresentTotals(st: CartState, name: string, i: nat)
    requires WellFormed(st) && i < |st.order| && st.order[i] == name
    ensures TotalQty(WithRemoved(st, name)) == TotalQty(st) - st.lines[name].qty
    ensures Total(WithRemoved(st, name)) == Total(st) - Weight(st.lines[name], Amount)
  {
    var s := Items(st);
    ItemsWithout(st, name, i);
    SumDrop(s, i, Qty);
    SumDrop(s, i, Amount);
  }

  /** Removing twice is removing once. */
  lemma RemoveIdempotent(st: CartState, name: string)
    requires WellFormed(st)
    ensures WithRemoved(WithRemoved(st, name), name) == WithRemoved(st, name)
  {
    var r := WithRemoved(st, name);
    WithoutAbsent(r.order, name);
    assert r.lines - {name} == r.lines;
  }

  /** A change of quantity moves the count by `delta`, or takes the whole
      line off when the quantity would reach 0 or less. */
  lemma ChangeQtyTotals(st: CartState, name: string, delta: int)
    requires WellFormed(st) && name in st.lines
    ensures var q := st.lines[name].qty;
            TotalQty(WithQtyChanged(st, name, delta)) == TotalQty(st) + (if q + delta > 0 then delta else -q)
    ensures var l := st.lines[name];
            Total(WithQtyChanged(st, name, delta)) ==
              Total(st) + (if l.qty + delta > 0 then l.price * delta else -(l.price * l.qty))
  {
    var l := st.lines[name];
    if l.qty + delta <= 0 {
      RemoveTotals(st, name);
    } else {
      var l' := l.(qty := l.qty + delta);
      var r := WithQtyChanged(st, name, delta);
      assert r == st.(lines := st.lines[name := l']);
      SumsUpdate(st, r, name, l');
      MoreUnits(l, l', delta);
    }
  }

  // ---------------------------------------------------------------------------
  // the badge and the order

  /** What `updateCartCount` shows: the count, and whether the badge is visible. */
  datatype Badge = Badge(count: int, visible: bool)

  /** `updateCartCount()`: the badge shows the sum of the quantities and is
      visible exactly when the cart has a line. */
  function CartBadge(st: CartState): (b: Badge)
    requires WellFormed(st)
    ensures b.count == TotalQty(st) && b.count >= |st.order|
    ensures b.visible <==> st.order != []
  {
    CountPositiveIffLines(st);
    var n := Sum(Items(st), Qty);
    Badge(n, n > 0)
  }

  /** The profile fields `checkout` reads. Each may be null, as
      `localStorage.getItem` returns for a key that was never written. */
  datatype Contact = Contact(name: Option<string>, wa: Option<string>, sheet: Option<string>)

  /** The order record sent to the order store. */
  datatype Order = Order(sheetId: Option<string>, profileName: Option<string>, wa: Option<string>,
                         items: seq<Line>, total: nat)

  /** Why `checkout` builds no order: an empty cart is refused with an
      alert; a missing profile throws a TypeError when `profile.sheet` is
      read, and a null sheet link throws one inside `extractSheetId`
      (script.js:6), where `null.match` is called. */
  datatype CheckoutError = EmptyCart | NoProfile | NoSheetLink

  /** `checkout(cart, profile)` up to the order record: an empty cart is
      refused first, then a missing profile or a null sheet link throws;
      otherwise the order holds every line, their total and the profile's
      fields. */
  function Checkout(st: CartState, profile: Option<Contact>): (r: Result<Order, CheckoutError>)
    requires WellFormed(st)
    ensures st.order == [] ==> r == Failure(EmptyCart)
    ensures st.order != [] && profile.None? ==> r == Failure(NoProfile)
    ensures st.order != [] && profile.Some? && profile.value.sheet.None? ==> r == Failure(NoSheetLink)
    ensures r.Success? <==> st.order != [] && profile.Some? && profile.value.sheet.Some?
    ensures r.Success? ==> r.value.items == Items(st) && r.value.total == Total(st)
                           && r.value.sheetId == SheetUrl.ExtractSheetId(profile.value.sheet.value)
                           && r.value.profileName == profile.value.name && r.value.wa == profile.value.wa
  {
    if |st.order| == 0 then Failure(EmptyCart)
    else if profile.None? then Failure(NoProfile)
    else if profile.value.sheet.None? then Failure(NoSheetLink)
    else
      var items := Items(st);
      CountPositiveIffLines(st);
      var total := Sum(items, Amount);
      Success(Order(SheetUrl.ExtractSheetId(profile.value.sheet.value), profile.value.name,
                    profile.value.wa, items, total))
  }

  /** The `forEach` of `renderCart` (script.js:156-165): the running total
      of `price * qty` over the lines. */
  method SumAmounts(items: seq<Line>) returns (total: int)
    requires forall i :: 0 <= i < |items| ==> items[i].qty > 0
    ensures total == Sum(items, Amount) && total >= 0
  {
    total := 0;
    var i := 0;
    while i < |items|
      invariant 0 <= i <= |items|
      invariant total == Sum(items[..i], Amount)
    {
      assert items[..i + 1][..i] == items[..i];
      total := total + items[i].price * items[i].qty;
      i := i + 1;
    }
    assert items[..i] == items;
    SumBounds(items);
  }

  // ---------------------------------------------------------------------------
  // the cart object of the page

  /** What `renderCart` leaves in the drawer. */
  datatype CartView = Closed | Listed(items: seq<Line>, totalText: string)

  /** The in-place steps of `changeQty` that leave a positive quantity give
      `WithQtyChanged`. */
  lemma QtyBumped(st: CartState, name: string, delta: int, bumped: Line)
    requires WellFormed(st) && name in st.lines
    requires bumped == st.lines[name].(qty := st.lines[name].qty + delta) && bumped.qty > 0
    ensures CartState(st.order, st.lines[name := bumped]) == WithQtyChanged(st, name, delta)
  {
  }

  /** The in-place steps of `changeQty` that bump the quantity to 0 or less
      and then delete the key give `WithQtyChanged`. */
  lemma QtyDropped(st: CartState, name: string, delta: int, bumped: Line)
    requires WellFormed(st) && name in st.lines
    requires bumped == st.lines[name].(qty := st.lines[name].qty + delta) && bumped.qty <= 0
    ensures CartState(Without(st.order, name), st.lines - {name}) == WithQtyChanged(st, name, delta)
  {
    DeleteOverwritten(st.lines, name, bumped);
  }

  /** Deleting a key forgets what was last stored under it. */
  lemma DeleteOverwritten(m: map<string, Line>, k: string, v: Line)
    ensures m[k := v] - {k} == m - {k}
  {
  }

  /** What `renderCart` shows for a cart: nothing for an empty one, else
      every line and the rupiah total. */
  function View(st: CartState): (v: CartView)
    requires WellFormed(st)
    ensures v.Closed? <==> st.order == []
  {
    if st.order == [] then Closed else Listed(Items(st), "Total: " + FormatRp(Nat(Total(st))))
  }

  /** The global `cart` and the open/closed state of the cart drawer. */
  class ShoppingCart {
    var order: seq<string>
    var lines: map<string, Line>
    var drawerOpen: bool

    function State(): CartState
      reads this`order, this`lines
    {
      CartState(order, lines)
    }

    /** The cart invariant, and the drawer policy: an empty cart never stays open. */
    predicate Valid()
      reads this
    {
      WellFormed(State()) && (drawerOpen ==> order != [])
    }

    /** The page starts from the saved cart (`Empty` on a first visit),
        with the drawer closed. */
    constructor (saved: CartState)
      requires WellFormed(saved)
      ensures Valid() && State() == saved && !drawerOpen
    {
      order, lines, drawerOpen := saved.order, saved.lines, false;
    }

    /** `renderCart()`: closes the drawer of an empty cart; otherwise lists
        the lines and accumulates the total line by line. */
    method RenderCart() returns (view: CartView)
      requires WellFormed(State())
      modifies this`drawerOpen
      ensures Valid()
      ensures order == [] ==> view == Closed && !drawerOpen
      ensures order != [] ==> drawerOpen == old(drawerOpen)
      ensures view == View(State())
    {
      var items := Items(State());
      if |items| == 0 {
        drawerOpen := false;
        return Closed;
      }
      var total := SumAmounts(items);
      view := Listed(items, "Total: " + FormatRp(Nat(total)));
    }

    /** `addToCart(name, price, openNow)`. */
    method AddToCart(name: string, price: nat, openNow: bool)
      requires Valid()
      modifies this
      ensures Valid()
      ensures State() == WithAdded(old(State()), name, price)
      ensures drawerOpen == (old(drawerOpen) || openNow)
    {
      ghost var before := State();
      if name !in lines {
        lines := lines[name := Line(name, price, 0)];
        order := order + [name];
      }
      var l := lines[name];
      lines := lines[name := l.(qty := l.qty + 1)];
      assert lines == before.lines[name := l.(qty := l.qty + 1)];
      assert State() == WithAdded(before, name, price);
      if openNow {
        drawerOpen := true;
        var _ := RenderCart();
      }
    }

    /** `changeQty(name, delta)`. The source bumps the stored line and then
        deletes it when its quantity is 0 or less; storing the bumped line
        only when it stays leaves the same cart. */
    method ChangeQty(name: string, delta: int)
      requires Valid()
      modifies this
      ensures Valid()
      ensures State() == WithQtyChanged(old(State()), name, delta)
      ensures drawerOpen == (old(drawerOpen) && order != [])
    {
      if name !in lines {
        return;
      }
      ghost var before := State();
      var bumped := lines[name].(qty := lines[name].qty + delta);
      if bumped.qty <= 0 {
        QtyDropped(before, name, delta, bumped);
        lines := lines - {name};
        order := Without(order, name);
      } else {
        QtyBumped(before, name, delta, bumped);
        lines := lines[name := bumped];
      }
      assert State() == WithQtyChanged(before, name, delta);
      var _ := RenderCart();
    }

    /** `removeItem(name)`. */
    method RemoveItem(name: string)
      requires Valid()
      modifies this
      ensures Valid()
      ensures State() == WithRemoved(old(State()), name)
      ensures drawerOpen == (old(drawerOpen) && order != [])
    {
      ghost var before := State();
      lines := lines - {name};
      order := Without(order, name);
      assert State() == WithRemoved(before, name);
      var _ := RenderCart();
    }

    /** `toggleCart()`: flips the drawer, which an empty cart closes again. */
    method ToggleCart()
      requires Valid()
      modifies this`drawerOpen
      ensures Valid()
      ensures drawerOpen == (!old(drawerOpen) && order != [])
    {
      drawerOpen := !drawerOpen;
      var _ := RenderCart();
    }

    /** `minimizeCart()`. */
    method MinimizeCart()
      requires Valid()
      modifies this`drawerOpen
      ensures Valid() && !drawerOpen
    {
      drawerOpen := false;
    }
  }
}
