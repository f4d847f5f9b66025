/** The pure part of the point-of-sale store: the modifier signature, the
    unit price with add-ons, merging a product into the line items, the
    quantity edit, the totals and the paid-history cap. The store's
    actions (module PosStore) are built from these. */
module SaleLogic {
  import opened Types
  import opened Lists
  import opened Order
  import opened Money

  const MaxQty := 999
  const HistoryLimit := 50

  // ---------------------------------------------------------------------
  // Modifier signature and line identity

  function AddonIds(mods: seq<Addon>): (r: seq<string>)
    ensures |r| == |mods|
    ensures forall i :: 0 <= i < |mods| ==> r[i] == mods[i].id
  {
    seq(|mods|, i requires 0 <= i < |mods| => mods[i].id)
  }

  /** The selected add-on ids, sorted and joined with ","; "" when no
      add-ons are selected. */
  function Signature(mods: Option<seq<Addon>>): string {
    if mods.None? || |mods.value| == 0 then ""
    else Join(Sort(AddonIds(mods.value)), ",")
  }

  /** Absent and empty modifier lists have the same signature, the empty one. */
  lemma SignatureOfNoModifiers()
    ensures Signature(None) == "" && Signature(Some([])) == ""
  {
  }

  /** The signature depends only on which add-on ids were selected (with
      multiplicity), not on the order in which they were selected. */
  lemma SignatureOrderIndependent(m1: seq<Addon>, m2: seq<Addon>)
    requires multiset(AddonIds(m1)) == multiset(AddonIds(m2))
    ensures Signature(Some(m1)) == Signature(Some(m2))
  {
    assert |AddonIds(m1)| == |multiset(AddonIds(m1))|;
    assert |AddonIds(m2)| == |multiset(AddonIds(m2))|;
    SortPermutationInvariant(AddonIds(m1), AddonIds(m2));
  }

  /** What makes two lines the same line: the product and the signature. */
  function LineKey(l: LineItem): (string, string) {
    (l.productId, Signature(l.modifiers))
  }

  /** No two lines of a sale share product and modifier set. */
  predicate DistinctLines(items: seq<LineItem>) {
    DistinctBy(items, LineKey)
  }

  // ---------------------------------------------------------------------
  // Adding a product

  /** Base price plus the price of every selected add-on. */
  function PriceWithMods(product: Product, mods: Option<seq<Addon>>): int {
    product.priceCents + SumOf(mods.GetOr([]), AddonPrice)
  }

  /** The line a product makes when nothing matches it yet. */
  function NewLine(product: Product, mods: Option<seq<Addon>>, lineId: string): LineItem {
    LineItem(lineId, product.id, product.name, PriceWithMods(product, mods), 1,
             if mods.Some? && |mods.value| > 0 then mods else None)
  }

  /** The first line for the same product and signature gets one more
      unit; without one, a new line is appended. */
  function Upsert(items: seq<LineItem>, product: Product, mods: Option<seq<Addon>>, lineId: string): seq<LineItem> {
    match FindKey(items, LineKey, (product.id, Signature(mods)))
    case None => items + [NewLine(product, mods, lineId)]
    case Some(i) => items[i := Bumped(items[i])]
  }

  lemma NewLineKey(product: Product, mods: Option<seq<Addon>>, lineId: string)
    ensures LineKey(NewLine(product, mods, lineId)) == (product.id, Signature(mods))
  {
  }

  /** Adding a product that already has a line (the first one with that
      product and signature is line `i`) raises only that line's quantity,
      by one; its price and every other line stay as they were. */
  lemma {:induction false} AddMatchingProduct(items: seq<LineItem>, product: Product, mods: Option<seq<Addon>>, lineId: string, i: nat)
    requires i < |items| && LineKey(items[i]) == (product.id, Signature(mods))
    requires forall j :: 0 <= j < i ==> LineKey(items[j]) != (product.id, Signature(mods))
    ensures var r := Upsert(items, product, mods, lineId);
      && |r| == |items|
      && r[i].qty == items[i].qty + 1
      && r[i] == items[i].(qty := r[i].qty)
      && forall j :: 0 <= j < |items| && j != i ==> r[j] == items[j]
  {
    var found := FindKey(items, LineKey, (product.id, Signature(mods)));
    assert items[i] in items;
    assert found == Some(i);
  }

  /** Adding a product without a matching line appends exactly one line,
      at the end, for one unit at the base price plus the add-on prices;
      the modifier list is kept only when it is non-empty. */
  lemma AddNewProduct(items: seq<LineItem>, product: Product, mods: Option<seq<Addon>>, lineId: string)
    requires forall l :: l in items ==> LineKey(l) != (product.id, Signature(mods))
    ensures var r := Upsert(items, product, mods, lineId);
      && |r| == |items| + 1
      && r[..|items|] == items
      && r[|items|].id == lineId
      && r[|items|].productId == product.id
      && r[|items|].name == product.name
      && r[|items|].qty == 1
      && r[|items|].unitPriceCents == product.priceCents + SumOf(mods.GetOr([]), AddonPrice)
      && (r[|items|].modifiers.Some? <==> mods.Some? && mods.value != [])
      && (r[|items|].modifiers.Some? ==> r[|items|].modifiers == mods)
  {
    assert FindKey(items, LineKey, (product.id, Signature(mods))).None?;
    var r := Upsert(items, product, mods, lineId);
    assert r == items + [NewLine(product, mods, lineId)];
  }

  /** Adding a product keeps lines distinct, and afterwards the product
      with that modifier set has a line. */
  lemma {:induction false} UpsertKeepsDistinct(items: seq<LineItem>, product: Product, mods: Option<seq<Addon>>, lineId: string)
    requires DistinctLines(items)
    ensures DistinctLines(Upsert(items, product, mods, lineId))
    ensures exists l :: l in Upsert(items, product, mods, lineId) && LineKey(l) == (product.id, Signature(mods))
  {
    var key := (product.id, Signature(mods));
    var r := Upsert(items, product, mods, lineId);
    match FindKey(items, LineKey, key)
    case None =>
      var n := NewLine(product, mods, lineId);
      assert LineKey(n) == key;
      assert r == items + [n];
      forall i, j | 0 <= i < j < |r| ensures LineKey(r[i]) != LineKey(r[j]) {
        if j == |items| {
          assert r[i] == items[i] && items[i] in items;
        } else {
          assert r[i] == items[i] && r[j] == items[j];
        }
      }
      assert r[|items|] == n;
    case Some(k) =>
      assert forall j :: 0 <= j < |r| ==> LineKey(r[j]) == LineKey(items[j]);
      assert r[k] in r;
  }

  // ---------------------------------------------------------------------
  // Totals

  function ItemCount(items: seq<LineItem>): int {
    SumOf(items, LineQty)
  }

  function Subtotal(items: seq<LineItem>): int {
    SumOf(items, LineAmount)
  }

  /** `Math.round(subtotal * taxRateBps / 10000)`: the nearest whole cent,
      a half cent rounding up. */
  function TaxCents(subtotal: int, taxRateBps: int): (r: int)
    ensures 10000 * r - 5000 <= subtotal * taxRateBps < 10000 * r + 5000
  {
    (subtotal * taxRateBps + 5000) / 10000
  }

  function TotalCents(items: seq<LineItem>, taxRateBps: int): int {
    Subtotal(items) + TaxCents(Subtotal(items), taxRateBps)
  }

  /** The line one more unit of a product turns line `l` into. */
  function Bumped(l: LineItem): LineItem {
    l.(qty := l.qty + 1)
  }

  /** Upsert, case by case: the line appended or the line bumped. */
  lemma UpsertCases(items: seq<LineItem>, product: Product, mods: Option<seq<Addon>>, lineId: string)
    ensures var found := FindKey(items, LineKey, (product.id, Signature(mods)));
      && (found.None? ==> Upsert(items, product, mods, lineId) == items + [NewLine(product, mods, lineId)])
      && (found.Some? ==> Upsert(items, product, mods, lineId) == items[found.value := Bumped(items[found.value])])
  {
  }

  /** Totals after appending one line. */
  lemma TotalsAppend(items: seq<LineItem>, n: LineItem)
    ensures ItemCount(items + [n]) == ItemCount(items) + n.qty
    ensures Subtotal(items + [n]) == Subtotal(items) + n.unitPriceCents * n.qty
  {
    SumAppend(items, [n], LineQty);
    SumAppend(items, [n], LineAmount);
    assert [n][..0] == [];
  }

  /** Totals after one more unit on line `i`. */
  lemma TotalsBump(items: seq<LineItem>, i: nat)
    requires i < |items|
    ensures ItemCount(items[i := Bumped(items[i])]) == ItemCount(items) + 1
    ensures Subtotal(items[i := Bumped(items[i])]) == Subtotal(items) + items[i].unitPriceCents
  {
    SumUpdate(items, i, Bumped(items[i]), LineQty);
    SumUpdate(items, i, Bumped(items[i]), LineAmount);
  }

  /** Adding a product adds exactly one unit to the item count, and the
      unit price of the line it lands on to the subtotal. */
  lemma UpsertTotals(items: seq<LineItem>, product: Product, mods: Option<seq<Addon>>, lineId: string)
    ensures var r := Upsert(items, product, mods, lineId);
      && ItemCount(r) == ItemCount(items) + 1
      && Subtotal(r) == Subtotal(items) +
           match FindKey(items, LineKey, (product.id, Signature(mods)))
           case None => PriceWithMods(product, mods)
           case Some(i) => items[i].unitPriceCents
  {
    UpsertCases(items, product, mods, lineId);
    var found := FindKey(items, LineKey, (product.id, Signature(mods)));
    if found.None? {
      TotalsAppend(items, NewLine(product, mods, lineId));
    } else {
      TotalsBump(items, found.value);
    }
  }

  /** A worked sale: a 5.00 product with a 1.50 add-on, added twice,
      makes one line of two units at 6.50; at the default 8% the tax on
      13.00 is 1.04 and the total 14.04. */
  lemma TwoAddsExample()
    ensures var a := Addon("a1", "Oat milk", 150);
      var p := Product("p1", "Latte", "LAT", 500, Some("Coffee"), Some([a]));
      var items := Upsert(Upsert([], p, Some([a]), "l1"), p, Some([a]), "l2");
      && items == [LineItem("l1", "p1", "Latte", 650, 2, Some([a]))]
      && Subtotal(items) == 1300
      && TaxCents(1300, 800) == 104
      && TotalCents(items, 800) == 1404
  {
    var a := Addon("a1", "Oat milk", 150);
    var p := Product("p1", "Latte", "LAT", 500, Some("Coffee"), Some([a]));
    var once := Upsert([], p, Some([a]), "l1");
    assert once == [LineItem("l1", "p1", "Latte", 650, 1, Some([a]))] by {
      assert SumOf([a], AddonPrice) == 150;
    }
    var twice := Upsert(once, p, Some([a]), "l2");
    assert twice == [LineItem("l1", "p1", "Latte", 650, 2, Some([a]))] by {
      assert FindKey(once, LineKey, (p.id, Signature(Some([a])))) == Some(0);
    }
    assert Subtotal(twice) == 1300 by {
      assert SumOf(twice, LineAmount) == 1300;
    }
  }

  /** The units on the lines for one product and modifier set. */
  function QtyFor(items: seq<LineItem>, key: (string, string)): int {
    SumOf(Only(items, LineKey, key), LineQty)
  }

  lemma QtyForAppend(items: seq<LineItem>, n: LineItem, key: (string, string))
    ensures QtyFor(items + [n], key) == QtyFor(items, key) + if LineKey(n) == key then n.qty else 0
  {
    SumOnlySnoc(items, n, LineKey, key, LineQty);
  }

  lemma QtyForBump(items: seq<LineItem>, i: nat, key: (string, string))
    requires i < |items|
    ensures QtyFor(items[i := Bumped(items[i])], key) == QtyFor(items, key) + if LineKey(items[i]) == key then 1 else 0
  {
    assert LineKey(Bumped(items[i])) == LineKey(items[i]);
    SumOnlyUpdate(items, i, Bumped(items[i]), LineKey, key, LineQty);
  }

  /** Adding a product adds one unit for its product and modifier set and
      none for any other. */
  lemma UpsertQtyFor(items: seq<LineItem>, product: Product, mods: Option<seq<Addon>>, lineId: string, key: (string, string))
    ensures QtyFor(Upsert(items, product, mods, lineId), key) ==
            QtyFor(items, key) + if key == (product.id, Signature(mods)) then 1 else 0
  {
    UpsertCases(items, product, mods, lineId);
    var found := FindKey(items, LineKey, (product.id, Signature(mods)));
    if found.None? {
      NewLineKey(product, mods, lineId);
      QtyForAppend(items, NewLine(product, mods, lineId), key);
    } else {
      QtyForBump(items, found.value, key);
    }
  }

  /** Adding the same product with the same modifiers once per id in
      `lineIds`, in turn. */
  function AddRepeatedly(items: seq<LineItem>, product: Product, mods: Option<seq<Addon>>, lineIds: seq<string>): seq<LineItem>
    decreases |lineIds|
  {
    if lineIds == [] then items
    else AddRepeatedly(Upsert(items, product, mods, lineIds[0]), product, mods, lineIds[1..])
  }

  lemma {:induction false} AddRepeatedlyInvariant(items: seq<LineItem>, product: Product, mods: Option<seq<Addon>>, lineIds: seq<string>)
    requires DistinctLines(items)
    ensures DistinctLines(AddRepeatedly(items, product, mods, lineIds))
    ensures QtyFor(AddRepeatedly(items, product, mods, lineIds), (product.id, Signature(mods))) ==
            QtyFor(items, (product.id, Signature(mods))) + |lineIds|
    ensures lineIds != [] ==> exists l :: l in AddRepeatedly(items, product, mods, lineIds) && LineKey(l) == (product.id, Signature(mods))
    decreases |lineIds|
  {
    if lineIds != [] {
      var next := Upsert(items, product, mods, lineIds[0]);
      UpsertKeepsDistinct(items, product, mods, lineIds[0]);
      UpsertQtyFor(items, product, mods, lineIds[0], (product.id, Signature(mods)));
      AddRepeatedlyInvariant(next, product, mods, lineIds[1..]);
      if lineIds[1..] == [] {
        assert AddRepeatedly(items, product, mods, lineIds) == next;
      }
    }
  }

  /** Adding a product n times (n >= 1) to a sale without a line for it
      leaves exactly one line for it, with quantity n. */
  lemma AddRepeatedlyMerges(items: seq<LineItem>, product: Product, mods: Option<seq<Addon>>, lineIds: seq<string>)
    requires DistinctLines(items) && lineIds != []
    requires forall l :: l in items ==> LineKey(l) != (product.id, Signature(mods))
    ensures var key := (product.id, Signature(mods));
      var lines := Only(AddRepeatedly(items, product, mods, lineIds), LineKey, key);
      |lines| == 1 && lines[0].qty == |lineIds|
  {
    var key := (product.id, Signature(mods));
    var r := AddRepeatedly(items, product, mods, lineIds);
    AddRepeatedlyInvariant(items, product, mods, lineIds);
    OnlyOfDistinct(r, LineKey, key);
    var l :| l in r && LineKey(l) == key;
    assert l in Only(r, LineKey, key);
    var lines := Only(r, LineKey, key);
    assert Only(items, LineKey, key) == [];
    assert lines == [lines[0]];
    assert SumOf(lines, LineQty) == lines[0].qty by {
      assert lines[..0] == [];
    }
  }

  // ---------------------------------------------------------------------
  // Editing a quantity and removing a line

  /** Every line with id `lineId` gets quantity `qty`. */
  function WithQty(items: seq<LineItem>, lineId: string, qty: int): (r: seq<LineItem>)
    ensures |r| == |items|
    ensures forall i :: 0 <= i < |items| ==> r[i] == if items[i].id == lineId then items[i].(qty := qty) else items[i]
  {
    seq(|items|, i requires 0 <= i < |items| => if items[i].id == lineId then items[i].(qty := qty) else items[i])
  }

  /** The line items after `setLineQty(lineId, qty)`. */
  function QtyEdit(items: seq<LineItem>, lineId: string, qty: real): seq<LineItem> {
    var normalized := ClampInt(qty, 0, MaxQty);
    if normalized <= 0 then Without(items, LineId, lineId) else WithQty(items, lineId, normalized)
  }

  /** A quantity below one (after truncation toward zero) removes every
      line with that id and keeps the others in order. */
  lemma QtyEditBelowOne(items: seq<LineItem>, lineId: string, qty: real)
    requires qty < 1.0
    ensures QtyEdit(items, lineId, qty) == Without(items, LineId, lineId)
    ensures forall l :: l in QtyEdit(items, lineId, qty) <==> l in items && l.id != lineId
  {
  }

  /** A quantity of one or more sets, on the lines with that id only, the
      quantity clamped to 999; the list keeps its length and order. */
  lemma QtyEditAtLeastOne(items: seq<LineItem>, lineId: string, qty: real)
    requires 1.0 <= qty
    ensures var r := QtyEdit(items, lineId, qty);
      && |r| == |items|
      && forall i :: 0 <= i < |items| ==>
           if items[i].id == lineId
           then r[i] == items[i].(qty := r[i].qty) && 1 <= r[i].qty <= MaxQty
                && (qty < 1000.0 ==> r[i].qty == Trunc(qty))
                && (1000.0 <= qty ==> r[i].qty == MaxQty)
           else r[i] == items[i]
  {
    assert 1 <= Trunc(qty);
    if 1000.0 <= qty {
      assert 1000 <= Trunc(qty);
    }
  }

  /** The examples of a quantity of 1000 and of -5. */
  lemma QtyEditExamples(items: seq<LineItem>, lineId: string)
    ensures QtyEdit(items, lineId, 1000.0) == WithQty(items, lineId, 999)
    ensures QtyEdit(items, lineId, -5.0) == Without(items, LineId, lineId)
    ensures QtyEdit(items, lineId, 0.0) == Without(items, LineId, lineId)
  {
  }

  /** An unknown line id leaves the items as they are, whatever the quantity. */
  lemma QtyEditUnknownLine(items: seq<LineItem>, lineId: string, qty: real)
    requires forall l :: l in items ==> l.id != lineId
    ensures QtyEdit(items, lineId, qty) == items
  {
    var r := WithQty(items, lineId, ClampInt(qty, 0, MaxQty));
    assert forall i :: 0 <= i < |items| ==> items[i] in items;
    assert r == items;
  }

  /** Editing a quantity keeps lines distinct. */
  lemma QtyEditKeepsDistinct(items: seq<LineItem>, lineId: string, qty: real)
    requires DistinctLines(items)
    ensures DistinctLines(QtyEdit(items, lineId, qty))
  {
    if ClampInt(qty, 0, MaxQty) <= 0 {
      WithoutKeepsDistinct(items, LineId, lineId, LineKey);
    } else {
      var r := WithQty(items, lineId, ClampInt(qty, 0, MaxQty));
      assert forall i :: 0 <= i < |r| ==> LineKey(r[i]) == LineKey(items[i]);
    }
  }

  // ---------------------------------------------------------------------
  // Sale lifecycle

  function CreateSale(saleId: string, time: int): Sale {
    Sale(saleId, Draft, time, time, [], None, None)
  }

  function Touch(sale: Sale, time: int): Sale {
    sale.(updatedAt := time)
  }

  /** The sale stamped paid, with its payment. */
  function Settle(sale: Sale, paymentMethod: PaymentMethod, amountCents: int, time: int): Sale {
    sale.(updatedAt := time, status := Paid, payment := Some(Payment(paymentMethod, amountCents, time)))
  }

  /** `[paid, ...history].slice(0, 50)`: the new sale first, then as many
      of the earlier ones, most recent first, as fit under the cap. */
  function RecordPaid(history: seq<Sale>, paid: Sale): (r: seq<Sale>)
    ensures 1 <= |r| <= HistoryLimit
    ensures |r| == if |history| < HistoryLimit then |history| + 1 else HistoryLimit
    ensures r[0] == paid
    ensures r[1..] == history[..|r| - 1]
  {
    var all := [paid] + history;
    all[..if |all| < HistoryLimit then |all| else HistoryLimit]
  }

  /** With a full history, recording a payment evicts the oldest entry. */
  lemma RecordPaidEvictsOldest(history: seq<Sale>, paid: Sale)
    requires |history| == HistoryLimit
    ensures RecordPaid(history, paid) == [paid] + history[..HistoryLimit - 1]
  {
  }
}
