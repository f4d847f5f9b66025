/** The point-of-sale store: the active sale, the parked drafts and the
    paid history, with the actions that replace them. Fresh ids and the
    current time come in as parameters. Persisting is modelled as the last
    snapshot written (`saved`), written only once the store is hydrated. */
module PosStore {
  import opened Types
  import opened Lists
  import opened SaleLogic

  const DefaultTaxRateBps := 800
  const SnapshotVersion := 1

  /** The persisted shape of the store. */
  datatype Snapshot = Snapshot(version: int, activeSale: Option<Sale>, drafts: seq<Sale>, history: seq<Sale>)

  /** A sale that can still change: a draft without payment whose lines are distinct. */
  predicate IsOpen(s: Sale) {
    s.status == Draft && s.payment.None? && DistinctLines(s.items)
  }

  /** A sale in the history: paid, with its payment. */
  predicate IsSettled(s: Sale) {
    s.status == Paid && s.payment.Some?
  }

  class PosStore {
    var activeSale: Sale
    var drafts: seq<Sale>
    var history: seq<Sale>
    const taxRateBps: int
    var hydrated: bool
    var saved: Option<Snapshot>

    /** The lifecycle invariant: the active sale and every draft are open,
        every history entry is settled, and the history is within its cap. */
    ghost predicate Valid()
      reads this
    {
      && IsOpen(activeSale)
      && (forall s :: s in drafts ==> IsOpen(s))
      && (forall s :: s in history ==> IsSettled(s))
      && |history| <= HistoryLimit
    }

    function CurrentSnapshot(): Snapshot
      reads this
    {
      Snapshot(SnapshotVersion, Some(activeSale), drafts, history)
    }

    /** Starts from the persisted snapshot when there is one, taking each
        part that is missing from it fresh. */
    constructor (persisted: Option<Snapshot>, saleId: string, time: int)
      ensures activeSale == if persisted.Some? && persisted.value.activeSale.Some?
                            then persisted.value.activeSale.value else CreateSale(saleId, time)
      ensures drafts == if persisted.Some? then persisted.value.drafts else []
      ensures history == if persisted.Some? then persisted.value.history else []
      ensures taxRateBps == DefaultTaxRateBps && hydrated && saved.None?
      ensures persisted.None? ==> Valid()
    {
      activeSale := if persisted.Some? && persisted.value.activeSale.Some?
                    then persisted.value.activeSale.value else CreateSale(saleId, time);
      drafts := if persisted.Some? then persisted.value.drafts else [];
      history := if persisted.Some? then persisted.value.history else [];
      taxRateBps := DefaultTaxRateBps;
      hydrated := true;
      saved := None;
    }

    // Getters

    function ActiveItemCount(): int
      reads this
    {
      ItemCount(activeSale.items)
    }

    function ActiveSubtotalCents(): int
      reads this
    {
      Subtotal(activeSale.items)
    }

    function ActiveTaxCents(): (r: int)
      reads this
      ensures 10000 * r - 5000 <= ActiveSubtotalCents() * taxRateBps < 10000 * r + 5000
    {
      TaxCents(ActiveSubtotalCents(), taxRateBps)
    }

    /** The subtotal plus the tax, so within half a cent of the subtotal
        with the exact tax added. */
    function ActiveTotalCents(): (r: int)
      reads this
      ensures 10000 * (r - ActiveSubtotalCents()) - 5000 <= ActiveSubtotalCents() * taxRateBps
      ensures ActiveSubtotalCents() * taxRateBps < 10000 * (r - ActiveSubtotalCents()) + 5000
    {
      ActiveSubtotalCents() + ActiveTaxCents()
    }

    // Actions

    /** `_persist`: records the current state, unless not yet hydrated. */
    method Persist()
      modifies this
      ensures saved == if hydrated then Some(CurrentSnapshot()) else old(saved)
      ensures activeSale == old(activeSale) && drafts == old(drafts) && history == old(history)
      ensures hydrated == old(hydrated)
    {
      if !hydrated {
        return;
      }
      saved := Some(Snapshot(SnapshotVersion, Some(activeSale), drafts, history));
    }

    method NewSale(saleId: string, time: int)
      modifies this
      ensures activeSale == CreateSale(saleId, time)
      ensures drafts == old(drafts) && history == old(history) && hydrated == old(hydrated)
      ensures saved == if hydrated then Some(CurrentSnapshot()) else old(saved)
      ensures old(Valid()) ==> Valid()
    {
      activeSale := CreateSale(saleId, time);
      Persist();
    }

    method AddProduct(product: Product, mods: Option<seq<Addon>>, lineId: string, time: int)
      modifies this
      ensures activeSale == Touch(old(activeSale).(items := Upsert(old(activeSale.items), product, mods, lineId)), time)
      ensures ActiveItemCount() == old(ActiveItemCount()) + 1
      ensures drafts == old(drafts) && history == old(history) && hydrated == old(hydrated)
      ensures saved == if hydrated then Some(CurrentSnapshot()) else old(saved)
      ensures old(Valid()) ==> Valid()
    {
      UpsertTotals(activeSale.items, product, mods, lineId);
      if Valid() {
        UpsertKeepsDistinct(activeSale.items, product, mods, lineId);
      }
      activeSale := Touch(activeSale.(items := Upsert(activeSale.items, product, mods, lineId)), time);
      Persist();
    }

    method SetLineQty(lineId: string, qty: real, time: int)
      modifies this
      ensures activeSale == Touch(old(activeSale).(items := QtyEdit(old(activeSale.items), lineId, qty)), time)
      ensures drafts == old(drafts) && history == old(history) && hydrated == old(hydrated)
      ensures saved == if hydrated then Some(CurrentSnapshot()) else old(saved)
      ensures old(Valid()) ==> Valid()
    {
      if Valid() {
        QtyEditKeepsDistinct(activeSale.items, lineId, qty);
      }
      activeSale := Touch(activeSale.(items := QtyEdit(activeSale.items, lineId, qty)), time);
      Persist();
    }

    method RemoveLine(lineId: string, time: int)
      modifies this
      ensures activeSale == Touch(old(activeSale).(items := Without(old(activeSale.items), LineId, lineId)), time)
      ensures drafts == old(drafts) && history == old(history) && hydrated == old(hydrated)
      ensures saved == if hydrated then Some(CurrentSnapshot()) else old(saved)
      ensures old(Valid()) ==> Valid()
    {
      if Valid() {
        WithoutKeepsDistinct(activeSale.items, LineId, lineId, LineKey);
      }
      activeSale := Touch(activeSale.(items := Without(activeSale.items, LineId, lineId)), time);
      Persist();
    }

    /** Parks a non-empty active sale at the head of the drafts and starts a
        fresh one; an empty active sale changes nothing, not even `saved`. */
    method ParkActiveSale(saleId: string, time: int)
      modifies this
      ensures old(activeSale.items) == [] ==>
        activeSale == old(activeSale) && drafts == old(drafts) && saved == old(saved)
      ensures old(activeSale.items) != [] ==>
        && drafts == [Touch(old(activeSale), time)] + old(drafts)
        && |drafts| == |old(drafts)| + 1
        && drafts[0].id == old(activeSale.id) && drafts[0].items == old(activeSale.items)
        && activeSale == CreateSale(saleId, time) && activeSale.items == []
        && saved == (if hydrated then Some(CurrentSnapshot()) else old(saved))
      ensures history == old(history) && hydrated == old(hydrated)
      ensures old(Valid()) ==> Valid()
    {
      if |activeSale.items| == 0 {
        return;
      }
      drafts := [Touch(activeSale, time)] + drafts;
      activeSale := CreateSale(saleId, time);
      Persist();
    }

    /** Makes the first draft with id `saleId` the active sale, dropping
        every draft with that id and the previous active sale; an unknown
        id changes nothing. */
    method ResumeDraft(saleId: string, time: int)
      modifies this
      ensures (forall s :: s in old(drafts) ==> s.id != saleId) ==>
        activeSale == old(activeSale) && drafts == old(drafts) && saved == old(saved)
      ensures (exists s :: s in old(drafts) && s.id == saleId) ==>
        && activeSale.id == saleId
        && activeSale == Touch(old(drafts)[FindKey(old(drafts), SaleId, saleId).value], time)
        && drafts == Without(old(drafts), SaleId, saleId)
        && |drafts| < |old(drafts)|
        && saved == (if hydrated then Some(CurrentSnapshot()) else old(saved))
      ensures history == old(history) && hydrated == old(hydrated)
      ensures old(Valid()) ==> Valid()
    {
      var idx := FindKey(drafts, SaleId, saleId);
      if idx.None? {
        return;
      }
      var sale := drafts[idx.value];
      ghost var wasValid := Valid();
      assert wasValid ==> IsOpen(Touch(sale, time)) by {
        assert sale in drafts;
      }
      drafts := Without(drafts, SaleId, saleId);
      activeSale := Touch(sale, time);
      assert wasValid ==> Valid();
      Persist();
    }

    method DeleteDraft(saleId: string)
      modifies this
      ensures drafts == Without(old(drafts), SaleId, saleId)
      ensures activeSale == old(activeSale) && history == old(history) && hydrated == old(hydrated)
      ensures saved == if hydrated then Some(CurrentSnapshot()) else old(saved)
      ensures old(Valid()) ==> Valid()
    {
      drafts := Without(drafts, SaleId, saleId);
      Persist();
    }

    /** Settles a non-empty active sale for its total, puts it at the head of
        the capped history and starts a fresh sale; an empty active sale
        changes nothing. */
    method PayActiveSale(paymentMethod: PaymentMethod, saleId: string, time: int)
      modifies this
      ensures old(activeSale.items) == [] ==>
        activeSale == old(activeSale) && history == old(history) && saved == old(saved)
      ensures old(activeSale.items) != [] ==>
        && history == RecordPaid(old(history), Settle(old(activeSale), paymentMethod, old(ActiveTotalCents()), time))
        && history[0].status == Paid
        && history[0].payment == Some(Payment(paymentMethod, old(ActiveTotalCents()), time))
        && history[0].id == old(activeSale.id)
        && history[0].items == old(activeSale.items)
        && |history| <= HistoryLimit
        && history[1..] == old(history)[..|history| - 1]
        && activeSale == CreateSale(saleId, time) && activeSale.items == []
        && saved == (if hydrated then Some(CurrentSnapshot()) else old(saved))
      ensures drafts == old(drafts) && hydrated == old(hydrated)
      ensures old(Valid()) ==> Valid()
    {
      if |activeSale.items| == 0 {
        return;
      }
      var paid := Settle(activeSale, paymentMethod, ActiveTotalCents(), time);
      ghost var before := history;
      history := RecordPaid(history, paid);
      assert forall s :: s in history[1..] ==> s in before;
      assert forall s :: s in history ==> s == paid || s in history[1..];
      activeSale := CreateSale(saleId, time);
      Persist();
    }

    method ClearAllData(saleId: string, time: int)
      modifies this
      ensures activeSale == CreateSale(saleId, time) && drafts == [] && history == []
      ensures hydrated == old(hydrated)
      ensures saved == if hydrated then Some(CurrentSnapshot()) else old(saved)
      ensures Valid()
    {
      activeSale := CreateSale(saleId, time);
      drafts := [];
      history := [];
      Persist();
    }
  }
}
