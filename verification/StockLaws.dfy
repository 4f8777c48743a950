/** When stock can be moved, and what a movement leaves on the shelf, in the ledger and with the work order. */
module StockLaws {
  import opened Outcomes
  import opened Tenants
  import opened Stock

  /** The largest quantity a column holds. */
  const MOST := 2_147_483_647

  predicate Storable(k: int) {
    -2_147_483_648 <= k <= 2_147_483_647
  }

  predicate Known<Id>(rows: map<Id, TenantId>, id: Id, tenant: TenantId) {
    id in rows && rows[id] == tenant
  }

  predicate Placed(c: Catalog, shelf: Shelf) {
    Known(c.warehouses, shelf.warehouse, shelf.tenant) && Known(c.materials, shelf.material, shelf.tenant)
  }

  /** One shelf has a new quantity, and no other changes. */
  predicate OnlyMoves(before: map<Shelf, int>, after: map<Shelf, int>, shelf: Shelf, quantity: int) {
    && after.Keys == before.Keys + {shelf} && after[shelf] == quantity
    && forall x | x in before && x != shelf :: after[x] == before[x]
  }

  lemma Whole(k: int)
    ensures (k as real).Floor == k
  {
  }

  // ------------------------------------------------------------ imports, exports

  /** Whatever is on the shelf can be taken out, down to nothing, and no more. */
  lemma ExportLaw(c: Catalog, b: Books, shelf: Shelf, k: int, reference: Option<WorkOrderId>)
    requires InRange(b.stock) && k >= 1
    ensures var r := Execution(c, b, shelf, Export, k as real, reference);
            && (r.Ok? <==> Placed(c, shelf) && shelf in b.stock && k <= b.stock[shelf])
            && (r.Ok? ==>
                  && OnlyMoves(b.stock, r.value.stock, shelf, b.stock[shelf] - k)
                  && r.value.ledger == b.ledger + [Movement(shelf, Export, k, reference)] && r.value.held == b.held)
            && (Placed(c, shelf) && shelf !in b.stock ==> r == Err(EmptyInventory))
            && (Placed(c, shelf) && shelf in b.stock && k > b.stock[shelf] ==> r == Err(Insufficient))
  {
    Whole(k);
    if shelf in b.stock {
      Whole(b.stock[shelf] - k);
      assert b.stock[shelf] as real - k as real == (b.stock[shelf] - k) as real;
    }
  }

  /** An import adds to what is there, as far as the column holds it. */
  lemma ImportLaw(c: Catalog, b: Books, shelf: Shelf, k: int, reference: Option<WorkOrderId>)
    ensures var r, there := Execution(c, b, shelf, Import, k as real, reference), if shelf in b.stock then b.stock[shelf] else 0;
            && (r.Ok? <==> Placed(c, shelf) && Storable(k) && Storable(there + k))
            && (r.Ok? ==>
                  && OnlyMoves(b.stock, r.value.stock, shelf, there + k)
                  && r.value.ledger == b.ledger + [Movement(shelf, Import, k, reference)] && r.value.held == b.held)
            && (r.Err? && Placed(c, shelf) ==> r == Err(NotInColumn))
  {
    var there := if shelf in b.stock then b.stock[shelf] else 0;
    Whole(k);
    Whole(there + k);
    assert there as real + k as real == (there + k) as real;
  }

  /** Neither happens for a warehouse or a material that is not the tenant's, or for a part of a piece. */
  lemma MovementRefused(c: Catalog, b: Books, shelf: Shelf, direction: Direction, quantity: real, reference: Option<WorkOrderId>)
    ensures var r := Execution(c, b, shelf, direction, quantity, reference);
            && (!Known(c.warehouses, shelf.warehouse, shelf.tenant) ==> r == Err(WarehouseNotFound))
            && (Known(c.warehouses, shelf.warehouse, shelf.tenant) && !Known(c.materials, shelf.material, shelf.tenant) ==>
                  r == Err(MaterialNotFound))
            && (quantity.Floor as real != quantity ==> r.Err?)
  {
  }

  // ------------------------------------------------------------------ work orders

  /** `row` is what the work order has from the shelf, or says that it has nothing. */
  predicate Has(held: seq<Holding>, workOrder: WorkOrderId, shelf: Shelf, row: Option<nat>) {
    if row.Some? then row.value < |held| && held[row.value].workOrder == workOrder && held[row.value].shelf == shelf
    else forall h | h in held :: !(h.workOrder == workOrder && h.shelf == shelf)
  }

  lemma {:induction false} RowFound(held: seq<Holding>, workOrder: WorkOrderId, shelf: Shelf, row: Option<nat>)
    requires OneRowEach(held) && Has(held, workOrder, shelf, row)
    ensures FindHolding(held, workOrder, shelf) == row
  {
    var found := FindHolding(held, workOrder, shelf);
    if found.None? {
      NotFoundNowhere(held, workOrder, shelf);
    } else {
      assert held[found.value] in held;
    }
    hide FindHolding;
  }

  /** A work order takes a whole positive number of pieces out of what is on the shelf; what it has grows by as many. */
  lemma TakingLaw(c: Catalog, b: Books, tenant: TenantId, workOrder: WorkOrderId, material: MaterialId, warehouse: WarehouseId,
                  k: int, row: Option<nat>)
    requires OneRowEach(b.held) && Has(b.held, workOrder, Shelf(tenant, warehouse, material), row)
    ensures var r, shelf := Addition(c, b, tenant, workOrder, material, warehouse, k as real), Shelf(tenant, warehouse, material);
            var had := if row.Some? then b.held[row.value].quantity else 0;
            var there := k >= 1 && Known(c.workOrders, workOrder, tenant) && shelf in b.stock && k <= b.stock[shelf];
            && (r.Ok? <==> there && k <= MOST && had + k <= MOST)
            && (there && had + k > MOST ==> r == Err(NotInColumn))
            && (r.Ok? ==>
                  && OnlyMoves(b.stock, r.value.stock, shelf, b.stock[shelf] - k)
                  && r.value.ledger == b.ledger + [Movement(shelf, Export, k, Some(workOrder))]
                  && (row.None? ==> r.value.held == b.held + [Holding(workOrder, shelf, k)])
                  && (row.Some? ==> r.value.held == b.held[row.value := Holding(workOrder, shelf, had + k)]))
  {
    RowFound(b.held, workOrder, Shelf(tenant, warehouse, material), row);
    hide FindHolding;
    Whole(k);
  }

  /** What is wrong is found in this order: the quantity, the work order, the stock. */
  lemma TakingRefused(c: Catalog, b: Books, tenant: TenantId, workOrder: WorkOrderId, material: MaterialId, warehouse: WarehouseId,
                      quantity: real)
    ensures var r, shelf := Addition(c, b, tenant, workOrder, material, warehouse, quantity), Shelf(tenant, warehouse, material);
            var proper := quantity > 0.0 && quantity.Floor as real == quantity;
            && (!proper ==> r == Err(NotPositiveInteger))
            && (proper && !Known(c.workOrders, workOrder, tenant) ==> r == Err(WorkOrderNotFound))
            && (proper && Known(c.workOrders, workOrder, tenant) && !(shelf in b.stock && b.stock[shelf] as real >= quantity) ==>
                  r == Err(Insufficient))
  {
    hide FindHolding;
  }

  /** Bringing back gives the shelf everything the work order has of it. */
  lemma BringingBackLaw(c: Catalog, b: Books, tenant: TenantId, workOrder: WorkOrderId, material: MaterialId, warehouse: WarehouseId,
                        row: Option<nat>)
    requires OneRowEach(b.held) && Has(b.held, workOrder, Shelf(tenant, warehouse, material), row)
    requires row.Some? ==> Shelf(tenant, warehouse, material) in b.stock
    ensures var r, shelf := Removal(c, b, tenant, workOrder, material, warehouse), Shelf(tenant, warehouse, material);
            && (r.Ok? <==>
                  Known(c.workOrders, workOrder, tenant) && row.Some? && b.stock[shelf] + b.held[row.value].quantity <= MOST)
            && (r.Ok? ==>
                  && OnlyMoves(b.stock, r.value.stock, shelf, b.stock[shelf] + b.held[row.value].quantity)
                  && r.value.ledger == b.ledger + [Movement(shelf, Import, b.held[row.value].quantity, Some(workOrder))]
                  && r.value.held == b.held[..row.value] + b.held[row.value + 1..])
            && (!Known(c.workOrders, workOrder, tenant) ==> r == Err(WorkOrderNotFound))
            && (Known(c.workOrders, workOrder, tenant) && row.None? ==> r == Err(NotHeld))
            && (Known(c.workOrders, workOrder, tenant) && row.Some? && r.Err? ==> r == Err(NotInColumn))
  {
    RowFound(b.held, workOrder, Shelf(tenant, warehouse, material), row);
    hide FindHolding;
  }
}
