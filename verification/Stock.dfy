/** Stock movements: imports and exports, and the materials that work orders take out and bring back. */
module Stock {
  import opened Outcomes
  import opened Tenants

  type WarehouseId = string

  type MaterialId = string

  type WorkOrderId = string

  /** Where one material of one tenant lies in one warehouse. */
  datatype Shelf = Shelf(tenant: TenantId, warehouse: WarehouseId, material: MaterialId)

  datatype Direction = Import | Export

  datatype Movement = Movement(shelf: Shelf, direction: Direction, quantity: int, reference: Option<WorkOrderId>)

  /** A row of the work order's materials. */
  datatype Holding = Holding(workOrder: WorkOrderId, shelf: Shelf, quantity: int)

  datatype Books = Books(stock: map<Shelf, int>, ledger: seq<Movement>, held: seq<Holding>)

  /** The rows that the stock operations look up and never change. */
  datatype Catalog = Catalog(
    warehouses: map<WarehouseId, TenantId>, materials: map<MaterialId, TenantId>, workOrders: map<WorkOrderId, TenantId>)

  datatype Failure =
    | WarehouseNotFound | MaterialNotFound | EmptyInventory | Insufficient | NotInColumn
    | NotPositiveInteger | WorkOrderNotFound | NotHeld

  datatype Command =
    | Execute(shelf: Shelf, direction: Direction, quantity: real, reference: Option<WorkOrderId>)
    | Add(tenant: TenantId, workOrder: WorkOrderId, material: MaterialId, warehouse: WarehouseId, quantity: real)
    | Remove(tenant: TenantId, workOrder: WorkOrderId, material: MaterialId, warehouse: WarehouseId)

  /** Quantities live in 32-bit integer columns; the store refuses what does not fit. */
  const MAX_INT := 0x7FFF_FFFF

  predicate IsInteger(q: real) {
    q == q.Floor as real
  }

  predicate InColumn(q: real) {
    IsInteger(q) && -MAX_INT - 1 <= q.Floor <= MAX_INT
  }

  // --------------------------------------------------------------- operations

  function OnShelf(books: Books, shelf: Shelf): int {
    if shelf in books.stock then books.stock[shelf] else 0
  }

  function Signed(direction: Direction, quantity: int): int {
    if direction.Import? then quantity else -quantity
  }

  function Execution(c: Catalog, b: Books, shelf: Shelf, direction: Direction, quantity: real, reference: Option<WorkOrderId>)
    : Result<Books, Failure>
  {
    if !Belongs(c.warehouses, shelf.warehouse, shelf.tenant) then Err(WarehouseNotFound)
    else if !Belongs(c.materials, shelf.material, shelf.tenant) then Err(MaterialNotFound)
    else if shelf !in b.stock && direction.Export? then Err(EmptyInventory)
    else if direction.Export? && OnShelf(b, shelf) as real < quantity then Err(Insufficient)
    else
      var after := OnShelf(b, shelf) as real + if direction.Import? then quantity else -quantity;
      if !InColumn(after) || !InColumn(quantity) then Err(NotInColumn)
      else Ok(Books(b.stock[shelf := after.Floor], b.ledger + [Movement(shelf, direction, quantity.Floor, reference)], b.held))
  }

  /** The row of a work order for a shelf. */
  function FindHolding(held: seq<Holding>, workOrder: WorkOrderId, shelf: Shelf): (r: Option<nat>)
    ensures r.Some? ==> r.value < |held| && held[r.value].workOrder == workOrder && held[r.value].shelf == shelf
  {
    if held == [] then None
    else
      var last := |held| - 1;
      if held[last].workOrder == workOrder && held[last].shelf == shelf then Some(last)
      else FindHolding(held[..last], workOrder, shelf)
  }

  function Without(held: seq<Holding>, i: nat): seq<Holding>
    requires i < |held|
  {
    held[..i] + held[i + 1..]
  }

  function Addition(c: Catalog, b: Books, tenant: TenantId, workOrder: WorkOrderId, material: MaterialId,
                    warehouse: WarehouseId, quantity: real): Result<Books, Failure> {
    var shelf := Shelf(tenant, warehouse, material);
    if !IsInteger(quantity) || quantity <= 0.0 then Err(NotPositiveInteger)
    else if !Belongs(c.workOrders, workOrder, tenant) then Err(WorkOrderNotFound)
    else if shelf !in b.stock || b.stock[shelf] < quantity.Floor then Err(Insufficient)
    else
      var q, at := quantity.Floor, FindHolding(b.held, workOrder, shelf);
      var kept := if at.Some? then b.held[at.value].quantity + q else q;
      if q > MAX_INT || kept > MAX_INT then Err(NotInColumn)
      else
        var row := Holding(workOrder, shelf, kept);
        Ok(Books(b.stock[shelf := b.stock[shelf] - q], b.ledger + [Movement(shelf, Export, q, Some(workOrder))],
                 if at.Some? then b.held[at.value := row] else b.held + [row]))
  }

  function Removal(c: Catalog, b: Books, tenant: TenantId, workOrder: WorkOrderId, material: MaterialId, warehouse: WarehouseId)
    : Result<Books, Failure>
  {
    var shelf := Shelf(tenant, warehouse, material);
    if !Belongs(c.workOrders, workOrder, tenant) then Err(WorkOrderNotFound)
    else
      var at := FindHolding(b.held, workOrder, shelf);
      if at.None? then Err(NotHeld)
      else
        var q := b.held[at.value].quantity;
        if shelf in b.stock && b.stock[shelf] + q > MAX_INT then Err(NotInColumn)
        else
          Ok(Books(if shelf in b.stock then b.stock[shelf := b.stock[shelf] + q] else b.stock,
                   b.ledger + [Movement(shelf, Import, q, Some(workOrder))], Without(b.held, at.value)))
  }

  function Apply(c: Catalog, b: Books, command: Command): Result<Books, Failure> {
    match command
    case Execute(shelf, direction, quantity, reference) => Execution(c, b, shelf, direction, quantity, reference)
    case Add(tenant, workOrder, material, warehouse, quantity) => Addition(c, b, tenant, workOrder, material, warehouse, quantity)
    case Remove(tenant, workOrder, material, warehouse) => Removal(c, b, tenant, workOrder, material, warehouse)
  }

  function Attempt(c: Catalog, b: Books, command: Command): Books {
    var r := Apply(c, b, command);
    if r.Ok? then r.value else b
  }

  function Run(c: Catalog, b: Books, commands: seq<Command>): Books
    decreases |commands|
  {
    if commands == [] then b else Run(c, Attempt(c, b, commands[0]), commands[1..])
  }

  const EMPTY := Books(map[], [], [])

  /** The client sends quantities of at least one; `addMaterial` checks its own. */
  predicate Proper(commands: seq<Command>) {
    forall command | command in commands && command.Execute? :: command.quantity >= 1.0
  }

  // --------------------------------------------------------------- accounting

  /** Imports less exports of a shelf, by the ledger. */
  function Net(ledger: seq<Movement>, shelf: Shelf): int {
    if ledger == [] then 0
    else
      var last := ledger[|ledger| - 1];
      Net(ledger[..|ledger| - 1], shelf) + if last.shelf == shelf then Signed(last.direction, last.quantity) else 0
  }

  /** What work orders hold of a shelf. */
  function HeldOf(held: seq<Holding>, shelf: Shelf): int {
    if held == [] then 0
    else
      var last := held[|held| - 1];
      HeldOf(held[..|held| - 1], shelf) + if last.shelf == shelf then last.quantity else 0
  }

  lemma {:induction false} HeldAppend(a: seq<Holding>, b: seq<Holding>, shelf: Shelf)
    ensures HeldOf(a + b, shelf) == HeldOf(a, shelf) + HeldOf(b, shelf)
  {
    if b == [] {
      assert a + b == a;
    } else {
      HeldAppend(a, b[..|b| - 1], shelf);
      assert (a + b)[..|a + b| - 1] == a + b[..|b| - 1];
    }
  }

  lemma HeldOne(h: Holding, shelf: Shelf)
    ensures HeldOf([h], shelf) == if h.shelf == shelf then h.quantity else 0
  {
  }

  lemma HeldReplaced(held: seq<Holding>, i: nat, h: Holding, shelf: Shelf)
    requires i < |held|
    ensures HeldOf(held[i := h], shelf) == HeldOf(Without(held, i), shelf) + HeldOf([h], shelf)
    ensures HeldOf(held, shelf) == HeldOf(Without(held, i), shelf) + HeldOf([held[i]], shelf)
  {
    assert held[i := h] == held[..i] + ([h] + held[i + 1..]);
    assert held == held[..i] + ([held[i]] + held[i + 1..]);
    HeldAppend(held[..i], [h] + held[i + 1..], shelf);
    HeldAppend([h], held[i + 1..], shelf);
    HeldAppend(held[..i], [held[i]] + held[i + 1..], shelf);
    HeldAppend([held[i]], held[i + 1..], shelf);
    HeldAppend(held[..i], held[i + 1..], shelf);
  }

  ghost predicate OneRowEach(held: seq<Holding>) {
    forall i, j | 0 <= i < j < |held| :: held[i].workOrder != held[j].workOrder || held[i].shelf != held[j].shelf
  }

  lemma WithoutKeeps(held: seq<Holding>, i: nat)
    requires i < |held| && OneRowEach(held)
    ensures OneRowEach(Without(held, i)) && forall h | h in Without(held, i) :: h in held
  {
  }

  ghost predicate InRange(stock: map<Shelf, int>) {
    forall shelf | shelf in stock :: 0 <= stock[shelf] <= MAX_INT
  }

  ghost predicate Balanced(b: Books) {
    forall shelf :: OnShelf(b, shelf) == Net(b.ledger, shelf)
  }

  ghost predicate HeldOnShelves(b: Books) {
    forall h | h in b.held :: h.shelf in b.stock && h.quantity > 0
  }

  /** Stock never goes below nothing or outgrows its column, and is what the ledger says; work orders hold positive
      quantities of shelves that exist. */
  ghost predicate Sound(b: Books) {
    InRange(b.stock) && Balanced(b) && HeldOnShelves(b) && OneRowEach(b.held)
  }

  /** A movement on the ledger and the same on the shelf keep the balance. */
  lemma BalancedNext(b: Books, b': Books, m: Movement)
    requires Balanced(b) && b'.ledger == b.ledger + [m]
    requires b'.stock == b.stock[m.shelf := OnShelf(b, m.shelf) + Signed(m.direction, m.quantity)]
    ensures Balanced(b')
  {
  }

  lemma ExecutionSound(c: Catalog, b: Books, shelf: Shelf, direction: Direction, quantity: real, reference: Option<WorkOrderId>)
    requires Sound(b) && quantity >= 1.0 && Execution(c, b, shelf, direction, quantity, reference).Ok?
    ensures Sound(Execution(c, b, shelf, direction, quantity, reference).value)
  {
    var b' := Execution(c, b, shelf, direction, quantity, reference).value;
    assert Balanced(b') by {
      hide InRange, HeldOnShelves, OneRowEach, Balanced;
      BalancedNext(b, b', Movement(shelf, direction, quantity.Floor, reference));
    }
    hide Balanced, OneRowEach;
  }

  lemma {:induction false} NotFoundNowhere(held: seq<Holding>, workOrder: WorkOrderId, shelf: Shelf)
    requires FindHolding(held, workOrder, shelf).None?
    ensures forall h | h in held :: h.workOrder != workOrder || h.shelf != shelf
  {
    if held != [] {
      var last := |held| - 1;
      NotFoundNowhere(held[..last], workOrder, shelf);
      assert forall h | h in held :: h in held[..last] || h == held[last];
    }
  }

  lemma AdditionSound(c: Catalog, b: Books, tenant: TenantId, workOrder: WorkOrderId, material: MaterialId,
                      warehouse: WarehouseId, quantity: real)
    requires Sound(b) && Addition(c, b, tenant, workOrder, material, warehouse, quantity).Ok?
    ensures Sound(Addition(c, b, tenant, workOrder, material, warehouse, quantity).value)
  {
    hide Balanced;
    var b' := Addition(c, b, tenant, workOrder, material, warehouse, quantity).value;
    var shelf := Shelf(tenant, warehouse, material);
    BalancedNext(b, b', Movement(shelf, Export, quantity.Floor, Some(workOrder)));
    if FindHolding(b.held, workOrder, shelf).None? {
      NotFoundNowhere(b.held, workOrder, shelf);
    }
  }

  lemma RemovalSound(c: Catalog, b: Books, tenant: TenantId, workOrder: WorkOrderId, material: MaterialId, warehouse: WarehouseId)
    requires Sound(b) && Removal(c, b, tenant, workOrder, material, warehouse).Ok?
    ensures Sound(Removal(c, b, tenant, workOrder, material, warehouse).value)
  {
    hide Balanced, OneRowEach, Without, FindHolding;
    var b' := Removal(c, b, tenant, workOrder, material, warehouse).value;
    var shelf := Shelf(tenant, warehouse, material);
    var at := FindHolding(b.held, workOrder, shelf).value;
    assert b.held[at] in b.held;
    WithoutKeeps(b.held, at);
    BalancedNext(b, b', Movement(shelf, Import, b.held[at].quantity, Some(workOrder)));
  }

  /** The row that `removeMaterial` tolerates to be missing is never missing. */
  lemma HeldShelfExists(b: Books, workOrder: WorkOrderId, shelf: Shelf)
    requires Sound(b) && FindHolding(b.held, workOrder, shelf).Some?
    ensures shelf in b.stock
  {
  }

  lemma AttemptSound(c: Catalog, b: Books, command: Command)
    requires Sound(b) && (command.Execute? ==> command.quantity >= 1.0)
    ensures Sound(Attempt(c, b, command))
  {
    hide Sound, Execution, Addition, Removal;
    if Apply(c, b, command).Ok? {
      match command
      case Execute(shelf, direction, quantity, reference) => ExecutionSound(c, b, shelf, direction, quantity, reference);
      case Add(tenant, workOrder, material, warehouse, quantity) =>
        AdditionSound(c, b, tenant, workOrder, material, warehouse, quantity);
      case Remove(tenant, workOrder, material, warehouse) => RemovalSound(c, b, tenant, workOrder, material, warehouse);
    }
  }

  // ------------------------------------------------------------- conservation

  /** What a shelf and the work orders have between them. */
  function Total(b: Books, shelf: Shelf): int {
    OnShelf(b, shelf) + HeldOf(b.held, shelf)
  }

  /** What one command brings in from outside or takes out. */
  function External(c: Catalog, b: Books, command: Command, shelf: Shelf): int {
    if command.Execute? && command.shelf == shelf && Apply(c, b, command).Ok?
    then Signed(command.direction, command.quantity.Floor)
    else 0
  }

  function ExternalOf(c: Catalog, b: Books, commands: seq<Command>, shelf: Shelf): int
    decreases |commands|
  {
    if commands == [] then 0
    else External(c, b, commands[0], shelf) + ExternalOf(c, Attempt(c, b, commands[0]), commands[1..], shelf)
  }

  lemma AdditionConserves(c: Catalog, b: Books, tenant: TenantId, workOrder: WorkOrderId, material: MaterialId,
                          warehouse: WarehouseId, quantity: real, shelf: Shelf)
    requires Addition(c, b, tenant, workOrder, material, warehouse, quantity).Ok?
    ensures Total(Addition(c, b, tenant, workOrder, material, warehouse, quantity).value, shelf) == Total(b, shelf)
  {
    var target := Shelf(tenant, warehouse, material);
    var at, q := FindHolding(b.held, workOrder, target), quantity.Floor;
    if at.Some? {
      var row := Holding(workOrder, target, b.held[at.value].quantity + q);
      HeldReplaced(b.held, at.value, row, shelf);
      HeldOne(row, shelf);
      HeldOne(b.held[at.value], shelf);
    } else {
      HeldAppend(b.held, [Holding(workOrder, target, q)], shelf);
      HeldOne(Holding(workOrder, target, q), shelf);
    }
  }

  lemma RemovalConserves(c: Catalog, b: Books, tenant: TenantId, workOrder: WorkOrderId, material: MaterialId,
                         warehouse: WarehouseId, shelf: Shelf)
    requires Sound(b) && Removal(c, b, tenant, workOrder, material, warehouse).Ok?
    ensures Total(Removal(c, b, tenant, workOrder, material, warehouse).value, shelf) == Total(b, shelf)
  {
    var target := Shelf(tenant, warehouse, material);
    var at := FindHolding(b.held, workOrder, target).value;
    HeldShelfExists(b, workOrder, target);
    HeldReplaced(b.held, at, b.held[at], shelf);
    HeldOne(b.held[at], shelf);
  }

  lemma AttemptConserves(c: Catalog, b: Books, command: Command, shelf: Shelf)
    requires Sound(b)
    ensures Total(Attempt(c, b, command), shelf) == Total(b, shelf) + External(c, b, command, shelf)
  {
    if Apply(c, b, command).Ok? {
      match command
      case Execute(_, _, _, _) =>
      case Add(tenant, workOrder, material, warehouse, quantity) =>
        AdditionConserves(c, b, tenant, workOrder, material, warehouse, quantity, shelf);
      case Remove(tenant, workOrder, material, warehouse) =>
        RemovalConserves(c, b, tenant, workOrder, material, warehouse, shelf);
    }
  }

  /** Conservation: over any run, stock and holdings of a shelf change by exactly what imports and exports report;
      work orders only move it back and forth. */
  lemma {:induction false} RunConserves(c: Catalog, b: Books, commands: seq<Command>, shelf: Shelf)
    requires Sound(b) && Proper(commands)
    ensures Sound(Run(c, b, commands))
    ensures Total(Run(c, b, commands), shelf) == Total(b, shelf) + ExternalOf(c, b, commands, shelf)
    decreases |commands|
  {
    hide Sound, Total, External, Attempt;
    if commands != [] {
      assert commands[0] in commands;
      AttemptSound(c, b, commands[0]);
      AttemptConserves(c, b, commands[0], shelf);
      RunConserves(c, Attempt(c, b, commands[0]), commands[1..], shelf);
    }
  }

  /** From empty books on: stock is never negative and always the ledger's balance. */
  lemma ReachableStock(c: Catalog, commands: seq<Command>, shelf: Shelf)
    requires Proper(commands)
    ensures var b := Run(c, EMPTY, commands);
            && 0 <= OnShelf(b, shelf) == Net(b.ledger, shelf)
            && Total(b, shelf) == ExternalOf(c, EMPTY, commands, shelf)
  {
    RunConserves(c, EMPTY, commands, shelf);
    var b := Run(c, EMPTY, commands);
    assert OnShelf(b, shelf) == Net(b.ledger, shelf);
  }

  /** Taking materials out and bringing them back leaves stock and holdings as they were, and two lines in the ledger. */
  lemma RemoveUndoesAdd(c: Catalog, b: Books, tenant: TenantId, workOrder: WorkOrderId, material: MaterialId,
                        warehouse: WarehouseId, quantity: real)
    requires Sound(b) && FindHolding(b.held, workOrder, Shelf(tenant, warehouse, material)).None?
    requires Addition(c, b, tenant, workOrder, material, warehouse, quantity).Ok?
    ensures var shelf := Shelf(tenant, warehouse, material);
            var out, back := Movement(shelf, Export, quantity.Floor, Some(workOrder)), Movement(shelf, Import, quantity.Floor, Some(workOrder));
            Removal(c, Addition(c, b, tenant, workOrder, material, warehouse, quantity).value, tenant, workOrder, material, warehouse)
            == Ok(b.(ledger := b.ledger + [out] + [back]))
  {
    var shelf := Shelf(tenant, warehouse, material);
    var added := Addition(c, b, tenant, workOrder, material, warehouse, quantity).value;
    var row := Holding(workOrder, shelf, quantity.Floor);
    assert added.held == b.held + [row] && added.held[..|b.held|] == b.held;
    assert Without(added.held, |b.held|) == b.held;
    assert added.stock[shelf := added.stock[shelf] + quantity.Floor] == b.stock;
  }

  // ------------------------------------------------------------------ the store

  class Store {
    const catalog: Catalog
    var stock: map<Shelf, int>
    var ledger: seq<Movement>
    var held: seq<Holding>

    function State(): Books
      reads this
    {
      Books(stock, ledger, held)
    }

    constructor (catalog: Catalog)
      ensures State() == EMPTY && Sound(State()) && this.catalog == catalog
    {
      this.catalog := catalog;
      stock, ledger, held := map[], [], [];
    }

    method ExecuteTransaction(shelf: Shelf, direction: Direction, quantity: real, reference: Option<WorkOrderId>)
      returns (failure: Option<Failure>)
      requires Sound(State()) && quantity >= 1.0
      modifies this
      ensures Sound(State()) && State() == Attempt(catalog, old(State()), Execute(shelf, direction, quantity, reference))
      ensures var r := Apply(catalog, old(State()), Execute(shelf, direction, quantity, reference));
              failure == if r.Err? then Some(r.error) else None
    {
      hide Sound;
      AttemptSound(catalog, State(), Execute(shelf, direction, quantity, reference));
      if !Belongs(catalog.warehouses, shelf.warehouse, shelf.tenant) {
        return Some(WarehouseNotFound);
      }
      if !Belongs(catalog.materials, shelf.material, shelf.tenant) {
        return Some(MaterialNotFound);
      }
      var inventory := 0.0;
      if shelf in stock {
        inventory := stock[shelf] as real;
      } else if direction.Export? {
        return Some(EmptyInventory);
      }
      if direction.Export? {
        if inventory < quantity {
          return Some(Insufficient);
        }
        inventory := inventory - quantity;
      } else {
        inventory := inventory + quantity;
      }
      if !InColumn(inventory) || !InColumn(quantity) {
        return Some(NotInColumn);
      }
      stock := stock[shelf := inventory.Floor];
      ledger := ledger + [Movement(shelf, direction, quantity.Floor, reference)];
      failure := None;
    }

    method FindRow(workOrder: WorkOrderId, shelf: Shelf) returns (at: Option<nat>)
      ensures at == FindHolding(held, workOrder, shelf)
    {
      at := None;
      for i := 0 to |held|
        invariant at == FindHolding(held[..i], workOrder, shelf)
      {
        assert held[..i + 1][..i] == held[..i];
        if held[i].workOrder == workOrder && held[i].shelf == shelf {
          at := Some(i);
        }
      }
      assert held[..|held|] == held;
    }

    method AddMaterial(tenant: TenantId, workOrder: WorkOrderId, material: MaterialId, warehouse: WarehouseId, quantity: real)
      returns (failure: Option<Failure>)
      requires Sound(State())
      modifies this
      ensures Sound(State()) && State() == Attempt(catalog, old(State()), Add(tenant, workOrder, material, warehouse, quantity))
      ensures var r := Apply(catalog, old(State()), Add(tenant, workOrder, material, warehouse, quantity));
              failure == if r.Err? then Some(r.error) else None
    {
      hide Sound, FindHolding;
      AttemptSound(catalog, State(), Add(tenant, workOrder, material, warehouse, quantity));
      if !IsInteger(quantity) || quantity <= 0.0 {
        return Some(NotPositiveInteger);
      }
      if !Belongs(catalog.workOrders, workOrder, tenant) {
        return Some(WorkOrderNotFound);
      }
      var shelf, q := Shelf(tenant, warehouse, material), quantity.Floor;
      if shelf !in stock || stock[shelf] < q {
        return Some(Insufficient);
      }
      var at := FindRow(workOrder, shelf);
      var row := Holding(workOrder, shelf, if at.Some? then held[at.value].quantity + q else q);
      if q > MAX_INT || row.quantity > MAX_INT {
        return Some(NotInColumn);
      }
      stock := stock[shelf := stock[shelf] - q];
      ledger := ledger + [Movement(shelf, Export, q, Some(workOrder))];
      if at.Some? {
        held := held[at.value := row];
      } else {
        held := held + [row];
      }
      failure := None;
    }

    method RemoveMaterial(tenant: TenantId, workOrder: WorkOrderId, material: MaterialId, warehouse: WarehouseId)
      returns (failure: Option<Failure>)
      requires Sound(State())
      modifies this
      ensures Sound(State()) && State() == Attempt(catalog, old(State()), Remove(tenant, workOrder, material, warehouse))
      ensures var r := Apply(catalog, old(State()), Remove(tenant, workOrder, material, warehouse));
              failure == if r.Err? then Some(r.error) else None
    {
      hide Sound, FindHolding;
      AttemptSound(catalog, State(), Remove(tenant, workOrder, material, warehouse));
      if !Belongs(catalog.workOrders, workOrder, tenant) {
        return Some(WorkOrderNotFound);
      }
      var shelf := Shelf(tenant, warehouse, material);
      var at := FindRow(workOrder, shelf);
      if at.None? {
        return Some(NotHeld);
      }
      var q := held[at.value].quantity;
      if shelf in stock {
        if stock[shelf] + q > MAX_INT {
          return Some(NotInColumn);
        }
        stock := stock[shelf := stock[shelf] + q];
      }
      ledger := ledger + [Movement(shelf, Import, q, Some(workOrder))];
      held := Without(held, at.value);
      failure := None;
    }
  }
}
