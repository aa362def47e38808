/**
 * The cart slice of the client store: an ordered ledger of line items and a
 * running total that every reducer keeps up incrementally instead of
 * recomputing it.
 *
 * Prices and totals are integers (think cents). Quantities are unbounded
 * integers, because updateQuantity stores whatever quantity it is given.
 *
 * The reducers are specified twice over: as pure transitions on a CartState
 * value (Added, Removed, Updated, Cleared), about which the lemmas speak, and
 * as the methods of class Cart, which mutate the state in place as the slice
 * does and are proved to perform exactly those transitions.
 */
module CartLedger {
  import opened Wrappers

  /** One cart line; `price` is the unit price. */
  datatype CartItem = CartItem(id: int, name: string, price: int, quantity: int)

  /** The slice state: the lines in insertion order and the running total. */
  datatype CartState = CartState(items: seq<CartItem>, total: int)

  /** The state the slice starts from. */
  const InitialState: CartState := CartState([], 0)

  /** What one line contributes to the total. */
  function LineValue(item: CartItem): int {
    item.price * item.quantity
  }

  /** The total the ledger should hold: price times quantity, summed over the lines. */
  function Sum(items: seq<CartItem>): int {
    if items == [] then 0 else LineValue(items[0]) + Sum(items[1..])
  }

  /** The running total agrees with the lines. */
  predicate TotalConsistent(s: CartState) {
    s.total == Sum(s.items)
  }

  /** No two lines share an id. */
  predicate UniqueIds(items: seq<CartItem>) {
    forall i, j :: 0 <= i < j < |items| ==> items[i].id != items[j].id
  }

  /** The ledger invariant. */
  predicate Valid(s: CartState) {
    UniqueIds(s.items) && TotalConsistent(s)
  }

  predicate HasId(items: seq<CartItem>, id: int) {
    exists i :: 0 <= i < |items| && items[i].id == id
  }

  /** A line with the payload's id, if there is one, has the payload's price. */
  predicate PriceAgrees(items: seq<CartItem>, payload: CartItem) {
    forall i :: 0 <= i < |items| && items[i].id == payload.id ==> items[i].price == payload.price
  }

  /** `items.find(item => item.id === id)`, as the index of the first match. */
  function FindIndex(items: seq<CartItem>, id: int): (r: Option<nat>)
    ensures r.None? <==> !HasId(items, id)
    ensures r.Some? ==> r.value < |items| && items[r.value].id == id
    ensures r.Some? ==> forall j :: 0 <= j < r.value ==> items[j].id != id
  {
    if items == [] then None
    else if items[0].id == id then Some(0)
    else
      match FindIndex(items[1..], id)
      case None =>
        assert forall i :: 1 <= i < |items| ==> items[i] == items[1..][i - 1];
        None
      case Some(k) => Some(k + 1)
  }

  /** `items.filter(item => item.id !== id)`. */
  function Without(items: seq<CartItem>, id: int): (r: seq<CartItem>)
    ensures |r| <= |items|
    ensures forall x :: x in r <==> x in items && x.id != id
  {
    if items == [] then []
    else if items[0].id == id then Without(items[1..], id)
    else [items[0]] + Without(items[1..], id)
  }

  /** addItem: bump the first line with the payload's id, or append the payload
      with quantity 1; in both cases add the PAYLOAD's price to the total. */
  function Added(s: CartState, payload: CartItem): (r: CartState)
    ensures r.total == s.total + payload.price
    ensures |r.items| == if HasId(s.items, payload.id) then |s.items| else |s.items| + 1
    ensures HasId(r.items, payload.id)
  {
    match FindIndex(s.items, payload.id)
    case Some(i) =>
      var items := s.items[i := s.items[i].(quantity := s.items[i].quantity + 1)];
      assert items[i].id == payload.id;
      CartState(items, s.total + payload.price)
    case None =>
      var items := s.items + [payload.(quantity := 1)];
      assert items[|s.items|].id == payload.id;
      CartState(items, s.total + payload.price)
  }

  /** removeItem: if a line has the id, subtract its value and filter it out. */
  function Removed(s: CartState, id: int): (r: CartState)
    ensures !HasId(r.items, id)
    ensures !HasId(s.items, id) ==> r == s
    ensures |r.items| <= |s.items|
  {
    match FindIndex(s.items, id)
    case None => s
    case Some(i) => CartState(Without(s.items, id), s.total - LineValue(s.items[i]))
  }

  /** updateQuantity: if a line has the id, move the total by the quantity
      delta times the line's price and store the new quantity as given. */
  function Updated(s: CartState, id: int, quantity: int): (r: CartState)
    ensures |r.items| == |s.items|
    ensures forall j :: 0 <= j < |s.items| ==>
              r.items[j].id == s.items[j].id && r.items[j].name == s.items[j].name
              && r.items[j].price == s.items[j].price
    ensures !HasId(s.items, id) ==> r == s
  {
    match FindIndex(s.items, id)
    case None => s
    case Some(i) =>
      var line := s.items[i];
      CartState(s.items[i := line.(quantity := quantity)],
                s.total + (quantity - line.quantity) * line.price)
  }

  /** clearCart: drop every line and zero the total. */
  function Cleared(s: CartState): (r: CartState)
    ensures r.items == [] && Valid(r)
  {
    CartState([], 0)
  }

  // ---------------------------------------------------------------------------
  // Sums

  lemma {:induction false} SumConcat(a: seq<CartItem>, b: seq<CartItem>)
    ensures Sum(a + b) == Sum(a) + Sum(b)
  {
    if a == [] {
      assert a + b == b;
    } else {
      assert (a + b)[0] == a[0];
      assert (a + b)[1..] == a[1..] + b;
      SumConcat(a[1..], b);
    }
  }

  lemma SumSingle(x: CartItem)
    ensures Sum([x]) == LineValue(x)
  {
    assert [x][1..] == [];
  }

  /** Replacing one line moves the sum by the difference of the two line values. */
  lemma {:induction false} SumUpdate(items: seq<CartItem>, i: nat, x: CartItem)
    requires i < |items|
    ensures Sum(items[i := x]) == Sum(items) - LineValue(items[i]) + LineValue(x)
  {
    var r := items[i := x];
    if i == 0 {
      assert r[1..] == items[1..];
    } else {
      assert r[0] == items[0];
      assert r[1..] == items[1..][i - 1 := x];
      SumUpdate(items[1..], i - 1, x);
    }
  }

  /** Deleting one line lowers the sum by that line's value. */
  lemma {:induction false} SumSplice(items: seq<CartItem>, i: nat)
    requires i < |items|
    ensures Sum(items[..i] + items[i + 1..]) == Sum(items) - LineValue(items[i])
  {
    var r := items[..i] + items[i + 1..];
    if i == 0 {
      assert r == items[1..];
    } else {
      var tail := items[1..];
      assert r[0] == items[0];
      assert r[1..] == tail[..i - 1] + tail[i..];
      SumSplice(tail, i - 1);
    }
  }

  // ---------------------------------------------------------------------------
  // Lookup and filter

  /** With unique ids, the first line with a given id is the only one. */
  lemma FindIndexUnique(items: seq<CartItem>, i: nat)
    requires UniqueIds(items) && i < |items|
    ensures FindIndex(items, items[i].id) == Some(i)
  {
  }

  /** Filtering out an id that no line has changes nothing. */
  lemma {:induction false} WithoutAbsent(items: seq<CartItem>, id: int)
    requires !HasId(items, id)
    ensures Without(items, id) == items
  {
    if items != [] {
      assert items[0].id != id;
      assert !HasId(items[1..], id) by {
        forall k | 0 <= k < |items| - 1
          ensures items[1..][k].id != id
        {
          assert items[1..][k] == items[k + 1];
        }
      }
      WithoutAbsent(items[1..], id);
      assert items == [items[0]] + items[1..];
    }
  }

  /** With unique ids, filtering out the id of line i deletes exactly that
      line and keeps the others in their order. */
  lemma {:induction false} WithoutAt(items: seq<CartItem>, i: nat)
    requires UniqueIds(items) && i < |items|
    ensures Without(items, items[i].id) == items[..i] + items[i + 1..]
  {
    var id := items[i].id;
    if i == 0 {
      assert !HasId(items[1..], id) by {
        forall k | 0 <= k < |items| - 1
          ensures items[1..][k].id != id
        {
          assert items[1..][k] == items[k + 1];
        }
      }
      WithoutAbsent(items[1..], id);
    } else {
      assert items[0].id != id;
      var tail := items[1..];
      assert UniqueIds(tail) by {
        forall a, b | 0 <= a < b < |tail|
          ensures tail[a].id != tail[b].id
        {
          assert tail[a] == items[a + 1] && tail[b] == items[b + 1];
        }
      }
      assert tail[i - 1] == items[i];
      WithoutAt(tail, i - 1);
      assert items[..i] == [items[0]] + tail[..i - 1];
      assert items[i + 1..] == tail[i..];
    }
  }

  /** Deleting one line keeps ids unique. */
  lemma SpliceKeepsUniqueIds(items: seq<CartItem>, i: nat)
    requires UniqueIds(items) && i < |items|
    ensures UniqueIds(items[..i] + items[i + 1..])
  {
    var r := items[..i] + items[i + 1..];
    forall a, b | 0 <= a < b < |r|
      ensures r[a].id != r[b].id
    {
      var a' := if a < i then a else a + 1;
      var b' := if b < i then b else b + 1;
      assert r[a] == items[a'] && r[b] == items[b'];
    }
  }

  // ---------------------------------------------------------------------------
  // addItem

  /** An id not in the cart: one line is appended at the end, copied from the
      payload but with quantity 1, the earlier lines are untouched, and the
      total grows by the payload's price. */
  lemma AddedAbsent(s: CartState, payload: CartItem)
    requires !HasId(s.items, payload.id)
    ensures |Added(s, payload).items| == |s.items| + 1
    ensures Added(s, payload).items[..|s.items|] == s.items
    ensures Added(s, payload).items[|s.items|]
         == CartItem(payload.id, payload.name, payload.price, 1)
    ensures Added(s, payload).total == s.total + payload.price
  {
    var r := Added(s, payload);
    assert r.items == s.items + [payload.(quantity := 1)];
    assert r.items[..|s.items|] == s.items;
  }

  /** An id in the cart: that line's quantity goes up by exactly one, no other
      line and not the number of lines changes, and the total grows by the
      payload's price (not necessarily the stored line's). */
  lemma AddedPresent(s: CartState, payload: CartItem, i: nat)
    requires UniqueIds(s.items) && i < |s.items| && s.items[i].id == payload.id
    ensures |Added(s, payload).items| == |s.items|
    ensures Added(s, payload).items[i]
         == s.items[i].(quantity := s.items[i].quantity + 1)
    ensures forall j :: 0 <= j < |s.items| && j != i ==> Added(s, payload).items[j] == s.items[j]
    ensures Added(s, payload).total == s.total + payload.price
  {
    FindIndexUnique(s.items, i);
  }

  lemma AddedKeepsUniqueIds(s: CartState, payload: CartItem)
    requires UniqueIds(s.items)
    ensures UniqueIds(Added(s, payload).items)
  {
    var r := Added(s, payload).items;
    match FindIndex(s.items, payload.id)
    case Some(i) =>
      assert forall j :: 0 <= j < |r| ==> r[j].id == s.items[j].id;
    case None =>
      forall a, b | 0 <= a < b < |r|
        ensures r[a].id != r[b].id
      {
        if b == |s.items| {
          assert r[a] == s.items[a];
        } else {
          assert r[a] == s.items[a] && r[b] == s.items[b];
        }
      }
  }

  /** On a valid cart, addItem keeps the total consistent exactly when a line
      already holding the payload's id has the payload's price: adding a known
      id at a different price makes the running total drift. */
  lemma AddedConsistentIff(s: CartState, payload: CartItem)
    requires Valid(s)
    ensures TotalConsistent(Added(s, payload)) <==> PriceAgrees(s.items, payload)
  {
    var r := Added(s, payload);
    match FindIndex(s.items, payload.id)
    case Some(i) =>
      var line := s.items[i];
      SumUpdate(s.items, i, line.(quantity := line.quantity + 1));
      assert LineValue(line.(quantity := line.quantity + 1)) == LineValue(line) + line.price;
      assert Sum(r.items) == Sum(s.items) + line.price;
      assert PriceAgrees(s.items, payload) <==> line.price == payload.price by {
        forall j | 0 <= j < |s.items| && s.items[j].id == payload.id
          ensures j == i
        {
        }
      }
    case None =>
      SumConcat(s.items, [payload.(quantity := 1)]);
      SumSingle(payload.(quantity := 1));
  }

  lemma AddedKeepsLedger(s: CartState, payload: CartItem)
    requires Valid(s) && PriceAgrees(s.items, payload)
    ensures Valid(Added(s, payload))
  {
    AddedKeepsUniqueIds(s, payload);
    AddedConsistentIff(s, payload);
  }

  /** Adding a known id at a new price: the total no longer matches the lines. */
  lemma AddRepricedDrifts()
    ensures var s := CartState([CartItem(1, "Mojito", 10, 1)], 10);
            Valid(s) && !TotalConsistent(Added(s, CartItem(1, "Mojito", 12, 1)))
  {
    var s := CartState([CartItem(1, "Mojito", 10, 1)], 10);
    SumSingle(CartItem(1, "Mojito", 10, 1));
    SumSingle(CartItem(1, "Mojito", 10, 2));
    assert Added(s, CartItem(1, "Mojito", 12, 1)) == CartState([CartItem(1, "Mojito", 10, 2)], 22);
  }

  // ---------------------------------------------------------------------------
  // removeItem

  lemma RemovedAbsent(s: CartState, id: int)
    requires !HasId(s.items, id)
    ensures Removed(s, id) == s
  {
  }

  /** An id in the cart: exactly that line goes, the rest keep their order, and
      the total drops by the line's value. */
  lemma RemovedPresent(s: CartState, i: nat)
    requires UniqueIds(s.items) && i < |s.items|
    ensures Removed(s, s.items[i].id).items == s.items[..i] + s.items[i + 1..]
    ensures Removed(s, s.items[i].id).total == s.total - LineValue(s.items[i])
  {
    FindIndexUnique(s.items, i);
    WithoutAt(s.items, i);
  }

  /** removeItem keeps ids unique, whatever the total. */
  lemma RemovedKeepsUniqueIds(s: CartState, id: int)
    requires UniqueIds(s.items)
    ensures UniqueIds(Removed(s, id).items)
  {
    match FindIndex(s.items, id)
    case None =>
    case Some(i) =>
      RemovedPresent(s, i);
      SpliceKeepsUniqueIds(s.items, i);
  }

  lemma RemovedKeepsLedger(s: CartState, id: int)
    requires Valid(s)
    ensures Valid(Removed(s, id))
  {
    RemovedKeepsUniqueIds(s, id);
    match FindIndex(s.items, id)
    case None =>
    case Some(i) =>
      RemovedPresent(s, i);
      SumSplice(s.items, i);
  }

  // ---------------------------------------------------------------------------
  // updateQuantity

  lemma UpdatedAbsent(s: CartState, id: int, quantity: int)
    requires !HasId(s.items, id)
    ensures Updated(s, id, quantity) == s
  {
  }

  /** An id in the cart: only that line's quantity changes, to exactly the
      quantity given (0 and negative ones included: nothing is clamped or
      removed), and the total moves by the delta times the line's price. */
  lemma UpdatedPresent(s: CartState, i: nat, quantity: int)
    requires UniqueIds(s.items) && i < |s.items|
    ensures |Updated(s, s.items[i].id, quantity).items| == |s.items|
    ensures Updated(s, s.items[i].id, quantity).items[i] == s.items[i].(quantity := quantity)
    ensures forall j :: 0 <= j < |s.items| && j != i ==>
              Updated(s, s.items[i].id, quantity).items[j] == s.items[j]
    ensures Updated(s, s.items[i].id, quantity).total
         == s.total + (quantity - s.items[i].quantity) * s.items[i].price
  {
    FindIndexUnique(s.items, i);
  }

  /** updateQuantity keeps ids unique, whatever the total. */
  lemma UpdatedKeepsUniqueIds(s: CartState, id: int, quantity: int)
    requires UniqueIds(s.items)
    ensures UniqueIds(Updated(s, id, quantity).items)
  {
    var r := Updated(s, id, quantity).items;
    forall a, b | 0 <= a < b < |r|
      ensures r[a].id != r[b].id
    {
      assert r[a].id == s.items[a].id && r[b].id == s.items[b].id;
    }
  }

  lemma UpdatedKeepsLedger(s: CartState, id: int, quantity: int)
    requires Valid(s)
    ensures Valid(Updated(s, id, quantity))
  {
    match FindIndex(s.items, id)
    case None =>
    case Some(i) =>
      var line := s.items[i];
      var r := Updated(s, id, quantity);
      SumUpdate(s.items, i, line.(quantity := quantity));
      assert (quantity - line.quantity) * line.price
          == line.price * quantity - line.price * line.quantity;
      assert forall j :: 0 <= j < |r.items| ==> r.items[j].id == s.items[j].id;
  }

  // ---------------------------------------------------------------------------
  // clearCart

  /** clearCart yields the initial state, which satisfies the invariant. */
  lemma ClearedIsInitial(s: CartState)
    ensures Cleared(s) == InitialState
    ensures Valid(Cleared(s))
  {
  }

  // ---------------------------------------------------------------------------
  // Sequences of actions

  /** The four actions the slice exports. */
  datatype Action =
    | AddItem(item: CartItem)
    | RemoveItem(id: int)
    | UpdateQuantity(id: int, quantity: int)
    | ClearCart

  /** The slice's reducer: one action applied to one state. */
  function Step(s: CartState, a: Action): CartState {
    match a
    case AddItem(item) => Added(s, item)
    case RemoveItem(id) => Removed(s, id)
    case UpdateQuantity(id, quantity) => Updated(s, id, quantity)
    case ClearCart => Cleared(s)
  }

  function Run(s: CartState, actions: seq<Action>): CartState
    decreases |actions|
  {
    if actions == [] then s else Run(Step(s, actions[0]), actions[1..])
  }

  lemma StepKeepsUniqueIds(s: CartState, a: Action)
    requires UniqueIds(s.items)
    ensures UniqueIds(Step(s, a).items)
  {
    match a
    case AddItem(item) => AddedKeepsUniqueIds(s, item);
    case RemoveItem(id) => RemovedKeepsUniqueIds(s, id);
    case UpdateQuantity(id, quantity) => UpdatedKeepsUniqueIds(s, id, quantity);
    case ClearCart =>
  }

  /** No sequence of actions, whatever prices its adds carry, ever makes two
      lines share an id. */
  lemma {:induction false} RunKeepsUniqueIds(s: CartState, actions: seq<Action>)
    requires UniqueIds(s.items)
    ensures UniqueIds(Run(s, actions).items)
    decreases |actions|
  {
    if actions != [] {
      StepKeepsUniqueIds(s, actions[0]);
      RunKeepsUniqueIds(Step(s, actions[0]), actions[1..]);
    }
  }

  /** Every line carries the catalog price of its id. */
  predicate PricedBy(items: seq<CartItem>, catalog: map<int, int>) {
    forall i :: 0 <= i < |items| ==> items[i].id in catalog && items[i].price == catalog[items[i].id]
  }

  /** Every add in the sequence carries the catalog price of its id. */
  predicate AddsPricedBy(actions: seq<Action>, catalog: map<int, int>) {
    forall k :: 0 <= k < |actions| && actions[k].AddItem? ==>
      actions[k].item.id in catalog && actions[k].item.price == catalog[actions[k].item.id]
  }

  lemma AddedKeepsPrices(s: CartState, payload: CartItem, catalog: map<int, int>)
    requires PricedBy(s.items, catalog)
    requires payload.id in catalog && payload.price == catalog[payload.id]
    ensures PricedBy(Added(s, payload).items, catalog)
  {
    var r := Added(s, payload).items;
    match FindIndex(s.items, payload.id)
    case Some(i) =>
      assert forall j :: 0 <= j < |r| ==> r[j].id == s.items[j].id && r[j].price == s.items[j].price;
    case None =>
      assert forall j :: 0 <= j < |s.items| ==> r[j] == s.items[j];
  }

  lemma RemovedKeepsPrices(s: CartState, id: int, catalog: map<int, int>)
    requires UniqueIds(s.items) && PricedBy(s.items, catalog)
    ensures PricedBy(Removed(s, id).items, catalog)
  {
    match FindIndex(s.items, id)
    case None =>
    case Some(i) =>
      RemovedPresent(s, i);
      var r := Removed(s, id).items;
      forall j | 0 <= j < |r|
        ensures r[j].id in catalog && r[j].price == catalog[r[j].id]
      {
        assert r[j] == s.items[if j < i then j else j + 1];
      }
  }

  lemma StepKeepsPrices(s: CartState, a: Action, catalog: map<int, int>)
    requires UniqueIds(s.items) && PricedBy(s.items, catalog)
    requires a.AddItem? ==> a.item.id in catalog && a.item.price == catalog[a.item.id]
    ensures PricedBy(Step(s, a).items, catalog)
  {
    match a
    case AddItem(item) => AddedKeepsPrices(s, item, catalog);
    case RemoveItem(id) => RemovedKeepsPrices(s, id, catalog);
    case UpdateQuantity(id, quantity) =>
    case ClearCart =>
  }

  lemma StepKeepsLedger(s: CartState, a: Action, catalog: map<int, int>)
    requires Valid(s) && PricedBy(s.items, catalog)
    requires a.AddItem? ==> a.item.id in catalog && a.item.price == catalog[a.item.id]
    ensures Valid(Step(s, a)) && PricedBy(Step(s, a).items, catalog)
  {
    StepKeepsPrices(s, a, catalog);
    match a
    case AddItem(item) => AddedKeepsLedger(s, item);
    case RemoveItem(id) => RemovedKeepsLedger(s, id);
    case UpdateQuantity(id, quantity) => UpdatedKeepsLedger(s, id, quantity);
    case ClearCart => ClearedIsInitial(s);
  }

  /** The central guarantee: after any sequence of actions the running total
      still equals the sum over the lines, and ids stay unique, provided every
      add carries the one price its id has in some catalog. */
  lemma {:induction false} RunKeepsLedger(s: CartState, actions: seq<Action>, catalog: map<int, int>)
    requires Valid(s) && PricedBy(s.items, catalog) && AddsPricedBy(actions, catalog)
    ensures Valid(Run(s, actions)) && PricedBy(Run(s, actions).items, catalog)
    decreases |actions|
  {
    if actions != [] {
      StepKeepsLedger(s, actions[0], catalog);
      assert AddsPricedBy(actions[1..], catalog) by {
        forall k | 0 <= k < |actions| - 1 && actions[1..][k].AddItem?
          ensures actions[1..][k].item.id in catalog
          ensures actions[1..][k].item.price == catalog[actions[1..][k].item.id]
        {
          assert actions[1..][k] == actions[k + 1];
        }
      }
      RunKeepsLedger(Step(s, actions[0]), actions[1..], catalog);
    }
  }

  /** Add 10-cent item 1 twice, set its quantity to 5, remove it. */
  lemma AddUpdateRemoveScenario()
    ensures var mojito := CartItem(1, "Mojito", 10, 1);
            var s1 := Added(InitialState, mojito);
            var s2 := Added(s1, mojito);
            var s3 := Updated(s2, 1, 5);
            var s4 := Removed(s3, 1);
            && s1 == CartState([mojito], 10)
            && s2 == CartState([mojito.(quantity := 2)], 20)
            && s3 == CartState([mojito.(quantity := 5)], 50)
            && s4 == CartState([], 0)
  {
    var mojito := CartItem(1, "Mojito", 10, 1);
    var s1 := Added(InitialState, mojito);
    assert s1 == CartState([mojito], 10);
    assert FindIndex(s1.items, 1) == Some(0);
    var s2 := Added(s1, mojito);
    assert s2 == CartState([mojito.(quantity := 2)], 20);
    assert FindIndex(s2.items, 1) == Some(0);
    var s3 := Updated(s2, 1, 5);
    assert s3 == CartState([mojito.(quantity := 5)], 50);
    assert FindIndex(s3.items, 1) == Some(0);
    assert Without(s3.items, 1) == [] by {
      assert s3.items[1..] == [];
    }
  }

  // ---------------------------------------------------------------------------
  // The live slice

  /** The slice as the store holds it: the reducers mutate these two fields. */
  class Cart {
    var items: seq<CartItem>
    var total: int

    /** The current snapshot of the slice. */
    function State(): CartState
      reads this
    {
      CartState(items, total)
    }

    predicate Invariant()
      reads this
    {
      Valid(State())
    }

    /** The slice starts out as `initialState`. */
    constructor ()
      ensures State() == InitialState && Invariant()
    {
      items := [];
      total := 0;
    }

    /** `state.items.find(item => item.id === id)`, as an index. */
    method Find(id: int) returns (r: Option<nat>)
      ensures r.None? <==> !HasId(items, id)
      ensures r.Some? ==> r.value < |items| && items[r.value].id == id
      ensures r == FindIndex(items, id)
    {
      var k := 0;
      while k < |items|
        invariant 0 <= k <= |items|
        invariant forall j :: 0 <= j < k ==> items[j].id != id
        decreases |items| - k
      {
        if items[k].id == id {
          return Some(k);
        }
        k := k + 1;
      }
      return None;
    }

    method AddItem(payload: CartItem)
      modifies this
      ensures State() == Added(old(State()), payload)
      ensures old(Invariant()) && PriceAgrees(old(items), payload) ==> Invariant()
      ensures old(UniqueIds(items)) ==> UniqueIds(items)
    {
      ghost var before := State();
      var existing := Find(payload.id);
      match existing {
        case Some(i) =>
          items := items[i := items[i].(quantity := items[i].quantity + 1)];
        case None =>
          items := items + [payload.(quantity := 1)];
      }
      total := total + payload.price;
      if Valid(before) && PriceAgrees(before.items, payload) {
        AddedKeepsLedger(before, payload);
      }
      if UniqueIds(before.items) {
        AddedKeepsUniqueIds(before, payload);
      }
    }

    method RemoveItem(id: int)
      modifies this
      ensures State() == Removed(old(State()), id)
      ensures old(Invariant()) ==> Invariant()
      ensures old(UniqueIds(items)) ==> UniqueIds(items)
    {
      ghost var before := State();
      var existing := Find(id);
      if existing.Some? {
        var line := items[existing.value];
        total := total - line.price * line.quantity;
        items := Without(items, id);
      }
      if Valid(before) {
        RemovedKeepsLedger(before, id);
      }
      if UniqueIds(before.items) {
        RemovedKeepsUniqueIds(before, id);
      }
    }

    method UpdateQuantity(id: int, quantity: int)
      modifies this
      ensures State() == Updated(old(State()), id, quantity)
      ensures old(Invariant()) ==> Invariant()
      ensures old(UniqueIds(items)) ==> UniqueIds(items)
    {
      ghost var before := State();
      var existing := Find(id);
      if existing.Some? {
        var i := existing.value;
        total := total + (quantity - items[i].quantity) * items[i].price;
        items := items[i := items[i].(quantity := quantity)];
      }
      if Valid(before) {
        UpdatedKeepsLedger(before, id, quantity);
      }
      if UniqueIds(before.items) {
        UpdatedKeepsUniqueIds(before, id, quantity);
      }
    }

    method ClearCart()
      modifies this
      ensures State() == Cleared(old(State())) && State() == InitialState
      ensures Invariant()
    {
      items := [];
      total := 0;
    }
  }
}
