/** Values and pure list transforms of the RocketShoes cart store
    (src/hooks/useCart.tsx), and each store operation as a pure transition
    from one snapshot of the store to the next. */
module CartLogic {

  datatype Option<+T> = None | Some(value: T)

  /** The fields of a product record that the store never inspects; they are
      carried along unchanged. */
  datatype Details = Details(title: string, price: real, image: string)

  /** A product record. The catalog returns one, and the cart holds one per
      line with `amount` set to the selected quantity. */
  datatype Product = Product(id: int, amount: int, details: Details)

  /** The four error notifications the store raises: 'Quantidade solicitada
      fora de estoque', 'Erro na adição do produto', 'Erro na remoção do
      produto' and 'Erro na alteração de quantidade do produto'. */
  datatype Msg = OutOfStock | AddFailed | RemoveFailed | UpdateFailed

  /** What the product lookup of addProduct yields: the request threw, the
      response had no body, or it carried a record. */
  datatype ProductReply = LookupFailed | EmptyBody | Record(product: Product)

  /** Everything the store owns: the in-memory cart, the persistence slot
      (absent until the first write) and the notifications raised so far. */
  datatype Snapshot = Snapshot(cart: seq<Product>, persisted: Option<seq<Product>>, notes: seq<Msg>)

  // ---------------------------------------------------------------------
  // Properties of a cart

  ghost predicate InCart(cart: seq<Product>, id: int)
  {
    exists i :: 0 <= i < |cart| && cart[i].id == id
  }

  /** At most one line per product id. */
  ghost predicate UniqueIds(cart: seq<Product>)
  {
    forall i, j :: 0 <= i < j < |cart| ==> cart[i].id != cart[j].id
  }

  ghost predicate PositiveAmounts(cart: seq<Product>)
  {
    forall i :: 0 <= i < |cart| ==> cart[i].amount >= 1
  }

  ghost predicate Wellformed(cart: seq<Product>)
  {
    UniqueIds(cart) && PositiveAmounts(cart)
  }

  /** Every line's amount is within the stock the catalog reports for its id. */
  ghost predicate WithinStock(cart: seq<Product>, ceiling: map<int, nat>)
  {
    forall i :: 0 <= i < |cart| ==> cart[i].id in ceiling && cart[i].amount <= ceiling[cart[i].id]
  }

  // ---------------------------------------------------------------------
  // The list transforms: cart.find, cart.map and cart.filter

  /** `cart.find(product => product.id === id)`: the first line with that id. */
  function Find(cart: seq<Product>, id: int): (r: Option<Product>)
    ensures r.None? <==> !InCart(cart, id)
    ensures r.Some? ==> r.value.id == id && FirstAt(cart, id, r.value)
  {
    if cart == [] then None
    else if cart[0].id == id then Some(cart[0])
    else
      var r := Find(cart[1..], id);
      if r.Some? then FirstAtTail(cart, id, r.value); r else r
  }

  /** `p` is a line of `cart` and no line before it has the id `id`. */
  ghost predicate FirstAt(cart: seq<Product>, id: int, p: Product)
  {
    exists k :: 0 <= k < |cart| && cart[k] == p && !InCart(cart[..k], id)
  }

  lemma FirstAtTail(cart: seq<Product>, id: int, p: Product)
    requires cart != [] && cart[0].id != id && FirstAt(cart[1..], id, p)
    ensures FirstAt(cart, id, p)
  {
    var k :| 0 <= k < |cart[1..]| && cart[1..][k] == p && !InCart(cart[1..][..k], id);
    assert cart[..k + 1] == [cart[0]] + cart[1..][..k];
    assert cart[k + 1] == p;
  }

  /** `cart.map(...)`: every line with the given id gets the new amount; every
      other line, the length and the order stay as they were. */
  function SetAmount(cart: seq<Product>, id: int, amount: int): (r: seq<Product>)
    ensures |r| == |cart|
    ensures forall i :: 0 <= i < |cart| && cart[i].id == id ==> r[i] == cart[i].(amount := amount)
    ensures forall i :: 0 <= i < |cart| && cart[i].id != id ==> r[i] == cart[i]
  {
    if cart == [] then []
    else
      var head := if cart[0].id == id then cart[0].(amount := amount) else cart[0];
      [head] + SetAmount(cart[1..], id, amount)
  }

  /** `cart.filter(product => product.id !== id)`: the lines without that id. */
  function Without(cart: seq<Product>, id: int): (r: seq<Product>)
    ensures |r| <= |cart|
    ensures forall p :: p in r <==> p in cart && p.id != id
    ensures !InCart(cart, id) ==> r == cart
  {
    if cart == [] then []
    else if cart[0].id == id then Without(cart[1..], id)
    else [cart[0]] + Without(cart[1..], id)
  }

  // ---------------------------------------------------------------------
  // Shapes of one step

  /** The step raised exactly one notification and changed nothing else. */
  ghost predicate NotifiedOnce(s: Snapshot, r: Snapshot)
  {
    && r.cart == s.cart
    && r.persisted == s.persisted
    && |r.notes| == |s.notes| + 1
    && r.notes[..|s.notes|] == s.notes
  }

  /** The step wrote one new cart both to the slot and to memory, silently. */
  ghost predicate Committed(s: Snapshot, r: Snapshot)
  {
    r.notes == s.notes && r.persisted == Some(r.cart)
  }

  /** Every operation either does nothing, or fails with one notification and
      no change, or commits. */
  ghost predicate AllOrNothing(s: Snapshot, r: Snapshot)
  {
    r == s || NotifiedOnce(s, r) || Committed(s, r)
  }

  function Notify(s: Snapshot, m: Msg): Snapshot
  {
    s.(notes := s.notes + [m])
  }

  function Commit(s: Snapshot, cart: seq<Product>): Snapshot
  {
    Snapshot(cart, Some(cart), s.notes)
  }

  // ---------------------------------------------------------------------
  // The operations

  /** The state initialiser: the stored cart if the slot holds one, else the
      empty cart. */
  function Restore(stored: Option<seq<Product>>): seq<Product>
  {
    match stored
    case Some(cart) => cart
    case None => []
  }

  /** The persisted slot mirrors memory: reloading the page would give back
      the cart that is in memory now. */
  ghost predicate Mirrored(s: Snapshot)
  {
    Restore(s.persisted) == s.cart
  }

  /** updateProductAmount(productId, amount), where `stock` is what the stock
      lookup yields (None when it throws). */
  function UpdateProductAmount(s: Snapshot, productId: int, amount: int, stock: Option<nat>): (r: Snapshot)
    ensures AllOrNothing(s, r)
    ensures |r.cart| == |s.cart|
  {
    if amount <= 0 then s
    else if stock.None? then Notify(s, UpdateFailed)
    else if amount > stock.value then Notify(s, OutOfStock)
    else Commit(s, SetAmount(s.cart, productId, amount))
  }

  /** removeProduct(productId). */
  function RemoveProduct(s: Snapshot, productId: int): (r: Snapshot)
    ensures AllOrNothing(s, r)
    ensures |r.cart| <= |s.cart|
  {
    if Find(s.cart, productId).None? then Notify(s, RemoveFailed)
    else Commit(s, Without(s.cart, productId))
  }

  /** addProduct(productId): `stock` is what the first stock lookup yields,
      `product` what the product lookup yields (made only when the id is not
      in the cart) and `updateStock` what the stock lookup of the delegated
      updateProductAmount yields (made only when the id is in the cart). */
  function AddProduct(s: Snapshot, productId: int, stock: Option<nat>, product: ProductReply,
                      updateStock: Option<nat>): (r: Snapshot)
    ensures AllOrNothing(s, r)
    ensures |s.cart| <= |r.cart| <= |s.cart| + 1
  {
    if stock.None? then Notify(s, AddFailed)
    else match Find(s.cart, productId)
      case Some(existing) =>
        var newAmount := existing.amount + 1;
        if newAmount > stock.value then Notify(s, OutOfStock)
        else UpdateProductAmount(s, productId, newAmount, updateStock)
      case None =>
        match product
        case LookupFailed => Notify(s, AddFailed)
        case EmptyBody => s
        case Record(p) =>
          if stock.value == 0 then Notify(s, OutOfStock)
          else Commit(s, s.cart + [p.(amount := 1)])
  }

  // ---------------------------------------------------------------------
  // Sequences of operations

  /** One call on the store, with the catalog's answers to its lookups. */
  datatype Call =
    | AddCall(productId: int, stock: Option<nat>, product: ProductReply, updateStock: Option<nat>)
    | RemoveCall(productId: int)
    | UpdateCall(productId: int, amount: int, stock: Option<nat>)

  function Step(s: Snapshot, c: Call): Snapshot
  {
    match c
    case AddCall(id, stock, product, updateStock) => AddProduct(s, id, stock, product, updateStock)
    case RemoveCall(id) => RemoveProduct(s, id)
    case UpdateCall(id, amount, stock) => UpdateProductAmount(s, id, amount, stock)
  }

  /** The calls applied one after the other, each as an atomic step. */
  function Run(s: Snapshot, calls: seq<Call>): Snapshot
    decreases |calls|
  {
    if calls == [] then s else Run(Step(s, calls[0]), calls[1..])
  }

  /** The catalog answers about the id it was asked about. */
  ghost predicate RecordMatches(c: Call)
  {
    c.AddCall? && c.product.Record? ==> c.product.product.id == c.productId
  }

  ghost predicate StockAgrees(stock: Option<nat>, id: int, ceiling: map<int, nat>)
  {
    stock.Some? ==> id in ceiling && stock.value == ceiling[id]
  }

  /** Every stock level the call observes is the one in `ceiling`. */
  ghost predicate ObservesCeiling(c: Call, ceiling: map<int, nat>)
  {
    match c
    case AddCall(id, stock, _, updateStock) => StockAgrees(stock, id, ceiling) && StockAgrees(updateStock, id, ceiling)
    case RemoveCall(_) => true
    case UpdateCall(id, _, stock) => StockAgrees(stock, id, ceiling)
  }
}
