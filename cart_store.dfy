/** The cart provider (src/hooks/useCart.tsx) as an object: the in-memory
    cart, the persistence slot and the notifications are fields, and each
    operation commits by overwriting the slot and then the in-memory cart, or
    appends one notification. Catalog lookups are parameters. */
module Store {
  import opened CartLogic
  import CartProperties

  class CartStore {
    /** What React state holds and the UI reads. */
    var cart: seq<Product>
    /** The storage slot '@RocketShoes:cart'; None while it holds nothing. */
    var persisted: Option<seq<Product>>
    /** Every error notification shown so far, oldest first. */
    var notes: seq<Msg>

    function State(): Snapshot
      reads this
    {
      Snapshot(cart, persisted, notes)
    }

    /** Unique ids, positive amounts, and a slot that mirrors memory. */
    ghost predicate Valid()
      reads this
    {
      Wellformed(cart) && Mirrored(State())
    }

    /** The state initialiser: the stored cart when the slot holds one,
        otherwise the empty cart. The stored cart is taken as it is. */
    constructor (stored: Option<seq<Product>>)
      ensures cart == Restore(stored) && persisted == stored && notes == []
      ensures Mirrored(State())
      ensures Wellformed(Restore(stored)) ==> Valid()
    {
      cart := Restore(stored);
      persisted := stored;
      notes := [];
    }

    /** updateProductAmount: `stock` is the answer of its stock lookup. */
    method UpdateProductAmount(productId: int, amount: int, stock: Option<nat>)
      modifies this
      ensures State() == CartLogic.UpdateProductAmount(old(State()), productId, amount, stock)
      ensures old(Valid()) ==> Valid()
    {
      if Valid() {
        CartProperties.UpdateKeepsWellformed(State(), productId, amount, stock);
      }
      if amount <= 0 {
        return;
      }
      if stock.None? {
        notes := notes + [UpdateFailed];
        return;
      }
      if amount > stock.value {
        notes := notes + [OutOfStock];
        return;
      }
      var updated := SetAmount(cart, productId, amount);
      persisted := Some(updated);
      cart := updated;
    }

    /** removeProduct. */
    method RemoveProduct(productId: int)
      modifies this
      ensures State() == CartLogic.RemoveProduct(old(State()), productId)
      ensures old(Valid()) ==> Valid()
    {
      if Valid() {
        CartProperties.RemoveKeepsWellformed(State(), productId);
      }
      var existing := Find(cart, productId);
      if existing.None? {
        notes := notes + [RemoveFailed];
        return;
      }
      var updated := Without(cart, productId);
      persisted := Some(updated);
      cart := updated;
    }

    /** addProduct: `stock` is the answer of its stock lookup, `product` that
        of its product lookup and `updateStock` that of the stock lookup made
        by the delegated updateProductAmount. */
    method AddProduct(productId: int, stock: Option<nat>, product: ProductReply, updateStock: Option<nat>)
      modifies this
      ensures State() == CartLogic.AddProduct(old(State()), productId, stock, product, updateStock)
      ensures old(Valid()) && (product.Record? ==> product.product.id == productId) ==> Valid()
    {
      if Valid() && (product.Record? ==> product.product.id == productId) {
        CartProperties.AddKeepsWellformed(State(), productId, stock, product, updateStock);
      }
      if stock.None? {
        notes := notes + [AddFailed];
        return;
      }
      var existing := Find(cart, productId);
      if existing.Some? {
        var newAmount := existing.value.amount + 1;
        if newAmount > stock.value {
          notes := notes + [OutOfStock];
          return;
        }
        UpdateProductAmount(productId, newAmount, updateStock);
      } else {
        match product {
          case LookupFailed =>
            notes := notes + [AddFailed];
          case EmptyBody =>
          case Record(p) =>
            if stock.value == 0 {
              notes := notes + [OutOfStock];
              return;
            }
            var updated := cart + [p.(amount := 1)];
            persisted := Some(updated);
            cart := updated;
        }
      }
    }
  }
}
