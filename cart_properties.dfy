/** What the three cart operations promise: their guards and failure paths,
    the shape of a successful change, and the cart invariants (unique ids,
    positive amounts, amounts within stock, slot mirrors memory) that every
    operation and every sequence of operations keeps. */
module CartProperties {
  import opened CartLogic

  // ---------------------------------------------------------------------
  // The list transforms

  /** Filtering distributes over concatenation, so the lines that survive a
      removal keep their relative order. */
  lemma {:induction false} WithoutConcat(a: seq<Product>, b: seq<Product>, id: int)
    ensures Without(a + b, id) == Without(a, id) + Without(b, id)
  {
    if a == [] {
      assert a + b == b;
    } else {
      assert (a + b)[0] == a[0];
      assert (a + b)[1..] == a[1..] + b;
      WithoutConcat(a[1..], b, id);
    }
  }

  /** In a cart with unique ids, removing an id that sits at index k drops
      exactly line k and keeps everything else in order. */
  lemma RemovesExactlyOneLine(cart: seq<Product>, id: int, k: int)
    requires UniqueIds(cart) && 0 <= k < |cart| && cart[k].id == id
    ensures Without(cart, id) == cart[..k] + cart[k + 1..]
  {
    var before, after := cart[..k], cart[k + 1..];
    assert cart == before + ([cart[k]] + after);
    WithoutConcat(before, [cart[k]] + after, id);
    WithoutConcat([cart[k]], after, id);
    assert forall i :: 0 <= i < |before| ==> before[i].id != id by {
      forall i | 0 <= i < |before| ensures before[i].id != id {
        assert before[i] == cart[i];
      }
    }
    assert forall i :: 0 <= i < |after| ==> after[i].id != id by {
      forall i | 0 <= i < |after| ensures after[i].id != id {
        assert after[i] == cart[k + 1 + i];
      }
    }
    assert Without([cart[k]], id) == [] by {
      assert [cart[k]][1..] == [];
    }
  }

  /** A line can lead a cart with unique ids exactly when no later line shares
      its id. */
  lemma UniqueCons(x: Product, tail: seq<Product>)
    ensures UniqueIds([x] + tail) <==> UniqueIds(tail) && forall p :: p in tail ==> p.id != x.id
  {
    var c := [x] + tail;
    if UniqueIds(c) {
      forall i, j | 0 <= i < j < |tail| ensures tail[i].id != tail[j].id {
        assert tail[i] == c[i + 1] && tail[j] == c[j + 1];
      }
      forall p | p in tail ensures p.id != x.id {
        var j :| 0 <= j < |tail| && tail[j] == p;
        assert c[0] == x && c[j + 1] == p;
        assert c[0].id != c[j + 1].id;
      }
    }
    if UniqueIds(tail) && forall p :: p in tail ==> p.id != x.id {
      forall i, j | 0 <= i < j < |c| ensures c[i].id != c[j].id {
        assert c[j] == tail[j - 1];
        if i > 0 {
          assert c[i] == tail[i - 1];
        }
      }
    }
  }

  lemma {:induction false} WithoutKeepsUnique(cart: seq<Product>, id: int)
    requires UniqueIds(cart)
    ensures UniqueIds(Without(cart, id))
  {
    if cart != [] {
      assert cart == [cart[0]] + cart[1..];
      UniqueCons(cart[0], cart[1..]);
      WithoutKeepsUnique(cart[1..], id);
      if cart[0].id != id {
        UniqueCons(cart[0], Without(cart[1..], id));
      }
    }
  }

  /** Rewriting amounts leaves every id where it was. */
  lemma SetAmountKeepsUnique(cart: seq<Product>, id: int, amount: int)
    requires UniqueIds(cart)
    ensures UniqueIds(SetAmount(cart, id, amount))
  {
    var r := SetAmount(cart, id, amount);
    forall i | 0 <= i < |cart| ensures r[i].id == cart[i].id {
    }
  }

  // ---------------------------------------------------------------------
  // updateProductAmount

  /** A non-positive amount is ignored: no notification, no write. */
  lemma UpdateIgnoresNonPositive(s: Snapshot, id: int, amount: int, stock: Option<nat>)
    requires amount <= 0
    ensures UpdateProductAmount(s, id, amount, stock) == s
  {
  }

  /** A failed stock lookup or an amount above stock raises its one
      notification and leaves the cart and the slot alone. */
  lemma UpdateFailures(s: Snapshot, id: int, amount: int, stock: Option<nat>)
    requires amount > 0
    ensures stock.None? ==> UpdateProductAmount(s, id, amount, stock) == Notify(s, UpdateFailed)
    ensures stock.Some? && amount > stock.value ==> UpdateProductAmount(s, id, amount, stock) == Notify(s, OutOfStock)
  {
  }

  /** A successful update sets the amount of exactly the lines with that id,
      keeps every other line, the length and the order, and writes the
      result to the slot; an absent id leaves the cart as it was. */
  lemma UpdateSucceeds(s: Snapshot, id: int, amount: int, k: nat)
    requires 0 < amount <= k
    ensures var r := UpdateProductAmount(s, id, amount, Some(k));
      && Committed(s, r)
      && |r.cart| == |s.cart|
      && (forall i :: 0 <= i < |s.cart| && s.cart[i].id == id ==> r.cart[i] == s.cart[i].(amount := amount))
      && (forall i :: 0 <= i < |s.cart| && s.cart[i].id != id ==> r.cart[i] == s.cart[i])
      && (!InCart(s.cart, id) ==> r.cart == s.cart)
  {
    var r := UpdateProductAmount(s, id, amount, Some(k));
    if !InCart(s.cart, id) {
      assert r.cart == s.cart;
    }
  }

  /** Whenever an update changes the cart, every line with that id holds an
      amount within the stock that call observed. */
  lemma UpdateRespectsStock(s: Snapshot, id: int, amount: int, stock: Option<nat>)
    ensures var r := UpdateProductAmount(s, id, amount, stock);
      r.cart != s.cart ==>
        stock.Some? && forall i :: 0 <= i < |r.cart| && r.cart[i].id == id ==> 1 <= r.cart[i].amount <= stock.value
  {
  }

  lemma UpdateKeepsWellformed(s: Snapshot, id: int, amount: int, stock: Option<nat>)
    requires Wellformed(s.cart)
    ensures Wellformed(UpdateProductAmount(s, id, amount, stock).cart)
  {
    if amount > 0 && stock.Some? && amount <= stock.value {
      SetAmountKeepsUnique(s.cart, id, amount);
    }
  }

  lemma UpdateKeepsWithinStock(s: Snapshot, id: int, amount: int, stock: Option<nat>, ceiling: map<int, nat>)
    requires WithinStock(s.cart, ceiling) && StockAgrees(stock, id, ceiling)
    ensures WithinStock(UpdateProductAmount(s, id, amount, stock).cart, ceiling)
  {
  }

  // ---------------------------------------------------------------------
  // removeProduct

  /** Removing an id that is not in the cart raises the removal error and
      changes nothing else. */
  lemma RemoveAbsent(s: Snapshot, id: int)
    requires !InCart(s.cart, id)
    ensures RemoveProduct(s, id) == Notify(s, RemoveFailed)
  {
  }

  /** Removing a present id keeps exactly the lines with other ids, in their
      order, and writes the result to the slot; with unique ids that is the
      cart minus the one line. */
  lemma RemovePresent(s: Snapshot, id: int, k: int)
    requires 0 <= k < |s.cart| && s.cart[k].id == id
    ensures var r := RemoveProduct(s, id);
      && Committed(s, r)
      && r.cart == Without(s.cart, id)
      && (forall p :: p in r.cart <==> p in s.cart && p.id != id)
      && (UniqueIds(s.cart) ==> r.cart == s.cart[..k] + s.cart[k + 1..])
  {
    if UniqueIds(s.cart) {
      RemovesExactlyOneLine(s.cart, id, k);
    }
  }

  lemma RemoveKeepsWellformed(s: Snapshot, id: int)
    requires Wellformed(s.cart)
    ensures Wellformed(RemoveProduct(s, id).cart)
  {
    WithoutKeepsUnique(s.cart, id);
  }

  lemma RemoveKeepsWithinStock(s: Snapshot, id: int, ceiling: map<int, nat>)
    requires WithinStock(s.cart, ceiling)
    ensures WithinStock(RemoveProduct(s, id).cart, ceiling)
  {
  }

  // ---------------------------------------------------------------------
  // addProduct

  /** A failed first stock lookup raises the generic add error. */
  lemma AddStockLookupFails(s: Snapshot, id: int, product: ProductReply, updateStock: Option<nat>)
    ensures AddProduct(s, id, None, product, updateStock) == Notify(s, AddFailed)
  {
  }

  /** Adding an id that is not in the cart: a failed product lookup raises the
      generic add error, an empty reply does nothing, zero stock raises the
      out-of-stock error, and otherwise the record is appended with amount 1. */
  lemma AddNew(s: Snapshot, id: int, k: nat, product: ProductReply, updateStock: Option<nat>)
    requires !InCart(s.cart, id)
    ensures var r := AddProduct(s, id, Some(k), product, updateStock);
      && (product.LookupFailed? ==> r == Notify(s, AddFailed))
      && (product.EmptyBody? ==> r == s)
      && (product.Record? && k == 0 ==> r == Notify(s, OutOfStock))
      && (product.Record? && k > 0 ==> Committed(s, r) && r.cart == s.cart + [product.product.(amount := 1)])
  {
  }

  /** Adding an id already in the cart: one more than its amount over stock
      raises the out-of-stock error; otherwise the effect is exactly that of
      updateProductAmount with that amount. */
  lemma AddExisting(s: Snapshot, id: int, k: nat, product: ProductReply, updateStock: Option<nat>, existing: Product)
    requires Find(s.cart, id) == Some(existing)
    ensures var r := AddProduct(s, id, Some(k), product, updateStock);
      && (existing.amount + 1 > k ==> r == Notify(s, OutOfStock))
      && (existing.amount + 1 <= k ==> r == UpdateProductAmount(s, id, existing.amount + 1, updateStock))
  {
  }

  /** Whenever an add changes the cart, every line with that id holds an
      amount within the stock observed by the add, and by the delegated
      update when there was one. */
  lemma AddRespectsStock(s: Snapshot, id: int, k: nat, product: ProductReply, updateStock: Option<nat>)
    ensures var r := AddProduct(s, id, Some(k), product, updateStock);
      r.cart != s.cart ==>
        && (forall i :: 0 <= i < |r.cart| && r.cart[i].id == id ==> 1 <= r.cart[i].amount <= k)
        && (InCart(s.cart, id) ==>
              && updateStock.Some?
              && forall i :: 0 <= i < |r.cart| && r.cart[i].id == id ==> r.cart[i].amount <= updateStock.value)
  {
    var r := AddProduct(s, id, Some(k), product, updateStock);
    match Find(s.cart, id)
    case Some(existing) =>
      UpdateRespectsStock(s, id, existing.amount + 1, updateStock);
    case None =>
      if r.cart != s.cart {
        assert forall j :: 0 <= j < |s.cart| ==> r.cart[j] == s.cart[j];
      }
  }

  lemma AddKeepsWellformed(s: Snapshot, id: int, stock: Option<nat>, product: ProductReply, updateStock: Option<nat>)
    requires Wellformed(s.cart)
    requires product.Record? ==> product.product.id == id
    ensures Wellformed(AddProduct(s, id, stock, product, updateStock).cart)
  {
    if stock.Some? {
      match Find(s.cart, id)
      case Some(existing) =>
        UpdateKeepsWellformed(s, id, existing.amount + 1, updateStock);
      case None =>
        if product.Record? && stock.value > 0 {
          var line := product.product.(amount := 1);
          AppendKeepsUnique(s.cart, line);
        }
    }
  }

  lemma AppendKeepsUnique(cart: seq<Product>, line: Product)
    requires UniqueIds(cart) && !InCart(cart, line.id)
    ensures UniqueIds(cart + [line])
  {
    var c := cart + [line];
    forall i, j | 0 <= i < j < |c| ensures c[i].id != c[j].id {
      assert c[i] == cart[i];
      if j < |cart| {
        assert c[j] == cart[j];
      }
    }
  }

  lemma AddKeepsWithinStock(s: Snapshot, id: int, stock: Option<nat>, product: ProductReply, updateStock: Option<nat>,
                            ceiling: map<int, nat>)
    requires WithinStock(s.cart, ceiling)
    requires StockAgrees(stock, id, ceiling) && StockAgrees(updateStock, id, ceiling)
    requires product.Record? ==> product.product.id == id
    ensures WithinStock(AddProduct(s, id, stock, product, updateStock).cart, ceiling)
  {
    if stock.Some? {
      match Find(s.cart, id)
      case Some(existing) =>
        UpdateKeepsWithinStock(s, id, existing.amount + 1, updateStock, ceiling);
      case None =>
    }
  }

  // ---------------------------------------------------------------------
  // Any step, and any sequence of steps

  /** A step that does nothing, fails with a notification or commits keeps
      the slot mirroring memory. */
  lemma AllOrNothingKeepsMirror(s: Snapshot, r: Snapshot)
    requires Mirrored(s) && AllOrNothing(s, r)
    ensures Mirrored(r)
  {
  }

  /** Writing a cart to the slot and then running the state initialiser on
      the slot gives back that cart. */
  lemma ReloadAfterCommit(s: Snapshot, cart: seq<Product>)
    ensures Restore(Commit(s, cart).persisted) == cart
  {
  }

  /** Any call keeps the slot mirroring memory, whatever the catalog answers. */
  lemma StepKeepsMirror(s: Snapshot, c: Call)
    requires Mirrored(s)
    ensures Mirrored(Step(s, c))
  {
  }

  /** Any call keeps ids unique and amounts positive, and keeps amounts within
      a stock table that its lookups observe, when a catalog record carries
      the id it was asked for. */
  lemma StepKeepsInvariants(s: Snapshot, c: Call, ceiling: map<int, nat>)
    requires RecordMatches(c)
    ensures Wellformed(s.cart) ==> Wellformed(Step(s, c).cart)
    ensures WithinStock(s.cart, ceiling) && ObservesCeiling(c, ceiling) ==> WithinStock(Step(s, c).cart, ceiling)
  {
    match c
    case AddCall(id, stock, product, updateStock) =>
      if Wellformed(s.cart) {
        AddKeepsWellformed(s, id, stock, product, updateStock);
      }
      if WithinStock(s.cart, ceiling) && ObservesCeiling(c, ceiling) {
        AddKeepsWithinStock(s, id, stock, product, updateStock, ceiling);
      }
    case RemoveCall(id) =>
      if Wellformed(s.cart) {
        RemoveKeepsWellformed(s, id);
      }
      if WithinStock(s.cart, ceiling) {
        RemoveKeepsWithinStock(s, id, ceiling);
      }
    case UpdateCall(id, amount, stock) =>
      if Wellformed(s.cart) {
        UpdateKeepsWellformed(s, id, amount, stock);
      }
      if WithinStock(s.cart, ceiling) && ObservesCeiling(c, ceiling) {
        UpdateKeepsWithinStock(s, id, amount, stock, ceiling);
      }
  }

  /** After any sequence of calls, reloading the slot gives back the cart in
      memory, whatever the catalog answers. */
  lemma {:induction false} RunKeepsMirror(s: Snapshot, calls: seq<Call>)
    requires Mirrored(s)
    ensures Mirrored(Run(s, calls))
    decreases |calls|
  {
    if calls != [] {
      StepKeepsMirror(s, calls[0]);
      RunKeepsMirror(Step(s, calls[0]), calls[1..]);
    }
  }

  /** Starting from a cart with unique ids and positive amounts, no sequence
      of calls ever produces a duplicate id or a non-positive amount; when
      every stock level observed agrees with `ceiling`, no amount exceeds it.
      Both need every catalog record to carry the id it was asked for. */
  lemma {:induction false} RunKeepsInvariants(s: Snapshot, calls: seq<Call>, ceiling: map<int, nat>)
    requires forall c :: c in calls ==> RecordMatches(c)
    ensures Wellformed(s.cart) ==> Wellformed(Run(s, calls).cart)
    ensures WithinStock(s.cart, ceiling) && (forall c :: c in calls ==> ObservesCeiling(c, ceiling)) ==>
              WithinStock(Run(s, calls).cart, ceiling)
    decreases |calls|
  {
    if calls != [] {
      StepKeepsInvariants(s, calls[0], ceiling);
      assert forall c :: c in calls[1..] ==> c in calls;
      RunKeepsInvariants(Step(s, calls[0]), calls[1..], ceiling);
    }
  }

  /** Notifications are only ever appended, at most one per call. */
  lemma {:induction false} RunOnlyAppendsNotes(s: Snapshot, calls: seq<Call>)
    ensures var r := Run(s, calls);
      |s.notes| <= |r.notes| <= |s.notes| + |calls| && r.notes[..|s.notes|] == s.notes
    decreases |calls|
  {
    if calls != [] {
      var next := Step(s, calls[0]);
      assert AllOrNothing(s, next);
      RunOnlyAppendsNotes(next, calls[1..]);
      var r := Run(s, calls);
      assert r.notes[..|s.notes|] == r.notes[..|next.notes|][..|s.notes|];
    }
  }
}
