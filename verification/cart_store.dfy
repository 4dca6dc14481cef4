/** The cart store itself: the in-memory cart, the persisted slot it is written
    to after every committed mutation, and the three mutations as methods that
    work step by step on a copy of the cart, as the hook does. */
module UseCart {
  import opened CartSpec

  /** The linear `find`/`findIndex` scan: the index of the first item with id
      `id`, or -1. */
  method FindIndex(c: seq<Item>, id: int) returns (i: int)
    ensures i == Position(c, id)
    ensures i >= 0 <==> HasId(c, id)
  {
    PositionFindsPresent(c, id);
    i := 0;
    while i < |c|
      invariant 0 <= i <= |c|
      invariant forall j :: 0 <= j < i ==> c[j].id != id
    {
      if c[i].id == id {
        return;
      }
      i := i + 1;
    }
    i := -1;
  }

  class CartStore {
    /** The cart as the UI sees it. */
    var cart: seq<Item>
    /** The persisted slot: None while nothing has been stored under the cart key. */
    var persisted: Option<seq<Item>>

    /** The persisted slot always holds the last committed cart; it is absent
        only while the cart is still the initial empty one. */
    ghost predicate Valid()
      reads this
    {
      persisted == Some(cart) || (persisted == None && cart == [])
    }

    /** What the cart and the slot are after `s`, from the state before it. */
    ghost predicate Took(s: Step, cart0: seq<Item>, persisted0: Option<seq<Item>>)
      reads this
    {
      if s.Commit? then cart == s.next && persisted == Some(s.next)
      else cart == cart0 && persisted == persisted0
    }

    /** Loads the cart from the persisted slot: `stored` is what the slot holds
        (already deserialised), None when nothing is stored. */
    constructor (stored: Option<seq<Item>>)
      ensures Valid()
      ensures stored.None? ==> cart == []
      ensures stored.Some? ==> cart == stored.value
      ensures persisted == stored
    {
      persisted := stored;
      if stored.Some? {
        cart := stored.value;
      } else {
        cart := [];
      }
    }

    /** addProduct: `product` and `stock` stand for the answers of the product and
        stock endpoints, None when the request fails. Returns the notification. */
    method AddProduct(productId: int, product: Option<Product>, stock: Option<int>)
      returns (toast: Option<Message>)
      requires Valid()
      modifies this
      ensures Valid()
      ensures Took(AddStep(old(cart), productId, product, stock), old(cart), old(persisted))
      ensures toast == AddStep(old(cart), productId, product, stock).Toast()
      ensures old(UniqueIds(cart)) && (product.Some? ==> product.value.id == productId) ==>
                UniqueIds(cart)
    {
      if product.None? {
        return Some(AddFailed);
      }
      var current := cart;
      var i := FindIndex(current, productId);
      var held := if i >= 0 then current[i].amount else 0;
      if stock.None? {
        return Some(AddFailed);
      }
      if stock.value <= held {
        return Some(OutOfStock);
      }
      if i >= 0 {
        AddExisting(current, productId, product, stock);
        current := current[i := current[i].(amount := current[i].amount + 1)];
      } else {
        AddNew(current, productId, product, stock);
        current := current + [Item(product.value.id, product.value.details, 1)];
      }
      cart := current;
      persisted := Some(current);
      toast := None;
    }

    /** removeProduct: `rejected` is true when the hook returns `false`. */
    method RemoveProduct(productId: int) returns (rejected: bool, toast: Option<Message>)
      requires Valid()
      modifies this
      ensures Valid()
      ensures Took(RemoveStep(old(cart), productId), old(cart), old(persisted))
      ensures rejected <==> !HasId(old(cart), productId)
      ensures toast == RemoveStep(old(cart), productId).Toast()
      ensures old(UniqueIds(cart)) ==> UniqueIds(cart) && !HasId(cart, productId)
    {
      var current := cart;
      var i := FindIndex(current, productId);
      if i < 0 {
        return true, Some(RemoveFailed);
      }
      RemovePresent(current, productId);
      current := current[..i] + current[i + 1..];
      cart := current;
      persisted := Some(current);
      rejected, toast := false, None;
    }

    /** updateProductAmount: `stock` stands for the answer of the stock endpoint,
        None when the request fails; `rejected` is true when the hook returns
        `false`. */
    method UpdateProductAmount(productId: int, amount: int, stock: Option<int>)
      returns (rejected: bool, toast: Option<Message>)
      requires Valid()
      modifies this
      ensures Valid()
      ensures Took(UpdateStep(old(cart), productId, amount, stock), old(cart), old(persisted))
      ensures rejected == UpdateStep(old(cart), productId, amount, stock).Rejected()
      ensures toast == UpdateStep(old(cart), productId, amount, stock).Toast()
      ensures old(UniqueIds(cart)) ==> UniqueIds(cart)
    {
      if amount == 0 {
        return false, None;
      }
      var current := cart;
      var i := FindIndex(current, productId);
      if i < 0 {
        return true, Some(UpdateFailed);
      }
      if stock.None? {
        return false, Some(UpdateFailed);
      }
      if stock.value < amount {
        return true, Some(OutOfStock);
      }
      UpdatePresent(current, productId, amount, stock);
      current := current[i := current[i].(amount := amount)];
      cart := current;
      persisted := Some(current);
      rejected, toast := false, None;
    }
  }
}
