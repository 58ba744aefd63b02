/**
 * The state cells of `ShoppingCartProvider`: the cart list and the flag that
 * says whether the cart panel is open. Each exposed operation overwrites a
 * cell wholesale with the value its updater computes, as one atomic step.
 */
module ShoppingCartContext {

  import Cart

  class ShoppingCartProvider {
    var cartItems: seq<Cart.CartItem>
    var isOpen: bool

    /** The cart invariant holds of the current list. */
    ghost predicate Valid()
      reads this
    {
      Cart.Valid(cartItems)
    }

    /** Both cells start out as their initial values: an empty cart, a closed panel. */
    constructor ()
      ensures cartItems == [] && !isOpen
      ensures Valid()
    {
      cartItems := [];
      isOpen := false;
    }

    /** `openCart`: the panel is open afterwards, whatever it was, and the cart is untouched. */
    method OpenCart()
      modifies this
      ensures isOpen
      ensures cartItems == old(cartItems)
    {
      isOpen := true;
    }

    /** `closeCart`: the panel is closed afterwards, whatever it was, and the cart is untouched. */
    method CloseCart()
      modifies this
      ensures !isOpen
      ensures cartItems == old(cartItems)
    {
      isOpen := false;
    }

    /** `getItemQuantity` over the current list: 0 when absent, else the first entry's quantity. */
    function GetItemQuantity(id: int): (q: int)
      reads this
      ensures !Cart.Has(cartItems, id) ==> q == 0
      ensures forall k :: Cart.FirstAt(cartItems, id, k) ==> q == cartItems[k].quantity
    {
      Cart.GetItemQuantity(cartItems, id)
    }

    /** `cartQuantity` over the current list: the sum of all quantities. */
    function CartQuantity(): (n: int)
      reads this
      ensures n == Cart.Sum(cartItems)
    {
      Cart.CartQuantity(cartItems)
    }

    /** `increaseCartQuantity`: the list becomes the increase updater's result. */
    method IncreaseCartQuantity(id: int)
      modifies this
      ensures cartItems == Cart.IncreaseCartQuantity(old(cartItems), id)
      ensures isOpen == old(isOpen)
      ensures GetItemQuantity(id) == old(GetItemQuantity(id)) + 1
      ensures forall other :: other != id ==> GetItemQuantity(other) == old(GetItemQuantity(other))
      ensures old(Valid()) ==> Valid()
      ensures Cart.IdsUnique(old(cartItems)) ==> CartQuantity() == old(CartQuantity()) + 1
    {
      ghost var before := cartItems;
      cartItems := Cart.IncreaseCartQuantity(cartItems, id);
      forall other | other != id
        ensures GetItemQuantity(other) == Cart.GetItemQuantity(before, other)
      {
        Cart.IncreaseGet(before, id, other);
      }
      if Cart.Valid(before) {
        Cart.IncreaseValid(before, id);
      }
      if Cart.IdsUnique(before) {
        Cart.IncreaseTotal(before, id);
      }
    }

    /** `decreaseCartQuantity`: the list becomes the decrease updater's result. */
    method DecreaseCartQuantity(id: int)
      modifies this
      ensures cartItems == Cart.DecreaseCartQuantity(old(cartItems), id)
      ensures isOpen == old(isOpen)
      ensures !Cart.Has(old(cartItems), id) ==> cartItems == old(cartItems)
      ensures GetItemQuantity(id) == old(GetItemQuantity(id)) - (if Cart.Has(old(cartItems), id) then 1 else 0)
      ensures forall other :: other != id ==> GetItemQuantity(other) == old(GetItemQuantity(other))
      ensures old(Valid()) ==> Valid()
      ensures Cart.IdsUnique(old(cartItems)) ==>
        CartQuantity() == old(CartQuantity()) - (if Cart.Has(old(cartItems), id) then 1 else 0)
    {
      ghost var before := cartItems;
      cartItems := Cart.DecreaseCartQuantity(cartItems, id);
      if !Cart.Has(before, id) {
        Cart.DecreaseAbsent(before, id);
      }
      forall other | other != id
        ensures GetItemQuantity(other) == Cart.GetItemQuantity(before, other)
      {
        Cart.DecreaseGet(before, id, other);
      }
      if Cart.Valid(before) {
        Cart.DecreaseValid(before, id);
      }
      if Cart.IdsUnique(before) {
        Cart.DecreaseTotal(before, id);
      }
    }

    /** `removeFromCart`: the list becomes the remove updater's result. */
    method RemoveFromCart(id: int)
      modifies this
      ensures cartItems == Cart.RemoveFromCart(old(cartItems), id)
      ensures isOpen == old(isOpen)
      ensures GetItemQuantity(id) == 0
      ensures forall other :: other != id ==> GetItemQuantity(other) == old(GetItemQuantity(other))
      ensures !Cart.Has(old(cartItems), id) ==> cartItems == old(cartItems)
      ensures old(Valid()) ==> Valid()
      ensures Cart.IdsUnique(old(cartItems)) ==> CartQuantity() == old(CartQuantity()) - old(GetItemQuantity(id))
    {
      ghost var before := cartItems;
      cartItems := Cart.RemoveFromCart(cartItems, id);
      forall other | other != id
        ensures GetItemQuantity(other) == Cart.GetItemQuantity(before, other)
      {
        Cart.RemoveGet(before, id, other);
      }
      if !Cart.Has(before, id) {
        Cart.RemoveAbsent(before, id);
      }
      if Cart.Valid(before) {
        Cart.RemoveValid(before, id);
      }
      if Cart.IdsUnique(before) {
        Cart.RemoveTotal(before, id);
      }
    }
  }
}
