/**
 * The cart list of the storefront's `ShoppingCartProvider` as a value: an
 * ordered sequence of (product id, quantity) entries and the pure transforms
 * that the provider hands to `setCartItems`. Each transform takes the old list
 * and returns a new one; none of them changes its argument.
 */
module Cart {

  datatype Option<T> = None | Some(value: T)

  /** One cart line: a product id and how many of that product are in the cart. */
  datatype CartItem = CartItem(id: int, quantity: int)

  /** Some entry of `items` carries `id`. */
  ghost predicate Has(items: seq<CartItem>, id: int)
  {
    exists i :: 0 <= i < |items| && items[i].id == id
  }

  /** `k` is the position of the first entry of `items` that carries `id`. */
  ghost predicate FirstAt(items: seq<CartItem>, id: int, k: int)
  {
    && 0 <= k < |items|
    && items[k].id == id
    && forall j :: 0 <= j < k ==> items[j].id != id
  }

  /** No two entries carry the same id. */
  ghost predicate IdsUnique(items: seq<CartItem>)
  {
    forall i, j :: 0 <= i < j < |items| ==> items[i].id != items[j].id
  }

  /** Every entry holds at least one unit; an entry that would reach 0 is dropped. */
  ghost predicate QuantitiesPositive(items: seq<CartItem>)
  {
    forall i :: 0 <= i < |items| ==> items[i].quantity >= 1
  }

  /** The cart invariant: unique ids and positive quantities. */
  ghost predicate Valid(items: seq<CartItem>)
  {
    IdsUnique(items) && QuantitiesPositive(items)
  }

  /** Looking past a head entry with another id changes neither presence nor first positions. */
  lemma HasTail(items: seq<CartItem>, id: int)
    requires items != [] && items[0].id != id
    ensures Has(items, id) <==> Has(items[1..], id)
    ensures forall k :: FirstAt(items[1..], id, k) ==> FirstAt(items, id, k + 1)
  {
    if Has(items, id) {
      var i :| 0 <= i < |items| && items[i].id == id;
      assert items[1..][i - 1].id == id;
    }
    if Has(items[1..], id) {
      var i :| 0 <= i < |items[1..]| && items[1..][i].id == id;
      assert items[i + 1].id == id;
    }
  }

  /** Under unique ids, the entries after a head never carry the head's id. */
  lemma TailLacks(items: seq<CartItem>, id: int)
    requires IdsUnique(items)
    requires items != [] && items[0].id == id
    ensures !Has(items[1..], id)
  {
    forall i | 0 <= i < |items[1..]|
      ensures items[1..][i].id != id
    {
      assert items[1..][i] == items[i + 1];
    }
  }

  // ---------------------------------------------------------------------------
  // Reads
  // ---------------------------------------------------------------------------

  /** `items.find(item => item.id === id)`: the first entry carrying `id`, if any. */
  function Find(items: seq<CartItem>, id: int): (r: Option<CartItem>)
    ensures r.None? <==> !Has(items, id)
    ensures r.Some? ==> exists k :: FirstAt(items, id, k) && items[k] == r.value
  {
    if items == [] then None
    else if items[0].id == id then
      assert FirstAt(items, id, 0);
      Some(items[0])
    else
      HasTail(items, id);
      Find(items[1..], id)
  }

  /** A cart that carries `id` has a first entry for it. */
  lemma FirstExists(items: seq<CartItem>, id: int) returns (k: int)
    requires Has(items, id)
    ensures FirstAt(items, id, k)
  {
    assert Find(items, id).Some?;
    k :| FirstAt(items, id, k) && items[k] == Find(items, id).value;
  }

  /**
   * `getItemQuantity`: the quantity of the first entry carrying `id`, with the
   * `|| 0` default when there is none.
   */
  function GetItemQuantity(items: seq<CartItem>, id: int): (q: int)
    ensures !Has(items, id) ==> q == 0
    ensures forall k :: FirstAt(items, id, k) ==> q == items[k].quantity
  {
    match Find(items, id)
    case None => 0
    case Some(item) => if item.quantity != 0 then item.quantity else 0
  }

  /** Under unique ids, the quantity read for `id` is that of its (only) entry. */
  lemma QuantityAt(items: seq<CartItem>, id: int, k: int)
    requires IdsUnique(items)
    requires 0 <= k < |items| && items[k].id == id
    ensures GetItemQuantity(items, id) == items[k].quantity
  {
    assert FirstAt(items, id, k);
  }

  /** Reference definition of the total: the sum of all quantities. */
  function Sum(items: seq<CartItem>): int
  {
    if items == [] then 0 else items[0].quantity + Sum(items[1..])
  }

  /**
   * `reduce((quantity, item) => item.quantity + quantity, acc)`: a left fold,
   * which adds up to the accumulator plus the sum of all quantities.
   */
  function ReduceQuantity(items: seq<CartItem>, acc: int): (r: int)
    ensures r == acc + Sum(items)
  {
    if items == [] then acc else ReduceQuantity(items[1..], items[0].quantity + acc)
  }

  /** `cartQuantity`: the fold with initial value 0 is the sum of all quantities. */
  function CartQuantity(items: seq<CartItem>): (n: int)
    ensures n == Sum(items)
  {
    ReduceQuantity(items, 0)
  }

  lemma {:induction false} SumAppend(a: seq<CartItem>, b: seq<CartItem>)
    ensures Sum(a + b) == Sum(a) + Sum(b)
  {
    if a == [] {
      assert a + b == b;
    } else {
      assert (a + b)[1..] == a[1..] + b;
      SumAppend(a[1..], b);
    }
  }

  // ---------------------------------------------------------------------------
  // The array callbacks the updaters are built from
  // ---------------------------------------------------------------------------

  /**
   * `items.map(item => item.id === id ? {...item, quantity: item.quantity + delta} : item)`:
   * every entry carrying `id` has its quantity moved by `delta`, the rest is kept.
   */
  function MapQuantity(items: seq<CartItem>, id: int, delta: int): (r: seq<CartItem>)
    ensures |r| == |items|
    ensures forall i :: 0 <= i < |items| ==> r[i].id == items[i].id
    ensures forall i :: 0 <= i < |items| && items[i].id != id ==> r[i] == items[i]
    ensures forall i :: 0 <= i < |items| && items[i].id == id ==> r[i].quantity == items[i].quantity + delta
  {
    if items == [] then []
    else
      var head := if items[0].id == id then items[0].(quantity := items[0].quantity + delta) else items[0];
      [head] + MapQuantity(items[1..], id, delta)
  }

  /** Mapping over a cart without `id` yields an equal list. */
  lemma MapQuantityAbsent(items: seq<CartItem>, id: int, delta: int)
    requires !Has(items, id)
    ensures MapQuantity(items, id, delta) == items
  {
    var r := MapQuantity(items, id, delta);
    forall i | 0 <= i < |items|
      ensures r[i] == items[i]
    {
      assert items[i].id != id;
    }
  }

  /** Two lists whose ids agree position by position have the same first positions. */
  lemma SameIds(a: seq<CartItem>, b: seq<CartItem>, id: int)
    requires |a| == |b|
    requires forall i :: 0 <= i < |a| ==> a[i].id == b[i].id
    ensures Has(a, id) <==> Has(b, id)
    ensures forall k :: FirstAt(a, id, k) <==> FirstAt(b, id, k)
  {
    if Has(a, id) {
      var i :| 0 <= i < |a| && a[i].id == id;
      assert b[i].id == id;
    }
    if Has(b, id) {
      var i :| 0 <= i < |b| && b[i].id == id;
      assert a[i].id == id;
    }
  }

  /** The read after a map: the quantity for `other` moves by `delta` exactly when `other` is `id`. */
  lemma MapQuantityGet(items: seq<CartItem>, id: int, delta: int, other: int)
    ensures GetItemQuantity(MapQuantity(items, id, delta), other)
         == GetItemQuantity(items, other) + (if other == id && Has(items, id) then delta else 0)
  {
    var r := MapQuantity(items, id, delta);
    SameIds(r, items, other);
    if Has(items, other) {
      var k := FirstExists(items, other);
      assert FirstAt(r, other, k);
    }
  }

  /** `items.filter(item => item.id !== id)`: every entry carrying `id` is dropped. */
  function FilterOut(items: seq<CartItem>, id: int): (r: seq<CartItem>)
    ensures forall x :: x in r <==> x in items && x.id != id
    ensures |r| <= |items|
  {
    if items == [] then []
    else if items[0].id == id then FilterOut(items[1..], id)
    else [items[0]] + FilterOut(items[1..], id)
  }

  /** The filtered list has no entry carrying `id`. */
  lemma FilterOutHasNot(items: seq<CartItem>, id: int)
    ensures !Has(FilterOut(items, id), id)
  {
    var r := FilterOut(items, id);
    forall i | 0 <= i < |r|
      ensures r[i].id != id
    {
      assert r[i] in r;
    }
  }

  /** Filtering an id the cart does not carry keeps the list as it is. */
  lemma {:induction false} FilterOutAbsent(items: seq<CartItem>, id: int)
    requires !Has(items, id)
    ensures FilterOut(items, id) == items
  {
    if items != [] {
      assert items[0].id != id;
      HasTail(items, id);
      FilterOutAbsent(items[1..], id);
      assert [items[0]] + items[1..] == items;
    }
  }

  /** Filtering the id of the only entry at `k` removes exactly that entry, in order. */
  lemma {:induction false} FilterOutAt(items: seq<CartItem>, id: int, k: int)
    requires IdsUnique(items)
    requires 0 <= k < |items| && items[k].id == id
    ensures FilterOut(items, id) == items[..k] + items[k + 1..]
  {
    if k == 0 {
      TailLacks(items, id);
      FilterOutAbsent(items[1..], id);
      assert items[..0] + items[1..] == items[1..];
    } else {
      assert items[0].id != items[k].id;
      UniqueTail(items);
      FilterOutAt(items[1..], id, k - 1);
      CutTail(items, k);
    }
  }

  /** Dropping the head keeps ids unique. */
  lemma UniqueTail(items: seq<CartItem>)
    requires IdsUnique(items) && items != []
    ensures IdsUnique(items[1..])
  {
    var tail := items[1..];
    forall i, j | 0 <= i < j < |tail|
      ensures tail[i].id != tail[j].id
    {
      assert tail[i] == items[i + 1] && tail[j] == items[j + 1];
    }
  }

  /** Cutting position `k - 1` out of the tail is cutting position `k` out of the list, minus its head. */
  lemma CutTail(items: seq<CartItem>, k: int)
    requires 0 < k < |items|
    ensures [items[0]] + (items[1..][..k - 1] + items[1..][k..]) == items[..k] + items[k + 1..]
  {
    assert items[1..][..k - 1] == items[1..k];
    assert items[1..][k..] == items[k + 1..];
    assert items[..k] == [items[0]] + items[1..k];
  }

  /** The read after a filter: `id` reads 0 and every other id reads as before. */
  lemma {:induction false} FilterOutGet(items: seq<CartItem>, id: int, other: int)
    ensures GetItemQuantity(FilterOut(items, id), other)
         == if other == id then 0 else GetItemQuantity(items, other)
  {
    var r := FilterOut(items, id);
    if other == id {
      FilterOutHasNot(items, id);
    } else if items != [] {
      FilterOutGet(items[1..], id, other);
      if items[0].id != id {
        assert r == [items[0]] + FilterOut(items[1..], id);
        assert r[0] == items[0];
        assert r[1..] == FilterOut(items[1..], id);
      }
    }
  }

  /** A head whose id no later entry carries extends a list of unique ids. */
  lemma ConsUnique(x: CartItem, s: seq<CartItem>)
    requires IdsUnique(s)
    requires forall y :: y in s ==> y.id != x.id
    ensures IdsUnique([x] + s)
  {
    var t := [x] + s;
    forall i, j | 0 <= i < j < |t|
      ensures t[i].id != t[j].id
    {
      if i == 0 {
        assert t[j] == s[j - 1];
        assert s[j - 1] in s;
      } else {
        assert t[i] == s[i - 1] && t[j] == s[j - 1];
      }
    }
  }

  /** Filtering keeps the cart invariant. */
  lemma {:induction false} FilterOutValid(items: seq<CartItem>, id: int)
    requires Valid(items)
    ensures Valid(FilterOut(items, id))
  {
    var r := FilterOut(items, id);
    forall i | 0 <= i < |r|
      ensures r[i].quantity >= 1
    {
      assert r[i] in r;
      assert r[i] in items;
    }
    if items != [] {
      FilterOutValid(items[1..], id);
      if items[0].id != id {
        var rest := FilterOut(items[1..], id);
        forall y | y in rest
          ensures y.id != items[0].id
        {
          assert y in items[1..];
          var j :| 0 <= j < |items[1..]| && items[1..][j] == y;
          assert items[j + 1] == y;
        }
        ConsUnique(items[0], rest);
      }
    }
  }

  /** Under unique ids, mapping the quantity of `id` moves the total by `delta`. */
  lemma {:induction false} SumMapQuantity(items: seq<CartItem>, id: int, delta: int)
    requires IdsUnique(items)
    ensures Sum(MapQuantity(items, id, delta)) == Sum(items) + (if Has(items, id) then delta else 0)
  {
    if items != [] {
      var r := MapQuantity(items, id, delta);
      assert r[1..] == MapQuantity(items[1..], id, delta);
      assert IdsUnique(items[1..]);
      if items[0].id == id {
        assert Has(items, id);
        TailLacks(items, id);
        MapQuantityAbsent(items[1..], id, delta);
      } else {
        HasTail(items, id);
        SumMapQuantity(items[1..], id, delta);
      }
    }
  }

  /** The total splits around any entry. */
  lemma SumSplit(items: seq<CartItem>, k: int)
    requires 0 <= k < |items|
    ensures Sum(items) == Sum(items[..k]) + items[k].quantity + Sum(items[k + 1..])
  {
    assert items == items[..k] + items[k..];
    SumAppend(items[..k], items[k..]);
    assert items[k..][1..] == items[k + 1..];
  }

  /** Under unique ids, filtering `id` takes that entry's quantity off the total. */
  lemma SumFilterOut(items: seq<CartItem>, id: int)
    requires IdsUnique(items)
    ensures Sum(FilterOut(items, id)) == Sum(items) - GetItemQuantity(items, id)
  {
    if Has(items, id) {
      var k := FirstExists(items, id);
      FilterOutAt(items, id, k);
      SumSplit(items, k);
      SumAppend(items[..k], items[k + 1..]);
    } else {
      FilterOutAbsent(items, id);
    }
  }

  // ---------------------------------------------------------------------------
  // The updaters passed to setCartItems
  // ---------------------------------------------------------------------------

  /** `increaseCartQuantity`: append `{id, quantity: 1}` when absent, else add 1. */
  function IncreaseCartQuantity(items: seq<CartItem>, id: int): (r: seq<CartItem>)
    ensures GetItemQuantity(r, id) == GetItemQuantity(items, id) + 1
  {
    if Find(items, id).None? then
      var r := items + [CartItem(id, 1)];
      assert FirstAt(r, id, |items|);
      r
    else
      MapQuantityGet(items, id, 1, id);
      MapQuantity(items, id, 1)
  }

  /** `decreaseCartQuantity`: drop the id when its first entry holds 1, else subtract 1. */
  function DecreaseCartQuantity(items: seq<CartItem>, id: int): (r: seq<CartItem>)
    ensures GetItemQuantity(r, id) == GetItemQuantity(items, id) - (if Has(items, id) then 1 else 0)
  {
    var found := Find(items, id);
    if found.Some? && found.value.quantity == 1 then
      FilterOutGet(items, id, id);
      FilterOut(items, id)
    else
      MapQuantityGet(items, id, -1, id);
      MapQuantity(items, id, -1)
  }

  /** `removeFromCart`: drop every entry carrying `id`. */
  function RemoveFromCart(items: seq<CartItem>, id: int): (r: seq<CartItem>)
    ensures !Has(r, id)
    ensures GetItemQuantity(r, id) == 0
    ensures forall x :: x in r <==> x in items && x.id != id
  {
    FilterOutHasNot(items, id);
    FilterOut(items, id)
  }

  // ---- increase ----

  /** Increase on an absent id appends `{id, 1}` and keeps every earlier entry. */
  lemma IncreaseAbsent(items: seq<CartItem>, id: int)
    requires !Has(items, id)
    ensures IncreaseCartQuantity(items, id) == items + [CartItem(id, 1)]
  {
  }

  /** Increase on a present id keeps length, order and ids, and adds 1 to that id only. */
  lemma IncreasePresent(items: seq<CartItem>, id: int)
    requires Has(items, id)
    ensures var r := IncreaseCartQuantity(items, id);
      && |r| == |items|
      && (forall i :: 0 <= i < |items| ==> r[i].id == items[i].id)
      && (forall i :: 0 <= i < |items| && items[i].id == id ==> r[i].quantity == items[i].quantity + 1)
      && (forall i :: 0 <= i < |items| && items[i].id != id ==> r[i] == items[i])
  {
  }

  /** After increase, `id` reads one more and every other id reads as before. */
  lemma IncreaseGet(items: seq<CartItem>, id: int, other: int)
    ensures GetItemQuantity(IncreaseCartQuantity(items, id), other)
         == GetItemQuantity(items, other) + (if other == id then 1 else 0)
  {
    var r := IncreaseCartQuantity(items, id);
    if !Has(items, id) {
      if other != id {
        if Has(items, other) {
          var k := FirstExists(items, other);
          assert FirstAt(r, other, k);
        } else {
          forall i | 0 <= i < |r|
            ensures r[i].id != other
          {
            if i < |items| {
              assert r[i] == items[i];
            }
          }
        }
      }
    } else {
      MapQuantityGet(items, id, 1, other);
    }
  }

  /** Increase keeps the cart invariant. */
  lemma IncreaseValid(items: seq<CartItem>, id: int)
    requires Valid(items)
    ensures Valid(IncreaseCartQuantity(items, id))
  {
    var r := IncreaseCartQuantity(items, id);
    if !Has(items, id) {
      forall i, j | 0 <= i < j < |r|
        ensures r[i].id != r[j].id
      {
        if j == |items| {
          assert r[i] == items[i];
        }
      }
    }
  }

  /** Under unique ids, increase raises the total by exactly 1. */
  lemma IncreaseTotal(items: seq<CartItem>, id: int)
    requires IdsUnique(items)
    ensures CartQuantity(IncreaseCartQuantity(items, id)) == CartQuantity(items) + 1
  {
    if Has(items, id) {
      SumMapQuantity(items, id, 1);
    } else {
      SumAppend(items, [CartItem(id, 1)]);
    }
  }

  // ---- decrease ----

  /** Decrease on an absent id returns an equal list: nothing is created, nothing goes negative. */
  lemma DecreaseAbsent(items: seq<CartItem>, id: int)
    requires !Has(items, id)
    ensures DecreaseCartQuantity(items, id) == items
  {
    MapQuantityAbsent(items, id, -1);
  }

  /** Decrease of a unique entry holding 1 removes exactly that entry; the rest keep their order. */
  lemma DecreaseLast(items: seq<CartItem>, id: int, k: int)
    requires IdsUnique(items)
    requires 0 <= k < |items| && items[k].id == id && items[k].quantity == 1
    ensures DecreaseCartQuantity(items, id) == items[..k] + items[k + 1..]
  {
    assert FirstAt(items, id, k);
    FilterOutAt(items, id, k);
  }

  /** Decrease when the first entry for `id` holds other than 1 subtracts 1 from that id only. */
  lemma DecreaseMore(items: seq<CartItem>, id: int, k: int)
    requires FirstAt(items, id, k) && items[k].quantity != 1
    ensures var r := DecreaseCartQuantity(items, id);
      && |r| == |items|
      && (forall i :: 0 <= i < |items| ==> r[i].id == items[i].id)
      && (forall i :: 0 <= i < |items| && items[i].id == id ==> r[i].quantity == items[i].quantity - 1)
      && (forall i :: 0 <= i < |items| && items[i].id != id ==> r[i] == items[i])
  {
  }

  /** Decrease takes 1 off the read of a present id and leaves every other read alone. */
  lemma DecreaseGet(items: seq<CartItem>, id: int, other: int)
    ensures GetItemQuantity(DecreaseCartQuantity(items, id), other)
         == GetItemQuantity(items, other) - (if other == id && Has(items, id) then 1 else 0)
  {
    var found := Find(items, id);
    if found.Some? && found.value.quantity == 1 {
      FilterOutGet(items, id, other);
      var k := FirstExists(items, id);
    } else {
      MapQuantityGet(items, id, -1, other);
    }
  }

  /** Decrease keeps the cart invariant. */
  lemma DecreaseValid(items: seq<CartItem>, id: int)
    requires Valid(items)
    ensures Valid(DecreaseCartQuantity(items, id))
  {
    var found := Find(items, id);
    if found.Some? && found.value.quantity == 1 {
      FilterOutValid(items, id);
    } else if Has(items, id) {
      var r := MapQuantity(items, id, -1);
      forall i | 0 <= i < |items| && items[i].id == id
        ensures r[i].quantity >= 1
      {
        QuantityAt(items, id, i);
      }
    } else {
      MapQuantityAbsent(items, id, -1);
    }
  }

  /** Under unique ids, decrease lowers the total by 1 when `id` is present, else keeps it. */
  lemma DecreaseTotal(items: seq<CartItem>, id: int)
    requires IdsUnique(items)
    ensures CartQuantity(DecreaseCartQuantity(items, id))
         == CartQuantity(items) - (if Has(items, id) then 1 else 0)
  {
    var found := Find(items, id);
    if found.Some? && found.value.quantity == 1 {
      SumFilterOut(items, id);
      var k := FirstExists(items, id);
    } else {
      SumMapQuantity(items, id, -1);
    }
  }

  // ---- remove ----

  /** Removing an id the cart does not carry is a no-op. */
  lemma RemoveAbsent(items: seq<CartItem>, id: int)
    requires !Has(items, id)
    ensures RemoveFromCart(items, id) == items
  {
    FilterOutAbsent(items, id);
  }

  /** Removing the id of the unique entry at `k` drops exactly that entry; the rest keep their order. */
  lemma RemovePresent(items: seq<CartItem>, id: int, k: int)
    requires IdsUnique(items)
    requires 0 <= k < |items| && items[k].id == id
    ensures RemoveFromCart(items, id) == items[..k] + items[k + 1..]
  {
    FilterOutAt(items, id, k);
  }

  /** After remove, every id other than the removed one reads as before. */
  lemma RemoveGet(items: seq<CartItem>, id: int, other: int)
    requires other != id
    ensures GetItemQuantity(RemoveFromCart(items, id), other) == GetItemQuantity(items, other)
  {
    FilterOutGet(items, id, other);
  }

  /** Remove keeps the cart invariant. */
  lemma RemoveValid(items: seq<CartItem>, id: int)
    requires Valid(items)
    ensures Valid(RemoveFromCart(items, id))
  {
    FilterOutValid(items, id);
  }

  /** Under unique ids, remove takes the removed entry's quantity off the total. */
  lemma RemoveTotal(items: seq<CartItem>, id: int)
    requires IdsUnique(items)
    ensures CartQuantity(RemoveFromCart(items, id)) == CartQuantity(items) - GetItemQuantity(items, id)
  {
    SumFilterOut(items, id);
  }
}
