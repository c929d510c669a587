/** The shopping cart shared by the storefront pages: a list of services keyed
    by `documentId`, the operations that replace it, and the folds over it. */
module CartContext {
  import opened JsValues
  import opened Seqs
  import opened Services

  /** No two cart items share a `documentId`. */
  predicate UniqueIds(items: seq<Service>)
  {
    forall i, j :: 0 <= i < j < |items| ==> items[i].documentId != items[j].documentId
  }

  /** The cart `addToCart(service)` leaves behind. */
  function Added(items: seq<Service>, s: Service): (r: seq<Service>)
    // a service whose documentId is already present changes nothing
    ensures HasId(items, s.documentId) ==> r == items
    // otherwise it is appended behind the existing items, which keep their order
    ensures !HasId(items, s.documentId) ==> |r| == |items| + 1 && r[..|items|] == items && r[|items|] == s
    ensures HasId(r, s.documentId)
    ensures UniqueIds(items) ==> UniqueIds(r)
  {
    if HasId(items, s.documentId) then items
    else
      var r := items + [s];
      assert r[|items|] == s;
      r
  }

  /** The cart `removeFromCart(id)` leaves behind: `items.filter(item => item.documentId !== id)`. */
  function Removed(items: seq<Service>, id: string): seq<Service>
  {
    Filter(items, (x: Service) => x.documentId != id)
  }

  /** Removal drops every item with that id, keeps every other item, keeps the
      survivors in their order, and keeps ids unique. */
  lemma RemovedSpec(items: seq<Service>, id: string)
    ensures !HasId(Removed(items, id), id)
    ensures forall x :: x in Removed(items, id) <==> x in items && x.documentId != id
    ensures IsSubseq(Removed(items, id), items)
    ensures UniqueIds(items) ==> UniqueIds(Removed(items, id))
  {
    var p := (x: Service) => x.documentId != id;
    var r := Filter(items, p);
    forall x ensures x in r <==> x in items && x.documentId != id {
      FilterMembership(items, p, x);
    }
    FilterIsSubseq(items, p);
    if UniqueIds(items) {
      RemovedUnique(items, id);
    }
  }

  lemma {:induction false} RemovedUnique(items: seq<Service>, id: string)
    requires UniqueIds(items)
    ensures UniqueIds(Removed(items, id))
  {
    if items != [] {
      var p := (x: Service) => x.documentId != id;
      var rest := items[1..];
      assert UniqueIds(rest) by {
        forall i, j | 0 <= i < j < |rest| ensures rest[i].documentId != rest[j].documentId {
          assert rest[i] == items[i + 1] && rest[j] == items[j + 1];
        }
      }
      RemovedUnique(rest, id);
      var r := Removed(rest, id);
      if p(items[0]) {
        var w := [items[0]] + r;
        forall i, j | 0 <= i < j < |w| ensures w[i].documentId != w[j].documentId {
          if i == 0 {
            assert w[j] == r[j - 1];
            FilterMembership(rest, p, w[j]);
            var k :| 0 <= k < |rest| && rest[k] == w[j];
            assert items[k + 1] == w[j];
          } else {
            assert w[i] == r[i - 1] && w[j] == r[j - 1];
          }
        }
        assert Removed(items, id) == w;
      } else {
        assert Removed(items, id) == r;
      }
    }
  }

  /** `canAddService(s)`: an add-on can always be added; a main service only
      when the cart holds no main service yet. */
  predicate CanAddService(items: seq<Service>, s: Service)
  {
    !(!s.isAddOn && exists i :: 0 <= i < |items| && !items[i].isAddOn)
  }

  /** How many main services the cart holds. */
  function MainCount(items: seq<Service>): nat
  {
    |Filter(items, IsMain)|
  }

  /** `canAddService` refuses exactly a main service when one is present. */
  lemma CanAddServiceSpec(items: seq<Service>, s: Service)
    ensures !CanAddService(items, s) <==> IsMain(s) && MainCount(items) > 0
  {
    if exists i :: 0 <= i < |items| && !items[i].isAddOn {
      var i :| 0 <= i < |items| && !items[i].isAddOn;
      FilterMembership(items, IsMain, items[i]);
    }
    if MainCount(items) > 0 {
      var m := Filter(items, IsMain);
      FilterMembership(items, IsMain, m[0]);
    }
  }

  /** Adding only what `canAddService` allows keeps at most one main service in
      the cart. */
  lemma GuardedAddKeepsOneMain(items: seq<Service>, s: Service)
    requires MainCount(items) <= 1
    requires CanAddService(items, s)
    ensures MainCount(Added(items, s)) <= 1
  {
    if !HasId(items, s.documentId) {
      FilterConcat(items, [s], IsMain);
      CanAddServiceSpec(items, s);
      assert [s][1..] == [];
    }
  }

  /** The cart total grows by exactly the added service's price. */
  lemma AddedTotals(items: seq<Service>, s: Service)
    requires !HasId(items, s.documentId)
    ensures TotalPrice(Added(items, s)) == TotalPrice(items) + ItemPrice(s)
    ensures TotalDuration(Added(items, s)) == TotalDuration(items) + ItemDuration(s)
  {
    assert (items + [s])[..|items|] == items;
  }

  /** The cart provider's state. Every operation replaces `items` as the source
      replaces its `cart` state; the queries only read it. */
  class Cart {
    var items: seq<Service>

    ghost predicate Valid()
      reads this
    {
      UniqueIds(items)
    }

    /** `useState([])`: the cart starts empty. */
    constructor ()
      ensures Valid() && items == []
    {
      items := [];
    }

    /** `addToCart(service)`; `duplicate` stands for the "already in your cart"
        alert, shown exactly when the cart is left unchanged. */
    method AddToCart(s: Service) returns (duplicate: bool)
      requires Valid()
      modifies this
      ensures Valid()
      ensures duplicate == HasId(old(items), s.documentId)
      ensures items == Added(old(items), s)
    {
      duplicate := exists i :: 0 <= i < |items| && items[i].documentId == s.documentId;
      if !duplicate {
        items := items + [s];
      }
    }

    /** `removeFromCart(serviceId)`. */
    method RemoveFromCart(id: string)
      requires Valid()
      modifies this
      ensures Valid()
      ensures items == Removed(old(items), id)
    {
      RemovedSpec(items, id);
      items := Removed(items, id);
    }

    /** `clearCart()`. */
    method ClearCart()
      modifies this
      ensures Valid() && items == []
    {
      items := [];
    }

    /** `cartCount`. */
    function CartCount(): nat
      reads this
    {
      |items|
    }

    /** `getCartTotal()`. */
    function GetCartTotal(): int
      reads this
    {
      TotalPrice(items)
    }

    /** `getCartDeposit()`; `None` stands for NaN. */
    function GetCartDeposit(): Option<int>
      reads this
    {
      RawDepositSum(items)
    }

    /** `getTotalDuration()`. */
    function GetTotalDuration(): int
      reads this
    {
      TotalDuration(items)
    }

    /** `canAddService(service)`. */
    predicate CanAdd(s: Service)
      reads this
    {
      CanAddService(items, s)
    }
  }
}
