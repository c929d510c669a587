/** The cart page: the cart shown main services first (`Ordering.MainFirst`),
    each item's displayed price (`Services.ItemPrice`), and the add-ons it
    suggests from the full service list. */
module CartPage {
  import opened Seqs
  import opened Services
  import opened CartContext

  /** `allServices.filter(service => service.IsAddOn && !cart.some(item => item.documentId === service.documentId))`. */
  function SuggestedAddOns(all: seq<Service>, cart: seq<Service>): seq<Service>
  {
    Filter(all, (s: Service) => s.isAddOn && !HasId(cart, s.documentId))
  }

  /** A service is suggested exactly when it is a fetched add-on whose id is not
      in the cart; suggestions keep the order of the fetched list. */
  lemma SuggestedAddOnsSpec(all: seq<Service>, cart: seq<Service>)
    ensures forall s :: s in SuggestedAddOns(all, cart) <==> s in all && s.isAddOn && !HasId(cart, s.documentId)
    ensures IsSubseq(SuggestedAddOns(all, cart), all)
  {
    var p := (s: Service) => s.isAddOn && !HasId(cart, s.documentId);
    forall s ensures s in Filter(all, p) <==> s in all && p(s) {
      FilterMembership(all, p, s);
    }
    FilterIsSubseq(all, p);
  }

  /** Whatever is in the cart is never suggested, and adding a suggestion
      withdraws it from the suggestions while the others stay. */
  lemma SuggestionAfterAdd(all: seq<Service>, cart: seq<Service>, s: Service)
    requires s in SuggestedAddOns(all, cart)
    ensures forall x :: x in SuggestedAddOns(all, Added(cart, s)) <==> x in SuggestedAddOns(all, cart) && x.documentId != s.documentId
  {
    SuggestedAddOnsSpec(all, cart);
    assert Added(cart, s) == cart + [s];
    SuggestedAddOnsSpec(all, cart + [s]);
    forall x: Service ensures HasId(cart + [s], x.documentId) <==> HasId(cart, x.documentId) || x.documentId == s.documentId {
      if HasId(cart + [s], x.documentId) {
        var i :| 0 <= i < |cart + [s]| && (cart + [s])[i].documentId == x.documentId;
        if i < |cart| { assert cart[i] == (cart + [s])[i]; }
      }
      if HasId(cart, x.documentId) {
        var i :| 0 <= i < |cart| && cart[i].documentId == x.documentId;
        assert (cart + [s])[i] == cart[i];
      }
      assert (cart + [s])[|cart|] == s;
    }
  }
}
