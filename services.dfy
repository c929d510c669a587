/** A salon service as fetched from the content API, and the per-item and
    per-list money and time computations shared by the cart and the booking
    summary. */
module Services {
  import opened JsValues
  import opened Seqs

  /** The fields of a service the modelled logic reads. */
  datatype Service = Service(
    documentId: string,
    isAddOn: bool,
    onSalesPrice: Field,
    price: Field,
    deposit: Field,
    duration: Field)

  /** A main service is one whose `IsAddOn` flag is falsy. */
  predicate IsMain(s: Service)
  {
    !s.isAddOn
  }

  predicate IsAddOn(s: Service)
  {
    s.isAddOn
  }

  /** `list.some(item => item.documentId === id)`. */
  predicate HasId(items: seq<Service>, id: string)
  {
    exists i :: 0 <= i < |items| && items[i].documentId == id
  }

  /** `service.OnSalesPrice || service.Price || 0`: the price shown and charged. */
  function ItemPrice(s: Service): (r: int)
    // a sale price that is set wins over the list price
    ensures Truthy(s.onSalesPrice) ==> r == s.onSalesPrice.n
    // the list price applies exactly when there is no sale price
    ensures !Truthy(s.onSalesPrice) && Truthy(s.price) ==> r == s.price.n
    // a service with neither price costs nothing
    ensures !Truthy(s.onSalesPrice) && !Truthy(s.price) ==> r == 0
    ensures NonNegativeMoney(s) ==> r >= 0
  {
    Or(s.onSalesPrice, Or(s.price, 0))
  }

  /** `service.Deposit || 0`. */
  function ItemDeposit(s: Service): int
  {
    Or(s.deposit, 0)
  }

  /** `service.Duration || 0`. */
  function ItemDuration(s: Service): int
  {
    Or(s.duration, 0)
  }

  /** No price field holds a negative number. */
  predicate NonNegativeMoney(s: Service)
  {
    (s.onSalesPrice.Value? ==> s.onSalesPrice.n >= 0) && (s.price.Value? ==> s.price.n >= 0)
  }

  /** Sum of the item prices (the cart total and the booking's total price). */
  function TotalPrice(items: seq<Service>): int
  {
    SumOf(items, ItemPrice)
  }

  /** Sum of `Deposit || 0` (the booking summary's deposit). */
  function TotalDeposit(items: seq<Service>): int
  {
    SumOf(items, ItemDeposit)
  }

  /** Sum of `Duration || 0` (the cart's total duration). */
  function TotalDuration(items: seq<Service>): int
  {
    SumOf(items, ItemDuration)
  }

  /** `items.reduce((total, s) => total + s.Deposit, 0)` with no default: a null
      deposit adds nothing (JavaScript turns null into 0) and an absent one turns
      the running total into NaN, which stays NaN. `None` stands for NaN. */
  function RawDepositSum(items: seq<Service>): Option<int>
  {
    if items == [] then Some(0)
    else
      match RawDepositSum(items[..|items| - 1])
      case None => None
      case Some(total) =>
        match items[|items| - 1].deposit
        case Undefined => None
        case Null => Some(total)
        case Value(n) => Some(total + n)
  }

  /** The raw deposit sum is NaN exactly when some item has no Deposit field, and
      otherwise equals the defaulted sum. */
  lemma {:induction false} RawDepositSumAgrees(items: seq<Service>)
    ensures RawDepositSum(items).None? <==> exists i :: 0 <= i < |items| && items[i].deposit.Undefined?
    ensures RawDepositSum(items).Some? ==> RawDepositSum(items).value == TotalDeposit(items)
  {
    if items != [] {
      var init := items[..|items| - 1];
      RawDepositSumAgrees(init);
      if exists i :: 0 <= i < |init| && init[i].deposit.Undefined? {
        var i :| 0 <= i < |init| && init[i].deposit.Undefined?;
        assert items[i] == init[i];
      }
      if exists i :: 0 <= i < |items| && items[i].deposit.Undefined? {
        var i :| 0 <= i < |items| && items[i].deposit.Undefined?;
        if i < |init| {
          assert init[i] == items[i];
        }
      }
    }
  }

  /** Totals do not depend on where main services and add-ons sit: the sum over
      the main services plus the sum over the add-ons is the whole sum. */
  lemma TotalPriceSplit(items: seq<Service>)
    ensures TotalPrice(Filter(items, IsMain)) + TotalPrice(Filter(items, IsAddOn)) == TotalPrice(items)
  {
    SumOfFilterSplit(items, IsMain, IsAddOn, ItemPrice);
  }

  lemma TotalDepositSplit(items: seq<Service>)
    ensures TotalDeposit(Filter(items, IsMain)) + TotalDeposit(Filter(items, IsAddOn)) == TotalDeposit(items)
  {
    SumOfFilterSplit(items, IsMain, IsAddOn, ItemDeposit);
  }

  /** With no negative price, the total price is never negative. */
  lemma TotalPriceNonNegative(items: seq<Service>)
    requires forall i :: 0 <= i < |items| ==> NonNegativeMoney(items[i])
    ensures TotalPrice(items) >= 0
  {
    SumOfNonNegative(items, ItemPrice);
  }
}
