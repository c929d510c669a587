/** "Main services first, add-ons last": the comparator the cart page, the
    booking summary and the services page all pass to `Array.prototype.sort`,
    and the stable partition that a stable sort with it produces. */
module Ordering {
  import opened Services
  import opened Seqs

  /** The comparator: 1 puts `a` after `b`, -1 before, 0 keeps their order. */
  function Compare(a: Service, b: Service): int
  {
    if a.isAddOn && !b.isAddOn then 1
    else if !a.isAddOn && b.isAddOn then -1
    else 0
  }

  /** The comparator is a consistent total preorder, so a sort with it is well
      defined: antisymmetric, transitive, and 0 exactly on same-kind pairs. */
  lemma CompareIsConsistent(a: Service, b: Service, c: Service)
    ensures Compare(a, b) == -Compare(b, a)
    ensures Compare(a, b) <= 0 && Compare(b, c) <= 0 ==> Compare(a, c) <= 0
    ensures Compare(a, b) == 0 <==> a.isAddOn == b.isAddOn
  {
  }

  /** Ordered by the comparator: no pair stands in the wrong order. */
  predicate SortedByCompare(r: seq<Service>)
  {
    forall i, j :: 0 <= i < j < |r| ==> Compare(r[i], r[j]) <= 0
  }

  /** Stability for this comparator: the main services appear in the same
      relative order in `r` as in `s`, and so do the add-ons. */
  predicate SameOrderWithinKinds(r: seq<Service>, s: seq<Service>)
  {
    Filter(r, IsMain) == Filter(s, IsMain) && Filter(r, IsAddOn) == Filter(s, IsAddOn)
  }

  /** `[...s].sort(Compare)` with a stable sort: the main services in their
      order, then the add-ons in theirs (MainFirstSpec states what this means). */
  function MainFirst(s: seq<Service>): (r: seq<Service>)
    ensures |r| == |s|
  {
    FilterSplitMultiset(s, IsMain, IsAddOn);
    assert |multiset(Filter(s, IsMain) + Filter(s, IsAddOn))| == |multiset(s)|;
    Filter(s, IsMain) + Filter(s, IsAddOn)
  }

  /** The sorted copy is a permutation of its input, ordered by the comparator
      (every main service before every add-on), and stable. */
  lemma MainFirstSpec(s: seq<Service>)
    ensures |MainFirst(s)| == |s|
    ensures multiset(MainFirst(s)) == multiset(s)
    ensures SortedByCompare(MainFirst(s))
    ensures forall i, j :: 0 <= i < j < |s| && MainFirst(s)[i].isAddOn ==> MainFirst(s)[j].isAddOn
    ensures SameOrderWithinKinds(MainFirst(s), s)
  {
    var mains, addOns := Filter(s, IsMain), Filter(s, IsAddOn);
    var r := mains + addOns;
    FilterSplitMultiset(s, IsMain, IsAddOn);
    FilterConcat(mains, addOns, IsMain);
    FilterConcat(mains, addOns, IsAddOn);
    FilterKeepsAll(mains, IsMain);
    FilterRejectsAll(addOns, IsMain);
    FilterKeepsAll(addOns, IsAddOn);
    FilterRejectsAll(mains, IsAddOn);
    MainFirstKinds(s);
  }

  /** A sequence ordered by the comparator is its main services followed by its
      add-ons. */
  lemma {:induction false} SortedSplits(r: seq<Service>)
    requires SortedByCompare(r)
    ensures r == Filter(r, IsMain) + Filter(r, IsAddOn)
  {
    if r != [] {
      SortedTail(r);
      SortedSplits(r[1..]);
      if r[0].isAddOn {
        SortedAddOnHead(r);
        FilterRejectsAll(r, IsMain);
        FilterKeepsAll(r, IsAddOn);
      } else {
        assert r == [r[0]] + r[1..];
      }
    }
  }

  /** Dropping the head keeps a sequence ordered. */
  lemma SortedTail(r: seq<Service>)
    requires r != [] && SortedByCompare(r)
    ensures SortedByCompare(r[1..])
  {
    var rest := r[1..];
    forall i, j | 0 <= i < j < |rest| ensures Compare(rest[i], rest[j]) <= 0 {
      assert rest[i] == r[i + 1] && rest[j] == r[j + 1];
    }
  }

  /** In an ordered sequence that starts with an add-on, everything is an add-on. */
  lemma SortedAddOnHead(r: seq<Service>)
    requires r != [] && SortedByCompare(r) && r[0].isAddOn
    ensures forall j :: 0 <= j < |r| ==> r[j].isAddOn
  {
    forall j | 0 < j < |r| ensures r[j].isAddOn {
      assert Compare(r[0], r[j]) <= 0;
    }
  }

  /** Any stable sort with the comparator yields exactly `MainFirst`: being
      ordered by the comparator and keeping the order within each kind
      determines the result. */
  lemma StableSortIsMainFirst(r: seq<Service>, s: seq<Service>)
    requires SortedByCompare(r)
    requires SameOrderWithinKinds(r, s)
    ensures r == MainFirst(s)
  {
    SortedSplits(r);
  }

  /** Sorting a list that is already ordered leaves it unchanged; hence sorting
      twice is sorting once. */
  lemma MainFirstIdempotent(s: seq<Service>)
    ensures SortedByCompare(s) ==> MainFirst(s) == s
    ensures MainFirst(MainFirst(s)) == MainFirst(s)
  {
    if SortedByCompare(s) {
      SortedSplits(s);
    }
    MainFirstSpec(s);
    SortedSplits(MainFirst(s));
    // the kinds of the sorted copy are those of s
    assert SameOrderWithinKinds(MainFirst(s), s);
  }

  /** Sorting for display does not change any total. */
  lemma MainFirstKeepsTotals(s: seq<Service>)
    ensures TotalPrice(MainFirst(s)) == TotalPrice(s)
    ensures TotalDeposit(MainFirst(s)) == TotalDeposit(s)
  {
    var mains, addOns := Filter(s, IsMain), Filter(s, IsAddOn);
    SumOfConcat(mains, addOns, ItemPrice);
    SumOfConcat(mains, addOns, ItemDeposit);
    TotalPriceSplit(s);
    TotalDepositSplit(s);
  }

  /** In `MainFirst(t)` the positions before the number of main services hold
      main services and the rest hold add-ons. */
  lemma MainFirstKinds(t: seq<Service>)
    ensures forall k :: 0 <= k < |MainFirst(t)| ==> (MainFirst(t)[k].isAddOn <==> k >= |Filter(t, IsMain)|)
  {
    var mains, addOns := Filter(t, IsMain), Filter(t, IsAddOn);
    var m := MainFirst(t);
    forall k | 0 <= k < |m| ensures m[k].isAddOn <==> k >= |mains| {
      if k < |mains| {
        assert m[k] == mains[k];
      } else {
        assert m[k] == addOns[k - |mains|];
      }
    }
  }

  /** One step of an insertion sort: inserting `x` behind the sorted prefix
      `MainFirst(t)` at position `j`, where everything from `j` on is an add-on
      and the element before `j` (if any) is not an add-on when `x` is a main
      service, gives `MainFirst(t + [x])`. */
  lemma InsertStep(t: seq<Service>, x: Service, j: int)
    requires 0 <= j <= |t|
    requires forall k :: j <= k < |t| ==> MainFirst(t)[k].isAddOn
    requires x.isAddOn ==> j == |t|
    requires !x.isAddOn && j > 0 ==> !MainFirst(t)[j - 1].isAddOn
    ensures MainFirst(t)[..j] + [x] + MainFirst(t)[j..] == MainFirst(t + [x])
  {
    var m := MainFirst(t);
    var mains, addOns := Filter(t, IsMain), Filter(t, IsAddOn);
    FilterConcat(t, [x], IsMain);
    FilterConcat(t, [x], IsAddOn);
    if x.isAddOn {
      assert Filter([x], IsMain) == [] && Filter([x], IsAddOn) == [x];
      assert m[..j] + [x] + m[j..] == m + [x];
    } else {
      assert Filter([x], IsMain) == [x] && Filter([x], IsAddOn) == [];
      MainsBoundary(t, j);
      assert m[..j] == mains && m[j..] == addOns;
    }
  }

  /** A position `j` of `MainFirst(t)` with only add-ons from `j` on and no
      add-on just before it is the number of main services. */
  lemma MainsBoundary(t: seq<Service>, j: int)
    requires 0 <= j <= |t|
    requires forall k :: j <= k < |t| ==> MainFirst(t)[k].isAddOn
    requires j > 0 ==> !MainFirst(t)[j - 1].isAddOn
    ensures j == |Filter(t, IsMain)|
  {
    var m := MainFirst(t);
    var n := |Filter(t, IsMain)|;
    MainFirstKinds(t);
    assert j < |t| ==> (m[j].isAddOn <==> j >= n);
    assert j > 0 ==> (m[j - 1].isAddOn <==> j - 1 >= n);
  }
}
