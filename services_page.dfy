/** The services page sorts the fetched services in place, main services first
    and add-ons last, before storing them for display. */
module ServicesPage {
  import opened Services
  import opened Ordering

  /** `servicesRes.sort(Compare)` on the fetched array, as a stable insertion
      sort driven by the same comparator: afterwards the array holds the stable
      partition of what it held before. */
  method SortServices(a: array<Service>)
    modifies a
    ensures a[..] == MainFirst(old(a[..]))
  {
    ghost var o := a[..];
    var i := 0;
    while i < a.Length
      invariant 0 <= i <= a.Length
      invariant a[..i] == MainFirst(o[..i])
      invariant a[i..] == o[i..]
    {
      ghost var before := a[..];
      var j := SiftLeft(a, i);
      InsertFinished(a[..], before, o, i, j);
      assert a[i + 1..] == before[i + 1..];
      i := i + 1;
    }
    assert a[..] == a[..a.Length] && o == o[..a.Length];
  }

  /** One insertion step: moves `a[i]` left past the add-ons directly in front
      of it (while the comparator says the pair is out of order) and returns its
      new position `j`; `a[..j]` and `a[i + 1..]` are untouched and the elements
      it passed shift one place right. */
  method SiftLeft(a: array<Service>, i: nat) returns (j: nat)
    requires i < a.Length
    modifies a
    ensures j <= i
    ensures a[j] == old(a[i])
    ensures a[..j] == old(a[..j])
    ensures a[j + 1..i + 1] == old(a[j..i])
    ensures a[i + 1..] == old(a[i + 1..])
    ensures j < i ==> !old(a[i]).isAddOn
    ensures forall k :: j <= k < i ==> old(a[k]).isAddOn
    ensures j > 0 ==> Compare(a[j - 1], a[j]) <= 0
  {
    ghost var m := a[..];
    var x := a[i];
    j := i;
    while j > 0 && Compare(a[j - 1], a[j]) > 0
      invariant 0 <= j <= i
      invariant a[j] == x
      invariant forall k :: 0 <= k < j ==> a[k] == m[k]
      invariant forall k :: j < k <= i ==> a[k] == m[k - 1]
      invariant forall k :: i < k < a.Length ==> a[k] == m[k]
      invariant j < i ==> !x.isAddOn
      invariant forall k :: j <= k < i ==> m[k].isAddOn
    {
      a[j - 1], a[j] := a[j], a[j - 1];
      j := j - 1;
    }
    assert a[..j] == m[..j] by {
      forall k | 0 <= k < j ensures a[..j][k] == m[..j][k] { }
    }
    assert a[j + 1..i + 1] == m[j..i] by {
      forall k | 0 <= k < i - j ensures a[j + 1..i + 1][k] == m[j..i][k] {
        assert a[j + 1 + k] == m[j + k];
      }
    }
  }

  /** When the insertion loop stops, the prefix it rearranged is the sorted
      form of the first `i + 1` original elements. `before` is the array
      before the round and `after` the array after it. */
  lemma InsertFinished(after: seq<Service>, before: seq<Service>, o: seq<Service>, i: nat, j: nat)
    requires |after| == |before| == |o| && j <= i < |o|
    requires before[..i] == MainFirst(o[..i]) && before[i] == o[i]
    requires after[j] == before[i] && after[..j] == before[..j] && after[j + 1..i + 1] == before[j..i]
    requires j < i ==> !before[i].isAddOn
    requires forall k :: j <= k < i ==> before[k].isAddOn
    requires j > 0 ==> Compare(after[j - 1], after[j]) <= 0
    ensures after[..i + 1] == MainFirst(o[..i + 1])
  {
    var t, s := o[..i], after[..i + 1];
    var m := MainFirst(t);
    assert s[..j] == m[..j] by {
      assert s[..j] == after[..j] && m[..j] == before[..i][..j] == before[..j];
    }
    assert s[j + 1..] == m[j..] by {
      assert s[j + 1..] == after[j + 1..i + 1] && m[j..] == before[..i][j..] == before[j..i];
    }
    assert forall k :: j <= k < |t| ==> m[k].isAddOn by {
      forall k | j <= k < |t| ensures m[k].isAddOn {
        assert m[k] == before[k];
      }
    }
    assert j > 0 ==> m[j - 1] == s[j - 1];
    InsertStep(t, o[i], j);
    assert s == s[..j] + [s[j]] + s[j + 1..];
    assert o[..i + 1] == t + [o[i]];
  }
}
