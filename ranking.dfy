/**
 * `expenses.sorted { $0.1 > $1.1 }`: the expense dictionary as a list of
 * (key, value) pairs in descending order of value. The expense list shows
 * its rows in this order, and `deleteExpense` maps a row position back to a
 * key through it. The relative order of equal values is up to the sort.
 */
module Ranking {
  import opened Figures

  /** One `(key, value)` pair of the dictionary. */
  datatype Entry = Entry(key: string, value: int)

  /** `l` holds every entry of `m` exactly once, in some order. */
  ghost predicate IsListing(m: map<string, int>, l: seq<Entry>) {
    && |l| == |m|
    && (forall p :: 0 <= p < |l| ==> l[p].key in m && m[l[p].key] == l[p].value)
    && (forall p, q :: 0 <= p < q < |l| ==> l[p].key != l[q].key)
    && (forall k :: k in m ==> exists p :: 0 <= p < |l| && l[p].key == k)
  }

  /** No entry has a larger value than one before it. */
  ghost predicate Descending(l: seq<Entry>) {
    forall p, q :: 0 <= p < q < |l| ==> l[p].value >= l[q].value
  }

  /** A possible result of sorting `m` by descending value. */
  ghost predicate IsSortedDescending(m: map<string, int>, l: seq<Entry>) {
    IsListing(m, l) && Descending(l)
  }

  /** Folding `+` over the values in listing order, as `reduce(0, +)` does. */
  function SumValues(l: seq<Entry>): (r: int)
    ensures l == [] ==> r == 0
    ensures (forall p :: 0 <= p < |l| ==> l[p].value >= 0) ==> r >= 0
    ensures (forall p :: 0 <= p < |l| ==> l[p].value <= 0) ==> r <= 0
  {
    if l == [] then 0 else l[0].value + SumValues(l[1..])
  }

  /** Dropping the first entry of a listing lists the map without that key. */
  lemma ListingTail(m: map<string, int>, l: seq<Entry>)
    requires IsListing(m, l) && l != []
    ensures IsListing(m - {l[0].key}, l[1..])
  {
    MapRemoveSize(m, l[0].key);
  }

  /**
   * `reduce(0, +)` over the values gives `Total` whatever order the
   * dictionary yields them in.
   */
  lemma {:induction false} TotalOfListing(m: map<string, int>, l: seq<Entry>)
    requires IsListing(m, l)
    ensures SumValues(l) == Total(m)
    decreases |l|
  {
    if l != [] {
      ListingTail(m, l);
      TotalOfListing(m - {l[0].key}, l[1..]);
      TotalRemove(m, l[0].key);
    }
  }

  /** No amount in `m` exceeds the amount of `k`. */
  ghost predicate IsMaxKey(m: map<string, int>, k: string) {
    k in m && forall j :: j in m ==> m[j] <= m[k]
  }

  /** The same, for every order at once. */
  lemma TotalOfAnyListing(m: map<string, int>)
    ensures forall l :: IsListing(m, l) ==> SumValues(l) == Total(m)
  {
    forall l | IsListing(m, l) ensures SumValues(l) == Total(m) {
      TotalOfListing(m, l);
    }
  }

  /** A non-empty map has a key whose amount no other amount exceeds. */
  lemma {:induction false} MaxExists(m: map<string, int>)
    requires m != map[]
    ensures exists k :: IsMaxKey(m, k)
    decreases |m|
  {
    var k: string;
    var j := AnyKey(m);
    var rest := m - {j};
    if rest == map[] {
      k := j;
      forall i | i in m ensures m[i] <= m[j] {
        assert i !in rest;
      }
    } else {
      MapRemoveSize(m, j);
      MaxExists(rest);
      var r :| IsMaxKey(rest, r);
      k := if m[r] < m[j] then j else r;
      forall i | i in m ensures m[i] <= m[k] {
        if i != j { assert i in rest; }
      }
    }
    assert IsMaxKey(m, k);
  }

  ghost function MaxKey(m: map<string, int>): (k: string)
    requires m != map[]
    ensures IsMaxKey(m, k)
  {
    MaxExists(m);
    var k :| IsMaxKey(m, k); k
  }

  /** A largest entry followed by a sort of the rest is a sort of the whole map. */
  lemma ConsLargest(m: map<string, int>, k: string, tail: seq<Entry>)
    requires IsMaxKey(m, k) && IsSortedDescending(m - {k}, tail)
    ensures IsSortedDescending(m, [Entry(k, m[k])] + tail)
  {
    var l := [Entry(k, m[k])] + tail;
    MapRemoveSize(m, k);
    forall p | 0 <= p < |l| ensures l[p].key in m && m[l[p].key] == l[p].value {
      if p > 0 { assert l[p] == tail[p - 1]; }
    }
    forall p, q | 0 <= p < q < |l| ensures l[p].key != l[q].key && l[p].value >= l[q].value {
      assert l[q] == tail[q - 1];
      if p > 0 { assert l[p] == tail[p - 1]; }
    }
    forall j | j in m ensures exists p :: 0 <= p < |l| && l[p].key == j {
      if j == k {
        assert l[0].key == j;
      } else {
        assert j in m - {k};
        var p :| 0 <= p < |tail| && tail[p].key == j;
        assert l[p + 1].key == j;
      }
    }
  }

  /**
   * One sort of `m` by descending value, built by taking a largest entry
   * first: it shows that every dictionary has such an order.
   */
  ghost function SortByValueDesc(m: map<string, int>): (l: seq<Entry>)
    ensures IsSortedDescending(m, l)
    decreases |m|
  {
    if m == map[] then []
    else
      var k := MaxKey(m);
      MapRemoveSize(m, k);
      var tail := SortByValueDesc(m - {k});
      ConsLargest(m, k, tail);
      [Entry(k, m[k])] + tail
  }

  /** The keys whose amount is strictly above `v`. */
  ghost function Above(m: map<string, int>, v: int): set<string> {
    set j | j in m && m[j] > v
  }

  /** The keys whose amount is at least `v`. */
  ghost function AtLeast(m: map<string, int>, v: int): set<string> {
    set j | j in m && m[j] >= v
  }

  /**
   * Key `k` is ranked at position `i` of `m`: at most `i` keys have a larger
   * amount, and more than `i` have one at least as large. `SortedPositionRank`
   * and `RankedKeyHasSort` show that these are exactly the keys some
   * descending sort puts at position `i`.
   */
  ghost predicate RankedAt(m: map<string, int>, k: string, i: int) {
    k in m && |Above(m, m[k])| <= i < |AtLeast(m, m[k])|
  }

  /** The keys of the first `n` entries of a listing. */
  ghost function KeysBefore(l: seq<Entry>, n: nat): set<string>
    requires n <= |l|
  {
    set p | 0 <= p < n :: l[p].key
  }

  lemma {:induction false} KeysBeforeSize(l: seq<Entry>, n: nat)
    requires n <= |l|
    ensures |KeysBefore(l, n)| <= n
    ensures (forall p, q :: 0 <= p < q < |l| ==> l[p].key != l[q].key) ==> |KeysBefore(l, n)| == n
  {
    if n > 0 {
      KeysBeforeSize(l, n - 1);
      assert KeysBefore(l, n) == KeysBefore(l, n - 1) + {l[n - 1].key};
      if forall p, q :: 0 <= p < q < |l| ==> l[p].key != l[q].key {
        assert l[n - 1].key !in KeysBefore(l, n - 1);
      }
    }
  }

  lemma SubsetSize(a: set<string>, b: set<string>)
    requires a <= b
    ensures |a| <= |b|
  {
    assert b == a + (b - a);
  }

  /** The entry at position `p` of any descending sort is ranked at `p`. */
  lemma SortedPositionRank(m: map<string, int>, l: seq<Entry>, p: int)
    requires IsSortedDescending(m, l) && 0 <= p < |l|
    ensures RankedAt(m, l[p].key, p)
  {
    var v := l[p].value;
    assert Above(m, v) <= KeysBefore(l, p) by {
      forall j | j in Above(m, v) ensures j in KeysBefore(l, p) {
        var q :| 0 <= q < |l| && l[q].key == j;
        assert q < p;
      }
    }
    assert KeysBefore(l, p + 1) <= AtLeast(m, v);
    KeysBeforeSize(l, p);
    KeysBeforeSize(l, p + 1);
    SubsetSize(Above(m, v), KeysBefore(l, p));
    SubsetSize(KeysBefore(l, p + 1), AtLeast(m, v));
  }

  /** The position whose entry lands at `p` when positions `i` and `q` are exchanged. */
  function Swapped(i: int, q: int, p: int): int {
    if p == i then q else if p == q then i else p
  }

  /** `l` with the entries at positions `i` and `q` exchanged. */
  function Swap(l: seq<Entry>, i: int, q: int): (l': seq<Entry>)
    requires 0 <= i < |l| && 0 <= q < |l|
    ensures |l'| == |l|
    ensures forall p :: 0 <= p < |l| ==> l'[p] == l[Swapped(i, q, p)]
  {
    seq(|l|, p requires 0 <= p < |l| => l[Swapped(i, q, p)])
  }

  /** Exchanging two entries keeps the keys distinct. */
  lemma SwapDistinct(l: seq<Entry>, i: int, q: int)
    requires forall p, r :: 0 <= p < r < |l| ==> l[p].key != l[r].key
    requires 0 <= i < |l| && 0 <= q < |l|
    ensures forall p, r :: 0 <= p < r < |l| ==> Swap(l, i, q)[p].key != Swap(l, i, q)[r].key
  {
    var l' := Swap(l, i, q);
    forall p, r | 0 <= p < r < |l'| ensures l'[p].key != l'[r].key {
      var sp, sr := Swapped(i, q, p), Swapped(i, q, r);
      if sp < sr { assert l[sp].key != l[sr].key; } else { assert l[sr].key != l[sp].key; }
    }
  }

  /** Exchanging two entries keeps a listing a listing. */
  lemma SwapListing(m: map<string, int>, l: seq<Entry>, i: int, q: int)
    requires IsListing(m, l)
    requires 0 <= i < |l| && 0 <= q < |l|
    ensures IsListing(m, Swap(l, i, q))
  {
    var l' := Swap(l, i, q);
    SwapDistinct(l, i, q);
    forall k | k in m ensures exists p :: 0 <= p < |l'| && l'[p].key == k {
      var p :| 0 <= p < |l| && l[p].key == k;
      assert l'[Swapped(i, q, p)] == l[p];
    }
  }

  /** Exchanging two entries of equal value in a descending sort gives another descending sort. */
  lemma SwapEqualValues(m: map<string, int>, l: seq<Entry>, i: int, q: int)
    requires IsSortedDescending(m, l)
    requires 0 <= i < |l| && 0 <= q < |l| && l[i].value == l[q].value
    ensures IsSortedDescending(m, Swap(l, i, q))
  {
    var l' := Swap(l, i, q);
    SwapListing(m, l, i, q);
    forall p, r | 0 <= p < r < |l'| ensures l'[p].value >= l'[r].value {
      assert l'[p].value == l[p].value && l'[r].value == l[r].value;
    }
  }

  /** Every key ranked at `i` stands at position `i` of some descending sort. */
  lemma RankedKeyHasSort(m: map<string, int>, k: string, i: int)
    requires RankedAt(m, k, i)
    ensures exists l: seq<Entry> :: IsSortedDescending(m, l) && 0 <= i < |l| && l[i].key == k
  {
    var l := SortByValueDesc(m);
    SubsetSize(AtLeast(m, m[k]), m.Keys);
    SortedPositionRank(m, l, i);
    RankDeterminesValue(m, k, l[i].key, i);
    var q :| 0 <= q < |l| && l[q].key == k;
    SwapEqualValues(m, l, i, q);
    assert Swap(l, i, q)[i].key == k;
  }

  /** Every position of the list holds some ranked key. */
  lemma RankExists(m: map<string, int>, i: int)
    requires 0 <= i < |m|
    ensures exists k :: RankedAt(m, k, i)
  {
    var l := SortByValueDesc(m);
    SortedPositionRank(m, l, i);
  }

  /** Keys ranked at the same position have the same amount. */
  lemma RankDeterminesValue(m: map<string, int>, k1: string, k2: string, i: int)
    requires RankedAt(m, k1, i) && RankedAt(m, k2, i)
    ensures m[k1] == m[k2]
  {
    if m[k1] > m[k2] {
      SubsetSize(AtLeast(m, m[k1]), Above(m, m[k2]));
    } else if m[k1] < m[k2] {
      SubsetSize(AtLeast(m, m[k2]), Above(m, m[k1]));
    }
  }

  /** When no two amounts are equal, exactly one key is ranked at each position. */
  lemma RankUniqueWithoutTies(m: map<string, int>, k1: string, k2: string, i: int)
    requires forall a, b :: a in m && b in m && a != b ==> m[a] != m[b]
    requires RankedAt(m, k1, i) && RankedAt(m, k2, i)
    ensures k1 == k2
  {
    RankDeterminesValue(m, k1, k2, i);
  }

  /**
   * Two sorts may order equal amounts differently, but they agree on the
   * value at every position.
   */
  lemma SortsAgreeOnValues(m: map<string, int>, l1: seq<Entry>, l2: seq<Entry>, p: int)
    requires IsSortedDescending(m, l1) && IsSortedDescending(m, l2)
    requires 0 <= p < |m|
    ensures l1[p].value == l2[p].value
  {
    SortedPositionRank(m, l1, p);
    SortedPositionRank(m, l2, p);
    RankDeterminesValue(m, l1[p].key, l2[p].key, p);
  }
}
