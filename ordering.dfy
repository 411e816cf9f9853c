/**
 * `transactions.OrderBy(t => t.DateCreated)`: a stable sort on the creation
 * date. The model sorts by insertion, placing each transaction after every
 * earlier one whose date is not later than its own.
 */
module Ordering {
  import opened Domain

  predicate SortedByDate(s: seq<Transaction>)
  {
    forall i, j | 0 <= i < j < |s| :: s[i].dateCreated <= s[j].dateCreated
  }

  /** The transactions of s created at date d, in the order s holds them. */
  function WithDate(s: seq<Transaction>, d: Ticks): seq<Transaction>
  {
    if s == [] then []
    else WithDate(s[..|s| - 1], d) + (if s[|s| - 1].dateCreated == d then [s[|s| - 1]] else [])
  }

  lemma {:induction false} WithDateConcat(a: seq<Transaction>, b: seq<Transaction>, d: Ticks)
    ensures WithDate(a + b, d) == WithDate(a, d) + WithDate(b, d)
    decreases |b|
  {
    if b != [] {
      assert (a + b)[..|a + b| - 1] == a + b[..|b| - 1];
      WithDateConcat(a, b[..|b| - 1], d);
    } else {
      assert a + b == a;
    }
  }

  lemma {:induction false} WithDateMembers(s: seq<Transaction>, d: Ticks, t: Transaction)
    requires t in WithDate(s, d)
    ensures t in s && t.dateCreated == d
  {
    var n := |s| - 1;
    assert s == s[..n] + [s[n]];
    if t != s[n] || s[n].dateCreated != d {
      WithDateMembers(s[..n], d, t);
    }
  }

  lemma {:induction false} InWithDate(s: seq<Transaction>, t: Transaction)
    requires t in s
    ensures t in WithDate(s, t.dateCreated)
  {
    var n := |s| - 1;
    if s[n] != t {
      assert s == s[..n] + [s[n]];
      InWithDate(s[..n], t);
    }
  }

  lemma {:induction false} SortedAppend(s: seq<Transaction>, t: Transaction)
    requires SortedByDate(s)
    requires forall x | x in s :: x.dateCreated <= t.dateCreated
    ensures SortedByDate(s + [t])
  {
    forall i, j | 0 <= i < j < |s + [t]|
      ensures (s + [t])[i].dateCreated <= (s + [t])[j].dateCreated
    {
      assert (s + [t])[i] == s[i];
      if j == |s| {
        assert s[i] in s;
      } else {
        assert (s + [t])[j] == s[j];
      }
    }
  }

  lemma {:induction false} WithDateSnoc(s: seq<Transaction>, last: Transaction, d: Ticks)
    ensures WithDate(s + [last], d) == WithDate(s, d) + (if last.dateCreated == d then [last] else [])
  {
    assert (s + [last])[..|s|] == s;
  }

  /** Inserts t into a date-sorted sequence after every element not later than t. */
  function InsertByDate(s: seq<Transaction>, t: Transaction): seq<Transaction>
  {
    if s == [] || s[|s| - 1].dateCreated <= t.dateCreated then s + [t]
    else InsertByDate(s[..|s| - 1], t) + [s[|s| - 1]]
  }

  lemma {:induction false} InsertByDateMultiset(s: seq<Transaction>, t: Transaction)
    ensures multiset(InsertByDate(s, t)) == multiset(s) + multiset{t}
  {
    if !(s == [] || s[|s| - 1].dateCreated <= t.dateCreated) {
      var init, last := s[..|s| - 1], s[|s| - 1];
      assert s == init + [last];
      InsertByDateMultiset(init, t);
    }
  }

  lemma {:induction false} InsertByDateGroups(s: seq<Transaction>, t: Transaction, d: Ticks)
    ensures WithDate(InsertByDate(s, t), d) == WithDate(s, d) + (if t.dateCreated == d then [t] else [])
  {
    if s == [] || s[|s| - 1].dateCreated <= t.dateCreated {
      WithDateSnoc(s, t, d);
    } else {
      var init, last := s[..|s| - 1], s[|s| - 1];
      assert s == init + [last];
      InsertByDateGroups(init, t, d);
      WithDateSnoc(InsertByDate(init, t), last, d);
      WithDateSnoc(init, last, d);
    }
  }

  lemma {:induction false} InsertByDateSorted(s: seq<Transaction>, t: Transaction)
    requires SortedByDate(s)
    ensures SortedByDate(InsertByDate(s, t))
  {
    if s == [] || s[|s| - 1].dateCreated <= t.dateCreated {
      forall x | x in s ensures x.dateCreated <= t.dateCreated {
        var i :| 0 <= i < |s| && s[i] == x;
        assert i == |s| - 1 || s[i].dateCreated <= s[|s| - 1].dateCreated;
      }
      SortedAppend(s, t);
    } else {
      var init, last := s[..|s| - 1], s[|s| - 1];
      assert s == init + [last];
      var mid := InsertByDate(init, t);
      InsertByDateSorted(init, t);
      InsertByDateMultiset(init, t);
      forall x | x in mid ensures x.dateCreated <= last.dateCreated {
        assert x in multiset(mid);
        if x != t {
          assert x in multiset(init);
          var i :| 0 <= i < |init| && init[i] == x;
          assert s[i] == x;
        }
      }
      SortedAppend(mid, last);
    }
  }

  /** The stable ordering of the looked-up transactions by creation date. */
  function OrderByDate(s: seq<Transaction>): (r: seq<Transaction>)
    ensures SortedByDate(r)
    ensures multiset(r) == multiset(s)
    ensures forall d :: WithDate(r, d) == WithDate(s, d)
  {
    if s == [] then []
    else
      var init, last := s[..|s| - 1], s[|s| - 1];
      assert s == init + [last];
      var sortedInit := OrderByDate(init);
      InsertByDateSorted(sortedInit, last);
      InsertByDateMultiset(sortedInit, last);
      forall d ensures WithDate(InsertByDate(sortedInit, last), d) == WithDate(s, d) {
        InsertByDateGroups(sortedInit, last, d);
        WithDateSnoc(init, last, d);
      }
      InsertByDate(sortedInit, last)
  }

  /** A non-empty sequence's group at the date of its first element starts with that element. */
  lemma {:induction false} GroupOfHead(r: seq<Transaction>, d: Ticks)
    requires r != []
    ensures WithDate(r, d) == (if r[0].dateCreated == d then [r[0]] else []) + WithDate(r[1..], d)
  {
    assert r == [r[0]] + r[1..];
    WithDateConcat([r[0]], r[1..], d);
    assert [r[0]][..0] == [];
  }

  /** In a date-sorted sequence nothing is earlier than the first element. */
  lemma {:induction false} HeadIsEarliest(r: seq<Transaction>, t: Transaction)
    requires SortedByDate(r) && t in r
    ensures r[0].dateCreated <= t.dateCreated
  {
    var i :| 0 <= i < |r| && r[i] == t;
    assert i == 0 || r[0].dateCreated <= r[i].dateCreated;
  }

  /** A transaction of r belongs to q too when the two have the same date groups. */
  lemma {:induction false} SharedMember(r: seq<Transaction>, q: seq<Transaction>, t: Transaction)
    requires WithDate(r, t.dateCreated) == WithDate(q, t.dateCreated)
    requires t in r
    ensures t in q
  {
    InWithDate(r, t);
    WithDateMembers(q, t.dateCreated, t);
  }

  /** Sorted sequences with the same date groups agree in emptiness and in their heads. */
  lemma {:induction false} SameHeads(r: seq<Transaction>, q: seq<Transaction>)
    requires SortedByDate(r) && SortedByDate(q)
    requires forall d :: WithDate(r, d) == WithDate(q, d)
    ensures r == [] <==> q == []
    ensures r != [] ==> r[0] == q[0]
  {
    if r != [] {
      assert r[0] in r;
      SharedMember(r, q, r[0]);
      HeadIsEarliest(q, r[0]);
      assert q[0] in q;
      SharedMember(q, r, q[0]);
      HeadIsEarliest(r, q[0]);
      var m := r[0].dateCreated;
      assert q[0].dateCreated == m;
      GroupOfHead(r, m);
      GroupOfHead(q, m);
      assert WithDate(r, m)[0] == r[0];
      assert WithDate(q, m)[0] == q[0];
    } else if q != [] {
      assert q[0] in q;
      SharedMember(q, r, q[0]);
    }
  }

  /**
   * Two date-sorted sequences that hold, for every date, the same transactions
   * in the same order, are equal: a stable sort has only one possible result.
   */
  lemma {:induction false} SortedGroupsDetermine(r: seq<Transaction>, q: seq<Transaction>)
    requires SortedByDate(r) && SortedByDate(q)
    requires forall d :: WithDate(r, d) == WithDate(q, d)
    ensures r == q
    decreases |r|
  {
    SameHeads(r, q);
    if r != [] {
      forall d ensures WithDate(r[1..], d) == WithDate(q[1..], d) {
        GroupOfHead(r, d);
        GroupOfHead(q, d);
        var h := if r[0].dateCreated == d then [r[0]] else [];
        assert h + WithDate(r[1..], d) == h + WithDate(q[1..], d);
        assert WithDate(r[1..], d) == (h + WithDate(r[1..], d))[|h|..];
      }
      assert SortedByDate(r[1..]);
      assert SortedByDate(q[1..]);
      SortedGroupsDetermine(r[1..], q[1..]);
      assert r == [r[0]] + r[1..];
      assert q == [q[0]] + q[1..];
    }
  }

  /**
   * Any date-sorted arrangement of s that keeps the lookup order among equal
   * dates, as `OrderBy` does, is the one this model computes.
   */
  lemma {:induction false} StableOrderIsUnique(s: seq<Transaction>, r: seq<Transaction>)
    requires SortedByDate(r)
    requires forall d :: WithDate(r, d) == WithDate(s, d)
    ensures r == OrderByDate(s)
  {
    SortedGroupsDetermine(r, OrderByDate(s));
  }

  /** Input already in date order is left as it is. */
  lemma {:induction false} SortedInputUnchanged(s: seq<Transaction>)
    requires SortedByDate(s)
    ensures OrderByDate(s) == s
  {
    StableOrderIsUnique(s, s);
  }
}
