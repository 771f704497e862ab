/** Fair interleaving of equal-sized groups, so that a deadline cuts all of them alike. */
module Interleave {

  /** The places of one offset in the first `g` groups of `n` items. */
  function Column(n: nat, stride: nat, offset: nat, g: nat): seq<nat> {
    if g == 0 then []
    else
      var place := (g - 1) * stride + offset;
      if place < n then Column(n, stride, offset, g - 1) + [place] else Column(n, stride, offset, g - 1)
  }

  function Groups(n: nat, stride: nat): nat
    requires stride > 0
  {
    (n + stride - 1) / stride
  }

  /** The places of the first `k` offsets, offset by offset. */
  function Order(n: nat, stride: nat, k: nat): seq<nat>
    requires stride > 0
  {
    if k == 0 then [] else Order(n, stride, k - 1) + Column(n, stride, k - 1, Groups(n, stride))
  }

  ghost predicate Places(order: seq<nat>, n: nat) {
    forall i :: 0 <= i < |order| ==> order[i] < n
  }

  /** The items at the given places, in that order. */
  function Pick<T>(items: seq<T>, order: seq<nat>): (out: seq<T>)
    requires Places(order, |items|)
    ensures |out| == |order|
  {
    seq(|order|, i requires 0 <= i < |order| => items[order[i]])
  }

  lemma {:induction false} ColumnPlaces(n: nat, stride: nat, offset: nat, g: nat)
    ensures Places(Column(n, stride, offset, g), n)
  {
    if g > 0 {
      ColumnPlaces(n, stride, offset, g - 1);
    }
  }

  lemma {:induction false} OrderPlaces(n: nat, stride: nat, k: nat)
    requires stride > 0
    ensures Places(Order(n, stride, k), n)
  {
    if k > 0 {
      OrderPlaces(n, stride, k - 1);
      ColumnPlaces(n, stride, k - 1, Groups(n, stride));
    }
  }

  method InterleaveGroups<T>(items: seq<T>, stride: nat) returns (out: seq<T>)
    ensures stride == 0 ==> out == items
    ensures stride > 0 ==>
        Places(Order(|items|, stride, stride), |items|) && out == Pick(items, Order(|items|, stride, stride))
  {
    if stride == 0 {
      return items;
    }
    hide *;
    var n, groups := |items|, Groups(|items|, stride);
    out := [];
    ghost var order: seq<nat> := [];
    OrderStarts(items, stride);
    for offset := 0 to stride
      invariant order == Order(n, stride, offset) && Places(order, n) && out == Pick(items, order)
    {
      ghost var before := order;
      ColumnStarts(before, n, stride, offset);
      for group := 0 to groups
        invariant order == before + Column(n, stride, offset, group) && Places(order, n) && out == Pick(items, order)
      {
        var place := group * stride + offset;
        ColumnStep(n, stride, offset, group + 1, place);
        if place < n {
          PickOneMore(items, order, place);
          assert (before + Column(n, stride, offset, group)) + [place] ==
              before + (Column(n, stride, offset, group) + [place]);
          out, order := out + [items[place]], order + [place];
        }
      }
      OrderStep(n, stride, offset);
    }
  }

  lemma OrderStarts<T>(items: seq<T>, stride: nat)
    requires stride > 0
    ensures Order(|items|, stride, 0) == [] && Places([], |items|) && Pick(items, []) == []
  {
  }

  lemma ColumnStarts(before: seq<nat>, n: nat, stride: nat, offset: nat)
    ensures before + Column(n, stride, offset, 0) == before
  {
  }

  lemma OrderStep(n: nat, stride: nat, k: nat)
    requires stride > 0
    ensures Order(n, stride, k + 1) == Order(n, stride, k) + Column(n, stride, k, Groups(n, stride))
  {
  }

  lemma PickOneMore<T>(items: seq<T>, order: seq<nat>, place: nat)
    requires Places(order, |items|) && place < |items|
    ensures Places(order + [place], |items|) && Pick(items, order + [place]) == Pick(items, order) + [items[place]]
  {
  }

  // ---------------------------------------------------------------- nothing lost, nothing repeated

  /** Quotient and remainder are the only way to write a place as a group and an offset. */
  lemma PlaceOf(i: nat, stride: nat, group: nat, offset: nat)
    requires stride > 0 && offset < stride
    ensures i == group * stride + offset <==> i / stride == group && i % stride == offset
  {
    if i == group * stride + offset {
      var d := i / stride - group;
      assert d * stride == offset - i % stride;
      assert d >= 1 ==> d * stride >= stride;
      assert d <= -1 ==> (-d) * stride >= stride;
    }
  }

  lemma SnocCount(s: seq<nat>, x: nat, i: nat)
    ensures multiset(s + [x])[i] == multiset(s)[i] + if x == i then 1 else 0
  {
  }

  lemma ConcatCount(s: seq<nat>, t: seq<nat>, i: nat)
    ensures multiset(s + t)[i] == multiset(s)[i] + multiset(t)[i]
  {
    assert multiset(s + t) == multiset(s) + multiset(t);
  }

  predicate InColumn(n: nat, stride: nat, offset: nat, g: nat, i: nat)
    requires stride > 0
  {
    i < n && i % stride == offset && i / stride < g
  }

  lemma InColumnStep(n: nat, stride: nat, offset: nat, g: nat, place: nat, i: nat)
    requires stride > 0 && offset < stride && g > 0 && place == (g - 1) * stride + offset
    ensures InColumn(n, stride, offset, g, i) <==> InColumn(n, stride, offset, g - 1, i) || (i == place && place < n)
    ensures !InColumn(n, stride, offset, g - 1, place)
    ensures !InColumn(n, stride, offset, 0, i)
  {
    PlaceOf(i, stride, g - 1, offset);
    PlaceOf(place, stride, g - 1, offset);
  }

  lemma {:induction false} ColumnCount(n: nat, stride: nat, offset: nat, g: nat, i: nat)
    requires stride > 0 && offset < stride
    ensures multiset(Column(n, stride, offset, g))[i] == if InColumn(n, stride, offset, g, i) then 1 else 0
  {
    hide InColumn, Column;
    if g == 0 {
      EmptyColumn(n, stride, offset, i);
    } else {
      var before, place := Column(n, stride, offset, g - 1), (g - 1) * stride + offset;
      ColumnCount(n, stride, offset, g - 1, i);
      CountStep(n, stride, offset, g, before, place, i);
    }
  }

  lemma EmptyColumn(n: nat, stride: nat, offset: nat, i: nat)
    requires stride > 0
    ensures multiset(Column(n, stride, offset, 0))[i] == 0 && !InColumn(n, stride, offset, 0, i)
  {
  }

  lemma CountStep(n: nat, stride: nat, offset: nat, g: nat, before: seq<nat>, place: nat, i: nat)
    requires stride > 0 && offset < stride && g > 0 && place == (g - 1) * stride + offset
    requires before == Column(n, stride, offset, g - 1)
    requires multiset(before)[i] == if InColumn(n, stride, offset, g - 1, i) then 1 else 0
    ensures multiset(Column(n, stride, offset, g))[i] == if InColumn(n, stride, offset, g, i) then 1 else 0
  {
    hide Column, InColumn;
    InColumnStep(n, stride, offset, g, place, i);
    ColumnStep(n, stride, offset, g, place);
    SnocCount(before, place, i);
  }

  lemma ColumnStep(n: nat, stride: nat, offset: nat, g: nat, place: nat)
    requires g > 0 && place == (g - 1) * stride + offset
    ensures Column(n, stride, offset, g) ==
              if place < n then Column(n, stride, offset, g - 1) + [place] else Column(n, stride, offset, g - 1)
  {
  }

  lemma GroupsCover(n: nat, stride: nat, i: nat)
    requires stride > 0 && i < n
    ensures i / stride < Groups(n, stride)
  {
    var q, r := (n + stride - 1) / stride, (n + stride - 1) % stride;
    assert n + stride - 1 == q * stride + r;
    if i / stride >= q {
      assert (i / stride) * stride >= q * stride;
    }
  }

  lemma {:induction false} OrderCount(n: nat, stride: nat, k: nat, i: nat)
    requires 0 < stride && k <= stride
    ensures multiset(Order(n, stride, k))[i] == if i < n && i % stride < k then 1 else 0
  {
    hide Column, Groups;
    if k > 0 {
      OrderCount(n, stride, k - 1, i);
      ColumnCount(n, stride, k - 1, Groups(n, stride), i);
      if i < n { GroupsCover(n, stride, i); }
      ConcatCount(Order(n, stride, k - 1), Column(n, stride, k - 1, Groups(n, stride)), i);
    }
  }

  function Range(n: nat): seq<nat> {
    seq(n, i requires 0 <= i < n => i)
  }

  lemma {:induction false} RangeCount(n: nat, i: nat)
    ensures multiset(Range(n))[i] == if i < n then 1 else 0
  {
    if n > 0 {
      RangeCount(n - 1, i);
      assert Range(n) == Range(n - 1) + [n - 1];
    }
  }

  /** A place that occurs can be taken out, and what is left occurs once less. */
  lemma TakeOut(order: seq<nat>, p: nat) returns (before: seq<nat>, after: seq<nat>)
    requires p in multiset(order)
    ensures order == before + [p] + after
    ensures multiset(before + after) == multiset(order) - multiset{p}
  {
    assert p in order;
    var j :| 0 <= j < |order| && order[j] == p;
    before, after := order[..j], order[j + 1..];
    assert order == before + [p] + after;
    assert multiset(order) == multiset(before) + multiset{p} + multiset(after);
    assert multiset(before + after) == multiset(before) + multiset(after);
  }

  lemma HeadOut(order: seq<nat>)
    requires order != []
    ensures order[0] in multiset(order) && multiset(order[1..]) == multiset(order) - multiset{order[0]}
  {
    assert order == [order[0]] + order[1..];
    assert multiset(order) == multiset{order[0]} + multiset(order[1..]);
  }

  lemma PickSplit<T>(items: seq<T>, before: seq<nat>, p: nat, after: seq<nat>)
    requires Places(before, |items|) && Places(after, |items|) && p < |items|
    ensures Places(before + [p] + after, |items|) && Places(before + after, |items|)
    ensures multiset(Pick(items, before + [p] + after)) == multiset(Pick(items, before + after)) + multiset{items[p]}
  {
    assert Pick(items, before + [p] + after) == Pick(items, before) + [items[p]] + Pick(items, after);
    assert Pick(items, before + after) == Pick(items, before) + Pick(items, after);
  }

  lemma SubPlaces(order: seq<nat>, n: nat, before: seq<nat>, p: nat, after: seq<nat>)
    requires Places(order, n) && order == before + [p] + after
    ensures Places(before, n) && Places(after, n) && p < n
  {
    assert forall i :: 0 <= i < |before| ==> before[i] == order[i];
    assert forall i :: 0 <= i < |after| ==> after[i] == order[|before| + 1 + i];
    assert order[|before|] == p;
  }

  /** Picking the same places in another order picks the same items. */
  lemma {:induction false} SamePlacesSameItems<T>(items: seq<T>, one: seq<nat>, other: seq<nat>)
    requires Places(one, |items|) && Places(other, |items|) && multiset(one) == multiset(other)
    ensures multiset(Pick(items, one)) == multiset(Pick(items, other))
    decreases |one|
  {
    hide Pick, Places;
    if one == [] {
      assert |multiset(other)| == 0;
      assert other == one;
    } else {
      var p, tail := one[0], one[1..];
      assert one == [] + [p] + tail && [] + tail == tail;
      HeadOut(one);
      assert p in multiset(other);
      var before, after := TakeOut(other, p);
      SubPlaces(one, |items|, [], p, tail);
      SubPlaces(other, |items|, before, p, after);
      PickSplit(items, [], p, tail);
      PickSplit(items, before, p, after);
      SamePlacesSameItems(items, tail, before + after);
    }
  }

  /** For every stride the result is a permutation of the items. */
  lemma InterleavingPermutes<T>(items: seq<T>, stride: nat)
    requires stride > 0
    ensures Places(Order(|items|, stride, stride), |items|)
    ensures multiset(Pick(items, Order(|items|, stride, stride))) == multiset(items)
  {
    var n := |items|;
    var order := Order(n, stride, stride);
    OrderPlaces(n, stride, stride);
    var all: multiset<nat>, range: multiset<nat> := multiset(order), multiset(Range(n));
    forall i: nat
      ensures all[i] == range[i]
    {
      OrderCount(n, stride, stride, i);
      RangeCount(n, i);
    }
    assert all == range;
    SamePlacesSameItems(items, order, Range(n));
    assert Pick(items, Range(n)) == items;
  }

  // ---------------------------------------------------------------- fairness

  /** How many of the places belong to group `g`. */
  function Taken(order: seq<nat>, stride: nat, g: nat): nat
    requires stride > 0
  {
    if order == [] then 0
    else Taken(order[..|order| - 1], stride, g) + if order[|order| - 1] / stride == g then 1 else 0
  }

  lemma {:induction false} FullColumn(groups: nat, stride: nat, offset: nat, g: nat)
    requires g <= groups && offset < stride
    ensures |Column(groups * stride, stride, offset, g)| == g
    ensures forall r :: 0 <= r < g ==> Column(groups * stride, stride, offset, g)[r] == r * stride + offset
  {
    if g > 0 {
      FullColumn(groups, stride, offset, g - 1);
      InRange(groups, stride, g - 1, offset);
      ColumnStep(groups * stride, stride, offset, g, (g - 1) * stride + offset);
    }
  }

  lemma InRange(groups: nat, stride: nat, group: nat, offset: nat)
    requires group < groups && offset < stride
    ensures group * stride + offset < groups * stride
  {
    MoreIsMore(group, groups - group, stride);
  }

  lemma MoreIsMore(a: nat, d: nat, stride: nat)
    requires d >= 1
    ensures (a + d) * stride >= a * stride + stride
  {
    if d > 1 { MoreIsMore(a, d - 1, stride); }
  }

  lemma WholeGroups(groups: nat, stride: nat)
    requires stride > 0
    ensures Groups(groups * stride, stride) == groups
  {
    PlaceOf(groups * stride + stride - 1, stride, groups, stride - 1);
  }

  /** With whole groups, the p-th place taken is in group `p % groups`. */
  lemma {:induction false} RoundRobin(groups: nat, stride: nat, k: nat)
    requires groups > 0 && stride > 0 && k <= stride
    ensures |Order(groups * stride, stride, k)| == k * groups
    ensures forall p :: 0 <= p < k * groups ==> Order(groups * stride, stride, k)[p] / stride == p % groups
  {
    if k > 0 {
      RoundRobin(groups, stride, k - 1);
      WholeGroups(groups, stride);
      FullColumn(groups, stride, k - 1, groups);
      var before, column := Order(groups * stride, stride, k - 1), Column(groups * stride, stride, k - 1, groups);
      assert k * groups == (k - 1) * groups + groups;
      forall p | 0 <= p < k * groups
        ensures (before + column)[p] / stride == p % groups
      {
        if p >= (k - 1) * groups {
          var r := p - (k - 1) * groups;
          PlaceOf(r * stride + (k - 1), stride, r, k - 1);
          PlaceOf(p, groups, k - 1, r);
        }
      }
    }
  }

  /** In any stretch that goes round the groups in turn, each has had its share, give or take one. */
  lemma {:induction false} ShareOf(order: seq<nat>, stride: nat, groups: nat, g: nat)
    requires stride > 0 && groups > 0 && g < groups
    requires forall p :: 0 <= p < |order| ==> order[p] / stride == p % groups
    ensures Taken(order, stride, g) == |order| / groups + if g < |order| % groups then 1 else 0
  {
    if order != [] {
      var m := |order| - 1;
      ShareOf(order[..m], stride, groups, g);
      NextTurn(m, groups);
    } else {
      assert 0 / groups == 0 && 0 % groups == 0;
    }
  }

  lemma NextTurn(m: nat, groups: nat)
    requires groups > 0
    ensures if m % groups == groups - 1 then (m + 1) / groups == m / groups + 1 && (m + 1) % groups == 0
            else (m + 1) / groups == m / groups && (m + 1) % groups == m % groups + 1
  {
    if m % groups == groups - 1 {
      PlaceOf(m + 1, groups, m / groups + 1, 0);
    } else {
      PlaceOf(m + 1, groups, m / groups, m % groups + 1);
    }
  }

  /** Wherever the deadline falls, every group has been tried as often as any other, give or take one. */
  lemma EveryPrefixIsFair(groups: nat, stride: nat, m: nat, g: nat, h: nat)
    requires groups > 0 && stride > 0 && g < groups && h < groups
    requires m <= |Order(groups * stride, stride, stride)|
    ensures var prefix := Order(groups * stride, stride, stride)[..m];
            && Taken(prefix, stride, g) == m / groups + (if g < m % groups then 1 else 0)
            && Taken(prefix, stride, g) <= Taken(prefix, stride, h) + 1
  {
    RoundRobin(groups, stride, stride);
    var prefix := Order(groups * stride, stride, stride)[..m];
    ShareOf(prefix, stride, groups, g);
    ShareOf(prefix, stride, groups, h);
  }
}
