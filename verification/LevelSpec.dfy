/** How a map of price levels, walked in price order, forms one queue. Everything here
    is about values; the classes in `OrderBooks` use it to relate their levels to the
    flat queues of `BookSpec`. */
module LevelSpec {
  import opened Types
  import opened Sweep
  import opened BookSpec

  /** The orders of all levels, in the order in which the map is walked. */
  function Flatten(keys: seq<real>, q: map<real, seq<Ticket>>): seq<Ticket>
    requires forall i :: 0 <= i < |keys| ==> keys[i] in q
  {
    if keys == [] then [] else q[keys[0]] + Flatten(keys[1..], q)
  }

  /** Keys in the map's comparator order. */
  ghost predicate Sorted(side: Side, keys: seq<real>) {
    forall i, j :: 0 <= i < j < |keys| ==> Rank(side, keys[i]) < Rank(side, keys[j])
  }

  /** The key sequence lists exactly the map's keys, and each level holds orders at its key. */
  ghost predicate Coherent(side: Side, keys: seq<real>, q: map<real, seq<Ticket>>) {
    && Sorted(side, keys)
    && (forall i :: 0 <= i < |keys| ==> keys[i] in q)
    && (forall k :: k in q ==> k in keys)
    && (forall k, i :: k in q && 0 <= i < |q[k]| ==> q[k][i].price == k)
  }

  function Total(s: seq<Ticket>): nat {
    if s == [] then 0 else s[0].remaining + Total(s[1..])
  }

  lemma {:induction false} TotalConcat(a: seq<Ticket>, b: seq<Ticket>)
    ensures Total(a + b) == Total(a) + Total(b)
  {
    if a == [] {
      assert a + b == b;
    } else {
      TotalConcat(a[1..], b);
      assert (a + b)[1..] == a[1..] + b;
    }
  }

  lemma {:induction false} TotalRemove(s: seq<Ticket>, id: nat)
    requires Holds(s, id)
    ensures Total(s) == Total(Remove(s, id)) + s[Find(s, id)].remaining
  {
    if s[0].id != id {
      TotalRemove(s[1..], id);
    }
  }

  lemma {:induction false} TotalUpdate(s: seq<Ticket>, n: nat, t: Ticket)
    requires n < |s|
    ensures Total(s[n := t]) == Total(s) - s[n].remaining + t.remaining
  {
    if n == 0 {
      assert s[0 := t][1..] == s[1..];
    } else {
      TotalUpdate(s[1..], n - 1, t);
      assert s[n := t][1..] == s[1..][n - 1 := t];
    }
  }

  lemma {:induction false} FlattenSame(keys: seq<real>, q: map<real, seq<Ticket>>, q': map<real, seq<Ticket>>)
    requires forall i :: 0 <= i < |keys| ==> keys[i] in q && keys[i] in q' && q[keys[i]] == q'[keys[i]]
    ensures Flatten(keys, q) == Flatten(keys, q')
  {
    if keys != [] {
      FlattenSame(keys[1..], q, q');
    }
  }

  lemma {:induction false} FlattenConcat(a: seq<real>, b: seq<real>, q: map<real, seq<Ticket>>)
    requires forall i :: 0 <= i < |a| ==> a[i] in q
    requires forall i :: 0 <= i < |b| ==> b[i] in q
    ensures Flatten(a + b, q) == Flatten(a, q) + Flatten(b, q)
  {
    if a == [] {
      assert a + b == b;
    } else {
      FlattenConcat(a[1..], b, q);
      assert (a + b)[1..] == a[1..] + b;
    }
  }

  /** One level's place in the flat queue. */
  lemma FlattenSplit(keys: seq<real>, q: map<real, seq<Ticket>>, i: nat)
    requires forall j :: 0 <= j < |keys| ==> keys[j] in q
    requires i < |keys|
    ensures Flatten(keys, q) == Flatten(keys[..i], q) + q[keys[i]] + Flatten(keys[i + 1..], q)
  {
    assert keys == keys[..i] + ([keys[i]] + keys[i + 1..]);
    FlattenConcat(keys[..i], [keys[i]] + keys[i + 1..], q);
    assert ([keys[i]] + keys[i + 1..])[1..] == keys[i + 1..];
  }

  lemma MiddleDistinct(a: seq<Ticket>, m: seq<Ticket>, b: seq<Ticket>)
    requires DistinctIds(a + m + b)
    ensures DistinctIds(m)
  {
    var s := a + m + b;
    forall i | 0 <= i < |m| ensures s[|a| + i] == m[i] {
    }
    forall i, j | 0 <= i < j < |m| ensures m[i].id != m[j].id {
      assert s[|a| + i].id != s[|a| + j].id;
    }
  }

  lemma LevelDistinct(side: Side, keys: seq<real>, q: map<real, seq<Ticket>>, k: real)
    requires Coherent(side, keys, q) && DistinctIds(Flatten(keys, q)) && k in q
    ensures DistinctIds(q[k])
  {
    var at :| 0 <= at < |keys| && keys[at] == k;
    FlattenSplit(keys, q, at);
    MiddleDistinct(Flatten(keys[..at], q), q[k], Flatten(keys[at + 1..], q));
  }

  /** Every order of the flat queue comes from the level at its price. */
  lemma {:induction false} FlattenElement(keys: seq<real>, q: map<real, seq<Ticket>>, n: nat)
    returns (i: nat, j: nat)
    requires forall i :: 0 <= i < |keys| ==> keys[i] in q
    requires n < |Flatten(keys, q)|
    ensures i < |keys| && j < |q[keys[i]]| && Flatten(keys, q)[n] == q[keys[i]][j]
  {
    if n < |q[keys[0]]| {
      i, j := 0, n;
    } else {
      i, j := FlattenElement(keys[1..], q, n - |q[keys[0]]|);
      i := i + 1;
    }
  }

  lemma FlattenPrices(side: Side, keys: seq<real>, q: map<real, seq<Ticket>>, n: nat)
    requires forall i :: 0 <= i < |keys| ==> keys[i] in q
    requires forall k, i :: k in q && 0 <= i < |q[k]| ==> q[k][i].price == k
    requires n < |Flatten(keys, q)|
    ensures Flatten(keys, q)[n].price in keys
  {
    var i, j := FlattenElement(keys, q, n);
    assert q[keys[i]][j].price == keys[i];
  }

  lemma {:induction false} InsertBetween(a: seq<Ticket>, b: seq<Ticket>, t: Ticket)
    requires forall i :: 0 <= i < |a| ==> Rank(t.side, a[i].price) <= Rank(t.side, t.price)
    requires forall i :: 0 <= i < |b| ==> Rank(t.side, b[i].price) > Rank(t.side, t.price)
    ensures Insert(a + b, t) == a + [t] + b
  {
    hide Rank;
    if a == [] {
      assert a + b == b;
    } else {
      TailOfConcat(a, b);
      InsertBetween(a[1..], b, t);
      assert [a[0]] + (a[1..] + [t] + b) == a + [t] + b;
    }
  }

  /** All orders of levels before a key rank better than it, all orders after it worse. */
  lemma RankBounds(side: Side, keys: seq<real>, q: map<real, seq<Ticket>>, i: nat, price: real)
    requires Coherent(side, keys, q) && i <= |keys|
    requires forall j :: 0 <= j < i ==> Rank(side, keys[j]) <= Rank(side, price)
    requires forall j :: i <= j < |keys| ==> Rank(side, price) < Rank(side, keys[j])
    ensures forall n :: 0 <= n < |Flatten(keys[..i], q)| ==>
              Rank(side, Flatten(keys[..i], q)[n].price) <= Rank(side, price)
    ensures forall n :: 0 <= n < |Flatten(keys[i..], q)| ==>
              Rank(side, Flatten(keys[i..], q)[n].price) > Rank(side, price)
  {
    forall n | 0 <= n < |Flatten(keys[..i], q)|
      ensures Rank(side, Flatten(keys[..i], q)[n].price) <= Rank(side, price)
    {
      FlattenPrices(side, keys[..i], q, n);
    }
    forall n | 0 <= n < |Flatten(keys[i..], q)|
      ensures Rank(side, Flatten(keys[i..], q)[n].price) > Rank(side, price)
    {
      FlattenPrices(side, keys[i..], q, n);
    }
  }

  /** Appending to the level at an order's price inserts it into the flat queue. */
  lemma AppendIsInsert(side: Side, keys: seq<real>, q: map<real, seq<Ticket>>, i: nat, t: Ticket)
    requires Coherent(side, keys, q) && i < |keys| && keys[i] == t.price && t.side == side
    ensures Coherent(side, keys, q[t.price := q[t.price] + [t]])
    ensures Flatten(keys, q[t.price := q[t.price] + [t]]) == Insert(Flatten(keys, q), t)
  {
    hide Flatten, Insert;
    var a, b := Flatten(keys[..i], q), Flatten(keys[i + 1..], q);
    FlattenSplit(keys, q, i);
    FlattenReplace(keys, q, i, q[t.price] + [t]);
    RankBounds(side, keys, q, i + 1, t.price);
    FlattenTake(keys, q, i);
    InsertBetween(a + q[t.price], b, t);
    assert a + (q[t.price] + [t]) + b == a + q[t.price] + [t] + b;
  }

  lemma FlattenTake(keys: seq<real>, q: map<real, seq<Ticket>>, i: nat)
    requires forall j :: 0 <= j < |keys| ==> keys[j] in q
    requires i < |keys|
    ensures Flatten(keys[..i + 1], q) == Flatten(keys[..i], q) + q[keys[i]]
  {
    assert keys[..i + 1] == keys[..i] + [keys[i]];
    FlattenConcat(keys[..i], [keys[i]], q);
    assert [keys[i]][1..] == [];
  }

  /** A new level between its neighbours inserts its first order into the flat queue. */
  lemma NewLevelIsInsert(side: Side, keys: seq<real>, q: map<real, seq<Ticket>>, i: nat, t: Ticket)
    requires Coherent(side, keys, q) && i <= |keys| && t.price !in q && t.side == side
    requires forall j :: 0 <= j < i ==> Rank(side, keys[j]) < Rank(side, t.price)
    requires forall j :: i <= j < |keys| ==> Rank(side, t.price) < Rank(side, keys[j])
    ensures var keys', q' := keys[..i] + [t.price] + keys[i..], q[t.price := [t]];
            Coherent(side, keys', q') && Flatten(keys', q') == Insert(Flatten(keys, q), t)
  {
    NewKeyCoherent(side, keys, q, i, t);
    NewLevelFlat(side, keys, q, i, t);
  }

  lemma NewLevelFlat(side: Side, keys: seq<real>, q: map<real, seq<Ticket>>, i: nat, t: Ticket)
    requires Coherent(side, keys, q) && i <= |keys| && t.price !in q && t.side == side
    requires Coherent(side, keys[..i] + [t.price] + keys[i..], q[t.price := [t]])
    requires forall j :: 0 <= j < i ==> Rank(side, keys[j]) < Rank(side, t.price)
    requires forall j :: i <= j < |keys| ==> Rank(side, t.price) < Rank(side, keys[j])
    ensures Flatten(keys[..i] + [t.price] + keys[i..], q[t.price := [t]]) == Insert(Flatten(keys, q), t)
  {
    hide Flatten, Insert, Sorted;
    var keys', q' := keys[..i] + [t.price] + keys[i..], q[t.price := [t]];
    FlattenSplit(keys', q', i);
    assert keys'[..i] == keys[..i] && keys'[i + 1..] == keys[i..];
    FlattenSame(keys[..i], q, q');
    FlattenSame(keys[i..], q, q');
    FlattenConcat(keys[..i], keys[i..], q);
    assert keys[..i] + keys[i..] == keys;
    RankBounds(side, keys, q, i, t.price);
    assert q'[t.price] == [t];
    InsertBetween(Flatten(keys[..i], q), Flatten(keys[i..], q), t);
  }

  lemma NewKeyCoherent(side: Side, keys: seq<real>, q: map<real, seq<Ticket>>, i: nat, t: Ticket)
    requires Coherent(side, keys, q) && i <= |keys| && t.price !in q && t.side == side
    requires forall j :: 0 <= j < i ==> Rank(side, keys[j]) < Rank(side, t.price)
    requires forall j :: i <= j < |keys| ==> Rank(side, t.price) < Rank(side, keys[j])
    ensures Coherent(side, keys[..i] + [t.price] + keys[i..], q[t.price := [t]])
  {
    var keys' := keys[..i] + [t.price] + keys[i..];
    SortedInsert(side, keys, i, t.price);
    forall k ensures k in keys' <==> k == t.price || k in keys {
      MemberInsert(keys, i, t.price, k);
    }
    hide Sorted;
    forall j | 0 <= j < |keys'| ensures keys'[j] in q[t.price := [t]] {
      assert keys'[j] in keys';
    }
  }

  lemma MemberInsert(keys: seq<real>, i: nat, x: real, k: real)
    requires i <= |keys|
    ensures k in keys[..i] + [x] + keys[i..] <==> k == x || k in keys
  {
    assert keys == keys[..i] + keys[i..];
  }

  lemma MemberErase(keys: seq<real>, i: nat, k: real)
    requires i < |keys|
    ensures k in keys <==> k == keys[i] || k in keys[..i] + keys[i + 1..]
  {
    assert keys == keys[..i] + [keys[i]] + keys[i + 1..];
  }

  lemma SortedInsert(side: Side, keys: seq<real>, i: nat, x: real)
    requires Sorted(side, keys) && i <= |keys|
    requires forall j :: 0 <= j < i ==> Rank(side, keys[j]) < Rank(side, x)
    requires forall j :: i <= j < |keys| ==> Rank(side, x) < Rank(side, keys[j])
    ensures Sorted(side, keys[..i] + [x] + keys[i..])
  {
    var keys' := keys[..i] + [x] + keys[i..];
    assert forall j :: 0 <= j < |keys'| ==> keys'[j] == if j < i then keys[j] else if j == i then x else keys[j - 1];
  }

  lemma SortedErase(side: Side, keys: seq<real>, i: nat)
    requires Sorted(side, keys) && i < |keys|
    ensures Sorted(side, keys[..i] + keys[i + 1..])
  {
  }

  /** Replacing one level's orders replaces that stretch of the flat queue. */
  lemma FlattenReplace(keys: seq<real>, q: map<real, seq<Ticket>>, i: nat, v: seq<Ticket>)
    requires forall j :: 0 <= j < |keys| ==> keys[j] in q
    requires forall j, k :: 0 <= j < k < |keys| ==> keys[j] != keys[k]
    requires i < |keys|
    ensures Flatten(keys, q[keys[i] := v]) == Flatten(keys[..i], q) + v + Flatten(keys[i + 1..], q)
  {
    var q' := q[keys[i] := v];
    FlattenSplit(keys, q', i);
    FlattenSame(keys[..i], q, q');
    FlattenSame(keys[i + 1..], q, q');
  }

  lemma KeysIn(side: Side, keys: seq<real>, q: map<real, seq<Ticket>>)
    requires Coherent(side, keys, q)
    ensures forall j :: 0 <= j < |keys| ==> keys[j] in q
  {
  }

  /** An empty level contributes nothing and can be erased. */
  lemma {:induction false} EraseEmpty(side: Side, keys: seq<real>, q: map<real, seq<Ticket>>, i: nat)
    requires Coherent(side, keys, q) && i < |keys| && q[keys[i]] == []
    ensures var keys', q' := keys[..i] + keys[i + 1..], q - {keys[i]};
            Coherent(side, keys', q') && Flatten(keys', q') == Flatten(keys, q)
  {
    hide Flatten, Sorted, Coherent;
    var a, b := keys[..i], keys[i + 1..];
    EraseCoherent(side, keys, q, i);
    KeysIn(side, keys, q);
    KeysIn(side, a + b, q - {keys[i]});
    FlattenSplit(keys, q, i);
    FlattenConcat(a, b, q);
    FlattenSame(a + b, q, q - {keys[i]});
  }

  lemma KeysDiffer(side: Side, keys: seq<real>, i: nat, j: nat)
    requires Sorted(side, keys) && i < |keys| && j < |keys| && i != j
    ensures keys[i] != keys[j]
  {
    assert Rank(side, keys[i]) != Rank(side, keys[j]) by {
      if i < j {
        assert Rank(side, keys[i]) < Rank(side, keys[j]);
      } else {
        assert Rank(side, keys[j]) < Rank(side, keys[i]);
      }
    }
  }

  lemma {:induction false} EraseCoherent(side: Side, keys: seq<real>, q: map<real, seq<Ticket>>, i: nat)
    requires Coherent(side, keys, q) && i < |keys|
    ensures Coherent(side, keys[..i] + keys[i + 1..], q - {keys[i]})
  {
    hide Sorted;
    var keys' := keys[..i] + keys[i + 1..];
    SortedErase(side, keys, i);
    forall k ensures k in keys <==> k == keys[i] || k in keys' {
      MemberErase(keys, i, k);
    }
    forall j | 0 <= j < |keys'| ensures keys'[j] in q - {keys[i]} {
      var j' := if j < i then j else j + 1;
      assert keys'[j] == keys[j'];
      KeysDiffer(side, keys, i, j');
    }
  }

  lemma {:induction false} FindBehind(a: seq<Ticket>, r: seq<Ticket>, id: nat)
    requires !Holds(a, id)
    ensures Find(a + r, id) == |a| + Find(r, id)
    ensures Remove(a + r, id) == a + Remove(r, id)
  {
    if a == [] {
      assert a + r == r && a + Remove(r, id) == Remove(r, id);
    } else {
      FindBehind(a[1..], r, id);
      TailOfConcat(a, r);
      ConcatAssoc([a[0]], a[1..], Remove(r, id));
      assert a == [a[0]] + a[1..];
    }
  }

  lemma {:induction false} FindInFront(m: seq<Ticket>, b: seq<Ticket>, id: nat)
    requires Holds(m, id)
    ensures Find(m + b, id) == Find(m, id)
    ensures Remove(m + b, id) == Remove(m, id) + b
  {
    TailOfConcat(m, b);
    if m[0].id != id {
      FindInFront(m[1..], b, id);
      ConcatAssoc([m[0]], Remove(m[1..], id), b);
    }
  }

  lemma FindInMiddle(a: seq<Ticket>, m: seq<Ticket>, b: seq<Ticket>, id: nat)
    requires DistinctIds(a + m + b) && Holds(m, id)
    ensures Find(a + m + b, id) == |a| + Find(m, id)
    ensures Remove(a + m + b, id) == a + Remove(m, id) + b
  {
    hide Find, Remove;
    var s, f := a + m + b, Find(m, id);
    assert s[|a| + f] == m[f];
    assert forall i :: 0 <= i < |a| ==> s[i] == a[i];
    FindInFront(m, b, id);
    FindBehind(a, m + b, id);
    assert s == a + (m + b) && a + (Remove(m, id) + b) == a + Remove(m, id) + b;
  }

  /** Removing an order from its level removes it from the flat queue. */
  lemma LevelRemove(side: Side, keys: seq<real>, q: map<real, seq<Ticket>>, i: nat, id: nat)
    requires Coherent(side, keys, q) && i < |keys| && DistinctIds(Flatten(keys, q)) && Holds(q[keys[i]], id)
    ensures var q' := q[keys[i] := Remove(q[keys[i]], id)];
            Coherent(side, keys, q') && Flatten(keys, q') == Remove(Flatten(keys, q), id)
  {
    FlattenSplit(keys, q, i);
    FlattenReplace(keys, q, i, Remove(q[keys[i]], id));
    RemovedAt(q[keys[i]], id);
    FindInMiddle(Flatten(keys[..i], q), q[keys[i]], Flatten(keys[i + 1..], q), id);
  }

  /** Updating an order in its level updates it in place in the flat queue. */
  lemma LevelUpdate(side: Side, keys: seq<real>, q: map<real, seq<Ticket>>, i: nat, id: nat, t: Ticket)
    requires Coherent(side, keys, q) && i < |keys| && DistinctIds(Flatten(keys, q)) && Holds(q[keys[i]], id)
    requires t.price == keys[i]
    ensures var level, flat := q[keys[i]], Flatten(keys, q);
            var q' := q[keys[i] := level[Find(level, id) := t]];
            Coherent(side, keys, q') && Holds(flat, id) && Flatten(keys, q') == flat[Find(flat, id) := t]
            && flat[Find(flat, id)] == level[Find(level, id)]
  {
    hide Flatten, Find, Remove;
    var level := q[keys[i]];
    var a, b := Flatten(keys[..i], q), Flatten(keys[i + 1..], q);
    FlattenSplit(keys, q, i);
    FlattenReplace(keys, q, i, level[Find(level, id) := t]);
    FindInMiddle(a, level, b, id);
    assert (a + level + b)[|a| + Find(level, id) := t] == a + level[Find(level, id) := t] + b;
  }

  /** Matching the front order of the best level matches the front of the flat queue. */
  lemma {:induction false} LevelFill(side: Side, keys: seq<real>, q: map<real, seq<Ticket>>, n: nat)
    requires Coherent(side, keys, q) && keys != [] && q[keys[0]] != [] && n <= q[keys[0]][0].remaining
    ensures var q' := q[keys[0] := AfterFill(q[keys[0]], n)];
            Coherent(side, keys, q') && Flatten(keys, q') == AfterFill(Flatten(keys, q), n)
    ensures Flatten(keys, q) != [] && Flatten(keys, q)[0] == q[keys[0]][0]
    ensures Total(AfterFill(q[keys[0]], n)) == Total(q[keys[0]]) - n
  {
    hide Sorted, AfterFill, Total, Flatten;
    FillCoherent(side, keys, q, n);
    forall i | 0 < i < |keys| ensures keys[i] != keys[0] {
      KeysDiffer(side, keys, i, 0);
    }
    FillFlat(keys, q, n);
  }

  lemma {:induction false} FillCoherent(side: Side, keys: seq<real>, q: map<real, seq<Ticket>>, n: nat)
    requires Coherent(side, keys, q) && keys != [] && q[keys[0]] != [] && n <= q[keys[0]][0].remaining
    ensures Coherent(side, keys, q[keys[0] := AfterFill(q[keys[0]], n)])
  {
    hide Sorted, AfterFill;
    var level := q[keys[0]];
    var after := AfterFill(level, n);
    forall i | 0 <= i < |after| ensures after[i].price == keys[0] {
      FilledAt(level, n, i);
    }
  }

  lemma {:induction false} FillFlat(keys: seq<real>, q: map<real, seq<Ticket>>, n: nat)
    requires forall i :: 0 <= i < |keys| ==> keys[i] in q
    requires forall i :: 0 < i < |keys| ==> keys[i] != keys[0]
    requires keys != [] && q[keys[0]] != [] && n <= q[keys[0]][0].remaining
    ensures var level := q[keys[0]];
            && Flatten(keys, q[keys[0] := AfterFill(level, n)]) == AfterFill(Flatten(keys, q), n)
            && Flatten(keys, q) != [] && Flatten(keys, q)[0] == level[0]
            && Total(AfterFill(level, n)) == Total(level) - n
  {
    hide Total, AfterFill;
    var level, rest := q[keys[0]], Flatten(keys[1..], q);
    FlattenSame(keys[1..], q, q[keys[0] := AfterFill(level, n)]);
    FillFront(level, rest, n);
  }

  lemma {:induction false} FillFront(level: seq<Ticket>, rest: seq<Ticket>, n: nat)
    requires level != [] && n <= level[0].remaining
    ensures AfterFill(level + rest, n) == AfterFill(level, n) + rest
    ensures Total(AfterFill(level, n)) == Total(level) - n
  {
    TailOfConcat(level, rest);
    if n != level[0].remaining {
      ConcatAssoc([level[0].Take(n)], level[1..], rest);
      assert AfterFill(level, n)[1..] == level[1..];
    }
  }

  /** The level totals of the flat queue are the totals of the levels. */
  lemma {:induction false} LevelsOfFlatten(side: Side, keys: seq<real>, q: map<real, seq<Ticket>>)
    requires Sorted(side, keys)
    requires forall i :: 0 <= i < |keys| ==> keys[i] in q && q[keys[i]] != []
    requires forall k, i :: k in q && 0 <= i < |q[k]| ==> q[k][i].price == k
    ensures var ls := Levels(Flatten(keys, q));
            |ls| == |keys| && forall i :: 0 <= i < |keys| ==> ls[i] == (keys[i], Total(q[keys[i]]))
  {
    if keys != [] {
      LevelsOfFlatten(side, keys[1..], q);
      var rest := Flatten(keys[1..], q);
      if |keys| > 1 {
        assert Rank(side, keys[0]) < Rank(side, keys[1]);
      }
      LevelsPrepend(q[keys[0]], rest, keys[0]);
    }
  }

  lemma {:induction false} LevelsPrepend(level: seq<Ticket>, rest: seq<Ticket>, price: real)
    requires level != [] && forall i :: 0 <= i < |level| ==> level[i].price == price
    requires Levels(rest) != [] ==> Levels(rest)[0].0 != price
    ensures Levels(level + rest) == [(price, Total(level))] + Levels(rest)
  {
    var tail := level[1..];
    TailOfConcat(level, rest);
    if tail == [] {
      assert tail + rest == rest;
    } else {
      assert tail[0].price == price;
      LevelsPrepend(tail, rest, price);
      var ls := Levels(tail + rest);
      assert ls[0] == (price, Total(tail)) && ls[1..] == Levels(rest);
    }
  }
}
