/** The operator's prize bookkeeping after a recorded win
    (components/admin/live-draw-interface.tsx:148-158): the prize that was up
    for draw loses one unit, prizes left with nothing are dropped, and the
    first survivor becomes the prize up for draw. All of it is pure list
    processing; the draw session calls it. */
module PrizeBook {
  import opened RaffleTypes

  /** The prize with one unit taken when its id is `id`, unchanged otherwise. */
  function TakeUnit(p: Prize, id: string): Prize {
    if p.id == id then p.(remaining := p.remaining - 1) else p
  }

  /** The `map` step: every prize whose id is `id` loses one unit. */
  function Decrement(ps: seq<Prize>, id: string): (r: seq<Prize>)
    ensures |r| == |ps|
    ensures forall i :: 0 <= i < |ps| ==> r[i] == ps[i].(remaining := r[i].remaining)
    ensures forall i :: 0 <= i < |ps| ==>
      r[i].remaining == if ps[i].id == id then ps[i].remaining - 1 else ps[i].remaining
  {
    if ps == [] then [] else [TakeUnit(ps[0], id)] + Decrement(ps[1..], id)
  }

  /** The `filter` step: the prizes that still have a unit to give. */
  function Available(ps: seq<Prize>): (r: seq<Prize>)
    ensures |r| <= |ps|
    ensures forall p :: p in r <==> p in ps && p.remaining > 0
  {
    if ps == [] then []
    else if ps[0].remaining > 0 then [ps[0]] + Available(ps[1..])
    else Available(ps[1..])
  }

  /** The prize up for draw in a list of prizes: its head, if any. */
  function FirstOf(ps: seq<Prize>): (r: Option<Prize>)
    ensures r.None? <==> ps == []
    ensures r.Some? ==> r.value in ps
  {
    if ps == [] then None else Some(ps[0])
  }

  /** The list of prizes after one unit of the prize `id` was won. */
  function AfterWin(ps: seq<Prize>, id: string): seq<Prize> {
    Available(Decrement(ps, id))
  }

  /** The number of units left to draw in a list of prizes. */
  function TotalRemaining(ps: seq<Prize>): int {
    if ps == [] then 0 else ps[0].remaining + TotalRemaining(ps[1..])
  }

  /** How many prizes of the list carry the id `id`. */
  function CountId(ps: seq<Prize>, id: string): nat {
    if ps == [] then 0 else (if ps[0].id == id then 1 else 0) + CountId(ps[1..], id)
  }

  /** No prize of the list carries the id `id`. */
  predicate IdAbsent(id: string, ps: seq<Prize>) {
    forall p :: p in ps ==> p.id != id
  }

  /** No two prizes of the list share an id. */
  predicate UniqueIds(ps: seq<Prize>) {
    ps == [] || (IdAbsent(ps[0].id, ps[1..]) && UniqueIds(ps[1..]))
  }

  predicate AllPositive(ps: seq<Prize>) {
    forall i :: 0 <= i < |ps| ==> ps[i].remaining > 0
  }

  predicate AllNonNegative(ps: seq<Prize>) {
    forall i :: 0 <= i < |ps| ==> ps[i].remaining >= 0
  }

  /** Filtering keeps the order of the list: it distributes over concatenation. */
  lemma {:induction false} AvailableConcat(xs: seq<Prize>, ys: seq<Prize>)
    ensures Available(xs + ys) == Available(xs) + Available(ys)
  {
    if xs == [] {
      assert xs + ys == ys;
    } else {
      assert (xs + ys)[1..] == xs[1..] + ys;
      AvailableConcat(xs[1..], ys);
    }
  }

  /** No prize with nothing left survives the filter, and a surviving list
      never holds a depleted prize. */
  lemma AvailableAllPositive(ps: seq<Prize>)
    ensures AllPositive(Available(ps))
  {
    var r := Available(ps);
    forall i | 0 <= i < |r| ensures r[i].remaining > 0 {
      assert r[i] in r;
    }
  }

  /** Taking a unit of `id` lowers the total by the number of prizes with that id. */
  lemma {:induction false} TotalAfterDecrement(ps: seq<Prize>, id: string)
    ensures TotalRemaining(Decrement(ps, id)) == TotalRemaining(ps) - CountId(ps, id)
  {
    if ps != [] {
      TotalAfterDecrement(ps[1..], id);
      assert Decrement(ps, id)[1..] == Decrement(ps[1..], id);
    }
  }

  /** Dropping prizes with nothing left does not change the total. */
  lemma {:induction false} TotalAfterFilter(ps: seq<Prize>)
    requires AllNonNegative(ps)
    ensures TotalRemaining(Available(ps)) == TotalRemaining(ps)
  {
    if ps != [] {
      assert AllNonNegative(ps[1..]) by {
        forall i | 0 <= i < |ps[1..]| ensures ps[1..][i].remaining >= 0 {
          assert ps[1..][i] == ps[i + 1];
        }
      }
      TotalAfterFilter(ps[1..]);
      if ps[0].remaining > 0 {
        assert ([ps[0]] + Available(ps[1..]))[1..] == Available(ps[1..]);
      }
    }
  }

  /** In a list with unique ids, an id held at some position occurs exactly once. */
  lemma {:induction false} CountIdUnique(ps: seq<Prize>, k: nat)
    requires UniqueIds(ps) && k < |ps|
    ensures CountId(ps, ps[k].id) == 1
  {
    if k == 0 {
      CountIdAbsent(ps[1..], ps[0].id);
    } else {
      assert ps[1..][k - 1] == ps[k];
      CountIdUnique(ps[1..], k - 1);
      assert ps[k] in ps[1..];
    }
  }

  lemma {:induction false} CountIdAbsent(ps: seq<Prize>, id: string)
    requires IdAbsent(id, ps)
    ensures CountId(ps, id) == 0
  {
    if ps != [] {
      assert ps[0] in ps;
      assert forall p :: p in ps[1..] ==> p in ps;
      CountIdAbsent(ps[1..], id);
    }
  }

  /** Taking a unit keeps ids unique. */
  lemma {:induction false} DecrementUniqueIds(ps: seq<Prize>, id: string)
    requires UniqueIds(ps)
    ensures UniqueIds(Decrement(ps, id))
  {
    if ps != [] {
      var d := Decrement(ps, id);
      DecrementUniqueIds(ps[1..], id);
      assert d[1..] == Decrement(ps[1..], id);
      forall p | p in d[1..] ensures p.id != d[0].id {
        var i :| 0 <= i < |d[1..]| && d[1..][i] == p;
        assert ps[1..][i] in ps[1..];
      }
    }
  }

  /** The filter keeps ids unique. */
  lemma {:induction false} AvailableUniqueIds(ps: seq<Prize>)
    requires UniqueIds(ps)
    ensures UniqueIds(Available(ps))
  {
    if ps != [] {
      AvailableUniqueIds(ps[1..]);
      if ps[0].remaining > 0 {
        assert ([ps[0]] + Available(ps[1..]))[1..] == Available(ps[1..]);
      }
    }
  }

  /** The bookkeeping invariant of a win: with unique ids, every prize still
      having a unit, and the won prize in the list, the units left drop by
      exactly one, no depleted prize survives and ids stay unique. */
  lemma AfterWinBookkeeping(ps: seq<Prize>, k: nat)
    requires UniqueIds(ps) && AllPositive(ps) && k < |ps|
    ensures TotalRemaining(AfterWin(ps, ps[k].id)) == TotalRemaining(ps) - 1
    ensures AllPositive(AfterWin(ps, ps[k].id))
    ensures UniqueIds(AfterWin(ps, ps[k].id))
  {
    var id := ps[k].id;
    var d := Decrement(ps, id);
    TotalAfterDecrement(ps, id);
    CountIdUnique(ps, k);
    TotalAfterFilter(d);
    AvailableAllPositive(d);
    DecrementUniqueIds(ps, id);
    AvailableUniqueIds(d);
  }
}
