/** The prepared-statement cache as it is updated, section by section. */
module PreparedCache {
  import opened Queues
  import opened Prepared

  datatype Entering = Found(entry: nat) | Joined(call: nat) | Started(call: nat)

  /** Entry e is of an item not in todo. */
  predicate Done(items: map<string, nat>, todo: set<string>, e: nat) {
    exists q :: q in items && q !in todo && items[q] == e
  }

  /** The entries of items retired, but for those of todo. */
  function RetiredBut(entries: seq<Entry>, items: map<string, nat>, todo: set<string>): (es: seq<Entry>)
    ensures |es| == |entries|
  {
    seq(|entries|, e requires 0 <= e < |entries| => if Done(items, todo, e) then Retired(entries[e]) else entries[e])
  }

  lemma RetiredNone(entries: seq<Entry>, items: map<string, nat>)
    ensures RetiredBut(entries, items, items.Keys) == entries
  {
  }

  lemma RetiredMore(entries: seq<Entry>, items: map<string, nat>, todo: set<string>, q: string)
    requires q in todo && q in items && items[q] < |entries|
    requires forall r :: r in items && items[r] == items[q] ==> r == q
    ensures var es := RetiredBut(entries, items, todo);
            RetiredBut(entries, items, todo - {q}) == es[items[q] := Retired(es[items[q]])]
  {
    forall e: nat ensures Done(items, todo - {q}, e) <==> Done(items, todo, e) || e == items[q] {
      if r :| r in items && r !in todo - {q} && items[r] == e {
        assert r == q || r !in todo;
      }
      if r :| r in items && r !in todo && items[r] == e {
        assert r !in todo - {q};
      }
    }
    assert !Done(items, todo, items[q]);
  }

  lemma RetiredEvery(c: Cache)
    ensures RetiredBut(c.entries, c.items, {}) == CloseAll(c).entries
  {
    forall e: nat ensures Done(c.items, {}, e) <==> e in c.items.Values {
    }
  }

  class PreparedDB {
    const max: nat
    var items: map<string, nat>
    var order: seq<string>
    var preparing: map<string, nat>
    var generation: nat
    var entries: seq<Entry>
    var calls: seq<Call>

    ghost function Now(): Cache
      reads this
    {
      Cache(max, items, order, preparing, generation, entries, calls)
    }

    constructor (max: nat)
      ensures Now() == New(max)
    {
      this.max := max;
      items, order, preparing, generation, entries, calls := map[], [], map[], 0, [], [];
    }

    /** What a caller finds: the entry, a preparation to wait for, or none, which
        it then starts. */
    method Enter(query: string) returns (r: Entering)
      requires query in items ==> items[query] < |entries|
      requires query in preparing ==> preparing[query] < |calls|
      modifies this
      ensures r.Found? <==> query in old(items)
      ensures r.Found? ==> r.entry == old(items[query]) && Now() == Hit(old(Now()), query)
      ensures r.Joined? ==>
              query in old(preparing) && r.call == old(preparing[query]) && Now() == Join(old(Now()), query)
      ensures r.Started? ==> query !in old(preparing) && r.call == old(|calls|) && Now() == Start(old(Now()), query)
    {
      if query in items {
        var e := items[query];
        entries := entries[e := entries[e].(refs := entries[e].refs + 1)];
        order := Without(order, query) + [query];
        return Found(e);
      }
      if query in preparing {
        var k := preparing[query];
        calls := calls[k := calls[k].(waiters := calls[k].waiters + 1)];
        return Joined(k);
      }
      var k := |calls|;
      calls := calls + [Call(1, generation, false, None)];
      preparing := preparing[query := k];
      return Started(k);
    }

    method FinishPrepareError(query: string, k: nat)
      requires k < |calls|
      modifies this
      ensures Now() == FinishError(old(Now()), query, k)
    {
      calls := calls[k := calls[k].(complete := true)];
      preparing := preparing - {query};
    }

    method Retire(e: nat)
      requires e < |entries|
      modifies this`entries
      ensures entries == old(entries)[e := Retired(old(entries)[e])]
    {
      entries := entries[e := entries[e].(retired := true)];
      if entries[e].refs == 0 {
        entries := entries[e := entries[e].(closes := entries[e].closes + 1)];
      }
    }

    method FinishPrepareSuccess(query: string, k: nat) returns (e: nat)
      requires k < |calls| && max > 0 && (|order| >= max ==> order[0] in items && items[order[0]] < |entries|)
      modifies this
      ensures Now() == FinishSuccess(old(Now()), query, k) && e == old(|entries|)
    {
      e := |entries|;
      var entry := Entry(calls[k].waiters, false, 0, k);
      if calls[k].generation == generation {
        if |order| >= max {
          var oldest := order[0];
          Retire(items[oldest]);
          order := order[1..];
          items := items - {oldest};
        }
        items := items[query := e];
        order := order + [query];
      } else {
        entry := entry.(retired := true);
      }
      entries := entries + [entry];
      calls := calls[k := calls[k].(complete := true, entry := Some(e))];
      preparing := preparing - {query};
    }

    method Failed(query: string, e: nat)
      requires e < |entries|
      modifies this
      ensures Now() == Fail(old(Now()), query, e)
    {
      if query !in items || items[query] != e {
        return;
      }
      items := items - {query};
      order := Without(order, query);
      Retire(e);
    }

    method ReleaseEntry(e: nat)
      requires e < |entries|
      modifies this`entries
      ensures Now() == Release(old(Now()), e)
    {
      entries := entries[e := entries[e].(refs := entries[e].refs - 1)];
      if entries[e].refs == 0 && entries[e].retired {
        entries := entries[e := entries[e].(closes := entries[e].closes + 1)];
      }
    }

    /** The context of a waiting caller ended. */
    method CancelWait(k: nat)
      requires k < |calls| && (calls[k].entry.Some? ==> calls[k].entry.value < |entries|)
      modifies this
      ensures Now() == Cancel(old(Now()), k)
    {
      calls := calls[k := calls[k].(waiters := calls[k].waiters - 1)];
      if calls[k].complete && calls[k].entry.Some? {
        ReleaseEntry(calls[k].entry.value);
      }
    }

    method Close()
      requires Kept(Now())
      modifies this
      ensures Now() == CloseAll(old(Now()))
    {
      hide RetiredBut, Retired;
      generation := generation + 1;
      var todo := items.Keys;
      RetiredNone(entries, items);
      while todo != {}
        invariant todo <= items.Keys && |entries| == |old(entries)|
        invariant Now() == old(Now()).(generation := old(generation) + 1, entries := entries)
        invariant entries == RetiredBut(old(entries), items, todo)
        decreases |todo|
      {
        var q :| q in todo;
        RetiredMore(old(entries), items, todo, q);
        todo := todo - {q};
        Retire(items[q]);
      }
      RetiredEvery(old(Now()));
      items, order := map[], [];
    }
  }
}
