/** Lists that hold each of a set's elements once. */
module Queues {
  function Without<T(==)>(order: seq<T>, x: T): (r: seq<T>)
    ensures forall y :: y in r ==> y in order
  {
    if order == [] then []
    else if order[0] == x then order[1..]
    else [order[0]] + Without(order[1..], x)
  }

  /** order has each of keys once. */
  ghost predicate Lists<T>(order: seq<T>, keys: set<T>) {
    if order == [] then keys == {} else order[0] in keys && Lists(order[1..], keys - {order[0]})
  }

  lemma {:induction false} ListsLength<T>(order: seq<T>, keys: set<T>)
    requires Lists(order, keys)
    ensures |order| == |keys|
  {
    if order != [] {
      ListsLength(order[1..], keys - {order[0]});
    }
  }

  lemma {:induction false} ListsMembers<T>(order: seq<T>, keys: set<T>, x: T)
    requires Lists(order, keys)
    ensures x in order <==> x in keys
  {
    if order != [] {
      ListsMembers(order[1..], keys - {order[0]}, x);
      assert order == [order[0]] + order[1..];
    }
  }

  lemma {:induction false} ListsSnoc<T>(order: seq<T>, keys: set<T>, x: T)
    requires Lists(order, keys) && x !in keys
    ensures Lists(order + [x], keys + {x})
  {
    if order == [] {
      assert keys + {x} - {x} == {};
    } else {
      ListsSnoc(order[1..], keys - {order[0]}, x);
      assert (order + [x])[1..] == order[1..] + [x];
      assert keys + {x} - {order[0]} == keys - {order[0]} + {x};
    }
  }

  lemma {:induction false} ListsWithout<T>(order: seq<T>, keys: set<T>, x: T)
    requires Lists(order, keys) && x in keys
    ensures Lists(Without(order, x), keys - {x}) && |Without(order, x)| == |order| - 1
  {
    if order[0] != x {
      ListsWithout(order[1..], keys - {order[0]}, x);
      assert keys - {order[0]} - {x} == keys - {x} - {order[0]};
      assert Without(order, x)[1..] == Without(order[1..], x);
    }
  }
}
