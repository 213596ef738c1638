/** The merge as it runs, loop by loop, and the replay of a workspace's changes
    onto another snapshot. */
module Workspace {
  import opened Values
  import opened Merging
  import opened MergeCorrect
  import opened Diffing

  // --- keyed lists ---

  lemma {:induction false} AllKeyedAt(s: Schema, p: string, xs: seq<Json>, i: nat)
    requires AllKeyed(s, p, xs) && i < |xs|
    ensures HasKey(s, p, xs[i])
  {
    if i > 0 {
      AllKeyedAt(s, p, xs[1..], i - 1);
    }
  }

  lemma WithKeySnoc(s: Schema, p: string, k: string, xs: seq<Json>, x: Json)
    ensures WithKey(s, p, k, xs + [x]) == WithKey(s, p, k, xs) + (if Keyed(s, p, k, x) then [x] else [])
  {
    WithKeyConcat(s, p, k, xs, [x]);
  }

  lemma {:induction false} WithoutSnoc(k: string, ks: seq<string>, j: string)
    ensures Without(k, ks + [j]) == Without(k, ks) + (if j == k then [] else [j])
  {
    if ks == [] {
      assert ks + [j] == [j];
    } else {
      assert (ks + [j])[1..] == ks[1..] + [j];
      WithoutSnoc(k, ks[1..], j);
    }
  }

  lemma {:induction false} OrderSnoc(s: Schema, p: string, xs: seq<Json>, x: Json)
    requires AllKeyed(s, p, xs) && HasKey(s, p, x)
    ensures AllKeyed(s, p, xs + [x])
    ensures var k := KeyOf(s, p, x);
            Order(s, p, xs + [x]) == Order(s, p, xs) + (if k in Order(s, p, xs) then [] else [k])
  {
    if xs == [] {
      assert xs + [x] == [x];
    } else {
      var j, k := KeyOf(s, p, xs[0]), KeyOf(s, p, x);
      assert (xs + [x])[1..] == xs[1..] + [x];
      OrderSnoc(s, p, xs[1..], x);
      if k !in Order(s, p, xs[1..]) {
        WithoutSnoc(j, Order(s, p, xs[1..]), k);
      } else {
        assert Order(s, p, xs[1..] + [x]) == Order(s, p, xs[1..]);
      }
    }
  }

  /** v, a list at pattern p, by key: ok is false when it is not a keyed list. */
  method KeyedList(s: Schema, p: string, v: Json) returns (ok: bool, order: seq<string>, byKey: map<string, Json>)
    ensures ok <==> IsKeyed(s, p, v)
    ensures ok ==> order == Order(s, p, v.items)
    ensures ok ==> forall k :: Get(byKey, k) == Element(s, p, v, k)
  {
    order, byKey := [], map[];
    if !v.Arr? {
      return false, order, byKey;
    }
    var groups: map<string, seq<Json>> := map[];
    for i := 0 to |v.items|
      invariant AllKeyed(s, p, v.items[..i]) && order == Order(s, p, v.items[..i])
      invariant forall k :: k in groups <==> k in order
      invariant forall k :: k in groups ==> groups[k] == WithKey(s, p, k, v.items[..i])
    {
      var el := v.items[i];
      assert v.items[..i + 1] == v.items[..i] + [el];
      if !HasKey(s, p, el) {
        if AllKeyed(s, p, v.items) {
          AllKeyedAt(s, p, v.items, i);
        }
        return false, order, byKey;
      }
      var key := KeyOf(s, p, el);
      OrderSnoc(s, p, v.items[..i], el);
      OrderMembers(s, p, v.items[..i], key);
      forall k
        ensures WithKey(s, p, k, v.items[..i + 1]) == WithKey(s, p, k, v.items[..i]) + (if k == key then [el] else [])
      {
        WithKeySnoc(s, p, k, v.items[..i], el);
      }
      if key !in groups {
        order := order + [key];
        groups := groups[key := []];
      }
      groups := groups[key := groups[key] + [el]];
    }
    assert v.items[..|v.items|] == v.items;
    byKey := PackGroups(s, p, v, order, groups);
    ok := true;
  }

  method PackGroups(s: Schema, p: string, v: Json, ghost order: seq<string>, groups: map<string, seq<Json>>)
    returns (byKey: map<string, Json>)
    requires IsKeyed(s, p, v) && order == Order(s, p, v.items)
    requires forall k :: k in groups <==> k in order
    requires forall k :: k in groups ==> groups[k] == WithKey(s, p, k, v.items)
    ensures forall k :: Get(byKey, k) == Element(s, p, v, k)
  {
    byKey := map[];
    var keys := groups.Keys;
    while keys != {}
      invariant keys <= groups.Keys && byKey.Keys == groups.Keys - keys
      invariant forall k :: k in byKey ==> byKey[k] == Element(s, p, v, k)
      decreases |keys|
    {
      var k :| k in keys;
      OrderMembers(s, p, v.items, k);
      byKey := byKey[k := if |groups[k]| == 1 then groups[k][0] else Arr(groups[k])];
      keys := keys - {k};
    }
    forall k ensures Get(byKey, k) == Element(s, p, v, k) {
      OrderMembers(s, p, v.items, k);
    }
  }

  // --- lenses ---

  /** The value at path, walking down; a group for elements sharing a key. */
  method GetValue(s: Schema, root: Json, path: Path) returns (v: Json)
    ensures v == GetAt(s, "", root, path)
  {
    v := root;
    ghost var p := "";
    for i := 0 to |path|
      invariant p == Pattern(path[..i])
      invariant GetAt(s, p, v, path[i..]) == GetAt(s, "", root, path)
    {
      GetAtStep(s, p, v, path[i..]);
      PatternSnoc(path[..i], path[i]);
      assert path[..i + 1] == path[..i] + [path[i]];
      GetNothing(s, StepPattern(p, path[i]), path[i + 1..]);
      if path[i].FieldStep? {
        if !v.Obj? {
          return Missing;
        }
        v := Get(v.fields, path[i].key);
      } else {
        var ok, _, byKey := KeyedList(s, Pattern(path[..i]), v);
        if !ok {
          return Missing;
        }
        v := Get(byKey, path[i].key);
      }
      p := StepPattern(p, path[i]);
    }
  }

  lemma {:induction false} OthersSnoc(s: Schema, p: string, k: string, xs: seq<Json>, x: Json)
    ensures Others(s, p, k, xs + [x]) == Others(s, p, k, xs) + (if Keyed(s, p, k, x) then [] else [x])
    ensures Place(s, p, k, xs + [x]) ==
            if WithKey(s, p, k, xs) != [] then Place(s, p, k, xs)
            else |Others(s, p, k, xs)| + (if Keyed(s, p, k, x) then 0 else 1)
  {
    if xs == [] {
      assert xs + [x] == [x];
    } else {
      assert (xs + [x])[1..] == xs[1..] + [x];
      OthersSnoc(s, p, k, xs[1..], x);
    }
  }

  /** Replaces the elements with key k of a list where the first of them was. */
  method SetElement(s: Schema, p: string, root: Json, k: string, rest: Path, value: Json) returns (r: Json)
    ensures r == SetAt(s, p, root, [ElementStep(k)] + rest, value)
  {
    var list := Items(root);
    var mine: seq<Json>, others: seq<Json>, at := [], [], -1;
    for i := 0 to |list|
      invariant mine == WithKey(s, p, k, list[..i]) && others == Others(s, p, k, list[..i])
      invariant at == if mine == [] then -1 else Place(s, p, k, list[..i])
      invariant mine == [] ==> Place(s, p, k, list[..i]) == |others|
    {
      var el := list[i];
      assert list[..i + 1] == list[..i] + [el];
      OthersSnoc(s, p, k, list[..i], el);
      WithKeySnoc(s, p, k, list[..i], el);
      if Keyed(s, p, k, el) {
        if at < 0 {
          at := |others|;
        }
        mine := mine + [el];
      } else {
        others := others + [el];
      }
    }
    assert list[..|list|] == list;
    var current := if |mine| == 0 then Missing else if |mine| == 1 then mine[0] else Arr(mine);
    var v := SetAt(s, ElementPattern(p), current, rest, value);
    if at < 0 {
      at := |others|;
    }
    assert ([ElementStep(k)] + rest)[1..] == rest;
    r := Arr(others[..at] + Unpack(v) + others[at..]);
  }

  // --- merging ---

  /** cs are the conflicts, each once, in some order. */
  ghost predicate Lists(cs: seq<Conflict>, conflicts: set<Conflict>) {
    multiset(cs) == multiset(conflicts)
  }

  lemma ListsMembers(cs: seq<Conflict>, conflicts: set<Conflict>)
    requires Lists(cs, conflicts)
    ensures |cs| == |conflicts| && forall c :: c in cs <==> c in conflicts
  {
    assert |multiset(cs)| == |cs| && |multiset(conflicts)| == |conflicts|;
    forall c ensures c in cs <==> c in conflicts {
      assert c in multiset(cs) <==> c in multiset(conflicts);
    }
  }

  /** Lists of conflicts apart, one after the other, are one of all. */
  lemma ListsConcat(cs: seq<Conflict>, a: set<Conflict>, ds: seq<Conflict>, b: set<Conflict>)
    requires Lists(cs, a) && Lists(ds, b) && a !! b
    ensures Lists(cs + ds, a + b)
  {
    assert multiset(cs + ds) == multiset(a) + multiset(b);
    forall c ensures multiset(a + b)[c] == (multiset(a) + multiset(b))[c] {
    }
  }

  /** Conflicts under two steps are apart. */
  lemma StepsApart(a: set<Conflict>, b: set<Conflict>, path: Path, j: Step, k: Step)
    requires j != k && (forall c :: c in a ==> Within(c.path, path + [j])) && forall c :: c in b ==>
             Within(c.path, path + [k])
    ensures a !! b
  {
    forall c | c in a ensures c !in b {
      WithinChild(c.path, path, j);
      if c in b {
        WithinChild(c.path, path, k);
      }
    }
  }

  method MergeValues(s: Schema, base: Json, local: Json, next: Json, path: Path) returns (v: Json, cs: seq<Conflict>)
    ensures v == Merge(s, base, local, next, path).value
    ensures Lists(cs, Merge(s, base, local, next, path).conflicts)
    decreases !local.Missing?, local, 4
  {
    if SameAt(s, path, local, base) {
      return next, [];
    }
    if SameAt(s, path, next, base) || SameAt(s, path, next, local) {
      return local, [];
    }
    if MergesObjects(base, local, next) {
      v, cs := MergeFields(s, base, local, next, path);
      return;
    }
    if MergesLists(s, base, local, next, path) {
      v, cs := MergeKeyed(s, base, local, next, path);
      return;
    }
    return local, [Conflict(path, local, next)];
  }

  /** The fields and the conflicts of the keys merged so far. */
  ghost function FieldValues(
    s: Schema, base: Json, local: Json, next: Json, path: Path, done: set<string>): map<string, Json>
    requires MergesObjects(base, local, next)
  {
    map k | k in done && !MergeField(s, base, local, next, path, k).value.Missing? ::
      MergeField(s, base, local, next, path, k).value
  }

  ghost function FieldConflicts(
    s: Schema, base: Json, local: Json, next: Json, path: Path, done: set<string>): set<Conflict>
    requires MergesObjects(base, local, next)
  {
    set k, c | k in done && c in MergeField(s, base, local, next, path, k).conflicts :: c
  }

  /** all, and k's value when there is one. */
  function With(all: map<string, Json>, k: string, value: Json): map<string, Json> {
    if value.Missing? then all else all[k := value]
  }

  lemma FieldValueDone(s: Schema, base: Json, local: Json, next: Json, path: Path, done: set<string>, k: string)
    requires MergesObjects(base, local, next) && k !in done
    ensures FieldValues(s, base, local, next, path, done + {k}) ==
            With(FieldValues(s, base, local, next, path, done), k, MergeField(s, base, local, next, path, k).value)
  {
  }

  lemma FieldConflictsDone(s: Schema, base: Json, local: Json, next: Json, path: Path, done: set<string>, k: string)
    requires MergesObjects(base, local, next) && k !in done
    ensures FieldConflicts(s, base, local, next, path, done + {k}) ==
            FieldConflicts(s, base, local, next, path, done) + MergeField(s, base, local, next, path, k).conflicts
  {
  }

  lemma FieldWithin(s: Schema, base: Json, local: Json, next: Json, path: Path, k: string)
    requires MergesObjects(base, local, next)
    ensures forall c :: c in MergeField(s, base, local, next, path, k).conflicts ==>
            Within(c.path, path + [FieldStep(k)])
  {
    hide Merge, Within;
    var from := BaseObject(base, local, next);
    forall c | c in MergeField(s, base, local, next, path, k).conflicts ensures Within(c.path, path + [FieldStep(k)]) {
      ConflictsWithin(s, Get(from.fields, k), Get(local.fields, k), Get(next.fields, k), path + [FieldStep(k)], c);
    }
  }

  lemma FieldConflictsApart(s: Schema, base: Json, local: Json, next: Json, path: Path, done: set<string>, k: string)
    requires MergesObjects(base, local, next) && k !in done
    ensures FieldConflicts(s, base, local, next, path, done) !! MergeField(s, base, local, next, path, k).conflicts
  {
    hide MergeField, Within;
    var one := MergeField(s, base, local, next, path, k).conflicts;
    FieldWithin(s, base, local, next, path, k);
    forall c | c in FieldConflicts(s, base, local, next, path, done) ensures c !in one {
      var j :| j in done && c in MergeField(s, base, local, next, path, j).conflicts;
      FieldWithin(s, base, local, next, path, j);
      StepsApart(MergeField(s, base, local, next, path, j).conflicts, one, path, FieldStep(j), FieldStep(k));
    }
  }

  lemma MergeOfFields(s: Schema, base: Json, local: Json, next: Json, path: Path)
    requires MergesObjects(base, local, next) && AllDiffer(s, path, base, local, next)
    ensures var all := local.fields.Keys + next.fields.Keys + BaseObject(base, local, next).fields.Keys;
            Merge(s, base, local, next, path) ==
            Merged(Obj(FieldValues(s, base, local, next, path, all)), FieldConflicts(s, base, local, next, path, all))
  {
  }

  /** Merges the field k, once those of done are. */
  method MergeOneField(
    s: Schema, base: Json, local: Json, next: Json, path: Path, k: string, ghost done: set<string>,
    values: map<string, Json>, conflicts: seq<Conflict>)
    returns (v: map<string, Json>, cs: seq<Conflict>)
    requires MergesObjects(base, local, next) && k !in done
    requires values == FieldValues(s, base, local, next, path, done) &&
             Lists(conflicts, FieldConflicts(s, base, local, next, path, done))
    ensures v == FieldValues(s, base, local, next, path, done + {k}) &&
            Lists(cs, FieldConflicts(s, base, local, next, path, done + {k}))
    decreases true, local, 0
  {
    FieldValueDone(s, base, local, next, path, done, k);
    FieldConflictsDone(s, base, local, next, path, done, k);
    FieldConflictsApart(s, base, local, next, path, done, k);
    var from := BaseObject(base, local, next);
    var child, found := MergeValues(s, Get(from.fields, k), Get(local.fields, k), Get(next.fields, k),
        path + [FieldStep(k)]);
    v := values;
    if !child.Missing? {
      v := v[k := child];
    }
    cs := conflicts + found;
    ListsConcat(conflicts, FieldConflicts(s, base, local, next, path, done), found,
        MergeField(s, base, local, next, path, k).conflicts);
  }

  method MergeEachField(s: Schema, base: Json, local: Json, next: Json, path: Path, all: set<string>)
    returns (value: map<string, Json>, cs: seq<Conflict>)
    requires MergesObjects(base, local, next)
    ensures value == FieldValues(s, base, local, next, path, all) &&
            Lists(cs, FieldConflicts(s, base, local, next, path, all))
    decreases true, local, 1
  {
    var keys := all;
    ghost var done: set<string> := {};
    value, cs := map[], [];
    while keys != {}
      invariant keys !! done && keys + done == all
      invariant value == FieldValues(s, base, local, next, path, done)
      invariant Lists(cs, FieldConflicts(s, base, local, next, path, done))
      decreases |keys|
    {
      var k :| k in keys;
      value, cs := MergeOneField(s, base, local, next, path, k, done, value, cs);
      keys, done := keys - {k}, done + {k};
    }
    assert done == all;
  }

  method MergeFields(s: Schema, base: Json, local: Json, next: Json, path: Path) returns (v: Json, cs: seq<Conflict>)
    requires MergesObjects(base, local, next) && AllDiffer(s, path, base, local, next)
    ensures v == Merge(s, base, local, next, path).value
    ensures Lists(cs, Merge(s, base, local, next, path).conflicts)
    decreases true, local, 2
  {
    var all := local.fields.Keys + next.fields.Keys + BaseObject(base, local, next).fields.Keys;
    var value;
    value, cs := MergeEachField(s, base, local, next, path, all);
    MergeOfFields(s, base, local, next, path);
    v := Obj(value);
  }

  ghost function ElementConflicts(
    s: Schema, base: Json, local: Json, next: Json, path: Path, order: seq<string>): set<Conflict>
    requires MergesLists(s, base, local, next, path)
  {
    set k, c | k in order && c in MergeElement(s, base, local, next, path, k).conflicts :: c
  }

  lemma ElementConflictsSnoc(s: Schema, base: Json, local: Json, next: Json, path: Path, order: seq<string>, k: string)
    requires MergesLists(s, base, local, next, path)
    ensures ElementConflicts(s, base, local, next, path, order + [k]) ==
            ElementConflicts(s, base, local, next, path, order) + MergeElement(s, base, local, next, path, k).conflicts
  {
    var before, one := ElementConflicts(s, base, local, next, path, order),
        MergeElement(s, base, local, next, path, k).conflicts;
    var after := ElementConflicts(s, base, local, next, path, order + [k]);
    assert k in order + [k];
    forall c | c in after ensures c in before + one {
      var j :| j in order + [k] && c in MergeElement(s, base, local, next, path, j).conflicts;
    }
    forall c | c in before ensures c in after {
      var j :| j in order && c in MergeElement(s, base, local, next, path, j).conflicts;
      assert j in order + [k];
    }
  }

  lemma ElementWithin(s: Schema, base: Json, local: Json, next: Json, path: Path, k: string)
    requires MergesLists(s, base, local, next, path)
    ensures forall c :: c in MergeElement(s, base, local, next, path, k).conflicts ==>
            Within(c.path, path + [ElementStep(k)])
  {
    hide Merge;
    var p, at := Pattern(path), path + [ElementStep(k)];
    var be, le, ne := Element(s, p, BaseList(base), k), Element(s, p, local, k), Element(s, p, next, k);
    forall c | c in MergeElement(s, base, local, next, path, k).conflicts ensures Within(c.path, at) {
      if !(IsGroup(be) || IsGroup(le) || IsGroup(ne)) {
        ConflictsWithin(s, be, le, ne, at, c);
      }
    }
  }

  lemma ElementsApart(s: Schema, base: Json, local: Json, next: Json, path: Path, j: string, k: string)
    requires MergesLists(s, base, local, next, path) && j != k
    ensures MergeElement(s, base, local, next, path, j).conflicts !! MergeElement(s, base, local, next, path,
            k).conflicts
  {
    hide MergeElement, Within;
    ElementWithin(s, base, local, next, path, j);
    ElementWithin(s, base, local, next, path, k);
    StepsApart(MergeElement(s, base, local, next, path, j).conflicts,
        MergeElement(s, base, local, next, path, k).conflicts,
               path, ElementStep(j), ElementStep(k));
  }

  lemma ElementConflictsApart(s: Schema, base: Json, local: Json, next: Json, path: Path, order: seq<string>, k: string)
    requires MergesLists(s, base, local, next, path) && k !in order
    ensures ElementConflicts(s, base, local, next, path, order) !! MergeElement(s, base, local, next, path, k).conflicts
  {
    hide MergeElement, IsKeyed, AllKeyed;
    forall c | c in ElementConflicts(s, base, local, next, path, order)
      ensures c !in MergeElement(s, base, local, next, path, k).conflicts
    {
      var j :| j in order && c in MergeElement(s, base, local, next, path, j).conflicts;
      ElementsApart(s, base, local, next, path, j, k);
    }
  }

  lemma {:induction false} NoDupAt(ks: seq<string>, i: nat)
    requires NoDup(ks) && i < |ks|
    ensures ks[i] !in ks[..i]
  {
    if i > 0 {
      NoDupAt(ks[1..], i - 1);
      assert ks[..i] == [ks[0]] + ks[1..][..i - 1];
      assert ks[1..][i - 1] in ks[1..];
    }
  }

  lemma MergeElementsSnoc(s: Schema, base: Json, local: Json, next: Json, path: Path, order: seq<string>, k: string)
    requires MergesLists(s, base, local, next, path)
    ensures MergeElements(s, base, local, next, path, order + [k]) ==
            MergeElements(s, base, local, next, path, order) + Unpack(MergeElement(s, base, local, next, path, k).value)
    decreases order
  {
    if order == [] {
      assert order + [k] == [k];
      assert MergeElements(s, base, local, next, path, [k][1..]) == [];
    } else {
      assert (order + [k])[1..] == order[1..] + [k];
      MergeElementsSnoc(s, base, local, next, path, order[1..], k);
    }
  }

  /** Merges the element of k, once those of done are. */
  method MergeNextElement(
    s: Schema, base: Json, local: Json, next: Json, path: Path, k: string, ghost done: seq<string>, values: seq<Json>,
    conflicts: seq<Conflict>)
    returns (v: seq<Json>, cs: seq<Conflict>)
    requires MergesLists(s, base, local, next, path) && k !in done
    requires values == MergeElements(s, base, local, next, path, done) &&
             Lists(conflicts, ElementConflicts(s, base, local, next, path, done))
    ensures v == MergeElements(s, base, local, next, path, done + [k]) &&
            Lists(cs, ElementConflicts(s, base, local, next, path, done + [k]))
    decreases true, local, 1
  {
    MergeElementsSnoc(s, base, local, next, path, done, k);
    ElementConflictsSnoc(s, base, local, next, path, done, k);
    ElementConflictsApart(s, base, local, next, path, done, k);
    var child, found := MergeOne(s, base, local, next, path, k);
    v, cs := values + Unpack(child), conflicts + found;
    ListsConcat(conflicts, ElementConflicts(s, base, local, next, path, done), found,
        MergeElement(s, base, local, next, path, k).conflicts);
  }

  method MergeEachElement(s: Schema, base: Json, local: Json, next: Json, path: Path, order: seq<string>)
    returns (value: seq<Json>, cs: seq<Conflict>)
    requires MergesLists(s, base, local, next, path) && NoDup(order)
    ensures value == MergeElements(s, base, local, next, path, order) &&
            Lists(cs, ElementConflicts(s, base, local, next, path, order))
    decreases true, local, 2
  {
    value, cs := [], [];
    ghost var done: seq<string> := [];
    for i := 0 to |order|
      invariant done == order[..i]
      invariant value == MergeElements(s, base, local, next, path, done) &&
                Lists(cs, ElementConflicts(s, base, local, next, path, done))
    {
      NoDupAt(order, i);
      value, cs := MergeNextElement(s, base, local, next, path, order[i], done, value, cs);
      done := done + [order[i]];
    }
    assert done == order;
  }

  method MergeKeyed(s: Schema, base: Json, local: Json, next: Json, path: Path) returns (v: Json, cs: seq<Conflict>)
    requires MergesLists(s, base, local, next, path) && !MergesObjects(base, local, next)
    requires AllDiffer(s, path, base, local, next)
    ensures v == Merge(s, base, local, next, path).value
    ensures Lists(cs, Merge(s, base, local, next, path).conflicts)
    decreases true, local, 3
  {
    MergedOrderNoDup(s, local, next, path);
    var value;
    value, cs := MergeEachElement(s, base, local, next, path, MergedOrder(s, local, next, path));
    v := Arr(value);
  }

  method MergeOne(
    s: Schema, base: Json, local: Json, next: Json, path: Path, k: string) returns (v: Json, cs: seq<Conflict>)
    requires MergesLists(s, base, local, next, path)
    ensures v == MergeElement(s, base, local, next, path, k).value
    ensures Lists(cs, MergeElement(s, base, local, next, path, k).conflicts)
    decreases true, local, 0
  {
    var p, at := Pattern(path), path + [ElementStep(k)];
    var be, le, ne := Element(s, p, BaseList(base), k), Element(s, p, local, k), Element(s, p, next, k);
    ElementMember(s, p, local, k);
    if IsGroup(be) || IsGroup(le) || IsGroup(ne) {
      v, cs := MergeWholly(s, be, le, ne, at);
    } else {
      v, cs := MergeValues(s, be, le, ne, at);
    }
  }

  method MergeWholly(s: Schema, base: Json, local: Json, next: Json, path: Path) returns (v: Json, cs: seq<Conflict>)
    ensures v == Whole(s, base, local, next, path).value
    ensures Lists(cs, Whole(s, base, local, next, path).conflicts)
  {
    if SameAt(s, path, local, base) {
      return next, [];
    }
    if SameAt(s, path, next, base) || SameAt(s, path, next, local) {
      return local, [];
    }
    return local, [Conflict(path, local, next)];
  }
}
