/** What the merge promises at every path: each side's change survives, a value
    both changed differently is a conflict that keeps the local one, and no
    other is reported. */
module MergeCorrect {
  import opened Values
  import opened Merging

  predicate Within(p: Path, q: Path) {
    |p| >= |q| && p[..|q|] == q
  }

  /** q is on or under the value of a conflict. */
  predicate Under(cs: set<Conflict>, q: Path) {
    exists c :: c in cs && Within(q, c.path)
  }

  /** A conflict is on or under q. */
  predicate Above(cs: set<Conflict>, q: Path) {
    exists c :: c in cs && Within(c.path, q)
  }

  /** What the merged value v must be at q, given the three sides there; under
      is whether a conflict is on or above q, above whether one is on or under. */
  predicate Follows(s: Schema, under: bool, above: bool, q: Path, b: Json, l: Json, n: Json, v: Json) {
    && (under ==> SameAt(s, q, v, l))
    && (!under && !above ==>
          && (SameAt(s, q, l, b) ==> SameAt(s, q, v, n)) && (SameAt(s, q, n, b) ==> SameAt(s, q, v, l))
          && (SameAt(s, q, n, l) ==> SameAt(s, q, v, l)))
    && (!SameAt(s, q, l, b) && !SameAt(s, q, n, b) && !SameAt(s, q, n, l) ==>
          under || MergesObjects(b, l, n) || MergesLists(s, b, l, n, q))
  }

  // --- the elements of a merged list ---

  predicate AllOfKey(s: Schema, p: string, k: string, xs: seq<Json>) {
    forall i :: 0 <= i < |xs| ==> Keyed(s, p, k, xs[i])
  }

  /** v is what a list at p may hold under k: nothing, an element, a group. */
  predicate Holds(s: Schema, p: string, k: string, v: Json) {
    v.Missing? || Keyed(s, p, k, v) || (v.Arr? && |v.items| > 1 && AllOfKey(s, p, k, v.items))
  }

  lemma ElementHolds(s: Schema, p: string, v: Json, k: string)
    requires v.Arr?
    ensures Holds(s, p, k, Element(s, p, v, k))
  {
    WithKeyObjects(s, p, k, v.items);
  }

  lemma HoldsUnpacked(s: Schema, p: string, k: string, v: Json)
    requires Holds(s, p, k, v)
    ensures AllOfKey(s, p, k, Unpack(v)) && Pack(Unpack(v)) == v
  {
  }

  /** Merging two objects with a key gives one with that key. */
  lemma MergedKey(s: Schema, base: Json, local: Json, next: Json, path: Path, p: string, k: string)
    requires MergesObjects(base, local, next) && Keyed(s, p, k, local) && Keyed(s, p, k, next)
    ensures var key := s.lists[ElementPattern(p)]; MergeField(s, base, local, next, path, key).value == Str(k)
  {
  }

  lemma MergedHolds(s: Schema, base: Json, local: Json, next: Json, path: Path, p: string, k: string)
    requires Holds(s, p, k, local) && Holds(s, p, k, next) && !IsGroup(local) && !IsGroup(next)
    ensures Holds(s, p, k, Merge(s, base, local, next, path).value)
  {
    hide AllOfKey, SameAt, Canon, CanonElement;
    if MergesObjects(base, local, next) {
      MergedKey(s, base, local, next, path, p, k);
    }
  }

  lemma MergeElementHolds(s: Schema, base: Json, local: Json, next: Json, path: Path, k: string)
    requires MergesLists(s, base, local, next, path)
    ensures Holds(s, Pattern(path), k, MergeElement(s, base, local, next, path, k).value)
  {
    var p := Pattern(path);
    ElementHolds(s, p, local, k);
    ElementHolds(s, p, next, k);
    var be, le, ne := Element(s, p, BaseList(base), k), Element(s, p, local, k), Element(s, p, next, k);
    if !(IsGroup(be) || IsGroup(le) || IsGroup(ne)) {
      MergedHolds(s, be, le, ne, path + [ElementStep(k)], p, k);
    }
  }

  predicate NoDup(ks: seq<string>) {
    ks == [] || (ks[0] !in ks[1..] && NoDup(ks[1..]))
  }

  lemma {:induction false} WithoutNoDup(k: string, ks: seq<string>)
    requires NoDup(ks)
    ensures NoDup(Without(k, ks))
  {
    if ks != [] {
      WithoutNoDup(k, ks[1..]);
      if ks[0] != k {
        assert Without(k, ks)[1..] == Without(k, ks[1..]);
      } else {
        assert Without(k, ks) == Without(k, ks[1..]);
      }
    }
  }

  lemma {:induction false} OrderNoDup(s: Schema, p: string, xs: seq<Json>)
    requires AllKeyed(s, p, xs)
    ensures NoDup(Order(s, p, xs))
  {
    if xs != [] {
      var k := KeyOf(s, p, xs[0]);
      OrderNoDup(s, p, xs[1..]);
      WithoutNoDup(k, Order(s, p, xs[1..]));
      assert Order(s, p, xs)[1..] == Without(k, Order(s, p, xs[1..]));
    }
  }

  lemma {:induction false} NotInNoDup(mine: seq<string>, ks: seq<string>)
    requires NoDup(ks)
    ensures NoDup(NotIn(mine, ks))
  {
    if ks != [] {
      NotInNoDup(mine, ks[1..]);
      if ks[0] !in mine {
        assert NotIn(mine, ks)[1..] == NotIn(mine, ks[1..]);
      } else {
        assert NotIn(mine, ks) == NotIn(mine, ks[1..]);
      }
    }
  }

  lemma {:induction false} ConcatNoDup(ks: seq<string>, js: seq<string>)
    requires NoDup(ks) && NoDup(js) && forall k :: k in js ==> k !in ks
    ensures NoDup(ks + js)
  {
    if ks == [] {
      assert ks + js == js;
    } else {
      assert (ks + js)[1..] == ks[1..] + js;
      ConcatNoDup(ks[1..], js);
    }
  }

  lemma MergedOrderNoDup(s: Schema, local: Json, next: Json, path: Path)
    requires IsKeyed(s, Pattern(path), local) && IsKeyed(s, Pattern(path), next)
    ensures NoDup(MergedOrder(s, local, next, path))
  {
    var p := Pattern(path);
    OrderNoDup(s, p, local.items);
    OrderNoDup(s, p, next.items);
    NotInNoDup(Order(s, p, local.items), Order(s, p, next.items));
    ConcatNoDup(Order(s, p, local.items), NotIn(Order(s, p, local.items), Order(s, p, next.items)));
  }

  /** The keys in the order are those some element has. */
  lemma {:induction false} OrderMembers(s: Schema, p: string, xs: seq<Json>, k: string)
    requires AllKeyed(s, p, xs)
    ensures k in Order(s, p, xs) <==> WithKey(s, p, k, xs) != []
  {
    if xs != [] {
      OrderMembers(s, p, xs[1..], k);
    }
  }

  lemma {:induction false} WithKeyConcat(s: Schema, p: string, k: string, xs: seq<Json>, ys: seq<Json>)
    ensures WithKey(s, p, k, xs + ys) == WithKey(s, p, k, xs) + WithKey(s, p, k, ys)
  {
    if xs == [] {
      assert xs + ys == ys;
    } else {
      assert (xs + ys)[1..] == xs[1..] + ys;
      WithKeyConcat(s, p, k, xs[1..], ys);
    }
  }

  lemma {:induction false} AllKeyedConcat(s: Schema, p: string, xs: seq<Json>, ys: seq<Json>)
    requires AllKeyed(s, p, xs) && AllKeyed(s, p, ys)
    ensures AllKeyed(s, p, xs + ys)
  {
    if xs == [] {
      assert xs + ys == ys;
    } else {
      assert (xs + ys)[1..] == xs[1..] + ys;
      AllKeyedConcat(s, p, xs[1..], ys);
    }
  }

  lemma {:induction false} OfKeyWithKey(s: Schema, p: string, j: string, k: string, xs: seq<Json>)
    requires AllOfKey(s, p, j, xs)
    ensures AllKeyed(s, p, xs)
    ensures WithKey(s, p, k, xs) == if j == k then xs else []
  {
    if xs != [] {
      OfKeyWithKey(s, p, j, k, xs[1..]);
    }
  }

  /** Elements under j before others. */
  lemma KeyedConcat(s: Schema, p: string, j: string, v: Json, more: seq<Json>, k: string)
    requires Holds(s, p, j, v) && AllKeyed(s, p, more)
    ensures AllKeyed(s, p, Unpack(v) + more)
    ensures WithKey(s, p, k, Unpack(v) + more) == (if j == k then Unpack(v) else []) + WithKey(s, p, k, more)
  {
    HoldsUnpacked(s, p, j, v);
    OfKeyWithKey(s, p, j, k, Unpack(v));
    AllKeyedConcat(s, p, Unpack(v), more);
    WithKeyConcat(s, p, k, Unpack(v), more);
  }

  /** The merged list holds, under each key, what the merge gave for it. */
  lemma {:induction false} MergedElements(
    s: Schema, base: Json, local: Json, next: Json, path: Path, order: seq<string>, k: string)
    requires MergesLists(s, base, local, next, path) && NoDup(order)
    ensures AllKeyed(s, Pattern(path), MergeElements(s, base, local, next, path, order))
    ensures WithKey(s, Pattern(path), k, MergeElements(s, base, local, next, path, order)) ==
            if k in order then Unpack(MergeElement(s, base, local, next, path, k).value) else []
    decreases order
  {
    if order != [] {
      var j := order[0];
      MergedElements(s, base, local, next, path, order[1..], k);
      MergeElementHolds(s, base, local, next, path, j);
      KeyedConcat(s, Pattern(path), j, MergeElement(s, base, local, next, path, j).value,
                  MergeElements(s, base, local, next, path, order[1..]), k);
    }
  }

  // --- the parts of a merged value ---

  /** Neither side kept the base's, and the two differ. */
  predicate AllDiffer(s: Schema, path: Path, base: Json, local: Json, next: Json) {
    !SameAt(s, path, local, base) && !SameAt(s, path, next, base) && !SameAt(s, path, next, local)
  }

  /** Merged part by part. */
  predicate InParts(s: Schema, base: Json, local: Json, next: Json, path: Path) {
    AllDiffer(s, path, base, local, next) &&
        (MergesObjects(base, local, next) || MergesLists(s, base, local, next, path))
  }

  /** How the part under step is merged. */
  function Part(s: Schema, base: Json, local: Json, next: Json, path: Path, step: Step): Merged
    requires InParts(s, base, local, next, path)
  {
    if MergesObjects(base, local, next) then
      if step.FieldStep? then MergeField(s, base, local, next, path, step.key) else Merged(Missing, {})
    else if step.ElementStep? then MergeElement(s, base, local, next, path, step.key)
    else Merged(Missing, {})
  }

  lemma MergeNothing(s: Schema, path: Path)
    ensures Merge(s, Missing, Missing, Missing, path) == Merged(Missing, {})
  {
  }

  lemma FieldPart(s: Schema, base: Json, local: Json, next: Json, path: Path, k: string)
    requires AllDiffer(s, path, base, local, next) && MergesObjects(base, local, next)
    ensures Get(Merge(s, base, local, next, path).value.fields, k) == MergeField(s, base, local, next, path, k).value
  {
    MergeNothing(s, path + [FieldStep(k)]);
  }

  lemma NoElement(s: Schema, base: Json, local: Json, next: Json, path: Path, k: string)
    requires MergesLists(s, base, local, next, path) && k !in MergedOrder(s, local, next, path)
    ensures MergeElement(s, base, local, next, path, k) == Merged(Missing, {})
  {
    OrderMembers(s, Pattern(path), local.items, k);
    OrderMembers(s, Pattern(path), next.items, k);
    assert SameAt(s, path + [ElementStep(k)], Missing, Missing);
  }

  lemma ElementPart(s: Schema, base: Json, local: Json, next: Json, path: Path, k: string)
    requires AllDiffer(s, path, base, local, next) && !MergesObjects(base, local, next) &&
             MergesLists(s, base, local, next, path)
    ensures var v := Merge(s, base, local, next, path).value;
            IsKeyed(s, Pattern(path), v) &&
                Element(s, Pattern(path), v, k) == MergeElement(s, base, local, next, path, k).value
  {
    MergedOrderNoDup(s, local, next, path);
    MergedElements(s, base, local, next, path, MergedOrder(s, local, next, path), k);
    MergeElementHolds(s, base, local, next, path, k);
    HoldsUnpacked(s, Pattern(path), k, MergeElement(s, base, local, next, path, k).value);
    if k !in MergedOrder(s, local, next, path) {
      NoElement(s, base, local, next, path, k);
    }
  }

  /** What the merged value holds under step is its part. */
  lemma PartChild(s: Schema, base: Json, local: Json, next: Json, path: Path, step: Step)
    requires InParts(s, base, local, next, path)
    ensures Child(s, Pattern(path), Merge(s, base, local, next, path).value, step) ==
            Part(s, base, local, next, path, step).value
  {
    if MergesObjects(base, local, next) {
      if step.FieldStep? {
        FieldPart(s, base, local, next, path, step.key);
      }
    } else if step.ElementStep? {
      ElementPart(s, base, local, next, path, step.key);
    }
  }

  // --- where conflicts are ---

  lemma WithinChild(q: Path, path: Path, step: Step)
    requires Within(q, path + [step])
    ensures Within(q, path) && |q| > |path| && q[|path|] == step
  {
    assert q[..|path|] == (path + [step])[..|path|];
    assert q[|path|] == (path + [step])[|path|];
  }

  lemma {:induction false} ConflictsWithin(s: Schema, base: Json, local: Json, next: Json, path: Path, c: Conflict)
    requires c in Merge(s, base, local, next, path).conflicts
    ensures Within(c.path, path)
    decreases !local.Missing?, local, 2
  {
    if InParts(s, base, local, next, path) {
      var step := PartConflict(s, base, local, next, path, c);
      PartWithin(s, base, local, next, path, c, step);
      WithinChild(c.path, path, step);
    }
  }

  /** A conflict of the whole is one of a part. */
  lemma PartConflict(s: Schema, base: Json, local: Json, next: Json, path: Path, c: Conflict) returns (step: Step)
    requires InParts(s, base, local, next, path) && c in Merge(s, base, local, next, path).conflicts
    ensures c in Part(s, base, local, next, path, step).conflicts
    ensures MergesObjects(base, local, next) <==> step.FieldStep?
  {
    if MergesObjects(base, local, next) {
      var keys := local.fields.Keys + next.fields.Keys + BaseObject(base, local, next).fields.Keys;
      var k :| k in keys && c in MergeField(s, base, local, next, path, k).conflicts;
      step := FieldStep(k);
    } else {
      var order := MergedOrder(s, local, next, path);
      var k :| k in order && c in MergeElement(s, base, local, next, path, k).conflicts;
      step := ElementStep(k);
    }
  }

  lemma {:induction false} PartWithin(
    s: Schema, base: Json, local: Json, next: Json, path: Path, c: Conflict, step: Step)
    requires InParts(s, base, local, next, path) && c in Part(s, base, local, next, path, step).conflicts
    ensures Within(c.path, path + [step])
    decreases true, local, 1
  {
    var k := step.key;
    if MergesObjects(base, local, next) {
      ConflictsWithin(s, Get(BaseObject(base, local, next).fields, k), Get(local.fields, k), Get(next.fields, k),
          path + [step], c);
    } else {
      var p := Pattern(path);
      var be, le, ne := Element(s, p, BaseList(base), k), Element(s, p, local, k), Element(s, p, next, k);
      ElementMember(s, p, local, k);
      if !(IsGroup(be) || IsGroup(le) || IsGroup(ne)) {
        ConflictsWithin(s, be, le, ne, path + [step], c);
      }
    }
  }

  /** A conflict of a part is one of the whole. */
  lemma PartConflicts(s: Schema, base: Json, local: Json, next: Json, path: Path, step: Step, c: Conflict)
    requires InParts(s, base, local, next, path)
    ensures c in Part(s, base, local, next, path, step).conflicts <==>
            c in Merge(s, base, local, next, path).conflicts && Within(c.path, path + [step])
  {
    if c in Part(s, base, local, next, path, step).conflicts {
      PartWithin(s, base, local, next, path, c, step);
      if MergesObjects(base, local, next) {
        MergeNothing(s, path + [step]);
      } else if step.key !in MergedOrder(s, local, next, path) {
        NoElement(s, base, local, next, path, step.key);
      }
    }
    if c in Merge(s, base, local, next, path).conflicts && Within(c.path, path + [step]) {
      var at := PartConflict(s, base, local, next, path, c);
      PartWithin(s, base, local, next, path, c, at);
      WithinChild(c.path, path, at);
      WithinChild(c.path, path, step);
    }
  }

  // --- the main theorem ---

  /** The sides of the part under step are the children of the sides. */
  lemma PartSides(s: Schema, base: Json, local: Json, next: Json, path: Path, step: Step)
    requires InParts(s, base, local, next, path)
    ensures var p := Pattern(path);
            if MergesObjects(base, local, next) then
              step.FieldStep? ==>
                && Child(s, p, base, step) == Get(BaseObject(base, local, next).fields, step.key)
                && Child(s, p, local, step) == Get(local.fields, step.key)
                && Child(s, p, next, step) == Get(next.fields, step.key)
            else
              step.ElementStep? ==>
                && Child(s, p, base, step) == Element(s, p, BaseList(base), step.key)
                && Child(s, p, local, step) == Element(s, p, local, step.key)
                && Child(s, p, next, step) == Element(s, p, next, step.key)
  {
  }

  lemma KeptHere(s: Schema, q: Path, b: Json, l: Json, n: Json)
    ensures SameAt(s, q, l, b) ==> Follows(s, false, false, q, b, l, n, n)
    ensures SameAt(s, q, n, b) || SameAt(s, q, n, l) ==> Follows(s, false, false, q, b, l, n, l)
  {
    hide Canon, CanonElement, MergesObjects, MergesLists;
  }

  /** Where a side kept the base's, or both did the same, the other follows. */
  lemma KeptFollows(s: Schema, base: Json, local: Json, next: Json, path: Path, rest: Path)
    requires WellFormed(s) && Placed(s, path) && !AllDiffer(s, path, base, local, next)
    ensures var p, v := Pattern(path), if SameAt(s, path, local, base) then next else local;
            Follows(s, false, false, path + rest, GetAt(s, p, base, rest), GetAt(s, p, local, rest),
                    GetAt(s, p, next, rest), GetAt(s, p, v, rest))
  {
    hide GetAt, SameAt, Follows, Placed, WellFormed;
    var p := Pattern(path);
    KeptHere(s, path + rest, GetAt(s, p, base, rest), GetAt(s, p, local, rest), GetAt(s, p, next, rest));
    if SameAt(s, path, local, base) {
      SameDown(s, path, local, base, rest);
    } else if SameAt(s, path, next, base) {
      SameDown(s, path, next, base, rest);
    } else {
      SameDown(s, path, next, local, rest);
    }
  }

  lemma WholeFollows(s: Schema, base: Json, local: Json, next: Json, path: Path, rest: Path)
    requires WellFormed(s) && Placed(s, path)
    ensures var p, m, q := Pattern(path), Whole(s, base, local, next, path), path + rest;
            Follows(s, Under(m.conflicts, q), Above(m.conflicts, q), q, GetAt(s, p, base, rest),
                GetAt(s, p, local, rest),
                    GetAt(s, p, next, rest), GetAt(s, p, m.value, rest))
  {
    if AllDiffer(s, path, base, local, next) {
      assert Within(path + rest, path);
      assert Conflict(path, local, next) in Whole(s, base, local, next, path).conflicts;
    } else {
      KeptFollows(s, base, local, next, path, rest);
    }
  }

  /** The conflicts around q are those of the part q is in. */
  lemma AroundPart(s: Schema, base: Json, local: Json, next: Json, path: Path, step: Step, q: Path)
    requires InParts(s, base, local, next, path) && Within(q, path + [step])
    ensures var all, part := Merge(s, base, local, next, path).conflicts,
                Part(s, base, local, next, path, step).conflicts;
            (Under(all, q) <==> Under(part, q)) && (Above(all, q) <==> Above(part, q))
  {
    var all, part := Merge(s, base, local, next, path).conflicts, Part(s, base, local, next, path, step).conflicts;
    forall c | c in all && Within(q, c.path) ensures c in part {
      UnderPart(s, base, local, next, path, step, q, c);
    }
    forall c | c in all && Within(c.path, q) ensures c in part {
      assert c.path[..|path + [step]|] == q[..|path + [step]|];
      PartConflicts(s, base, local, next, path, step, c);
    }
    forall c | c in part ensures c in all {
      PartConflicts(s, base, local, next, path, step, c);
    }
  }

  lemma UnderPart(s: Schema, base: Json, local: Json, next: Json, path: Path, step: Step, q: Path, c: Conflict)
    requires InParts(s, base, local, next, path) && Within(q, path + [step])
    requires c in Merge(s, base, local, next, path).conflicts && Within(q, c.path)
    ensures c in Part(s, base, local, next, path, step).conflicts
  {
    var at := PartConflict(s, base, local, next, path, c);
    PartWithin(s, base, local, next, path, c, at);
    WithinChild(c.path, path, at);
    WithinChild(q, path, step);
    assert q[|path|] == q[..|c.path|][|path|];
  }

  /** At every path q, under path by rest, the merged value follows the sides. */
  ghost predicate MergedAt(s: Schema, base: Json, local: Json, next: Json, path: Path, rest: Path) {
    var p, m, q := Pattern(path), Merge(s, base, local, next, path), path + rest;
    Follows(s, Under(m.conflicts, q), Above(m.conflicts, q), q, GetAt(s, p, base, rest), GetAt(s, p, local, rest),
            GetAt(s, p, next, rest), GetAt(s, p, m.value, rest))
  }

  /** At every path the merged value follows its sides. */
  lemma MergeFollows(s: Schema, base: Json, local: Json, next: Json, path: Path, rest: Path)
    requires WellFormed(s) && Placed(s, path)
    ensures var p, m, q := Pattern(path), Merge(s, base, local, next, path), path + rest;
            Follows(s, Under(m.conflicts, q), Above(m.conflicts, q), q, GetAt(s, p, base, rest),
                GetAt(s, p, local, rest),
                    GetAt(s, p, next, rest), GetAt(s, p, m.value, rest))
  {
    MergedFollows(s, base, local, next, path, rest);
  }

  lemma {:induction false} MergedFollows(s: Schema, base: Json, local: Json, next: Json, path: Path, rest: Path)
    requires WellFormed(s) && Placed(s, path)
    ensures MergedAt(s, base, local, next, path, rest)
    decreases rest, 0
  {
    if !InParts(s, base, local, next, path) {
      MergeWhole(s, base, local, next, path);
      WholeFollows(s, base, local, next, path, rest);
    } else if rest == [] {
      PartsHere(s, base, local, next, path);
    } else {
      PathStep(path, rest);
      PartFollows(s, base, local, next, path, rest[0], rest[1..], path + rest);
      PartAt(s, base, local, next, path, rest);
    }
  }

  lemma MergeWhole(s: Schema, base: Json, local: Json, next: Json, path: Path)
    requires !InParts(s, base, local, next, path)
    ensures Merge(s, base, local, next, path) == Whole(s, base, local, next, path)
  {
  }

  lemma PartsHere(s: Schema, base: Json, local: Json, next: Json, path: Path)
    requires InParts(s, base, local, next, path)
    ensures MergedAt(s, base, local, next, path, [])
  {
    assert path + [] == path;
    NoneOutside(s, base, local, next, path);
  }

  /** The part under step follows its sides, at every path below it. */
  ghost predicate PartFollowsAt(
    s: Schema, base: Json, local: Json, next: Json, path: Path, step: Step, rest: Path, q: Path)
    requires InParts(s, base, local, next, path)
  {
    var p, sp := Pattern(path), StepPattern(Pattern(path), step);
    var part := Part(s, base, local, next, path, step);
    Follows(s, Under(part.conflicts, q), Above(part.conflicts, q), q,
            GetAt(s, sp, Child(s, p, base, step), rest), GetAt(s, sp, Child(s, p, local, step), rest),
            GetAt(s, sp, Child(s, p, next, step), rest), GetAt(s, sp, part.value, rest))
  }

  /** What the value and its sides hold by rest, the parts hold by what follows
      its first step. */
  lemma PartGets(s: Schema, base: Json, local: Json, next: Json, path: Path, rest: Path)
    requires rest != [] && InParts(s, base, local, next, path)
    ensures var p, sp, tail := Pattern(path), StepPattern(Pattern(path), rest[0]), rest[1..];
            && GetAt(s, p, base, rest) == GetAt(s, sp, Child(s, p, base, rest[0]), tail)
            && GetAt(s, p, local, rest) == GetAt(s, sp, Child(s, p, local, rest[0]), tail)
            && GetAt(s, p, next, rest) == GetAt(s, sp, Child(s, p, next, rest[0]), tail)
            && GetAt(s, p, Merge(s, base, local, next, path).value, rest) ==
               GetAt(s, sp, Part(s, base, local, next, path, rest[0]).value, tail)
  {
    var p := Pattern(path);
    GetAtStep(s, p, base, rest);
    GetAtStep(s, p, local, rest);
    GetAtStep(s, p, next, rest);
    GetAtStep(s, p, Merge(s, base, local, next, path).value, rest);
    PartChild(s, base, local, next, path, rest[0]);
  }

  lemma PathStep(path: Path, rest: Path)
    requires rest != []
    ensures path + [rest[0]] + rest[1..] == path + rest && Within(path + rest, path + [rest[0]])
  {
  }

  lemma PartAround(s: Schema, base: Json, local: Json, next: Json, path: Path, rest: Path)
    requires rest != [] && InParts(s, base, local, next, path)
    ensures var m, part, q := Merge(s, base, local, next, path).conflicts,
                Part(s, base, local, next, path, rest[0]).conflicts, path + rest;
            Under(m, q) == Under(part, q) && Above(m, q) == Above(part, q)
  {
    PathStep(path, rest);
    AroundPart(s, base, local, next, path, rest[0], path + rest);
  }

  lemma PartAt(s: Schema, base: Json, local: Json, next: Json, path: Path, rest: Path)
    requires rest != [] && InParts(s, base, local, next, path)
    requires PartFollowsAt(s, base, local, next, path, rest[0], rest[1..], path + rest)
    ensures MergedAt(s, base, local, next, path, rest)
  {
    PartGets(s, base, local, next, path, rest);
    PartAround(s, base, local, next, path, rest);
  }

  lemma {:induction false} PartFollows(
    s: Schema, base: Json, local: Json, next: Json, path: Path, step: Step, rest: Path, q: Path)
    requires WellFormed(s) && InParts(s, base, local, next, path) && q == path + [step] + rest
    ensures PartFollowsAt(s, base, local, next, path, step, rest, q)
    decreases rest, 2
  {
    if step.FieldStep? && MergesObjects(base, local, next) {
      PatternSnoc(path, step);
      PartSides(s, base, local, next, path, step);
      FieldFollows(s, base, local, next, path, step.key, rest);
    } else if step.ElementStep? && !MergesObjects(base, local, next) {
      ElementFollows(s, base, local, next, path, step.key, rest, q);
    } else {
      NoPartFollows(s, base, local, next, path, step, rest, q);
    }
  }

  /** Where there is no part there is nothing on any side. */
  lemma NoPartFollows(s: Schema, base: Json, local: Json, next: Json, path: Path, step: Step, rest: Path, q: Path)
    requires InParts(s, base, local, next, path) && (step.FieldStep? <==> !MergesObjects(base, local, next))
    ensures PartFollowsAt(s, base, local, next, path, step, rest, q)
  {
    PartSides(s, base, local, next, path, step);
    GetNothing(s, StepPattern(Pattern(path), step), rest);
  }

  lemma {:induction false} FieldFollows(
    s: Schema, base: Json, local: Json, next: Json, path: Path, k: string, rest: Path)
    requires WellFormed(s) && MergesObjects(base, local, next)
    ensures MergedAt(s, Get(BaseObject(base, local, next).fields, k), Get(local.fields, k), Get(next.fields, k),
                     path + [FieldStep(k)], rest)
    decreases rest, 1
  {
    MergedFollows(s, Get(BaseObject(base, local, next).fields, k), Get(local.fields, k), Get(next.fields, k),
                  path + [FieldStep(k)], rest);
  }

  /** Lists that differ are not all empty: their elements are keyed. */
  lemma ListsPlaced(s: Schema, base: Json, local: Json, next: Json, path: Path, k: string)
    requires InParts(s, base, local, next, path) && !MergesObjects(base, local, next)
    ensures Placed(s, path + [ElementStep(k)])
  {
    PatternSnoc(path, ElementStep(k));
    assert local.items != [] || next.items != [];
  }

  lemma {:induction false} ElementFollows(
    s: Schema, base: Json, local: Json, next: Json, path: Path, k: string, rest: Path, q: Path)
    requires WellFormed(s) && InParts(s, base, local, next, path) && !MergesObjects(base, local, next)
    requires q == path + [ElementStep(k)] + rest
    ensures PartFollowsAt(s, base, local, next, path, ElementStep(k), rest, q)
    decreases rest, 1
  {
    var p, at := Pattern(path), path + [ElementStep(k)];
    var be, le, ne := Element(s, p, BaseList(base), k), Element(s, p, local, k), Element(s, p, next, k);
    ListsPlaced(s, base, local, next, path, k);
    PartSides(s, base, local, next, path, ElementStep(k));
    PatternSnoc(path, ElementStep(k));
    if IsGroup(be) || IsGroup(le) || IsGroup(ne) {
      WholeFollows(s, be, le, ne, at, rest);
    } else {
      MergedFollows(s, be, le, ne, at, rest);
    }
  }

  /** No conflict of a value merged in parts is on the value itself. */
  lemma NoneOutside(s: Schema, base: Json, local: Json, next: Json, path: Path)
    requires InParts(s, base, local, next, path)
    ensures !Under(Merge(s, base, local, next, path).conflicts, path)
  {
    forall c | c in Merge(s, base, local, next, path).conflicts ensures !Within(path, c.path) {
      var step := PartConflict(s, base, local, next, path, c);
      PartWithin(s, base, local, next, path, c, step);
    }
  }

  // --- every conflict is one ---

  /** The three have parts to merge one by one: objects, or lists all of whose
      elements have keys, base's being there or not; a group of elements has none. */
  predicate Parted(s: Schema, path: Path, b: Json, l: Json, n: Json) {
    || (l.Obj? && n.Obj? && (b.Obj? || b.Missing?))
    || (&& l.Arr? && n.Arr? && (b.Arr? || b.Missing?) && !(path != [] && path[|path|-1].ElementStep?)
        && AllKeyed(s, Pattern(path), l.items) && AllKeyed(s, Pattern(path), n.items)
        && (b.Arr? ==> AllKeyed(s, Pattern(path), b.items)))
  }

  /** c holds both sides at its path, where the three differ and have no parts that
      could be merged instead. */
  ghost predicate Real(s: Schema, base: Json, local: Json, next: Json, path: Path, c: Conflict) {
    && Within(c.path, path)
    && var p, rest := Pattern(path), c.path[|path|..];
       && c.mine == GetAt(s, p, local, rest) && c.theirs == GetAt(s, p, next, rest)
       && AllDiffer(s, c.path, GetAt(s, p, base, rest), c.mine, c.theirs)
       && !Parted(s, c.path, GetAt(s, p, base, rest), c.mine, c.theirs)
  }

  lemma WholeReal(s: Schema, base: Json, local: Json, next: Json, path: Path, c: Conflict)
    requires c in Whole(s, base, local, next, path).conflicts && !Parted(s, path, base, local, next)
    ensures Real(s, base, local, next, path, c)
  {
    assert c == Conflict(path, local, next);
    assert c.path[|path|..] == [];
  }

  /** What is real of a part is real of the whole. */
  lemma PartReal(s: Schema, base: Json, local: Json, next: Json, path: Path, step: Step, c: Conflict)
    requires var p := Pattern(path);
             Real(s, Child(s, p, base, step), Child(s, p, local, step), Child(s, p, next, step), path + [step], c)
    ensures Real(s, base, local, next, path, c)
  {
    var p, rest := Pattern(path), c.path[|path|..];
    WithinChild(c.path, path, step);
    PatternSnoc(path, step);
    assert rest[0] == step && rest[1..] == c.path[|path + [step]|..];
    GetAtStep(s, p, base, rest);
    GetAtStep(s, p, local, rest);
    GetAtStep(s, p, next, rest);
  }

  lemma {:induction false} ConflictsReal(s: Schema, base: Json, local: Json, next: Json, path: Path, c: Conflict)
    requires c in Merge(s, base, local, next, path).conflicts
    ensures Real(s, base, local, next, path, c)
    decreases !local.Missing?, local, 2
  {
    if InParts(s, base, local, next, path) {
      var step := PartConflict(s, base, local, next, path, c);
      ConflictOfPart(s, base, local, next, path, step, c);
      PartReal(s, base, local, next, path, step, c);
    } else {
      MergeWhole(s, base, local, next, path);
      WholeReal(s, base, local, next, path, c);
    }
  }

  lemma {:induction false} ConflictOfPart(
    s: Schema, base: Json, local: Json, next: Json, path: Path, step: Step, c: Conflict)
    requires InParts(s, base, local, next, path) && c in Part(s, base, local, next, path, step).conflicts
    ensures var p := Pattern(path);
            Real(s, Child(s, p, base, step), Child(s, p, local, step), Child(s, p, next, step), path + [step], c)
    decreases true, local, 1
  {
    var p, k := Pattern(path), step.key;
    PartSides(s, base, local, next, path, step);
    if MergesObjects(base, local, next) {
      ConflictsReal(s, Get(BaseObject(base, local, next).fields, k), Get(local.fields, k), Get(next.fields, k),
          path + [step], c);
    } else {
      var be, le, ne := Element(s, p, BaseList(base), k), Element(s, p, local, k), Element(s, p, next, k);
      ElementMember(s, p, local, k);
      if IsGroup(be) || IsGroup(le) || IsGroup(ne) {
        WholeReal(s, be, le, ne, path + [step], c);
      } else {
        ConflictsReal(s, be, le, ne, path + [step], c);
      }
    }
  }

  // --- the two sides are alike ---

  function Swapped(c: Conflict): Conflict {
    Conflict(c.path, c.theirs, c.mine)
  }

  /** Merged with its sides swapped, a value has the same conflicts, swapped. */
  lemma InPartsSwapped(s: Schema, base: Json, local: Json, next: Json, path: Path)
    ensures InParts(s, base, local, next, path) <==> InParts(s, base, next, local, path)
  {
  }

  lemma WholeSwapped(s: Schema, base: Json, local: Json, next: Json, path: Path, c: Conflict)
    requires c in Whole(s, base, local, next, path).conflicts
    ensures Swapped(c) in Whole(s, base, next, local, path).conflicts
  {
  }

  lemma {:induction false} MergeSwapped(s: Schema, base: Json, local: Json, next: Json, path: Path, c: Conflict)
    requires c in Merge(s, base, local, next, path).conflicts
    ensures Swapped(c) in Merge(s, base, next, local, path).conflicts
    decreases !local.Missing?, local, 2
  {
    InPartsSwapped(s, base, local, next, path);
    if InParts(s, base, local, next, path) {
      var step := PartConflict(s, base, local, next, path, c);
      PartSwapped(s, base, local, next, path, step, c);
      PartConflicts(s, base, next, local, path, step, Swapped(c));
    } else {
      MergeWhole(s, base, local, next, path);
      MergeWhole(s, base, next, local, path);
      WholeSwapped(s, base, local, next, path, c);
    }
  }

  lemma {:induction false} PartSwapped(
    s: Schema, base: Json, local: Json, next: Json, path: Path, step: Step, c: Conflict)
    requires InParts(s, base, local, next, path) && InParts(s, base, next, local, path)
    requires c in Part(s, base, local, next, path, step).conflicts
    ensures Swapped(c) in Part(s, base, next, local, path, step).conflicts
    decreases true, local, 1
  {
    var p, k := Pattern(path), step.key;
    if MergesObjects(base, local, next) {
      MergeSwapped(s, Get(BaseObject(base, local, next).fields, k), Get(local.fields, k), Get(next.fields, k),
          path + [step], c);
    } else {
      var be, le, ne := Element(s, p, BaseList(base), k), Element(s, p, local, k), Element(s, p, next, k);
      ElementMember(s, p, local, k);
      if !(IsGroup(be) || IsGroup(le) || IsGroup(ne)) {
        MergeSwapped(s, be, le, ne, path + [step], c);
      }
    }
  }
}
