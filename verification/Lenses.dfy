/** Setting the value at a path and getting it back: when the path then holds
    what was set, and when no other path changes. */
module Lenses {
  import opened Values
  import opened MergeCorrect
  import opened Diffing

  /** Every value on the way is there, no list element on it is a group, and none
      is left by the property that keys it. */
  predicate Steady(s: Schema, p: string, v: Json, path: Path)
    decreases path
  {
    |path| <= 1 ||
    (var child := Child(s, p, v, path[0]);
     && !child.Missing?
     && (path[0].ElementStep? ==> child.Obj? && path[1].FieldStep? && !Keys(s, p, path[1].key))
     && Steady(s, StepPattern(p, path[0]), child, path[1..]))
  }

  /** k is the property that keys the list at p. */
  predicate Keys(s: Schema, p: string, k: string) {
    ElementPattern(p) in s.lists && s.lists[ElementPattern(p)] == k
  }

  /** value is what a path may hold: under an element's key, an element with it. */
  predicate Suits(s: Schema, p: string, path: Path, value: Json)
    decreases path
  {
    path == [] ||
    if |path| == 1 then path[0].ElementStep? ==> Holds(s, p, path[0].key, value)
    else Suits(s, StepPattern(p, path[0]), path[1..], value)
  }

  /** The last step is not into a list with elements that have no key. */
  predicate Takes(s: Schema, p: string, v: Json, path: Path)
    decreases path
  {
    path == [] ||
    if |path| == 1 then path[0].ElementStep? && v.Arr? ==> IsKeyed(s, p, v)
    else Takes(s, StepPattern(p, path[0]), Child(s, p, v, path[0]), path[1..])
  }

  // --- one step ---

  lemma SetFieldStep(s: Schema, p: string, root: Json, path: Path, value: Json)
    requires path != [] && path[0].FieldStep? && (|path| > 1 ==> root.Obj?)
    ensures var k := path[0].key;
            var r, w := SetAt(s, p, root, path, value),
                SetAt(s, FieldPattern(p, k), Get(Fields(root), k), path[1..], value);
            r.Obj? && forall j :: Get(r.fields, j) == if j == k then w else Get(Fields(root), j)
  {
  }

  /** What is set below a keyed element, but its key, leaves it that key. */
  lemma ElementKeepsKey(s: Schema, p: string, k: string, el: Json, rest: Path, value: Json)
    requires Keyed(s, p, k, el) && rest != [] && rest[0].FieldStep? && !Keys(s, p, rest[0].key)
    ensures Keyed(s, p, k, SetAt(s, ElementPattern(p), el, rest, value))
  {
    SetFieldStep(s, ElementPattern(p), el, rest, value);
  }

  lemma SetElementStep(s: Schema, p: string, root: Json, path: Path, value: Json, j: string)
    requires path != [] && path[0].ElementStep? && AllKeyed(s, p, Items(root))
    requires var now := Pack(WithKey(s, p, path[0].key, Items(root)));
             Holds(s, p, path[0].key, SetAt(s, ElementPattern(p), now, path[1..], value))
    ensures var k, now := path[0].key, Pack(WithKey(s, p, path[0].key, Items(root)));
            var r, w := SetAt(s, p, root, path, value), SetAt(s, ElementPattern(p), now, path[1..], value);
            IsKeyed(s, p, r) && Element(s, p, r, j) == if j == k then w else Pack(WithKey(s, p, j, Items(root)))
  {
    hide Holds;
    var k, now := path[0].key, Pack(WithKey(s, p, path[0].key, Items(root)));
    var w := SetAt(s, ElementPattern(p), now, path[1..], value);
    ReplacedElement(s, p, k, Items(root), w, j);
    HoldsUnpacked(s, p, k, w);
  }

  lemma {:induction false} KeyedIfOthers(s: Schema, p: string, k: string, xs: seq<Json>)
    requires AllKeyed(s, p, Others(s, p, k, xs))
    ensures AllKeyed(s, p, xs)
  {
    if xs != [] {
      var more := Others(s, p, k, xs[1..]);
      if !Keyed(s, p, k, xs[0]) {
        assert ([xs[0]] + more)[1..] == more;
      } else {
        assert Others(s, p, k, xs) == more;
      }
      KeyedIfOthers(s, p, k, xs[1..]);
    }
  }

  /** A list with an element without a key keeps it. */
  lemma KeyedIfReplaced(s: Schema, p: string, k: string, xs: seq<Json>, v: Json)
    requires AllKeyed(s, p, Replaced(s, p, k, xs, v))
    ensures AllKeyed(s, p, xs)
  {
    hide AllKeyed, Others, Place, Unpack;
    var others, at, n := Others(s, p, k, xs), Place(s, p, k, xs), |Unpack(v)|;
    var r := Replaced(s, p, k, xs, v);
    AllKeyedSplit(s, p, r, at);
    AllKeyedSplit(s, p, r, at + n);
    assert r[..at] == others[..at] && r[at + n..] == others[at..];
    AllKeyedConcat(s, p, others[..at], others[at..]);
    assert others[..at] + others[at..] == others;
    KeyedIfOthers(s, p, k, xs);
  }

  /** The value under the first step of a longer path is set below it. */
  lemma SetBelow(s: Schema, p: string, root: Json, path: Path, value: Json)
    requires |path| > 1 && Steady(s, p, root, path)
    ensures var r, child := SetAt(s, p, root, path, value), Child(s, p, root, path[0]);
            Child(s, p, r, path[0]) == SetAt(s, StepPattern(p, path[0]), child, path[1..], value)
  {
    if path[0].FieldStep? {
      SetFieldStep(s, p, root, path, value);
    } else {
      var k := path[0].key;
      ElementHolds(s, p, root, k);
      ElementKeepsKey(s, p, k, Element(s, p, root, k), path[1..], value);
      SetElementStep(s, p, root, path, value, k);
    }
  }

  // --- what was set ---

  lemma SetLast(s: Schema, p: string, root: Json, step: Step, value: Json)
    requires step.ElementStep? ==> Holds(s, p, step.key, value)
    ensures var r := SetAt(s, p, root, [step], value);
            Child(s, p, r, step) == value <==>
                value.Missing? || (step.ElementStep? && root.Arr? ==> IsKeyed(s, p, root))
  {
    var path := [step];
    assert path[1..] == [];
    if step.FieldStep? {
      SetFieldStep(s, p, root, path, value);
    } else if AllKeyed(s, p, Items(root)) {
      SetElementStep(s, p, root, path, value, step.key);
    } else if AllKeyed(s, p, Replaced(s, p, step.key, Items(root), value)) {
      KeyedIfReplaced(s, p, step.key, Items(root), value);
    }
  }

  /** Where the way is steady, the path holds what was set exactly when the last
      step is not into a list with elements without a key, or nothing was set. */
  lemma {:induction false} SetThenGet(s: Schema, p: string, root: Json, path: Path, value: Json)
    requires Steady(s, p, root, path) && Suits(s, p, path, value)
    ensures GetAt(s, p, SetAt(s, p, root, path, value), path) == value <==> value.Missing? || Takes(s, p, root, path)
    decreases path
  {
    if path != [] {
      var r := SetAt(s, p, root, path, value);
      GetAtStep(s, p, r, path);
      if |path| == 1 {
        assert path == [path[0]] && path[1..] == [];
        SetLast(s, p, root, path[0], value);
      } else {
        SetBelow(s, p, root, path, value);
        SetThenGet(s, StepPattern(p, path[0]), Child(s, p, root, path[0]), path[1..], value);
      }
    }
  }

  // --- what was not ---

  predicate Apart(p: Path, q: Path) {
    !Within(p, q) && !Within(q, p)
  }

  /** v has nothing by a step of the other kind. */
  predicate Spares(s: Schema, p: string, v: Json, step: Step) {
    if step.FieldStep? then !(IsKeyed(s, p, v) && v.items != [])
    else !(v.Obj? && exists k :: k in v.fields && !v.fields[k].Missing?)
  }

  predicate SparesLast(s: Schema, p: string, v: Json, path: Path)
    decreases path
  {
    path == [] ||
    if |path| == 1 then Spares(s, p, v, path[0])
    else SparesLast(s, StepPattern(p, path[0]), Child(s, p, v, path[0]), path[1..])
  }

  lemma SetLastElsewhere(s: Schema, p: string, root: Json, step: Step, value: Json, other: Step)
    requires (step.ElementStep? ==> Holds(s, p, step.key, value)) && Spares(s, p, root, step) && other != step
    ensures Child(s, p, SetAt(s, p, root, [step], value), other) == Child(s, p, root, other)
  {
    var path := [step];
    assert path[1..] == [];
    if step.FieldStep? {
      SetFieldStep(s, p, root, path, value);
    } else if AllKeyed(s, p, Items(root)) {
      SetElementStep(s, p, root, path, value, other.key);
    } else if AllKeyed(s, p, Replaced(s, p, step.key, Items(root), value)) {
      KeyedIfReplaced(s, p, step.key, Items(root), value);
    }
  }

  lemma SetElsewhere(s: Schema, p: string, root: Json, path: Path, value: Json, other: Step)
    requires |path| > 1 && Steady(s, p, root, path) && other != path[0]
    ensures Child(s, p, SetAt(s, p, root, path, value), other) == Child(s, p, root, other)
  {
    if path[0].FieldStep? {
      SetFieldStep(s, p, root, path, value);
    } else {
      var k := path[0].key;
      ElementHolds(s, p, root, k);
      ElementKeepsKey(s, p, k, Element(s, p, root, k), path[1..], value);
      SetElementStep(s, p, root, path, value, other.key);
    }
  }

  lemma WithinStep(step: Step, p: Path, q: Path)
    ensures Within([step] + p, [step] + q) <==> Within(p, q)
  {
    if |p| >= |q| {
      var a, b := ([step] + p)[..|q| + 1], [step] + q;
      assert a == [step] + p[..|q|] && a[1..] == p[..|q|] && b[1..] == q;
    }
  }

  lemma ApartBelow(p: Path, q: Path)
    requires Apart(p, q)
    ensures p != [] && q != []
    ensures p[0] == q[0] ==> Apart(p[1..], q[1..]) && |p| > 1 && |q| > 1
  {
    assert p != [] && q != [];
    assert p == [p[0]] + p[1..] && q == [q[0]] + q[1..];
    WithinStep(p[0], p[1..], q[1..]);
    WithinStep(p[0], q[1..], p[1..]);
  }

  /** Where the way is steady and the last step is of the kind the value it is
      taken in has, every path apart holds what it held. */
  lemma {:induction false} SetKeepsApart(s: Schema, p: string, root: Json, path: Path, value: Json, q: Path)
    requires Steady(s, p, root, path) && Suits(s, p, path, value) && SparesLast(s, p, root, path) && Apart(q, path)
    ensures GetAt(s, p, SetAt(s, p, root, path, value), q) == GetAt(s, p, root, q)
    decreases path
  {
    var r := SetAt(s, p, root, path, value);
    ApartBelow(q, path);
    GetAtStep(s, p, r, q);
    GetAtStep(s, p, root, q);
    if q[0] != path[0] {
      if |path| == 1 {
        assert path == [path[0]];
        SetLastElsewhere(s, p, root, path[0], value, q[0]);
      } else {
        SetElsewhere(s, p, root, path, value, q[0]);
      }
    } else {
      SetBelow(s, p, root, path, value);
      SetKeepsApart(s, StepPattern(p, path[0]), Child(s, p, root, path[0]), path[1..], value, q[1..]);
    }
  }

  /** And only there: a value of the other kind is replaced, with all it holds. */
  lemma {:induction false} SetLosesApart(s: Schema, p: string, root: Json, path: Path, value: Json) returns (q: Path)
    requires Steady(s, p, root, path) && Suits(s, p, path, value) && !SparesLast(s, p, root, path)
    ensures Apart(q, path) && GetAt(s, p, SetAt(s, p, root, path, value), q) != GetAt(s, p, root, q)
    decreases path
  {
    var r := SetAt(s, p, root, path, value);
    if |path| == 1 {
      assert path == [path[0]] && path[1..] == [];
      var other := OtherKind(s, p, root, path[0]);
      q := [other];
      assert q[1..] == [];
      GetAtStep(s, p, r, q);
      GetAtStep(s, p, root, q);
    } else {
      var below := SetLosesApart(s, StepPattern(p, path[0]), Child(s, p, root, path[0]), path[1..], value);
      q := [path[0]] + below;
      assert q[1..] == below;
      GetAtStep(s, p, r, q);
      GetAtStep(s, p, root, q);
      SetBelow(s, p, root, path, value);
      ApartAbove(below, path[1..], path[0]);
      assert path == [path[0]] + path[1..];
    }
  }

  lemma OtherKind(s: Schema, p: string, v: Json, step: Step) returns (other: Step)
    requires !Spares(s, p, v, step)
    ensures (other.FieldStep? <==> step.ElementStep?) && !Child(s, p, v, other).Missing?
  {
    if step.FieldStep? {
      var k := KeyOf(s, p, v.items[0]);
      assert WithKey(s, p, k, v.items)[0] == v.items[0];
      other := ElementStep(k);
    } else {
      var k :| k in v.fields && !v.fields[k].Missing?;
      other := FieldStep(k);
    }
  }

  lemma ApartAbove(p: Path, q: Path, step: Step)
    requires Apart(p, q)
    ensures Apart([step] + p, [step] + q)
  {
    WithinStep(step, p, q);
    WithinStep(step, q, p);
  }
}
