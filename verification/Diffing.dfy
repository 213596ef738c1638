/** Setting values by path, and the difference of two values: applied, in any
    order, it makes the one mean the other. */
module Diffing {
  import opened Texts
  import opened Values
  import opened Merging
  import opened MergeCorrect

  // --- setting a value ---

  function Fields(v: Json): map<string, Json> {
    if v.Obj? then v.fields else map[]
  }

  function Items(v: Json): seq<Json> {
    if v.Arr? then v.items else []
  }

  /** The elements without key k. */
  function Others(s: Schema, p: string, k: string, xs: seq<Json>): seq<Json> {
    if xs == [] then []
    else (if Keyed(s, p, k, xs[0]) then [] else [xs[0]]) + Others(s, p, k, xs[1..])
  }

  /** How many others come before the first element with key k; all of them
      when there is none. */
  function Place(s: Schema, p: string, k: string, xs: seq<Json>): (at: nat)
    ensures at <= |Others(s, p, k, xs)|
  {
    if xs == [] || Keyed(s, p, k, xs[0]) then 0 else 1 + Place(s, p, k, xs[1..])
  }

  /** xs with the elements of key k replaced, where the first of them was. */
  function Replaced(s: Schema, p: string, k: string, xs: seq<Json>, v: Json): seq<Json> {
    var others, at := Others(s, p, k, xs), Place(s, p, k, xs);
    others[..at] + Unpack(v) + others[at..]
  }

  function SetField(m: map<string, Json>, k: string, v: Json): map<string, Json> {
    if v.Missing? then m - {k} else m[k := v]
  }

  /** root, at pattern p, with the value at path replaced, or removed when it is
      Missing. */
  function SetAt(s: Schema, p: string, root: Json, path: Path, value: Json): Json
    decreases path
  {
    if path == [] then value
    else
      match path[0]
      case FieldStep(k) =>
        Obj(SetField(Fields(root), k, SetAt(s, FieldPattern(p, k), Get(Fields(root), k), path[1..], value)))
      case ElementStep(k) =>
        var now := Pack(WithKey(s, p, k, Items(root)));
        Arr(Replaced(s, p, k, Items(root), SetAt(s, ElementPattern(p), now, path[1..], value)))
  }

  // --- differences ---

  datatype Change = Change(path: Path, value: Json)

  function Stepped(step: Step, cs: seq<Change>): (ds: seq<Change>)
    ensures |ds| == |cs|
  {
    if cs == [] then [] else [Change([step] + cs[0].path, cs[0].value)] + Stepped(step, cs[1..])
  }

  predicate BothKeyed(s: Schema, a: Json, b: Json, path: Path) {
    IsKeyed(s, Pattern(path), a) && IsKeyed(s, Pattern(path), b)
  }

  /** What differs from a to b, at path: each change by its path below it. */
  function Diff(s: Schema, a: Json, b: Json, path: Path): seq<Change>
    decreases !a.Missing?, a, 2
  {
    if SameAt(s, path, a, b) then []
    else if a.Obj? && b.Obj? then DiffFields(s, a, b, path, Sorted(a.fields.Keys + b.fields.Keys))
    else if BothKeyed(s, a, b, path) then DiffElements(s, a, b, path, MergedOrder(s, a, b, path))
    else [Change([], b)]
  }

  function DiffFields(s: Schema, a: Json, b: Json, path: Path, keys: seq<string>): seq<Change>
    requires a.Obj? && b.Obj?
    decreases true, a, 1, keys
  {
    if keys == [] then []
    else
      Stepped(FieldStep(keys[0]), Diff(s, Get(a.fields, keys[0]), Get(b.fields, keys[0]), path + [FieldStep(keys[0])]))
      + DiffFields(s, a, b, path, keys[1..])
  }

  /** Elements sharing a key differ as a whole. */
  function DiffElement(s: Schema, a: Json, b: Json, path: Path, k: string): seq<Change>
    requires BothKeyed(s, a, b, path)
    decreases true, a, 0
  {
    var p, at := Pattern(path), path + [ElementStep(k)];
    var x, y := Element(s, p, a, k), Element(s, p, b, k);
    ElementMember(s, p, a, k);
    if IsGroup(x) || IsGroup(y) then (if SameAt(s, at, x, y) then [] else [Change([], y)])
    else Diff(s, x, y, at)
  }

  function DiffElements(s: Schema, a: Json, b: Json, path: Path, keys: seq<string>): seq<Change>
    requires BothKeyed(s, a, b, path)
    decreases true, a, 1, keys
  {
    if keys == [] then []
    else Stepped(ElementStep(keys[0]), DiffElement(s, a, b, path, keys[0])) + DiffElements(s, a, b, path, keys[1..])
  }

  predicate Leads(step: Step, c: Change) {
    c.path != [] && c.path[0] == step
  }

  /** The changes of cs under step. */
  function Below(step: Step, cs: seq<Change>): seq<Change> {
    if cs == [] then []
    else
      var last := cs[|cs|-1];
      Below(step, cs[..|cs|-1]) + (if Leads(step, last) then [Change(last.path[1..], last.value)] else [])
  }

  /** v, at pattern p, after the changes, one after the other. */
  function Apply(s: Schema, p: string, v: Json, cs: seq<Change>): Json {
    if cs == [] then v
    else
      var last := cs[|cs|-1];
      SetAt(s, p, Apply(s, p, v, cs[..|cs|-1]), last.path, last.value)
  }

  // --- objects ---

  predicate AllFields(cs: seq<Change>) {
    forall i :: 0 <= i < |cs| ==> cs[i].path != [] && cs[i].path[0].FieldStep?
  }

  lemma SetOneField(s: Schema, p: string, root: Json, c: Change, k: string)
    requires root.Obj? && c.path != [] && c.path[0].FieldStep?
    ensures var r := SetAt(s, p, root, c.path, c.value);
            && r.Obj?
            && Get(r.fields, k) ==
               if c.path[0].key == k then SetAt(s, FieldPattern(p, k), Get(root.fields, k), c.path[1..], c.value)
               else Get(root.fields, k)
  {
  }

  /** Changes to an object change each field by those under it. */
  lemma {:induction false} ApplyFields(s: Schema, p: string, root: Json, cs: seq<Change>, k: string)
    requires root.Obj? && AllFields(cs)
    ensures var r := Apply(s, p, root, cs);
            r.Obj? && Get(r.fields, k) == Apply(s, FieldPattern(p, k), Get(root.fields, k), Below(FieldStep(k), cs))
  {
    if cs != [] {
      var init, last := cs[..|cs|-1], cs[|cs|-1];
      ApplyFields(s, p, root, init, k);
      SetOneField(s, p, Apply(s, p, root, init), last, k);
      if last.path[0].key == k {
        ApplySnoc(s, FieldPattern(p, k), Get(root.fields, k), Below(FieldStep(k), init),
            Change(last.path[1..], last.value));
      } else {
        assert Below(FieldStep(k), cs) == Below(FieldStep(k), init);
      }
    }
  }

  lemma ApplySnoc(s: Schema, p: string, v: Json, cs: seq<Change>, c: Change)
    ensures Apply(s, p, v, cs + [c]) == SetAt(s, p, Apply(s, p, v, cs), c.path, c.value)
  {
    assert (cs + [c])[..|cs|] == cs;
  }

  // --- keyed lists ---

  predicate AllElements(cs: seq<Change>) {
    forall i :: 0 <= i < |cs| ==> cs[i].path != [] && cs[i].path[0].ElementStep?
  }

  lemma {:induction false} OthersKeyed(s: Schema, p: string, k: string, xs: seq<Json>)
    requires AllKeyed(s, p, xs)
    ensures AllKeyed(s, p, Others(s, p, k, xs)) && WithKey(s, p, k, Others(s, p, k, xs)) == []
    ensures forall j :: j != k ==> WithKey(s, p, j, Others(s, p, k, xs)) == WithKey(s, p, j, xs)
  {
    if xs != [] {
      OthersKeyed(s, p, k, xs[1..]);
      var more := Others(s, p, k, xs[1..]);
      if !Keyed(s, p, k, xs[0]) {
        assert ([xs[0]] + more)[1..] == more;
      } else {
        assert Others(s, p, k, xs) == more;
      }
    }
  }

  lemma {:induction false} AllKeyedSplit(s: Schema, p: string, xs: seq<Json>, i: nat)
    requires AllKeyed(s, p, xs) && i <= |xs|
    ensures AllKeyed(s, p, xs[..i]) && AllKeyed(s, p, xs[i..])
  {
    if i > 0 {
      AllKeyedSplit(s, p, xs[1..], i - 1);
      assert xs[..i][1..] == xs[1..][..i - 1];
      assert xs[i..] == xs[1..][i - 1..];
    }
  }

  /** An element, or a group, among others. */
  lemma KeyedAmong(s: Schema, p: string, k: string, front: seq<Json>, v: Json, back: seq<Json>, j: string)
    requires AllKeyed(s, p, front) && AllKeyed(s, p, back) && Holds(s, p, k, v)
    ensures AllKeyed(s, p, front + Unpack(v) + back)
    ensures WithKey(s, p, j, front + Unpack(v) + back) ==
            WithKey(s, p, j, front) + ((if k == j then Unpack(v) else []) + WithKey(s, p, j, back))
  {
    KeyedConcat(s, p, k, v, back, j);
    AllKeyedConcat(s, p, front, Unpack(v) + back);
    WithKeyConcat(s, p, j, front, Unpack(v) + back);
    assert front + Unpack(v) + back == front + (Unpack(v) + back);
  }

  lemma SplitOthers(s: Schema, p: string, k: string, xs: seq<Json>, at: nat, j: string)
    requires AllKeyed(s, p, xs) && at <= |Others(s, p, k, xs)|
    ensures var others := Others(s, p, k, xs);
            && AllKeyed(s, p, others[..at]) && AllKeyed(s, p, others[at..])
            && WithKey(s, p, j, others[..at]) + WithKey(s, p, j, others[at..]) == if j == k then []
               else WithKey(s, p, j, xs)
  {
    var others := Others(s, p, k, xs);
    OthersKeyed(s, p, k, xs);
    AllKeyedSplit(s, p, others, at);
    WithKeyConcat(s, p, j, others[..at], others[at..]);
    assert others[..at] + others[at..] == others;
  }

  /** A replaced element is what it was replaced with; another stays. */
  lemma ReplacedElement(s: Schema, p: string, k: string, xs: seq<Json>, v: Json, j: string)
    requires AllKeyed(s, p, xs) && Holds(s, p, k, v)
    ensures AllKeyed(s, p, Replaced(s, p, k, xs, v))
    ensures WithKey(s, p, j, Replaced(s, p, k, xs, v)) == if j == k then Unpack(v) else WithKey(s, p, j, xs)
  {
    var others, at := Others(s, p, k, xs), Place(s, p, k, xs);
    SplitOthers(s, p, k, xs, at, j);
    KeyedAmong(s, p, k, others[..at], v, others[at..], j);
    Alone(WithKey(s, p, j, others[..at]), Unpack(v), WithKey(s, p, j, others[at..]));
  }

  lemma Alone(front: seq<Json>, xs: seq<Json>, back: seq<Json>)
    ensures front + back == [] ==> front + (xs + back) == xs
    ensures front + ([] + back) == front + back
  {
    if front + back == [] {
      assert |front| + |back| == 0;
    }
  }

  /** Under every prefix of cs, what k holds keeps its key. */
  ghost predicate Stays(s: Schema, p: string, k: string, v: Json, cs: seq<Change>) {
    forall i :: 0 <= i <= |cs| ==> Holds(s, p, k, Apply(s, ElementPattern(p), v, cs[..i]))
  }

  /** Changes to a keyed list change each element by those under it. */
  lemma {:induction false} ApplyElements(s: Schema, p: string, root: Json, cs: seq<Change>, k: string)
    requires IsKeyed(s, p, root) && AllElements(cs)
    requires forall j :: Stays(s, p, j, Element(s, p, root, j), Below(ElementStep(j), cs))
    ensures var r := Apply(s, p, root, cs);
            && IsKeyed(s, p, r)
            && Element(s, p, r, k) == Apply(s, ElementPattern(p), Element(s, p, root, k), Below(ElementStep(k), cs))
  {
    if cs != [] {
      var init, last := cs[..|cs|-1], cs[|cs|-1];
      forall j ensures Stays(s, p, j, Element(s, p, root, j), Below(ElementStep(j), init)) {
        StaysInit(s, p, root, cs, j);
      }
      ApplyElements(s, p, root, init, k);
      ApplyElements(s, p, root, init, last.path[0].key);
      SetOneElement(s, p, root, cs, k);
    }
  }

  lemma StaysInit(s: Schema, p: string, root: Json, cs: seq<Change>, j: string)
    requires root.Arr? && cs != [] && Stays(s, p, j, Element(s, p, root, j), Below(ElementStep(j), cs))
    ensures Stays(s, p, j, Element(s, p, root, j), Below(ElementStep(j), cs[..|cs|-1]))
  {
    var all, init := Below(ElementStep(j), cs), Below(ElementStep(j), cs[..|cs|-1]);
    forall i | 0 <= i <= |init| ensures init[..i] == all[..i] {
    }
  }

  lemma SetOneElement(s: Schema, p: string, root: Json, cs: seq<Change>, k: string)
    requires IsKeyed(s, p, root) && cs != [] && cs[|cs|-1].path != [] && cs[|cs|-1].path[0].ElementStep?
    requires var j := cs[|cs|-1].path[0].key; Stays(s, p, j, Element(s, p, root, j), Below(ElementStep(j), cs))
    requires var r, j := Apply(s, p, root, cs[..|cs|-1]), cs[|cs|-1].path[0].key;
             && IsKeyed(s, p, r)
             && Element(s, p, r, j) == Apply(s, ElementPattern(p), Element(s, p, root, j),
                Below(ElementStep(j), cs[..|cs|-1]))
             && Element(s, p, r, k) == Apply(s, ElementPattern(p), Element(s, p, root, k),
                Below(ElementStep(k), cs[..|cs|-1]))
    ensures var r := Apply(s, p, root, cs);
            && IsKeyed(s, p, r)
            && Element(s, p, r, k) == Apply(s, ElementPattern(p), Element(s, p, root, k), Below(ElementStep(k), cs))
  {
    var init, last := cs[..|cs|-1], cs[|cs|-1];
    var r, j := Apply(s, p, root, init), last.path[0].key;
    var c := Change(last.path[1..], last.value);
    var now := Element(s, p, root, j);
    var v := SetAt(s, ElementPattern(p), Element(s, p, r, j), c.path, c.value);
    ApplySnoc(s, ElementPattern(p), now, Below(ElementStep(j), init), c);
    assert Below(ElementStep(j), cs) == Below(ElementStep(j), init) + [c];
    assert Below(ElementStep(j), cs)[..|Below(ElementStep(j), cs)|] == Below(ElementStep(j), cs);
    assert Holds(s, p, j, v);
    ReplacedElement(s, p, j, r.items, v, k);
    HoldsUnpacked(s, p, j, v);
    if j != k {
      assert Below(ElementStep(k), cs) == Below(ElementStep(k), init);
    }
  }
}
