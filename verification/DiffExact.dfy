/** Every change of a difference is one: at its path the two hold what it says,
    differ, and have no parts that could be told apart instead. */
module DiffExact {
  import Texts
  import opened Values
  import opened Merging
  import opened Diffing

  /** The two have parts to compare one by one: objects, or lists all of whose
      elements have keys; a group of elements has none. */
  predicate BothParted(s: Schema, path: Path, x: Json, y: Json) {
    || (x.Obj? && y.Obj?)
    || (&& x.Arr? && y.Arr? && !(path != [] && path[|path|-1].ElementStep?)
        && AllKeyed(s, Pattern(path), x.items) && AllKeyed(s, Pattern(path), y.items))
  }

  ghost predicate RealChange(s: Schema, a: Json, b: Json, path: Path, c: Change) {
    var x, y := GetAt(s, Pattern(path), a, c.path), GetAt(s, Pattern(path), b, c.path);
    c.value == y && !SameAt(s, path + c.path, x, y) && !BothParted(s, path + c.path, x, y)
  }

  lemma {:induction false} SteppedFrom(step: Step, cs: seq<Change>, c: Change)
    requires c in Stepped(step, cs)
    ensures c.path != [] && c.path[0] == step && Change(c.path[1..], c.value) in cs
  {
    if c in Stepped(step, cs[1..]) {
      SteppedFrom(step, cs[1..], c);
    }
  }

  /** A real change of a child is one of the whole. */
  lemma ChildReal(s: Schema, a: Json, b: Json, path: Path, step: Step, c: Change)
    requires c.path != [] && c.path[0] == step
    requires RealChange(s, Child(s, Pattern(path), a, step), Child(s, Pattern(path), b, step), path + [step],
                        Change(c.path[1..], c.value))
    ensures RealChange(s, a, b, path, c)
  {
    hide SameAt, BothParted, GetAt, Child, Pattern, StepPattern;
    var p := Pattern(path);
    PatternSnoc(path, step);
    GetAtStep(s, p, a, c.path);
    GetAtStep(s, p, b, c.path);
    assert path + [step] + c.path[1..] == path + c.path;
  }

  lemma WholeChange(s: Schema, a: Json, b: Json, path: Path)
    requires !SameAt(s, path, a, b) && !BothParted(s, path, a, b)
    ensures RealChange(s, a, b, path, Change([], b))
  {
    assert path + [] == path;
  }

  lemma {:induction false} DiffReal(s: Schema, a: Json, b: Json, path: Path, c: Change)
    requires c in Diff(s, a, b, path)
    ensures RealChange(s, a, b, path, c)
    decreases !a.Missing?, a, 2
  {
    hide RealChange, SameAt;
    if a.Obj? && b.Obj? {
      FieldsReal(s, a, b, path, Texts.Sorted(a.fields.Keys + b.fields.Keys), c);
    } else if BothKeyed(s, a, b, path) {
      ElementsReal(s, a, b, path, MergedOrder(s, a, b, path), c);
    } else {
      WholeChange(s, a, b, path);
    }
  }

  lemma {:induction false} FieldsReal(s: Schema, a: Json, b: Json, path: Path, keys: seq<string>, c: Change)
    requires a.Obj? && b.Obj? && c in DiffFields(s, a, b, path, keys)
    ensures RealChange(s, a, b, path, c)
    decreases true, a, 1, keys
  {
    hide RealChange, SameAt;
    var step, x, y := FieldStep(keys[0]), Get(a.fields, keys[0]), Get(b.fields, keys[0]);
    var cs := Diff(s, x, y, path + [step]);
    if c in Stepped(step, cs) {
      SteppedFrom(step, cs, c);
      DiffReal(s, x, y, path + [step], Change(c.path[1..], c.value));
      ChildReal(s, a, b, path, step, c);
    } else {
      FieldsReal(s, a, b, path, keys[1..], c);
    }
  }

  lemma {:induction false} ElementsReal(s: Schema, a: Json, b: Json, path: Path, keys: seq<string>, c: Change)
    requires BothKeyed(s, a, b, path) && c in DiffElements(s, a, b, path, keys)
    ensures RealChange(s, a, b, path, c)
    decreases true, a, 1, keys
  {
    hide RealChange, SameAt;
    var step := ElementStep(keys[0]);
    var cs := DiffElement(s, a, b, path, keys[0]);
    if c in Stepped(step, cs) {
      SteppedFrom(step, cs, c);
      ElementReal(s, a, b, path, keys[0], Change(c.path[1..], c.value));
      ChildReal(s, a, b, path, step, c);
    } else {
      ElementsReal(s, a, b, path, keys[1..], c);
    }
  }

  lemma {:induction false} ElementReal(s: Schema, a: Json, b: Json, path: Path, k: string, c: Change)
    requires BothKeyed(s, a, b, path) && c in DiffElement(s, a, b, path, k)
    ensures var p, step := Pattern(path), ElementStep(k);
            RealChange(s, Child(s, p, a, step), Child(s, p, b, step), path + [step], c)
    decreases true, a, 0
  {
    hide RealChange, SameAt;
    var p, at := Pattern(path), path + [ElementStep(k)];
    var x, y := Element(s, p, a, k), Element(s, p, b, k);
    ElementMember(s, p, a, k);
    if IsGroup(x) || IsGroup(y) {
      WholeChange(s, x, y, at);
    } else {
      DiffReal(s, x, y, at, c);
    }
  }
}
