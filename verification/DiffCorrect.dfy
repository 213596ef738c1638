/** Applying the difference from a to b, in any order, makes a mean b: equal up
    to unset values and the order of keyed lists. */
module DiffCorrect {
  import opened Texts
  import opened Values
  import opened Merging
  import opened MergeCorrect
  import opened Diffing

  /** Equal up to unset values and the order of keyed lists. */
  ghost predicate Alike(s: Schema, path: Path, x: Json, y: Json)
    decreases !x.Missing?, x, 1
  {
    || SameAt(s, path, x, y)
    || (x.Obj? && y.Obj? && forall k :: k in x.fields.Keys + y.fields.Keys ==>
          Alike(s, path + [FieldStep(k)], Get(x.fields, k), Get(y.fields, k)))
    || (BothKeyed(s, x, y, path) && forall k :: k in MergedOrder(s, x, y, path) ==> AlikeElement(s, path, x, y, k))
  }

  /** Elements sharing a key are alike when they mean the same, in order. */
  ghost predicate AlikeElement(s: Schema, path: Path, x: Json, y: Json, k: string)
    requires BothKeyed(s, x, y, path)
    decreases true, x, 0
  {
    var p, at := Pattern(path), path + [ElementStep(k)];
    var xe, ye := Element(s, p, x, k), Element(s, p, y, k);
    ElementMember(s, p, x, k);
    if IsGroup(xe) || IsGroup(ye) then SameAt(s, at, xe, ye) else Alike(s, at, xe, ye)
  }

  // --- the changes below a step ---

  lemma {:induction false} BelowConcat(step: Step, cs: seq<Change>, ds: seq<Change>)
    ensures Below(step, cs + ds) == Below(step, cs) + Below(step, ds)
  {
    if ds == [] {
      assert cs + ds == cs;
    } else {
      assert (cs + ds)[..|cs + ds| - 1] == cs + ds[..|ds|-1];
      BelowConcat(step, cs, ds[..|ds|-1]);
    }
  }

  lemma {:induction false} BelowStepped(step: Step, at: Step, cs: seq<Change>)
    ensures Below(at, Stepped(step, cs)) == if at == step then cs else []
  {
    if cs != [] {
      var c := Change([step] + cs[0].path, cs[0].value);
      BelowStepped(step, at, cs[1..]);
      BelowConcat(at, [c], Stepped(step, cs[1..]));
      assert Below(at, [c]) == if at == step then [cs[0]] else [] by {
        assert [c][..0] == [];
        assert ([step] + cs[0].path)[1..] == cs[0].path;
      }
    }
  }

  lemma {:induction false} BelowFields(s: Schema, a: Json, b: Json, path: Path, keys: seq<string>, k: string)
    requires a.Obj? && b.Obj? && NoDup(keys)
    ensures Below(FieldStep(k), DiffFields(s, a, b, path, keys)) ==
            if k in keys then Diff(s, Get(a.fields, k), Get(b.fields, k), path + [FieldStep(k)]) else []
    decreases keys
  {
    if keys != [] {
      var j := keys[0];
      var mine := Diff(s, Get(a.fields, j), Get(b.fields, j), path + [FieldStep(j)]);
      BelowFields(s, a, b, path, keys[1..], k);
      BelowStepped(FieldStep(j), FieldStep(k), mine);
      BelowConcat(FieldStep(k), Stepped(FieldStep(j), mine), DiffFields(s, a, b, path, keys[1..]));
    }
  }

  lemma {:induction false} BelowElements(s: Schema, a: Json, b: Json, path: Path, keys: seq<string>, k: string)
    requires BothKeyed(s, a, b, path) && NoDup(keys)
    ensures Below(ElementStep(k), DiffElements(s, a, b, path, keys)) ==
            if k in keys then DiffElement(s, a, b, path, k) else []
    decreases keys
  {
    if keys != [] {
      var j := keys[0];
      BelowElements(s, a, b, path, keys[1..], k);
      BelowStepped(ElementStep(j), ElementStep(k), DiffElement(s, a, b, path, j));
      BelowConcat(ElementStep(k), Stepped(ElementStep(j), DiffElement(s, a, b, path, j)),
          DiffElements(s, a, b, path, keys[1..]));
    }
  }

  lemma {:induction false} BelowCount(step: Step, cs: seq<Change>, c: Change)
    ensures multiset(Below(step, cs))[c] == multiset(cs)[Change([step] + c.path, c.value)]
  {
    if cs != [] {
      var init, last := cs[..|cs|-1], cs[|cs|-1];
      assert cs == init + [last];
      BelowCount(step, init, c);
      if Leads(step, last) {
        assert last.path == [step] + last.path[1..];
        assert Change([step] + c.path, c.value) == last <==> c == Change(last.path[1..], last.value) by {
          assert ([step] + c.path)[1..] == c.path;
        }
      } else {
        assert ([step] + c.path)[0] == step;
      }
    }
  }

  /** A permutation of changes is one below each step. */
  lemma BelowPermuted(step: Step, cs: seq<Change>, ds: seq<Change>)
    requires multiset(cs) == multiset(ds)
    ensures multiset(Below(step, cs)) == multiset(Below(step, ds))
  {
    forall c ensures multiset(Below(step, cs))[c] == multiset(Below(step, ds))[c] {
      BelowCount(step, cs, c);
      BelowCount(step, ds, c);
    }
  }

  lemma {:induction false} SortedNoDup(keys: set<string>)
    ensures NoDup(Sorted(keys))
    decreases |keys|
  {
    if keys != {} {
      var k := Sorted(keys)[0];
      SortedNoDup(keys - {k});
    }
  }

  // --- permutations of small lists of changes ---

  lemma PermutedOne(cs: seq<Change>, c: Change)
    requires multiset(cs) == multiset([c])
    ensures cs == [c]
  {
    assert |multiset(cs)| == 1;
    assert cs[0] in multiset(cs);
  }

  lemma PermutedNone(cs: seq<Change>)
    requires multiset(cs) == multiset([])
    ensures cs == []
  {
    assert |multiset(cs)| == 0;
  }

  lemma PermutedMember(cs: seq<Change>, ds: seq<Change>, i: nat)
    requires multiset(cs) == multiset(ds) && i < |cs|
    ensures cs[i] in ds
  {
    assert cs[i] in multiset(cs);
  }

  lemma {:induction false} SteppedHeads(step: Step, cs: seq<Change>, c: Change)
    requires c in Stepped(step, cs)
    ensures c.path != [] && c.path[0] == step
  {
    if c in Stepped(step, cs[1..]) {
      SteppedHeads(step, cs[1..], c);
    }
  }

  lemma {:induction false} FieldHeads(s: Schema, a: Json, b: Json, path: Path, keys: seq<string>, c: Change)
    requires a.Obj? && b.Obj? && c in DiffFields(s, a, b, path, keys)
    ensures c.path != [] && c.path[0].FieldStep?
    decreases keys
  {
    var mine := Diff(s, Get(a.fields, keys[0]), Get(b.fields, keys[0]), path + [FieldStep(keys[0])]);
    if c in Stepped(FieldStep(keys[0]), mine) {
      SteppedHeads(FieldStep(keys[0]), mine, c);
    } else {
      FieldHeads(s, a, b, path, keys[1..], c);
    }
  }

  lemma {:induction false} ElementHeads(s: Schema, a: Json, b: Json, path: Path, keys: seq<string>, c: Change)
    requires BothKeyed(s, a, b, path) && c in DiffElements(s, a, b, path, keys)
    ensures c.path != [] && c.path[0].ElementStep?
    decreases keys
  {
    var mine := DiffElement(s, a, b, path, keys[0]);
    if c in Stepped(ElementStep(keys[0]), mine) {
      SteppedHeads(ElementStep(keys[0]), mine, c);
    } else {
      ElementHeads(s, a, b, path, keys[1..], c);
    }
  }

  // --- elements keep their keys ---

  lemma {:induction false} PrefixBelow(step: Step, cs: seq<Change>, i: nat)
    requires i <= |cs| && Below(step, cs) == []
    ensures Below(step, cs[..i]) == []
  {
    BelowConcat(step, cs[..i], cs[i..]);
    assert cs[..i] + cs[i..] == cs;
  }

  /** Changes to the other fields of an element keep its key. */
  lemma FieldsKeepKey(s: Schema, p: string, k: string, x: Json, cs: seq<Change>, i: nat)
    requires Keyed(s, p, k, x) && AllFields(cs) && i <= |cs|
    requires Below(FieldStep(s.lists[ElementPattern(p)]), cs) == []
    ensures Keyed(s, p, k, Apply(s, ElementPattern(p), x, cs[..i]))
  {
    var key := s.lists[ElementPattern(p)];
    PrefixBelow(FieldStep(key), cs, i);
    ApplyFields(s, ElementPattern(p), x, cs[..i], key);
  }

  /** The difference of two elements with a key does not touch it. */
  lemma NoChangeOfKey(s: Schema, p: string, k: string, x: Json, y: Json, at: Path)
    requires Keyed(s, p, k, x) && Keyed(s, p, k, y) && !SameAt(s, at, x, y)
    ensures Below(FieldStep(s.lists[ElementPattern(p)]), Diff(s, x, y, at)) == []
  {
    var key, keys := s.lists[ElementPattern(p)], Sorted(x.fields.Keys + y.fields.Keys);
    SortedNoDup(x.fields.Keys + y.fields.Keys);
    BelowFields(s, x, y, at, keys, key);
  }

  lemma OneStays(s: Schema, p: string, k: string, x: Json, y: Json)
    requires Holds(s, p, k, x) && Holds(s, p, k, y)
    ensures Stays(s, p, k, x, [Change([], y)]) && Stays(s, p, k, x, [])
  {
    var cs := [Change([], y)];
    assert cs[..0] == [] && cs[..1] == cs;
  }

  lemma DiffedFields(s: Schema, x: Json, y: Json, at: Path, cs: seq<Change>)
    requires x.Obj? && y.Obj? && !SameAt(s, at, x, y) && multiset(cs) == multiset(Diff(s, x, y, at))
    ensures AllFields(cs)
  {
    forall i | 0 <= i < |cs| ensures cs[i].path != [] && cs[i].path[0].FieldStep? {
      PermutedMember(cs, Diff(s, x, y, at), i);
      FieldHeads(s, x, y, at, Sorted(x.fields.Keys + y.fields.Keys), cs[i]);
    }
  }

  lemma ElementStays(s: Schema, a: Json, b: Json, path: Path, k: string, cs: seq<Change>)
    requires BothKeyed(s, a, b, path) && multiset(cs) == multiset(DiffElement(s, a, b, path, k))
    ensures Stays(s, Pattern(path), k, Element(s, Pattern(path), a, k), cs)
  {
    var p, at := Pattern(path), path + [ElementStep(k)];
    var x, y := Element(s, p, a, k), Element(s, p, b, k);
    ElementHolds(s, p, a, k);
    ElementHolds(s, p, b, k);
    OneStays(s, p, k, x, y);
    if DiffElement(s, a, b, path, k) == [] {
      PermutedNone(cs);
    } else if IsGroup(x) || IsGroup(y) || x.Missing? || y.Missing? {
      PermutedOne(cs, Change([], y));
    } else {
      DiffedFields(s, x, y, at, cs);
      NoChangeOfKey(s, p, k, x, y, at);
      BelowPermuted(FieldStep(s.lists[ElementPattern(p)]), cs, Diff(s, x, y, at));
      PermutedNone(Below(FieldStep(s.lists[ElementPattern(p)]), cs));
      forall i | 0 <= i <= |cs| ensures Holds(s, p, k, Apply(s, ElementPattern(p), x, cs[..i])) {
        FieldsKeepKey(s, p, k, x, cs, i);
      }
    }
  }

  // --- the main theorem ---

  lemma DiffNothing(s: Schema, at: Path)
    ensures Diff(s, Missing, Missing, at) == []
  {
  }

  /** The changes to a field are those of its difference. */
  lemma FieldChanges(s: Schema, a: Json, b: Json, path: Path, cs: seq<Change>, k: string)
    requires a.Obj? && b.Obj? && !SameAt(s, path, a, b) && multiset(cs) == multiset(Diff(s, a, b, path))
    ensures multiset(Below(FieldStep(k), cs)) ==
            multiset(Diff(s, Get(a.fields, k), Get(b.fields, k), path + [FieldStep(k)]))
    ensures Apply(s, Pattern(path), a, cs).Obj?
    ensures Get(Apply(s, Pattern(path), a, cs).fields, k) ==
            Apply(s, Pattern(path + [FieldStep(k)]), Get(a.fields, k), Below(FieldStep(k), cs))
  {
    var keys := a.fields.Keys + b.fields.Keys;
    SortedNoDup(keys);
    BelowFields(s, a, b, path, Sorted(keys), k);
    BelowPermuted(FieldStep(k), cs, Diff(s, a, b, path));
    DiffNothing(s, path + [FieldStep(k)]);
    DiffedFields(s, a, b, path, cs);
    PatternSnoc(path, FieldStep(k));
    ApplyFields(s, Pattern(path), a, cs, k);
  }

  lemma NoElementDiff(s: Schema, a: Json, b: Json, path: Path, k: string)
    requires BothKeyed(s, a, b, path) && k !in MergedOrder(s, a, b, path)
    ensures Element(s, Pattern(path), a, k) == Element(s, Pattern(path), b, k) == Missing
    ensures DiffElement(s, a, b, path, k) == []
  {
    OrderMembers(s, Pattern(path), a.items, k);
    OrderMembers(s, Pattern(path), b.items, k);
  }

  lemma ElementBelow(s: Schema, a: Json, b: Json, path: Path, cs: seq<Change>, k: string)
    requires !(a.Obj? && b.Obj?) && BothKeyed(s, a, b, path) && !SameAt(s, path, a, b)
    requires multiset(cs) == multiset(Diff(s, a, b, path))
    ensures multiset(Below(ElementStep(k), cs)) == multiset(DiffElement(s, a, b, path, k))
  {
    var order := MergedOrder(s, a, b, path);
    MergedOrderNoDup(s, a, b, path);
    BelowElements(s, a, b, path, order, k);
    BelowPermuted(ElementStep(k), cs, Diff(s, a, b, path));
    if k !in order {
      NoElementDiff(s, a, b, path, k);
    }
  }

  /** The changes to an element are those of its difference. */
  lemma ElementChanges(s: Schema, a: Json, b: Json, path: Path, cs: seq<Change>, k: string)
    requires BothKeyed(s, a, b, path) && !SameAt(s, path, a, b) && multiset(cs) == multiset(Diff(s, a, b, path))
    ensures multiset(Below(ElementStep(k), cs)) == multiset(DiffElement(s, a, b, path, k))
    ensures IsKeyed(s, Pattern(path), Apply(s, Pattern(path), a, cs))
    ensures Element(s, Pattern(path), Apply(s, Pattern(path), a, cs), k) ==
            Apply(s, Pattern(path + [ElementStep(k)]), Element(s, Pattern(path), a, k), Below(ElementStep(k), cs))
  {
    var order := MergedOrder(s, a, b, path);
    forall i | 0 <= i < |cs| ensures cs[i].path != [] && cs[i].path[0].ElementStep? {
      PermutedMember(cs, Diff(s, a, b, path), i);
      ElementHeads(s, a, b, path, order, cs[i]);
    }
    forall j ensures Stays(s, Pattern(path), j, Element(s, Pattern(path), a, j), Below(ElementStep(j), cs)) {
      ElementBelow(s, a, b, path, cs, j);
      ElementStays(s, a, b, path, j, Below(ElementStep(j), cs));
    }
    ElementBelow(s, a, b, path, cs, k);
    PatternSnoc(path, ElementStep(k));
    ApplyElements(s, Pattern(path), a, cs, k);
  }

  /** Applied in whatever order, the difference from a to b makes a alike b. */
  lemma {:induction false} DiffApplies(s: Schema, a: Json, b: Json, path: Path, cs: seq<Change>)
    requires multiset(cs) == multiset(Diff(s, a, b, path))
    ensures Alike(s, path, Apply(s, Pattern(path), a, cs), b)
    decreases !a.Missing?, a, 2
  {
    if SameAt(s, path, a, b) {
      PermutedNone(cs);
    } else if a.Obj? && b.Obj? {
      FieldsApply(s, a, b, path, cs);
    } else if BothKeyed(s, a, b, path) {
      ElementsApply(s, a, b, path, cs);
    } else {
      PermutedOne(cs, Change([], b));
      assert [Change([], b)][..0] == [];
    }
  }

  lemma {:induction false} FieldsApply(s: Schema, a: Json, b: Json, path: Path, cs: seq<Change>)
    requires a.Obj? && b.Obj? && !SameAt(s, path, a, b) && multiset(cs) == multiset(Diff(s, a, b, path))
    ensures Alike(s, path, Apply(s, Pattern(path), a, cs), b)
    decreases true, a, 1
  {
    var r := Apply(s, Pattern(path), a, cs);
    FieldChanges(s, a, b, path, cs, "");
    forall k | k in r.fields.Keys + b.fields.Keys
      ensures Alike(s, path + [FieldStep(k)], Get(r.fields, k), Get(b.fields, k))
    {
      FieldChanges(s, a, b, path, cs, k);
      DiffApplies(s, Get(a.fields, k), Get(b.fields, k), path + [FieldStep(k)], Below(FieldStep(k), cs));
    }
  }

  lemma {:induction false} ElementsApply(s: Schema, a: Json, b: Json, path: Path, cs: seq<Change>)
    requires BothKeyed(s, a, b, path) && !SameAt(s, path, a, b) && multiset(cs) == multiset(Diff(s, a, b, path))
    ensures Alike(s, path, Apply(s, Pattern(path), a, cs), b)
    decreases true, a, 1
  {
    var r := Apply(s, Pattern(path), a, cs);
    ElementChanges(s, a, b, path, cs, "");
    forall k | k in MergedOrder(s, r, b, path) ensures AlikeElement(s, path, r, b, k) {
      ElementChanges(s, a, b, path, cs, k);
      ElementApplies(s, a, b, path, k, r, Below(ElementStep(k), cs));
    }
  }

  lemma {:induction false} ElementApplies(s: Schema, a: Json, b: Json, path: Path, k: string, r: Json, cs: seq<Change>)
    requires BothKeyed(s, a, b, path) && multiset(cs) == multiset(DiffElement(s, a, b, path, k)) &&
             IsKeyed(s, Pattern(path), r)
    requires Element(s, Pattern(path), r, k) ==
             Apply(s, Pattern(path + [ElementStep(k)]), Element(s, Pattern(path), a, k), cs)
    ensures AlikeElement(s, path, r, b, k)
    decreases true, a, 0
  {
    var p, at := Pattern(path), path + [ElementStep(k)];
    var x, y := Element(s, p, a, k), Element(s, p, b, k);
    ElementMember(s, p, a, k);
    if IsGroup(x) || IsGroup(y) {
      if SameAt(s, at, x, y) {
        PermutedNone(cs);
      } else {
        PermutedOne(cs, Change([], y));
        assert [Change([], y)][..0] == [];
      }
    } else {
      DiffApplies(s, x, y, at, cs);
    }
  }

  // --- no change is within another ---

  predicate Apart(cs: seq<Change>) {
    forall i, j :: 0 <= i < |cs| && 0 <= j < |cs| && i != j ==> !Within(cs[i].path, cs[j].path)
  }

  lemma WithinStepped(step: Step, p: Path, q: Path)
    requires Within([step] + p, [step] + q)
    ensures Within(p, q)
  {
    assert p[..|q|] == ([step] + p)[..|q| + 1][1..];
    assert ([step] + q)[1..] == q;
  }

  lemma {:induction false} SteppedAt(step: Step, cs: seq<Change>, i: nat)
    requires i < |cs|
    ensures Stepped(step, cs)[i] == Change([step] + cs[i].path, cs[i].value)
  {
    if i > 0 {
      SteppedAt(step, cs[1..], i - 1);
    }
  }

  lemma SteppedApart(step: Step, cs: seq<Change>)
    requires Apart(cs)
    ensures Apart(Stepped(step, cs))
  {
    var ds := Stepped(step, cs);
    forall i, j | 0 <= i < |ds| && 0 <= j < |ds| && i != j ensures !Within(ds[i].path, ds[j].path) {
      SteppedAt(step, cs, i);
      SteppedAt(step, cs, j);
      if Within(ds[i].path, ds[j].path) {
        WithinStepped(step, cs[i].path, cs[j].path);
      }
    }
  }

  /** Changes under a step, and changes under others. */
  lemma ConcatApart(step: Step, cs: seq<Change>, ds: seq<Change>)
    requires Apart(cs) && Apart(ds)
    requires forall c :: c in cs ==> Leads(step, c)
    requires forall d :: d in ds ==> d.path != [] && !Leads(step, d)
    ensures Apart(cs + ds)
  {
    var all := cs + ds;
    forall i, j | 0 <= i < |all| && 0 <= j < |all| && i != j ensures !Within(all[i].path, all[j].path) {
      if (i < |cs|) != (j < |cs|) {
        assert all[i] in cs || all[i] in ds;
        assert all[j] in cs || all[j] in ds;
        HeadsApart(all[i].path, all[j].path);
      }
    }
  }

  lemma HeadsApart(p: Path, q: Path)
    requires p != [] && q != [] && p[0] != q[0]
    ensures !Within(p, q)
  {
    assert |p| >= |q| ==> p[..|q|][0] == p[0];
  }

  lemma {:induction false} HeadKey(s: Schema, a: Json, b: Json, path: Path, keys: seq<string>, c: Change)
    requires a.Obj? && b.Obj? && c in DiffFields(s, a, b, path, keys)
    ensures exists k :: k in keys && Leads(FieldStep(k), c)
    decreases keys
  {
    var mine := Diff(s, Get(a.fields, keys[0]), Get(b.fields, keys[0]), path + [FieldStep(keys[0])]);
    if c in Stepped(FieldStep(keys[0]), mine) {
      SteppedHeads(FieldStep(keys[0]), mine, c);
    } else {
      HeadKey(s, a, b, path, keys[1..], c);
    }
  }

  lemma {:induction false} HeadElement(s: Schema, a: Json, b: Json, path: Path, keys: seq<string>, c: Change)
    requires BothKeyed(s, a, b, path) && c in DiffElements(s, a, b, path, keys)
    ensures exists k :: k in keys && Leads(ElementStep(k), c)
    decreases keys
  {
    var mine := DiffElement(s, a, b, path, keys[0]);
    if c in Stepped(ElementStep(keys[0]), mine) {
      SteppedHeads(ElementStep(keys[0]), mine, c);
    } else {
      HeadElement(s, a, b, path, keys[1..], c);
    }
  }

  /** The paths of a difference never lie within one another. */
  lemma {:induction false} DiffApart(s: Schema, a: Json, b: Json, path: Path)
    ensures Apart(Diff(s, a, b, path))
    decreases !a.Missing?, a, 2
  {
    if !SameAt(s, path, a, b) {
      if a.Obj? && b.Obj? {
        SortedNoDup(a.fields.Keys + b.fields.Keys);
        FieldsApart(s, a, b, path, Sorted(a.fields.Keys + b.fields.Keys));
      } else if BothKeyed(s, a, b, path) {
        MergedOrderNoDup(s, a, b, path);
        ElementsApart(s, a, b, path, MergedOrder(s, a, b, path));
      }
    }
  }

  lemma {:induction false} FieldsApart(s: Schema, a: Json, b: Json, path: Path, keys: seq<string>)
    requires a.Obj? && b.Obj? && NoDup(keys)
    ensures Apart(DiffFields(s, a, b, path, keys))
    decreases true, a, 1, keys
  {
    if keys != [] {
      var k := keys[0];
      var mine, more := Diff(s, Get(a.fields, k), Get(b.fields, k), path + [FieldStep(k)]),
          DiffFields(s, a, b, path, keys[1..]);
      DiffApart(s, Get(a.fields, k), Get(b.fields, k), path + [FieldStep(k)]);
      FieldsApart(s, a, b, path, keys[1..]);
      SteppedApart(FieldStep(k), mine);
      forall c | c in Stepped(FieldStep(k), mine) ensures Leads(FieldStep(k), c) {
        SteppedHeads(FieldStep(k), mine, c);
      }
      forall d | d in more ensures d.path != [] && !Leads(FieldStep(k), d) {
        HeadKey(s, a, b, path, keys[1..], d);
      }
      ConcatApart(FieldStep(k), Stepped(FieldStep(k), mine), more);
    }
  }

  lemma {:induction false} ElementsApart(s: Schema, a: Json, b: Json, path: Path, keys: seq<string>)
    requires BothKeyed(s, a, b, path) && NoDup(keys)
    ensures Apart(DiffElements(s, a, b, path, keys))
    decreases true, a, 1, keys
  {
    if keys != [] {
      var k := keys[0];
      var mine, more := DiffElement(s, a, b, path, k), DiffElements(s, a, b, path, keys[1..]);
      ElementApart(s, a, b, path, k);
      ElementsApart(s, a, b, path, keys[1..]);
      SteppedApart(ElementStep(k), mine);
      forall c | c in Stepped(ElementStep(k), mine) ensures Leads(ElementStep(k), c) {
        SteppedHeads(ElementStep(k), mine, c);
      }
      forall d | d in more ensures d.path != [] && !Leads(ElementStep(k), d) {
        HeadElement(s, a, b, path, keys[1..], d);
      }
      ConcatApart(ElementStep(k), Stepped(ElementStep(k), mine), more);
    }
  }

  lemma {:induction false} ElementApart(s: Schema, a: Json, b: Json, path: Path, k: string)
    requires BothKeyed(s, a, b, path)
    ensures Apart(DiffElement(s, a, b, path, k))
    decreases true, a, 0
  {
    var p := Pattern(path);
    ElementMember(s, p, a, k);
    if !IsGroup(Element(s, p, a, k)) && !IsGroup(Element(s, p, b, k)) {
      DiffApart(s, Element(s, p, a, k), Element(s, p, b, k), path + [ElementStep(k)]);
    }
  }
}
