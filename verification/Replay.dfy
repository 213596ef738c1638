/** Replaying the changes of a workspace onto another snapshot: item by item
    the three-way merge, for every item of any of the three. */
module Replay {
  import opened Values
  import opened Merging
  import opened MergeCorrect
  import opened Workspace

  datatype Ref = Ref(kind: string, key: string)

  datatype Item = Item(ref: Ref, value: Json)

  type Snapshot = seq<Item>

  /** The value of ref, or Missing. */
  function Lookup(snap: Snapshot, ref: Ref): Json {
    if snap == [] then Missing
    else if snap[0].ref == ref then snap[0].value
    else Lookup(snap[1..], ref)
  }

  predicate Names(snap: Snapshot, ref: Ref) {
    exists i :: 0 <= i < |snap| && snap[i].ref == ref
  }

  /** No item is there twice, and none is null. */
  predicate Proper(snap: Snapshot) {
    && (forall i, j :: 0 <= i < j < |snap| ==> snap[i].ref != snap[j].ref)
    && (forall i :: 0 <= i < |snap| ==> !snap[i].value.Null? && !snap[i].value.Missing?)
  }

  lemma {:induction false} LookupAt(snap: Snapshot, i: nat)
    requires Proper(snap) && i < |snap|
    ensures Lookup(snap, snap[i].ref) == snap[i].value
  {
    if i > 0 {
      LookupAt(snap[1..], i - 1);
    }
  }

  lemma {:induction false} LookupNone(snap: Snapshot, ref: Ref)
    requires !Names(snap, ref)
    ensures Lookup(snap, ref) == Missing
  {
    if snap != [] {
      forall i | 0 <= i < |snap[1..]| ensures snap[1..][i].ref != ref {
        assert snap[i + 1].ref != ref;
      }
      LookupNone(snap[1..], ref);
    }
  }

  lemma LookupNamed(snap: Snapshot, ref: Ref)
    requires Proper(snap)
    ensures Names(snap, ref) <==> !Lookup(snap, ref).Missing?
    ensures !Lookup(snap, ref).Null?
  {
    if Names(snap, ref) {
      var i :| 0 <= i < |snap| && snap[i].ref == ref;
      LookupAt(snap, i);
    } else {
      LookupNone(snap, ref);
    }
  }

  /** The position of each item. */
  method Index(snap: Snapshot) returns (at: map<Ref, nat>)
    requires Proper(snap)
    ensures forall ref :: ref in at <==> Names(snap, ref)
    ensures forall ref :: ref in at ==>
            at[ref] < |snap| && snap[at[ref]].ref == ref && snap[at[ref]].value == Lookup(snap, ref)
  {
    at := map[];
    for i := 0 to |snap|
      invariant forall ref :: ref in at <==> exists j :: 0 <= j < i && snap[j].ref == ref
      invariant forall ref :: ref in at ==>
                at[ref] < i && snap[at[ref]].ref == ref && snap[at[ref]].value == Lookup(snap, ref)
    {
      LookupAt(snap, i);
      at := at[snap[i].ref := i];
    }
  }

  method At(snap: Snapshot, index: map<Ref, nat>, ref: Ref) returns (v: Json)
    requires forall r :: r in index <==> Names(snap, r)
    requires forall r :: r in index ==> index[r] < |snap| && snap[index[r]].value == Lookup(snap, r)
    ensures v == Lookup(snap, ref)
  {
    if ref in index {
      return snap[index[ref]].value;
    }
    LookupNone(snap, ref);
    return Missing;
  }

  /** ref's value differs between a and b, or a's is gone. */
  predicate Changed(s: Schema, a: Snapshot, b: Snapshot, ref: Ref) {
    (Names(b, ref) && !SameAt(s, [], Lookup(a, ref), Lookup(b, ref))) || (Names(a, ref) && !Names(b, ref))
  }

  lemma NamesSnoc(snap: Snapshot, i: nat, ref: Ref)
    requires i < |snap|
    ensures Names(snap[..i + 1], ref) <==> Names(snap[..i], ref) || snap[i].ref == ref
  {
    if Names(snap[..i], ref) {
      var j :| 0 <= j < i && snap[..i][j].ref == ref;
      assert snap[..i + 1][j].ref == ref;
    }
    if snap[i].ref == ref {
      assert snap[..i + 1][i].ref == ref;
    }
  }

  method Changes(s: Schema, a: Snapshot, b: Snapshot) returns (out: seq<Ref>)
    requires Proper(a) && Proper(b)
    ensures forall ref :: ref in out <==> Changed(s, a, b, ref)
  {
    var edited := Edited(s, a, b);
    var removed := Removed(a, b);
    out := edited + removed;
  }

  method Edited(s: Schema, a: Snapshot, b: Snapshot) returns (out: seq<Ref>)
    requires Proper(a) && Proper(b)
    ensures forall ref :: ref in out <==> Names(b, ref) && !SameAt(s, [], Lookup(a, ref), Lookup(b, ref))
  {
    out := [];
    var at := Index(a);
    for i := 0 to |b|
      invariant forall ref :: ref in out <==> Names(b[..i], ref) && !SameAt(s, [], Lookup(a, ref), Lookup(b, ref))
    {
      LookupAt(b, i);
      forall ref ensures Names(b[..i + 1], ref) <==> Names(b[..i], ref) || b[i].ref == ref {
        NamesSnoc(b, i, ref);
      }
      var was := At(a, at, b[i].ref);
      if !SameAt(s, [], was, b[i].value) {
        out := out + [b[i].ref];
      }
    }
    assert b[..|b|] == b;
  }

  method Removed(a: Snapshot, b: Snapshot) returns (out: seq<Ref>)
    requires Proper(b)
    ensures forall ref :: ref in out <==> Names(a, ref) && !Names(b, ref)
  {
    out := [];
    var kept := Index(b);
    for i := 0 to |a|
      invariant forall ref :: ref in out <==> Names(a[..i], ref) && !Names(b, ref)
    {
      forall ref ensures Names(a[..i + 1], ref) <==> Names(a[..i], ref) || a[i].ref == ref {
        NamesSnoc(a, i, ref);
      }
      if a[i].ref !in kept {
        out := out + [a[i].ref];
      }
    }
    assert a[..|a|] == a;
  }

  // --- applying values to a snapshot ---

  predicate Present(v: Json) {
    !v.Null? && !v.Missing?
  }

  function Kept(v: Json): Json {
    if Present(v) then v else Missing
  }

  /** What ref holds once values are set. */
  function Set(snap: Snapshot, values: map<Ref, Json>, ref: Ref): Json {
    if ref in values then Kept(values[ref]) else Lookup(snap, ref)
  }

  lemma {:induction false} LookupConcat(a: Snapshot, b: Snapshot, ref: Ref)
    ensures Lookup(a + b, ref) == if Names(a, ref) then Lookup(a, ref) else Lookup(b, ref)
  {
    if a == [] {
      assert a + b == b;
    } else {
      assert (a + b)[1..] == a[1..] + b;
      LookupConcat(a[1..], b, ref);
      if Names(a, ref) && a[0].ref != ref {
        var i :| 0 <= i < |a| && a[i].ref == ref;
        assert a[1..][i - 1].ref == ref;
      }
      if Names(a[1..], ref) {
        var i :| 0 <= i < |a[1..]| && a[1..][i].ref == ref;
        assert a[i + 1].ref == ref;
      }
    }
  }

  lemma Appended(snap: Snapshot, item: Item)
    requires Proper(snap) && !Names(snap, item.ref) && Present(item.value)
    ensures Proper(snap + [item])
    ensures forall ref :: Names(snap + [item], ref) <==> Names(snap, ref) || ref == item.ref
    ensures forall ref :: Lookup(snap + [item], ref) == if ref == item.ref then item.value else Lookup(snap, ref)
  {
    forall ref ensures Names(snap + [item], ref) <==> Names(snap, ref) || ref == item.ref {
      if Names(snap, ref) {
        var i :| 0 <= i < |snap| && snap[i].ref == ref;
        assert (snap + [item])[i].ref == ref;
      }
      assert (snap + [item])[|snap|] == item;
    }
    forall ref ensures Lookup(snap + [item], ref) == if ref == item.ref then item.value else Lookup(snap, ref) {
      LookupConcat(snap, [item], ref);
      if !Names(snap, ref) {
        LookupNone(snap, ref);
      }
    }
  }

  /** The items of snap with values set in place, or removed. */
  method Replace(snap: Snapshot, values: map<Ref, Json>) returns (out: Snapshot)
    requires Proper(snap)
    ensures Proper(out)
    ensures forall ref :: Names(out, ref) ==> Names(snap, ref)
    ensures forall ref :: Names(snap, ref) ==> Lookup(out, ref) == Set(snap, values, ref)
  {
    out := [];
    for i := 0 to |snap|
      invariant Proper(out)
      invariant forall ref :: Names(out, ref) ==> Names(snap[..i], ref)
      invariant forall ref :: Names(snap[..i], ref) ==> Lookup(out, ref) == Set(snap, values, ref)
    {
      var it := snap[i];
      LookupAt(snap, i);
      forall ref ensures Names(snap[..i + 1], ref) <==> Names(snap[..i], ref) || it.ref == ref {
        NamesSnoc(snap, i, ref);
      }
      assert !Names(snap[..i], it.ref);
      LookupNone(out, it.ref);
      if it.ref in values {
        if Present(values[it.ref]) {
          Appended(out, Item(it.ref, values[it.ref]));
          out := out + [Item(it.ref, values[it.ref])];
        }
      } else {
        Appended(out, it);
        out := out + [it];
      }
    }
    assert snap[..|snap|] == snap;
  }

  /** snap with each ref of order set to its value: in place, appended when
      absent, removed when the value is Missing or null. */
  method Apply(snap: Snapshot, values: map<Ref, Json>, order: seq<Ref>) returns (out: Snapshot)
    requires Proper(snap) && forall ref :: ref in values <==> ref in order
    ensures Proper(out)
    ensures forall ref :: Lookup(out, ref) == Set(snap, values, ref)
  {
    out := Replace(snap, values);
    var index := Index(snap);
    var present := index.Keys;
    for i := 0 to |order|
      invariant Proper(out)
      invariant forall ref :: ref in present <==> Names(snap, ref) || (ref in order[..i] && Present(values[ref]))
      invariant forall ref :: Names(out, ref) ==> ref in present
      invariant forall ref :: Names(snap, ref) || ref in order[..i] ==> Lookup(out, ref) == Set(snap, values, ref)
    {
      var ref := order[i];
      assert order[..i + 1] == order[..i] + [ref];
      if ref !in present {
        LookupNone(out, ref);
        if Present(values[ref]) {
          Appended(out, Item(ref, values[ref]));
          out := out + [Item(ref, values[ref])];
          present := present + {ref};
        }
      }
    }
    assert order[..|order|] == order;
    forall ref ensures Lookup(out, ref) == Set(snap, values, ref) {
      if !Names(snap, ref) && ref !in order {
        LookupNone(out, ref);
        LookupNone(snap, ref);
      }
    }
  }

  // --- replaying ---

  function MergedItem(s: Schema, old_: Snapshot, local: Snapshot, next: Snapshot, ref: Ref): Merged {
    Merge(s, Lookup(old_, ref), Lookup(local, ref), Lookup(next, ref), [])
  }

  /** Every item is the three-way merge, and every conflict one of an item. */
  ghost predicate Replayed(
    s: Schema, old_: Snapshot, local: Snapshot, next: Snapshot, out: Snapshot, found: seq<(Ref, Conflict)>)
  {
    && (forall ref :: Lookup(out, ref) == MergedItem(s, old_, local, next, ref).value)
    && (forall ref, c :: (ref, c) in found <==> c in MergedItem(s, old_, local, next, ref).conflicts)
  }

  /** Sides that are not null merge to no null. */
  lemma MergeNotNull(s: Schema, base: Json, local: Json, next: Json, path: Path)
    requires !local.Null? && !next.Null?
    ensures !Merge(s, base, local, next, path).value.Null?
  {
  }

  lemma UnchangedMerge(s: Schema, old_: Snapshot, local: Snapshot, next: Snapshot, ref: Ref)
    requires !Changed(s, old_, local, ref)
    ensures MergedItem(s, old_, local, next, ref) == Merged(Lookup(next, ref), {})
  {
    if !Names(local, ref) {
      LookupNone(local, ref);
      LookupNone(old_, ref);
    }
  }

  method Replay(s: Schema, old_: Snapshot, local: Snapshot, next: Snapshot)
    returns (out: Snapshot, found: seq<(Ref, Conflict)>)
    requires Proper(old_) && Proper(local) && Proper(next)
    ensures Proper(out) && Replayed(s, old_, local, next, out, found)
  {
    var changed := Changes(s, old_, local);
    var values: map<Ref, Json>;
    values, found := MergeChanged(s, old_, local, next, changed);
    out := Apply(next, values, changed);
    forall ref ensures Lookup(out, ref) == MergedItem(s, old_, local, next, ref).value {
      LookupNamed(local, ref);
      LookupNamed(next, ref);
      if ref in changed {
        MergeNotNull(s, Lookup(old_, ref), Lookup(local, ref), Lookup(next, ref), []);
      } else {
        UnchangedMerge(s, old_, local, next, ref);
      }
    }
    forall ref, c ensures (ref, c) in found <==> c in MergedItem(s, old_, local, next, ref).conflicts {
      if ref !in changed {
        UnchangedMerge(s, old_, local, next, ref);
      }
    }
  }

  method MergeChanged(s: Schema, old_: Snapshot, local: Snapshot, next: Snapshot, changed: seq<Ref>)
    returns (values: map<Ref, Json>, found: seq<(Ref, Conflict)>)
    requires Proper(old_) && Proper(local) && Proper(next)
    ensures forall ref :: ref in values <==> ref in changed
    ensures forall ref :: ref in values ==> values[ref] == MergedItem(s, old_, local, next, ref).value
    ensures forall ref, c :: (ref, c) in found <==>
            ref in changed && c in MergedItem(s, old_, local, next, ref).conflicts
  {
    var oldAt := Index(old_);
    var localAt := Index(local);
    var nextAt := Index(next);
    values, found := map[], [];
    for i := 0 to |changed|
      invariant forall ref :: ref in values <==> ref in changed[..i]
      invariant forall ref :: ref in values ==> values[ref] == MergedItem(s, old_, local, next, ref).value
      invariant forall ref, c :: (ref, c) in found <==>
                ref in changed[..i] && c in MergedItem(s, old_, local, next, ref).conflicts
    {
      var ref := changed[i];
      assert changed[..i + 1] == changed[..i] + [ref];
      var b := At(old_, oldAt, ref);
      var l := At(local, localAt, ref);
      var n := At(next, nextAt, ref);
      var v, cs := MergeValues(s, b, l, n, []);
      ListsMembers(cs, MergedItem(s, old_, local, next, ref).conflicts);
      values := values[ref := v];
      var tagged := Tagged(ref, cs);
      found := found + tagged;
    }
    assert changed[..|changed|] == changed;
  }

  method Tagged(ref: Ref, cs: seq<Conflict>) returns (out: seq<(Ref, Conflict)>)
    ensures forall r, c :: (r, c) in out <==> r == ref && c in cs
  {
    out := [];
    for i := 0 to |cs|
      invariant forall r, c :: (r, c) in out <==> r == ref && c in cs[..i]
    {
      assert cs[..i + 1] == cs[..i] + [cs[i]];
      out := out + [(ref, cs[i])];
    }
    assert cs[..|cs|] == cs;
  }

  function ConflictsOf(found: seq<(Ref, Conflict)>, ref: Ref): set<Conflict> {
    set i | 0 <= i < |found| && found[i].0 == ref :: found[i].1
  }

  /** What the merge promises of a value, the replay promises of every item. */
  lemma ReplayFollows(
    s: Schema, old_: Snapshot, local: Snapshot, next: Snapshot, out: Snapshot, found: seq<(Ref, Conflict)>, ref: Ref,
    q: Path)
    requires WellFormed(s) && Replayed(s, old_, local, next, out, found)
    ensures var cs := ConflictsOf(found, ref);
            Follows(s, Under(cs, q), Above(cs, q), q, GetAt(s, "", Lookup(old_, ref), q),
                GetAt(s, "", Lookup(local, ref), q),
                    GetAt(s, "", Lookup(next, ref), q), GetAt(s, "", Lookup(out, ref), q))
  {
    ConflictsOfItem(s, old_, local, next, out, found, ref);
    ItemFollows(s, Lookup(old_, ref), Lookup(local, ref), Lookup(next, ref), Lookup(out, ref), ConflictsOf(found, ref),
        q);
  }

  lemma ItemFollows(s: Schema, b: Json, l: Json, n: Json, v: Json, cs: set<Conflict>, q: Path)
    requires WellFormed(s) && v == Merge(s, b, l, n, []).value && cs == Merge(s, b, l, n, []).conflicts
    ensures Follows(s, Under(cs, q), Above(cs, q), q, GetAt(s, "", b, q), GetAt(s, "", l, q), GetAt(s, "", n, q),
            GetAt(s, "", v, q))
  {
    assert [] + q == q;
    MergeFollows(s, b, l, n, [], q);
  }

  lemma ConflictsOfItem(
    s: Schema, old_: Snapshot, local: Snapshot, next: Snapshot, out: Snapshot, found: seq<(Ref, Conflict)>, ref: Ref)
    requires Replayed(s, old_, local, next, out, found)
    ensures ConflictsOf(found, ref) == MergedItem(s, old_, local, next, ref).conflicts
  {
    var cs, all := ConflictsOf(found, ref), MergedItem(s, old_, local, next, ref).conflicts;
    forall c ensures c in cs <==> c in all {
      if c in all {
        var i :| 0 <= i < |found| && found[i] == (ref, c);
        assert found[i].1 in cs;
      }
      if c in cs {
        var i :| 0 <= i < |found| && found[i].0 == ref && found[i].1 == c;
        assert (ref, c) in found;
      }
    }
  }
}
