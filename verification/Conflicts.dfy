/** Conflicts that stand in a workspace: what is open, what a choice does, and
    which are carried over when its changes are applied again. */
module Conflicts {
  import opened Values
  import opened Merging
  import opened MergeCorrect
  import opened Diffing
  import opened Lenses
  import opened Replay

  datatype Option<T> = None | Some(value: T)

  /** Where the other side's values came from. */
  datatype Source = Source(kind: string, id: string, author: string)

  /** theirs is the other side's value of a pinned conflict; one not pinned is
      against the base's. */
  datatype Standing = Standing(id: string, ref: Ref, path: Path, source: Source, pinned: bool, theirs: Json)

  datatype Open = Open(conflict: Standing, mine: Json, theirs: Json)

  // --- what is open ---

  /** The value by the first i + 1 steps is a group of one of the items. */
  predicate Grouped(s: Schema, path: Path, items: seq<Json>, i: nat)
    requires i < |path|
  {
    path[i].ElementStep? && exists n :: 0 <= n < |items| && IsGroup(GetAt(s, "", items[n], path[..i + 1]))
  }

  /** path up to the first group on it, from step i on. */
  function AddressableFrom(s: Schema, path: Path, items: seq<Json>, i: nat): (r: Path)
    requires i <= |path|
    ensures r <= path && (|r| < |path| ==> |r| > i)
    decreases |path| - i
  {
    if i + 1 >= |path| then path
    else if Grouped(s, path, items, i) then path[..i + 1]
    else AddressableFrom(s, path, items, i + 1)
  }

  function Addressable(s: Schema, path: Path, items: seq<Json>): Path {
    AddressableFrom(s, path, items, 0)
  }

  lemma {:induction false} NoneGrouped(s: Schema, path: Path, items: seq<Json>, i: nat, j: nat)
    requires i <= |path| && i <= j && j + 1 < |AddressableFrom(s, path, items, i)|
    ensures !Grouped(s, path, items, j)
    decreases |path| - i
  {
    if i < j {
      NoneGrouped(s, path, items, i + 1, j);
    }
  }

  predicate Reached(s: Schema, item: Json, path: Path) {
    forall i :: 0 <= i < |path| ==> !GetAt(s, "", item, path[..i]).Missing?
  }

  function PathOf(s: Schema, mine: Json, base: Json, c: Standing): Path {
    if c.pinned then c.path else Addressable(s, c.path, [mine, base])
  }

  function TheirsOf(s: Schema, base: Json, c: Standing, path: Path): Json {
    if c.pinned then c.theirs else GetAt(s, "", base, path)
  }

  /** c as it stands in an item, against the base's: None when the item holds the
      other side's value, or removed what holds it. */
  function Viewed(s: Schema, mine: Json, base: Json, c: Standing): Option<Open> {
    var path := PathOf(s, mine, base, c);
    var m, t := GetAt(s, "", mine, path), TheirsOf(s, base, c, path);
    if !Reached(s, mine, path) || SameAt(s, path, m, t) then None else Some(Open(c.(path := path), m, t))
  }

  function View(s: Schema, now: Snapshot, base: Snapshot, c: Standing): Option<Open> {
    Viewed(s, Lookup(now, c.ref), Lookup(base, c.ref), c)
  }

  method FindAddressable(s: Schema, path: Path, items: seq<Json>) returns (r: Path)
    ensures r == Addressable(s, path, items)
  {
    var i := 0;
    while i + 1 < |path|
      invariant i <= |path| && AddressableFrom(s, path, items, i) == Addressable(s, path, items)
      decreases |path| - i
    {
      if path[i].ElementStep? {
        for n := 0 to |items|
          invariant forall m :: 0 <= m < n ==> !IsGroup(GetAt(s, "", items[m], path[..i + 1]))
        {
          if IsGroup(GetAt(s, "", items[n], path[..i + 1])) {
            return path[..i + 1];
          }
        }
      }
      i := i + 1;
    }
    return path;
  }

  method FindView(s: Schema, now: Snapshot, base: Snapshot, c: Standing) returns (r: Option<Open>)
    ensures r == View(s, now, base, c)
  {
    var item, theirs, path := Lookup(now, c.ref), c.theirs, c.path;
    if !c.pinned {
      path := FindAddressable(s, c.path, [item, Lookup(base, c.ref)]);
    }
    for i := 0 to |path|
      invariant forall j :: 0 <= j < i ==> !GetAt(s, "", item, path[..j]).Missing?
    {
      if GetAt(s, "", item, path[..i]).Missing? {
        return None;
      }
    }
    var mine := GetAt(s, "", item, path);
    if !c.pinned {
      theirs := GetAt(s, "", Lookup(base, c.ref), path);
    }
    if SameAt(s, path, mine, theirs) {
      return None;
    }
    return Some(Open(c.(path := path), mine, theirs));
  }

  // --- a choice ---

  /** c is on outer's value or one under it. */
  predicate On(c: Standing, outer: Standing) {
    c.ref == outer.ref && Within(c.path, outer.path)
  }

  /** The conflict of id as it stands; the last, were there several. */
  function Chosen(s: Schema, now: Snapshot, base: Snapshot, cs: seq<Standing>, id: string): Option<Open> {
    if cs == [] then None
    else
      var last := cs[|cs|-1];
      if last.id == id then View(s, now, base, last) else Chosen(s, now, base, cs[..|cs|-1], id)
  }

  /** The choice of chosen, of id, decides c. */
  predicate Decides(chosen: Standing, id: string, c: Standing) {
    c.id == id || (On(c, chosen) && |c.path| > |chosen.path| && c.source == chosen.source)
  }

  /** The conflicts a choice leaves: open, and not decided by it. */
  function Left(
    s: Schema, now: Snapshot, base: Snapshot, cs: seq<Standing>, chosen: Standing, id: string): seq<Standing>
  {
    if cs == [] then []
    else
      var last := cs[|cs|-1];
      Left(s, now, base, cs[..|cs|-1], chosen, id)
      + (if !Decides(chosen, id, last) && View(s, now, base, last).Some? then [last] else [])
  }

  datatype Resolution = NotOpen | Unplaceable | Resolved(now: Snapshot, left: seq<Standing>)

  /** A pinned path through what is now a group names none of its elements. */
  predicate Unplaced(s: Schema, now: Snapshot, chosen: Standing) {
    chosen.pinned && |Addressable(s, chosen.path, [Lookup(now, chosen.ref)])| < |chosen.path|
  }

  /** after is now with the other side's value taken. */
  ghost predicate Took(s: Schema, now: Snapshot, after: Snapshot, chosen: Open) {
    forall ref :: Lookup(after, ref) ==
      if ref == chosen.conflict.ref then Kept(SetAt(s, "", Lookup(now, ref), chosen.conflict.path, chosen.theirs))
      else Lookup(now, ref)
  }

  /** Resolves conflict id: theirs takes the other side's value, else the
      workspace's is kept. */
  method Resolve(s: Schema, now: Snapshot, base: Snapshot, cs: seq<Standing>, id: string, theirs: bool)
    returns (r: Resolution)
    requires Proper(now)
    ensures var chosen := Chosen(s, now, base, cs, id);
            && (r.NotOpen? <==> chosen.None?)
            && (r.Unplaceable? <==> chosen.Some? && theirs && Unplaced(s, now, chosen.value.conflict))
            && (r.Resolved? ==>
                  && Proper(r.now) && (if theirs then Took(s, now, r.now, chosen.value) else r.now == now)
                  && r.left == Left(s, r.now, base, cs, chosen.value.conflict, id))
  {
    var chosen := FindChosen(s, now, base, cs, id);
    if chosen.None? {
      return NotOpen;
    }
    var c, after := chosen.value.conflict, now;
    if theirs {
      if c.pinned {
        var named := FindAddressable(s, c.path, [Lookup(now, c.ref)]);
        if |named| < |c.path| {
          return Unplaceable;
        }
      }
      var item := SetAt(s, "", Lookup(now, c.ref), c.path, chosen.value.theirs);
      after := Replay.Apply(now, map[c.ref := item], [c.ref]);
    }
    var left := FindLeft(s, after, base, cs, c, id);
    return Resolved(after, left);
  }

  method FindChosen(s: Schema, now: Snapshot, base: Snapshot, cs: seq<Standing>, id: string) returns (r: Option<Open>)
    ensures r == Chosen(s, now, base, cs, id)
  {
    hide View;
    r := None;
    for i := 0 to |cs|
      invariant r == Chosen(s, now, base, cs[..i], id)
    {
      assert cs[..i + 1][..i] == cs[..i];
      if cs[i].id == id {
        r := FindView(s, now, base, cs[i]);
      }
    }
    assert cs[..|cs|] == cs;
  }

  method FindLeft(s: Schema, now: Snapshot, base: Snapshot, cs: seq<Standing>, chosen: Standing, id: string)
    returns (left: seq<Standing>)
    ensures left == Left(s, now, base, cs, chosen, id)
  {
    hide View, Decides;
    left := [];
    for i := 0 to |cs|
      invariant left == Left(s, now, base, cs[..i], chosen, id)
    {
      assert cs[..i + 1][..i] == cs[..i];
      var open := FindView(s, now, base, cs[i]);
      if !Decides(chosen, id, cs[i]) && open.Some? {
        left := left + [cs[i]];
      }
    }
    assert cs[..|cs|] == cs;
  }

  // --- what a choice does ---

  /** The conflicts left are exactly those still open that it does not decide. */
  lemma {:induction false} LeftAreOpen(
    s: Schema, now: Snapshot, base: Snapshot, cs: seq<Standing>, chosen: Standing, id: string, c: Standing)
    ensures c in Left(s, now, base, cs, chosen, id) <==>
            c in cs && !Decides(chosen, id, c) && View(s, now, base, c).Some?
  {
    hide View, Decides;
    if cs != [] {
      LeftAreOpen(s, now, base, cs[..|cs|-1], chosen, id, c);
      assert cs == cs[..|cs|-1] + [cs[|cs|-1]];
    }
  }

  lemma {:induction false} ChosenIsOpen(s: Schema, now: Snapshot, base: Snapshot, cs: seq<Standing>, id: string)
    returns (c: Standing)
    requires Chosen(s, now, base, cs, id).Some?
    ensures c in cs && c.id == id && View(s, now, base, c) == Chosen(s, now, base, cs, id)
  {
    var last := cs[|cs|-1];
    if last.id == id {
      c := last;
    } else {
      c := ChosenIsOpen(s, now, base, cs[..|cs|-1], id);
    }
  }

  /** What a path holds is what it may hold. */
  lemma {:induction false} HeldSuits(s: Schema, p: string, v: Json, path: Path)
    ensures Suits(s, p, path, GetAt(s, p, v, path))
    decreases path
  {
    if path != [] {
      GetAtStep(s, p, v, path);
      if |path| == 1 {
        assert path[1..] == [];
        if path[0].ElementStep? && IsKeyed(s, p, v) {
          ElementHolds(s, p, v, path[0].key);
        }
      } else {
        HeldSuits(s, StepPattern(p, path[0]), Child(s, p, v, path[0]), path[1..]);
      }
    }
  }

  /** As the merge names values: a list element is stepped out of by a property,
      and not the one that keys it. */
  predicate Tidy(s: Schema, p: string, path: Path)
    decreases path
  {
    |path| <= 1 ||
    ((path[0].ElementStep? ==> path[1].FieldStep? && !Keys(s, p, path[1].key)) &&
     Tidy(s, StepPattern(p, path[0]), path[1..]))
  }

  /** The way to a value whose holders are there, none of them a group, is
      steady. */
  lemma {:induction false} SteadyWhen(s: Schema, p: string, v: Json, path: Path)
    requires Tidy(s, p, path)
    requires forall i :: 0 <= i < |path| ==> !GetAt(s, p, v, path[..i]).Missing?
    requires forall i :: 0 <= i && i + 1 < |path| && path[i].ElementStep? ==> !IsGroup(GetAt(s, p, v, path[..i + 1]))
    ensures Steady(s, p, v, path)
    decreases path
  {
    if |path| > 1 {
      var child, tail := Child(s, p, v, path[0]), path[1..];
      forall i | 0 <= i < |tail|
        ensures GetAt(s, p, v, path[..i + 1]) == GetAt(s, StepPattern(p, path[0]), child, tail[..i])
      {
        GetAtStep(s, p, v, path[..i + 1]);
        assert path[..i + 1][1..] == tail[..i];
      }
      assert GetAt(s, p, v, path[..1]) == child by {
        assert tail[..0] == [];
      }
      if path[0].ElementStep? {
        ElementHolds(s, p, v, path[0].key);
      }
      forall i | 0 <= i && i + 1 < |tail| && tail[i].ElementStep?
        ensures !IsGroup(GetAt(s, StepPattern(p, path[0]), child, tail[..i + 1]))
      {
        assert path[i + 1] == tail[i];
      }
      SteadyWhen(s, StepPattern(p, path[0]), child, tail);
    }
  }

  lemma {:induction false} TidyPrefix(s: Schema, p: string, path: Path, n: nat)
    requires Tidy(s, p, path) && n <= |path|
    ensures Tidy(s, p, path[..n])
    decreases path
  {
    if n > 1 {
      TidyPrefix(s, StepPattern(p, path[0]), path[1..], n - 1);
      assert path[..n][1..] == path[1..][..n - 1];
    }
  }

  /** The way of an open conflict that can be placed is steady. */
  lemma OpenSteady(s: Schema, now: Snapshot, base: Snapshot, c: Standing)
    requires View(s, now, base, c).Some? && Tidy(s, "", c.path)
    requires !Unplaced(s, now, View(s, now, base, c).value.conflict)
    ensures var open := View(s, now, base, c).value;
            Steady(s, "", Lookup(now, c.ref), open.conflict.path)
  {
    hide GetAt, SameAt, Tidy, Grouped, AddressableFrom, Steady;
    var item, theirs, path := Lookup(now, c.ref), Lookup(base, c.ref), View(s, now, base, c).value.conflict.path;
    assert path == c.path[..|path|];
    forall i | 0 <= i && i + 1 < |path| && path[i].ElementStep? ensures !IsGroup(GetAt(s, "", item, path[..i + 1])) {
      if c.pinned {
        NoneGrouped(s, path, [item], 0, i);
        NotGrouped(s, path, [item], i, 0);
      } else {
        NoneGrouped(s, c.path, [item, theirs], 0, i);
        NotGrouped(s, c.path, [item, theirs], i, 0);
        assert path[..i + 1] == c.path[..i + 1] && path[i] == c.path[i];
      }
    }
    TidyPrefix(s, "", c.path, |path|);
    SteadyWhen(s, "", item, path);
  }

  lemma NotGrouped(s: Schema, path: Path, items: seq<Json>, i: nat, n: nat)
    requires i < |path| && n < |items| && !Grouped(s, path, items, i) && path[i].ElementStep?
    ensures !IsGroup(GetAt(s, "", items[n], path[..i + 1]))
  {
  }

  /** Taking theirs makes the path mean the other side's value, unless the value
      is of a list that has elements without a key; every path apart holds what it
      held, unless what holds the value is of another kind by now. */
  lemma TheirsTaken(s: Schema, now: Snapshot, base: Snapshot, c: Standing, after: Snapshot, q: Path)
    requires View(s, now, base, c).Some?
    requires var open := View(s, now, base, c).value;
             && Took(s, now, after, open) && !Unplaced(s, now, open.conflict) && Tidy(s, "", c.path)
             && (c.pinned ==> Suits(s, "", open.conflict.path, c.theirs))
    ensures var open := View(s, now, base, c).value;
            var path, was, item := open.conflict.path, Lookup(now, c.ref), Lookup(after, c.ref);
            && (Takes(s, "", was, path) ==> SameAt(s, path, GetAt(s, "", item, path), open.theirs))
            && (path != [] && SparesLast(s, "", was, path) && Apart(q, path) ==>
               GetAt(s, "", item, q) == GetAt(s, "", was, q))
    ensures forall ref :: ref != c.ref ==> Lookup(after, ref) == Lookup(now, ref)
  {
    hide GetAt, SetAt, Suits, Steady, Tidy, Takes, SparesLast, Unplaced, Apart;
    var open := View(s, now, base, c).value;
    var path, was := open.conflict.path, Lookup(now, c.ref);
    OpenSteady(s, now, base, c);
    HeldSuits(s, "", Lookup(base, c.ref), path);
    SetThenGet(s, "", was, path, open.theirs);
    KeptMeans(s, "", was, path, open.theirs);
    if SparesLast(s, "", was, path) && Apart(q, path) {
      SetKeepsApart(s, "", was, path, open.theirs, q);
    }
  }

  /** An item is kept as it is, but for null, which is none. */
  lemma KeptMeans(s: Schema, p: string, root: Json, path: Path, value: Json)
    ensures var r := SetAt(s, p, root, path, value);
            if path == [] then SameAt(s, [], GetAt(s, p, Kept(r), path), value) else Kept(r) == r
  {
  }

  // --- the merge names values so ---

  /** A value under an element of the list at p, of key k: none, or one with it. */
  predicate OfElement(s: Schema, p: string, k: string, v: Json) {
    v.Missing? || Keyed(s, p, k, v)
  }

  /** The path ends in an element the sides have, or not. */
  predicate SidesKeyed(s: Schema, local: Json, next: Json, path: Path) {
    path != [] && path[|path|-1].ElementStep? ==>
      var p, k := Pattern(path[..|path|-1]), path[|path|-1].key; OfElement(s, p, k, local) && OfElement(s, p, k, next)
  }

  /** The rest of a conflict's path goes on tidily from path. */
  predicate GoesOn(s: Schema, path: Path, rest: Path) {
    && Tidy(s, Pattern(path), rest)
    && (rest != [] && path != [] && path[|path|-1].ElementStep? ==>
          rest[0].FieldStep? && !Keys(s, Pattern(path[..|path|-1]), rest[0].key))
  }

  lemma TidyStep(s: Schema, path: Path, step: Step, rest: Path)
    requires GoesOn(s, path + [step], rest)
    ensures Tidy(s, Pattern(path), [step] + rest)
  {
    PatternSnoc(path, step);
    assert (path + [step])[..|path|] == path && (path + [step])[|path|] == step;
    assert ([step] + rest)[1..] == rest;
  }

  /** The field that keys an element is the same on both sides: no conflict. */
  lemma KeyNoConflict(s: Schema, base: Json, local: Json, next: Json, path: Path, k: string)
    requires MergesObjects(base, local, next) && path != [] && path[|path|-1].ElementStep? &&
             SidesKeyed(s, local, next, path)
    requires Keys(s, Pattern(path[..|path|-1]), k)
    ensures MergeField(s, base, local, next, path, k).conflicts == {}
  {
  }

  lemma {:induction false} ConflictsGoOn(s: Schema, base: Json, local: Json, next: Json, path: Path, c: Conflict)
    requires SidesKeyed(s, local, next, path) && c in Merge(s, base, local, next, path).conflicts
    ensures Within(c.path, path) && GoesOn(s, path, c.path[|path|..])
    decreases !local.Missing?, local, 2
  {
    hide Tidy, Keys, SidesKeyed, Merge, GoesOn, Part, InParts;
    ConflictsWithin(s, base, local, next, path, c);
    if InParts(s, base, local, next, path) {
      var step := PartConflict(s, base, local, next, path, c);
      PartsPresent(s, base, local, next, path);
      PartGoesOn(s, base, local, next, path, step, c);
      WithinChild(c.path, path, step);
      assert c.path[|path|..] == [step] + c.path[|path + [step]|..];
      TidyStep(s, path, step, c.path[|path + [step]|..]);
      StepGoesOn(s, base, local, next, path, step, c, c.path[|path|..]);
    } else {
      MergeWhole(s, base, local, next, path);
      assert c.path == path;
      assert c.path[|path|..] == [];
      NothingOn(s, path);
    }
  }

  lemma PartsPresent(s: Schema, base: Json, local: Json, next: Json, path: Path)
    requires InParts(s, base, local, next, path)
    ensures !local.Missing?
  {
  }

  lemma NothingOn(s: Schema, path: Path)
    ensures GoesOn(s, path, [])
  {
  }

  /** An element's part with a conflict is a property, not the one that keys it. */
  lemma StepGoesOn(s: Schema, base: Json, local: Json, next: Json, path: Path, step: Step, c: Conflict, rest: Path)
    requires InParts(s, base, local, next, path) && c in Part(s, base, local, next, path, step).conflicts
    requires SidesKeyed(s, local, next, path) && (MergesObjects(base, local, next) <==> step.FieldStep?)
    requires rest != [] && rest[0] == step && Tidy(s, Pattern(path), rest)
    ensures GoesOn(s, path, rest)
  {
    hide Tidy, Keys, Merge, SameAt;
    if path != [] && path[|path|-1].ElementStep? {
      assert !MergesLists(s, base, local, next, path);
      if Keys(s, Pattern(path[..|path|-1]), step.key) {
        KeyNoConflict(s, base, local, next, path, step.key);
      }
    }
  }

  lemma {:induction false} PartGoesOn(
    s: Schema, base: Json, local: Json, next: Json, path: Path, step: Step, c: Conflict)
    requires InParts(s, base, local, next, path) && c in Part(s, base, local, next, path, step).conflicts
    ensures Within(c.path, path + [step]) && GoesOn(s, path + [step], c.path[|path + [step]|..])
    decreases true, local, 1
  {
    hide Tidy, Keys, GoesOn, AllKeyed;
    var p, k, at := Pattern(path), step.key, path + [step];
    assert at[..|at|-1] == path && at[|at|-1] == step;
    if MergesObjects(base, local, next) {
      ConflictsGoOn(s, Get(BaseObject(base, local, next).fields, k), Get(local.fields, k), Get(next.fields, k), at, c);
    } else {
      var be, le, ne := Element(s, p, BaseList(base), k), Element(s, p, local, k), Element(s, p, next, k);
      ElementMember(s, p, local, k);
      if IsGroup(be) || IsGroup(le) || IsGroup(ne) {
        assert c.path == at && c.path[|at|..] == [];
        NothingOn(s, at);
      } else {
        ElementHolds(s, p, local, k);
        ElementHolds(s, p, next, k);
        ConflictsGoOn(s, be, le, ne, at, c);
      }
    }
  }

  /** The conflicts a replay finds are at tidy paths, and what the other side has
      there suits them. */
  lemma FoundTidy(s: Schema, base: Json, local: Json, next: Json, c: Conflict)
    requires c in Merge(s, base, local, next, []).conflicts
    ensures Tidy(s, "", c.path) && Suits(s, "", c.path, c.theirs)
  {
    ConflictsGoOn(s, base, local, next, [], c);
    assert c.path[0..] == c.path;
    ConflictsReal(s, base, local, next, [], c);
    HeldSuits(s, "", next, c.path);
  }

  // --- carrying conflicts over ---

  function Sourced(c: Standing, source: Option<Source>): Standing {
    if !c.pinned && source.Some? then c.(source := source.value) else c
  }

  predicate OnAny(c: Standing, outers: seq<Standing>) {
    exists i :: 0 <= i < |outers| && On(c, outers[i])
  }

  /** The pending conflicts still open that no new one replaces, as they stand. */
  function Carried(
    s: Schema, now: Snapshot, base: Snapshot, pending: seq<Standing>, found: seq<Standing>, source: Option<Source>)
    : seq<Standing>
  {
    if pending == [] then []
    else
      var last := pending[|pending|-1];
      var open := View(s, now, base, Sourced(last, source));
      Carried(s, now, base, pending[..|pending|-1], found, source)
      + (if !OnAny(last, found) && open.Some? then [open.value.conflict] else [])
  }

  /** The conflicts of found on or under none of outers. */
  function NotOn(found: seq<Standing>, outers: seq<Standing>): seq<Standing> {
    if found == [] then []
    else NotOn(found[..|found|-1], outers) + (if OnAny(found[|found|-1], outers) then [] else [found[|found|-1]])
  }

  method FindOnAny(c: Standing, outers: seq<Standing>) returns (r: bool)
    ensures r == OnAny(c, outers)
  {
    r := false;
    for i := 0 to |outers|
      invariant r == exists j :: 0 <= j < i && On(c, outers[j])
    {
      r := r || On(c, outers[i]);
    }
  }

  method Carry(
    s: Schema, pending: seq<Standing>, found: seq<Standing>, now: Snapshot, base: Snapshot, source: Option<Source>)
    returns (out: seq<Standing>)
    ensures var carried := Carried(s, now, base, pending, found, source); out == carried + NotOn(found, carried)
  {
    hide View, OnAny;
    var carried: seq<Standing> := [];
    for i := 0 to |pending|
      invariant carried == Carried(s, now, base, pending[..i], found, source)
    {
      assert pending[..i + 1][..i] == pending[..i];
      var p := pending[i];
      var replaced := FindOnAny(p, found);
      if !p.pinned && source.Some? {
        p := p.(source := source.value);
      }
      var open := FindView(s, now, base, p);
      if !replaced && open.Some? {
        carried := carried + [open.value.conflict];
      }
    }
    assert pending[..|pending|] == pending;
    out := carried;
    for i := 0 to |found|
      invariant out == carried + NotOn(found[..i], carried)
    {
      assert found[..i + 1][..i] == found[..i];
      var under := FindOnAny(found[i], carried);
      if !under {
        out := out + [found[i]];
      }
    }
    assert found[..|found|] == found;
  }

  lemma {:induction false} NotOnMembers(found: seq<Standing>, outers: seq<Standing>, c: Standing)
    ensures c in NotOn(found, outers) <==> c in found && !OnAny(c, outers)
  {
    hide OnAny;
    if found != [] {
      NotOnMembers(found[..|found|-1], outers, c);
      assert found == found[..|found|-1] + [found[|found|-1]];
    }
  }

  lemma {:induction false} CarriedMembers(
    s: Schema, now: Snapshot, base: Snapshot, pending: seq<Standing>, found: seq<Standing>, source: Option<Source>,
    c: Standing)
    ensures c in Carried(s, now, base, pending, found, source) <==>
            exists p :: p in pending && !OnAny(p, found) && StandsAs(s, now, base, Sourced(p, source), c)
  {
    hide View, OnAny, Sourced;
    if pending != [] {
      var front, last := pending[..|pending|-1], pending[|pending|-1];
      CarriedMembers(s, now, base, front, found, source, c);
      assert pending == front + [last];
    }
  }

  /** p is open, as c. */
  predicate StandsAs(s: Schema, now: Snapshot, base: Snapshot, p: Standing, c: Standing) {
    var open := View(s, now, base, p); open.Some? && open.value.conflict == c
  }

  /** No conflict is lost: a new one is kept, or left to the pending one it is on
      or under; a pending one is kept as it stands, unless it is settled or a new
      one is on or above it. And none is there twice over: a new one kept is on or
      under no pending one kept. */
  lemma CarryKeeps(
    s: Schema, now: Snapshot, base: Snapshot, pending: seq<Standing>, found: seq<Standing>, source: Option<Source>,
    c: Standing)
    ensures var carried := Carried(s, now, base, pending, found, source);
            var out := carried + NotOn(found, carried);
            && (c in found ==> c in out || OnAny(c, carried))
            && (c in pending && !OnAny(c, found) && View(s, now, base, Sourced(c, source)).Some? ==>
                  View(s, now, base, Sourced(c, source)).value.conflict in out)
            && (c in out ==> c in carried || (c in found && !OnAny(c, carried)))
  {
    var carried := Carried(s, now, base, pending, found, source);
    NotOnMembers(found, carried, c);
    if c in pending && !OnAny(c, found) && View(s, now, base, Sourced(c, source)).Some? {
      var d := View(s, now, base, Sourced(c, source)).value.conflict;
      assert StandsAs(s, now, base, Sourced(c, source), d);
      CarriedMembers(s, now, base, pending, found, source, d);
    }
  }
}
