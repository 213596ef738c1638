/** The three-way merge of a value: objects key by key, keyed lists element by
    element, groups of elements sharing a key as a whole. */
module Merging {
  import opened Values

  /** mine is the local value, kept; theirs the other side's. */
  datatype Conflict = Conflict(path: Path, mine: Json, theirs: Json)

  datatype Merged = Merged(value: Json, conflicts: set<Conflict>)

  predicate IsGroup(v: Json) {
    v.Arr?
  }

  /** A value merged as a whole: either side's change, or a conflict. */
  function Whole(s: Schema, base: Json, local: Json, next: Json, path: Path): Merged {
    if SameAt(s, path, local, base) then Merged(next, {})
    else if SameAt(s, path, next, base) || SameAt(s, path, next, local) then Merged(local, {})
    else Merged(local, {Conflict(path, local, next)})
  }

  /** Added on both sides, objects merge as from an empty one. */
  function BaseObject(base: Json, local: Json, next: Json): Json {
    if base.Missing? && local.Obj? && next.Obj? then Obj(map[]) else base
  }

  function BaseList(base: Json): Json {
    if base.Missing? then Arr([]) else base
  }

  predicate MergesObjects(base: Json, local: Json, next: Json) {
    BaseObject(base, local, next).Obj? && local.Obj? && next.Obj?
  }

  predicate MergesLists(s: Schema, base: Json, local: Json, next: Json, path: Path) {
    var p := Pattern(path);
    IsKeyed(s, p, BaseList(base)) && IsKeyed(s, p, local) && IsKeyed(s, p, next)
  }

  lemma {:induction false} WithKeyMember(s: Schema, p: string, k: string, xs: seq<Json>, x: Json)
    requires x in WithKey(s, p, k, xs)
    ensures x in xs && Keyed(s, p, k, x)
  {
    if x in WithKey(s, p, k, xs[1..]) {
      WithKeyMember(s, p, k, xs[1..], x);
    }
  }

  /** An element that is no group is one of the list's, or none. */
  lemma ElementMember(s: Schema, p: string, v: Json, k: string)
    requires v.Arr?
    ensures var e := Element(s, p, v, k);
            !IsGroup(e) && !e.Missing? ==> exists i :: 0 <= i < |v.items| && v.items[i] == e
  {
    var xs := WithKey(s, p, k, v.items);
    if |xs| == 1 {
      WithKeyMember(s, p, k, v.items, xs[0]);
    }
  }

  function Merge(s: Schema, base: Json, local: Json, next: Json, path: Path): Merged
    decreases !local.Missing?, local, 2
  {
    if SameAt(s, path, local, base) then Merged(next, {})
    else if SameAt(s, path, next, base) || SameAt(s, path, next, local) then Merged(local, {})
    else if MergesObjects(base, local, next) then
      var keys := local.fields.Keys + next.fields.Keys + BaseObject(base, local, next).fields.Keys;
      Merged(Obj(map k | k in keys && !MergeField(s, base, local, next, path, k).value.Missing? ::
                     MergeField(s, base, local, next, path, k).value),
             set k, c | k in keys && c in MergeField(s, base, local, next, path, k).conflicts :: c)
    else if MergesLists(s, base, local, next, path) then
      var order := MergedOrder(s, local, next, path);
      Merged(Arr(MergeElements(s, base, local, next, path, order)),
             set k, c | k in order && c in MergeElement(s, base, local, next, path, k).conflicts :: c)
    else Merged(local, {Conflict(path, local, next)})
  }

  function MergeField(s: Schema, base: Json, local: Json, next: Json, path: Path, k: string): Merged
    requires MergesObjects(base, local, next)
    decreases true, local, 1
  {
    Merge(s, Get(BaseObject(base, local, next).fields, k), Get(local.fields, k), Get(next.fields, k),
        path + [FieldStep(k)])
  }

  /** Local order, then what only next added. */
  function MergedOrder(s: Schema, local: Json, next: Json, path: Path): seq<string>
    requires IsKeyed(s, Pattern(path), local) && IsKeyed(s, Pattern(path), next)
  {
    var mine := Order(s, Pattern(path), local.items);
    mine + NotIn(mine, Order(s, Pattern(path), next.items))
  }

  function NotIn(mine: seq<string>, ks: seq<string>): (rs: seq<string>)
    ensures forall k :: k in rs <==> k in ks && k !in mine
  {
    if ks == [] then [] else (if ks[0] in mine then [] else [ks[0]]) + NotIn(mine, ks[1..])
  }

  function MergeElement(s: Schema, base: Json, local: Json, next: Json, path: Path, k: string): Merged
    requires MergesLists(s, base, local, next, path)
    decreases true, local, 1
  {
    var p := Pattern(path);
    var be, le, ne := Element(s, p, BaseList(base), k), Element(s, p, local, k), Element(s, p, next, k);
    ElementMember(s, p, local, k);
    if IsGroup(be) || IsGroup(le) || IsGroup(ne) then Whole(s, be, le, ne, path + [ElementStep(k)])
    else Merge(s, be, le, ne, path + [ElementStep(k)])
  }

  function MergeElements(s: Schema, base: Json, local: Json, next: Json, path: Path, order: seq<string>): seq<Json>
    requires MergesLists(s, base, local, next, path)
    decreases true, local, 2, order
  {
    if order == [] then []
    else
      Unpack(MergeElement(s, base, local, next, path, order[0]).value)
      + MergeElements(s, base, local, next, path, order[1..])
  }
}
