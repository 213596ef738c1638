/** Configuration items as decoded JSON, with paths into them: object
    properties, and elements of keyed lists. Some values mean unset when they
    are zero; elements sharing a key are one group. */
module Values {

  /** Missing is a value that is not there, which Null is not. */
  datatype Json =
    | Missing
    | Null
    | Bool(b: bool)
    | Num(n: real)
    | Str(s: string)
    | Obj(fields: map<string, Json>)
    | Arr(items: seq<Json>)

  datatype Step = FieldStep(key: string) | ElementStep(key: string)

  type Path = seq<Step>

  /** lists: the keyed lists, by the pattern of their elements, with the
      property keying them; unset: the patterns whose zero means unset. */
  datatype Schema = Schema(lists: map<string, string>, unset: set<string>)

  function FieldPattern(p: string, k: string): string {
    if p == "" then k else p + "." + k
  }

  function ElementPattern(p: string): string {
    p + "[]"
  }

  function StepPattern(p: string, step: Step): string {
    match step
    case FieldStep(k) => FieldPattern(p, k)
    case ElementStep(_) => ElementPattern(p)
  }

  /** The path without its element keys, the form schema rules are written in. */
  function Pattern(path: Path): string {
    if path == [] then "" else StepPattern(Pattern(path[..|path|-1]), path[|path|-1])
  }

  lemma PatternSnoc(path: Path, step: Step)
    ensures Pattern(path + [step]) == StepPattern(Pattern(path), step)
  {
    assert (path + [step])[..|path|] == path;
  }

  /** A list's key is never unset, and no list of lists is keyed. */
  predicate WellFormed(s: Schema) {
    forall p :: p in s.lists ==> FieldPattern(p, s.lists[p]) !in s.unset && ElementPattern(p) !in s.lists
  }

  function Get(m: map<string, Json>, k: string): Json {
    if k in m then m[k] else Missing
  }

  // --- normal forms ---

  predicate Zero(v: Json) {
    v == Str("") || v == Bool(false) || v == Null
  }

  /** v at pattern p without its unset values; an unset list element is written
      as an empty object. */
  function Normal(s: Schema, p: string, v: Json): Json
    decreases v
  {
    if p in s.unset && Zero(v) then Missing
    else
      match v
      case Obj(m) =>
        Obj(map k | k in m && !Normal(s, FieldPattern(p, k), m[k]).Missing? :: Normal(s, FieldPattern(p, k), m[k]))
      case Arr(xs) => Arr(seq(|xs|, i requires 0 <= i < |xs| => Written(Normal(s, ElementPattern(p), xs[i]))))
      case _ => v
  }

  function Written(v: Json): Json {
    if v.Missing? then Obj(map[]) else v
  }

  /** The canonical form of v at p: nothing is written as null. */
  function Canon(s: Schema, p: string, v: Json): Json {
    if Normal(s, p, v).Missing? then Null else Normal(s, p, v)
  }

  /** That of an element of the list at p, or of a group of them. */
  function CanonElement(s: Schema, p: string, v: Json): Json {
    if v.Arr? then Canon(s, p, v) else Canon(s, ElementPattern(p), v)
  }

  /** Whether a and b mean the same at path. */
  predicate SameAt(s: Schema, path: Path, a: Json, b: Json) {
    if path != [] && path[|path|-1].ElementStep? then
      CanonElement(s, Pattern(path[..|path|-1]), a) == CanonElement(s, Pattern(path[..|path|-1]), b)
    else Canon(s, Pattern(path), a) == Canon(s, Pattern(path), b)
  }

  /** One more field makes an object mean something else, unless it is unset: of
      a pattern whose zero means that, and null, false or empty. */
  lemma ExtraField(s: Schema, path: Path, m: map<string, Json>, k: string, v: Json)
    requires k !in m
    ensures SameAt(s, path, Obj(m[k := v]), Obj(m)) <==>
            v == Missing || (FieldPattern(Pattern(path), k) in s.unset && v in {Null, Bool(false), Str("")})
  {
    var p := Pattern(path);
    var more, less := Normal(s, p, Obj(m[k := v])), Normal(s, p, Obj(m));
    assert forall j :: j in less.fields ==> j in more.fields && more.fields[j] == less.fields[j];
    assert forall j :: j in more.fields && j != k ==> j in less.fields;
    assert k !in less.fields;
    assert k in more.fields <==> !Normal(s, FieldPattern(p, k), v).Missing?;
    assert more == less <==> k !in more.fields;
  }

  // --- keyed lists ---

  /** Whether el, an element of the list at p, has a key. */
  predicate HasKey(s: Schema, p: string, el: Json) {
    ElementPattern(p) in s.lists && el.Obj? && Get(el.fields, s.lists[ElementPattern(p)]).Str?
  }

  function KeyOf(s: Schema, p: string, el: Json): string
    requires HasKey(s, p, el)
  {
    el.fields[s.lists[ElementPattern(p)]].s
  }

  predicate AllKeyed(s: Schema, p: string, xs: seq<Json>) {
    xs == [] || (HasKey(s, p, xs[0]) && AllKeyed(s, p, xs[1..]))
  }

  predicate IsKeyed(s: Schema, p: string, v: Json) {
    v.Arr? && AllKeyed(s, p, v.items)
  }

  predicate Keyed(s: Schema, p: string, k: string, el: Json) {
    HasKey(s, p, el) && KeyOf(s, p, el) == k
  }

  /** The elements with key k. */
  function WithKey(s: Schema, p: string, k: string, xs: seq<Json>): seq<Json> {
    if xs == [] then []
    else (if Keyed(s, p, k, xs[0]) then [xs[0]] else []) + WithKey(s, p, k, xs[1..])
  }

  /** One element as itself, several as their group. */
  function Pack(xs: seq<Json>): Json {
    if xs == [] then Missing else if |xs| == 1 then xs[0] else Arr(xs)
  }

  function Unpack(v: Json): seq<Json> {
    match v
    case Missing => []
    case Arr(xs) => xs
    case _ => [v]
  }

  /** What the list v at p holds under k. */
  function Element(s: Schema, p: string, v: Json, k: string): Json
    requires v.Arr?
  {
    Pack(WithKey(s, p, k, v.items))
  }

  /** The keys of xs, in order of first appearance. */
  function Order(s: Schema, p: string, xs: seq<Json>): seq<string>
    requires AllKeyed(s, p, xs)
  {
    if xs == [] then []
    else
      var k := KeyOf(s, p, xs[0]);
      [k] + Without(k, Order(s, p, xs[1..]))
  }

  function Without(k: string, ks: seq<string>): (rs: seq<string>)
    ensures forall j :: j in rs <==> j in ks && j != k
  {
    if ks == [] then [] else (if ks[0] == k then [] else [ks[0]]) + Without(k, ks[1..])
  }

  // --- lenses ---

  /** The value under path of v, at pattern p; Missing when there is none. */
  function GetAt(s: Schema, p: string, v: Json, path: Path): Json
    decreases path
  {
    if path == [] then v
    else
      match path[0]
      case FieldStep(k) => if v.Obj? then GetAt(s, FieldPattern(p, k), Get(v.fields, k), path[1..]) else Missing
      case ElementStep(k) => if IsKeyed(s, p, v) then GetAt(s, ElementPattern(p), Element(s, p, v, k), path[1..])
          else Missing
  }

  function Child(s: Schema, p: string, v: Json, step: Step): Json {
    match step
    case FieldStep(k) => if v.Obj? then Get(v.fields, k) else Missing
    case ElementStep(k) => if IsKeyed(s, p, v) then Element(s, p, v, k) else Missing
  }

  lemma {:induction false} GetNothing(s: Schema, p: string, path: Path)
    ensures GetAt(s, p, Missing, path) == Missing
  {
  }

  lemma GetAtStep(s: Schema, p: string, v: Json, path: Path)
    requires path != []
    ensures GetAt(s, p, v, path) == GetAt(s, StepPattern(p, path[0]), Child(s, p, v, path[0]), path[1..])
  {
    GetNothing(s, StepPattern(p, path[0]), path[1..]);
  }

  // --- the same above, the same below ---

  lemma {:induction false} SameKeyed(s: Schema, p: string, xs: seq<Json>, ys: seq<Json>)
    requires WellFormed(s) && |xs| == |ys|
    requires forall i :: 0 <= i < |xs| ==>
      Written(Normal(s, ElementPattern(p), xs[i])) == Written(Normal(s, ElementPattern(p), ys[i]))
    ensures AllKeyed(s, p, xs) <==> AllKeyed(s, p, ys)
  {
    if xs != [] {
      SameKey(s, p, xs[0], ys[0]);
      SameKeyed(s, p, xs[1..], ys[1..]);
    }
  }

  /** What means the same has the same key, which is never unset. */
  lemma SameKey(s: Schema, p: string, x: Json, y: Json)
    requires WellFormed(s)
    requires Written(Normal(s, ElementPattern(p), x)) == Written(Normal(s, ElementPattern(p), y))
    ensures HasKey(s, p, x) <==> HasKey(s, p, y)
    ensures HasKey(s, p, x) ==> KeyOf(s, p, x) == KeyOf(s, p, y)
  {
    KeyNormal(s, p, x);
    KeyNormal(s, p, y);
  }

  lemma KeyNormal(s: Schema, p: string, x: Json)
    requires WellFormed(s)
    ensures var n := Written(Normal(s, ElementPattern(p), x));
            (HasKey(s, p, x) <==> HasKey(s, p, n)) && (HasKey(s, p, x) ==> KeyOf(s, p, n) == KeyOf(s, p, x))
  {
  }

  lemma {:induction false} SameWithKey(s: Schema, p: string, k: string, xs: seq<Json>, ys: seq<Json>)
    requires WellFormed(s) && |xs| == |ys|
    requires forall i :: 0 <= i < |xs| ==>
      Written(Normal(s, ElementPattern(p), xs[i])) == Written(Normal(s, ElementPattern(p), ys[i]))
    ensures var gs, hs := WithKey(s, p, k, xs), WithKey(s, p, k, ys);
            |gs| == |hs| && forall i :: 0 <= i < |gs| ==>
              Written(Normal(s, ElementPattern(p), gs[i])) == Written(Normal(s, ElementPattern(p), hs[i]))
  {
    if xs != [] {
      SameKey(s, p, xs[0], ys[0]);
      SameWithKey(s, p, k, xs[1..], ys[1..]);
    }
  }

  /** An element stepped into is of a keyed list. */
  predicate Placed(s: Schema, path: Path) {
    path != [] && path[|path|-1].ElementStep? ==> Pattern(path) in s.lists
  }

  lemma SameField(s: Schema, p: string, a: Json, b: Json, k: string)
    requires Canon(s, p, a) == Canon(s, p, b)
    ensures Canon(s, FieldPattern(p, k), Child(s, p, a, FieldStep(k))) ==
            Canon(s, FieldPattern(p, k), Child(s, p, b, FieldStep(k)))
  {
    if a.Obj? && b.Obj? {
      FieldNormal(s, p, a, k);
      FieldNormal(s, p, b, k);
    }
  }

  /** A field's canonical form is that of the object's normal form. */
  lemma FieldNormal(s: Schema, p: string, a: Json, k: string)
    requires a.Obj?
    ensures Normal(s, p, a).Obj?
    ensures Normal(s, FieldPattern(p, k), Get(a.fields, k)) == Get(Normal(s, p, a).fields, k)
  {
  }

  lemma SameItems(s: Schema, p: string, a: Json, b: Json)
    requires a.Arr? && b.Arr? && Canon(s, p, a) == Canon(s, p, b)
    ensures |a.items| == |b.items|
    ensures forall i :: 0 <= i < |a.items| ==>
      Written(Normal(s, ElementPattern(p), a.items[i])) == Written(Normal(s, ElementPattern(p), b.items[i]))
  {
    var m, n := Normal(s, p, a).items, Normal(s, p, b).items;
    forall i | 0 <= i < |a.items|
      ensures Written(Normal(s, ElementPattern(p), a.items[i])) == Written(Normal(s, ElementPattern(p), b.items[i]))
    {
      assert m[i] == n[i];
    }
  }

  lemma SameElement(s: Schema, p: string, a: Json, b: Json, k: string)
    requires WellFormed(s) && Canon(s, p, a) == Canon(s, p, b)
    ensures CanonElement(s, p, Child(s, p, a, ElementStep(k))) == CanonElement(s, p, Child(s, p, b, ElementStep(k)))
  {
    if a.Arr? && b.Arr? {
      SameItems(s, p, a, b);
      SameKeyed(s, p, a.items, b.items);
      if IsKeyed(s, p, a) {
        SameWithKey(s, p, k, a.items, b.items);
        WithKeyObjects(s, p, k, a.items);
        WithKeyObjects(s, p, k, b.items);
        SamePacked(s, p, WithKey(s, p, k, a.items), WithKey(s, p, k, b.items));
      }
    }
  }

  lemma {:induction false} WithKeyObjects(s: Schema, p: string, k: string, xs: seq<Json>)
    ensures forall i :: 0 <= i < |WithKey(s, p, k, xs)| ==> Keyed(s, p, k, WithKey(s, p, k, xs)[i])
  {
    if xs != [] {
      WithKeyObjects(s, p, k, xs[1..]);
    }
  }

  lemma SamePacked(s: Schema, p: string, xs: seq<Json>, ys: seq<Json>)
    requires |xs| == |ys| && (forall i :: 0 <= i < |xs| ==> xs[i].Obj? && ys[i].Obj?)
    requires forall i :: 0 <= i < |xs| ==>
      Written(Normal(s, ElementPattern(p), xs[i])) == Written(Normal(s, ElementPattern(p), ys[i]))
    ensures CanonElement(s, p, Pack(xs)) == CanonElement(s, p, Pack(ys))
  {
    if |xs| > 1 {
      assert Normal(s, p, Arr(xs)).items == Normal(s, p, Arr(ys)).items;
    }
  }

  /** What means the same, means the same one step further. */
  lemma SameChild(s: Schema, path: Path, a: Json, b: Json, step: Step)
    requires WellFormed(s) && Placed(s, path) && SameAt(s, path, a, b)
    ensures SameAt(s, path + [step], Child(s, Pattern(path), a, step), Child(s, Pattern(path), b, step))
  {
    var p := Pattern(path);
    PatternSnoc(path, step);
    assert (path + [step])[..|path|] == path;
    if path != [] && path[|path|-1].ElementStep? && (a.Arr? || b.Arr?) {
      GroupHasNoChild(s, path, a, step);
      GroupHasNoChild(s, path, b, step);
      assert a.Arr? && b.Arr?;
    } else {
      match step
      case FieldStep(k) => SameField(s, p, a, b, k);
      case ElementStep(k) => SameElement(s, p, a, b, k);
    }
  }

  lemma GroupHasNoChild(s: Schema, path: Path, a: Json, step: Step)
    requires WellFormed(s) && Placed(s, path) && path != [] && path[|path|-1].ElementStep?
    ensures a.Arr? && a.items != [] ==> Child(s, Pattern(path), a, step) == Missing
  {
  }

  lemma {:induction false} SameDown(s: Schema, path: Path, a: Json, b: Json, rest: Path)
    requires WellFormed(s) && SameAt(s, path, a, b) && (Placed(s, path) || a == b == Missing)
    ensures SameAt(s, path + rest, GetAt(s, Pattern(path), a, rest), GetAt(s, Pattern(path), b, rest))
    decreases rest
  {
    if rest == [] {
      assert path + rest == path;
    } else {
      var p, step := Pattern(path), rest[0];
      var x, y := Child(s, p, a, step), Child(s, p, b, step);
      GetAtStep(s, p, a, rest);
      GetAtStep(s, p, b, rest);
      PatternSnoc(path, step);
      if Placed(s, path) {
        SameChild(s, path, a, b, step);
      }
      SameDown(s, path + [step], x, y, rest[1..]);
      assert path + [step] + rest[1..] == path + rest;
    }
  }
}
