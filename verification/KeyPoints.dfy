/** Which predicates are point lookups, said of the conditions within them. */
module KeyPoints {
  import opened Relalg
  import opened Compile
  import opened Acceptance

  /** Nothing but conditions, and conjunctions of them, is within p. */
  ghost predicate Conjoined(p: Predicate) {
    forall q :: Within(p, q) ==> q.Nil? || q.Condition? || q.And?
  }

  lemma PartsConjoined(p: Predicate)
    ensures Conjoined(p) <==>
            (p.Nil? || p.Condition? || p.And?) && forall q :: Part(p, q) ==> Conjoined(q)
  {
    hide Within;
    WithinSelf(p);
    if Conjoined(p) {
      forall q, r | Part(p, q) && Within(q, r) ensures r.Nil? || r.Condition? || r.And? {
        WithinPart(p, q, r);
      }
    }
    if (p.Nil? || p.Condition? || p.And?) && forall q :: Part(p, q) ==> Conjoined(q) {
      forall r | Within(p, r) ensures r.Nil? || r.Condition? || r.And? {
        WithinEither(p, r);
      }
    }
  }

  /** The conditions listed of a conjunction are those within it. */
  lemma {:induction false} ListedWithin(p: Predicate)
    ensures FlattenAnd(p).1 <==> Conjoined(p)
    ensures FlattenAnd(p).1 ==> forall c :: c in FlattenAnd(p).0 <==> c.Condition? && Within(p, c)
    decreases p, 1
  {
    hide Within, Conjoined;
    PartsConjoined(p);
    if p.And? {
      AllListed(p.preds);
      forall c: Predicate
        ensures c.Condition? && Within(p, c) <==> exists q :: q in p.preds && c.Condition? && Within(q, c)
      {
        ConditionWithin(p, c);
      }
    } else {
      forall c | p.Nil? || p.Condition? ensures Within(p, c) <==> c == p {
        LeafWithin(p, c);
      }
    }
  }

  lemma ConditionWithin(p: Predicate, c: Predicate)
    requires p.And?
    ensures c.Condition? && Within(p, c) <==> exists q :: q in p.preds && c.Condition? && Within(q, c)
  {
    hide Within;
    if c.Condition? && Within(p, c) {
      WithinEither(p, c);
      var q :| Part(p, q) && Within(q, c);
      assert q in p.preds;
    }
    if q :| q in p.preds && c.Condition? && Within(q, c) {
      WithinPart(p, q, c);
    }
  }

  lemma LeafWithin(p: Predicate, c: Predicate)
    requires p.Nil? || p.Condition?
    ensures Within(p, c) <==> c == p
  {
    hide Within;
    WithinSelf(p);
    if Within(p, c) {
      WithinEither(p, c);
    }
  }

  lemma {:induction false} AllListed(ps: seq<Predicate>)
    ensures FlattenAnds(ps).1 <==> forall q :: q in ps ==> Conjoined(q)
    ensures FlattenAnds(ps).1 ==>
              forall c :: c in FlattenAnds(ps).0 <==> exists q :: q in ps && c.Condition? && Within(q, c)
    decreases ps, 0
  {
    hide Within, Conjoined;
    if ps != [] {
      ListedWithin(ps[0]);
      AllListed(ps[1..]);
      assert forall q :: q in ps <==> q == ps[0] || q in ps[1..];
    }
  }

  /** Some condition on k is within p. */
  ghost predicate Compares(p: Predicate, k: string) {
    exists c: Predicate :: c.Condition? && c.field == k && Within(p, c)
  }

  /** A predicate is a point lookup on a key exactly when it is a conjunction of
      conditions, each of the key's columns has one in it, and any on them is an
      equality; of a key with a column twice none is. */
  lemma PointExactly(p: Predicate, key: seq<string>)
    ensures KeyPoint(p, key) <==>
            && key != [] && NoDup(key) && Conjoined(p)
            && (forall k :: k in key ==> Compares(p, k))
            && (forall c: Predicate :: c.Condition? && c.field in key && Within(p, c) ==> c.op == Eq)
  {
    hide Within, Conjoined, FlattenAnd, NoDup;
    ListedWithin(p);
    if FlattenAnd(p).1 {
      var cs := FlattenAnd(p).0;
      assert forall i :: 0 <= i < |cs| ==> cs[i] in cs;
      forall k | k in key
        ensures Compares(p, k) <==> exists i :: 0 <= i < |cs| && cs[i].Condition? && cs[i].field == k
      {
        if c: Predicate :| c.Condition? && c.field == k && Within(p, c) {
          assert c in cs;
        }
      }
    }
  }
}
