/** Which terms of an order decide what a read outputs: none of a field already
    compared, and none once every field shown has been. Orders that share those
    output the same rows. */
module SortKeys {
  import opened Lists
  import opened Relalg

  function Deciding(terms: seq<OrderTerm>, shown: set<string>, seen: set<string>): seq<OrderTerm> {
    if terms == [] || shown <= seen then []
    else if terms[0].field in seen then Deciding(terms[1..], shown, seen)
    else [terms[0]] + Deciding(terms[1..], shown, seen + {terms[0].field})
  }

  function FieldsOf(terms: seq<OrderTerm>): set<string> {
    set i | 0 <= i < |terms| :: terms[i].field
  }

  function Shown(items: seq<ProjectItem>): set<string> {
    set i | 0 <= i < |items| :: items[i].field
  }

  // --- comparing two rows ---

  ghost predicate AgreeOn(fields: set<string>, r: Record, s: Record) {
    forall f :: f in fields ==> Lookup(r.env, f) == Lookup(s.env, f)
  }

  lemma TermsLeCons(db: Db, t: OrderTerm, rest: seq<OrderTerm>, r: Record, s: Record)
    ensures TermsLe(db, [t] + rest, r, s) <==>
            var c := CompareTerm(db, t, Lookup(r.env, t.field), Lookup(s.env, t.field));
                c < 0 || (c == 0 && TermsLe(db, rest, r, s))
  {
    var terms := [t] + rest;
    assert terms[1..] == rest;
    assert TermFields(terms) == [t.field] + TermFields(rest);
    assert TermFields(terms)[1..] == TermFields(rest);
  }

  lemma FieldsCons(t: OrderTerm, rest: seq<OrderTerm>)
    ensures FieldsOf([t] + rest) == {t.field} + FieldsOf(rest)
  {
    var terms := [t] + rest;
    assert terms[0] == t;
    forall f | f in FieldsOf(rest) ensures f in FieldsOf(terms) {
      var i :| 0 <= i < |rest| && rest[i].field == f;
      assert terms[i + 1] == rest[i];
    }
  }

  /** The keys order two rows no finer than the terms do, and as they do unless
      rows they tie show the same. */
  lemma {:induction false} DecidingLe(
    db: Db, terms: seq<OrderTerm>, shown: set<string>, seen: set<string>, r: Record, s: Record)
    requires TotalOrder(db.le) && AgreeOn(seen, r, s)
    ensures var ks := Deciding(terms, shown, seen);
            && (TermsLe(db, terms, r, s) ==> TermsLe(db, ks, r, s))
            && (!(shown <= seen + FieldsOf(ks)) ==> (TermsLe(db, terms, r, s) <==> TermsLe(db, ks, r, s)))
    decreases terms
  {
    if terms != [] && !(shown <= seen) {
      var t, rest := terms[0], terms[1..];
      assert terms == [t] + rest;
      TermsLeCons(db, t, rest, r, s);
      CompareTermOrder(db, t, Lookup(r.env, t.field), Lookup(s.env, t.field), Lookup(r.env, t.field));
      if t.field in seen {
        DecidingLe(db, rest, shown, seen, r, s);
      } else {
        var ks := Deciding(rest, shown, seen + {t.field});
        TermsLeCons(db, t, ks, r, s);
        FieldsCons(t, ks);
        assert seen + FieldsOf([t] + ks) == (seen + {t.field}) + FieldsOf(ks);
        if Lookup(r.env, t.field) == Lookup(s.env, t.field) {
          DecidingLe(db, rest, shown, seen + {t.field}, r, s);
        }
      }
    }
  }

  lemma TieCons(db: Db, t: OrderTerm, rest: seq<OrderTerm>, r: Record, s: Record)
    requires TotalOrder(db.le) && TermsLe(db, [t] + rest, r, s) && TermsLe(db, [t] + rest, s, r)
    ensures Lookup(r.env, t.field) == Lookup(s.env, t.field) && TermsLe(db, rest, r, s) && TermsLe(db, rest, s, r)
  {
    TermsLeCons(db, t, rest, r, s);
    TermsLeCons(db, t, rest, s, r);
    CompareTermOrder(db, t, Lookup(r.env, t.field), Lookup(s.env, t.field), Lookup(r.env, t.field));
  }

  /** Rows that tie agree on every field compared. */
  lemma {:induction false} TiesAgree(db: Db, terms: seq<OrderTerm>, r: Record, s: Record)
    requires TotalOrder(db.le) && TermsLe(db, terms, r, s) && TermsLe(db, terms, s, r)
    ensures AgreeOn(FieldsOf(terms), r, s)
  {
    if terms != [] {
      var t, rest := terms[0], terms[1..];
      assert terms == [t] + rest;
      TieCons(db, t, rest, r, s);
      FieldsCons(t, rest);
      TiesAgree(db, rest, r, s);
    }
  }

  lemma {:induction false} TermsTotal(db: Db, terms: seq<OrderTerm>, r: Record, s: Record)
    requires TotalOrder(db.le)
    ensures TermsLe(db, terms, r, s) || TermsLe(db, terms, s, r)
  {
    if terms != [] {
      var t, rest := terms[0], terms[1..];
      assert terms == [t] + rest;
      TermsLeCons(db, t, rest, r, s);
      TermsLeCons(db, t, rest, s, r);
      CompareTermOrder(db, t, Lookup(r.env, t.field), Lookup(s.env, t.field), Lookup(r.env, t.field));
      TermsTotal(db, rest, r, s);
    }
  }

  lemma {:induction false} TermsTransitive(db: Db, terms: seq<OrderTerm>, r: Record, s: Record, u: Record)
    requires TotalOrder(db.le) && TermsLe(db, terms, r, s) && TermsLe(db, terms, s, u)
    ensures TermsLe(db, terms, r, u)
  {
    hide CompareTerm, Lookup;
    if terms != [] {
      var t, rest := terms[0], terms[1..];
      assert terms == [t] + rest;
      TermsLeCons(db, t, rest, r, s);
      TermsLeCons(db, t, rest, s, u);
      TermsLeCons(db, t, rest, r, u);
      var x, y, z := Lookup(r.env, t.field), Lookup(s.env, t.field), Lookup(u.env, t.field);
      CompareTermOrder(db, t, x, y, z);
      CompareTermOrder(db, t, y, z, x);
      if x == y == z {
        TermsTransitive(db, rest, r, s, u);
      }
    }
  }

  lemma TermsPreorder(db: Db, terms: seq<OrderTerm>)
    requires TotalOrder(db.le)
    ensures Preorder(Ordering(db, terms))
  {
    forall r, s ensures Ordering(db, terms)(r, s) || Ordering(db, terms)(s, r) {
      TermsTotal(db, terms, r, s);
    }
    forall r, s, u | Ordering(db, terms)(r, s) && Ordering(db, terms)(s, u) ensures Ordering(db, terms)(r, u) {
      TermsTransitive(db, terms, r, s, u);
    }
  }

  // --- sorting ---

  ghost function Showing(items: seq<ProjectItem>): Record -> Output {
    (r: Record) => Columns(Lookups(r.env, ItemFields(items)))
  }

  lemma SameShown(items: seq<ProjectItem>, r: Record, s: Record)
    requires AgreeOn(Shown(items), r, s)
    ensures Showing(items)(r) == Showing(items)(s)
  {
    var fields := ItemFields(items);
    forall i | 0 <= i < |items| ensures Lookups(r.env, fields)[i] == Lookups(s.env, fields)[i] {
      assert items[i].field in Shown(items);
    }
    assert Lookups(r.env, fields) == Lookups(s.env, fields);
  }

  /** Sorted by the terms, or by their keys alone, rows show the same. */
  lemma DecidingSort(db: Db, terms: seq<OrderTerm>, items: seq<ProjectItem>, rs: seq<Record>)
    requires TotalOrder(db.le)
    ensures var ks := Deciding(terms, Shown(items), {});
            Map(Showing(items), Lists.Sort(Ordering(db, terms), rs)) ==
                Map(Showing(items), Lists.Sort(Ordering(db, ks), rs))
  {
    var ks := Deciding(terms, Shown(items), {});
    var fine, le := Ordering(db, terms), Ordering(db, ks);
    forall r, s
      ensures fine(r, s) ==> le(r, s)
      ensures !(Shown(items) <= FieldsOf(ks)) ==> (fine(r, s) <==> le(r, s))
    {
      DecidingLe(db, terms, Shown(items), {}, r, s);
    }
    if Shown(items) <= FieldsOf(ks) {
      TermsPreorder(db, terms);
      TermsPreorder(db, ks);
      SortAlike(fine, le, rs);
      forall r, s | le(r, s) && le(s, r) ensures Showing(items)(r) == Showing(items)(s) {
        TiesAgree(db, ks, r, s);
        SameShown(items, r, s);
      }
    } else {
      SortCong(fine, le, rs);
    }
  }

  /** Orders with the same keys show the same rows. */
  lemma SameSort(db: Db, terms: seq<OrderTerm>, others: seq<OrderTerm>, items: seq<ProjectItem>, rs: seq<Record>)
    requires TotalOrder(db.le) && Deciding(terms, Shown(items), {}) == Deciding(others, Shown(items), {})
    ensures Map(Showing(items), Lists.Sort(Ordering(db, terms), rs)) ==
            Map(Showing(items), Lists.Sort(Ordering(db, others), rs))
  {
    DecidingSort(db, terms, items, rs);
    DecidingSort(db, others, items, rs);
  }
}
