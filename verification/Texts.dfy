/** The text operations of the Go standard library that names and keys are
    built with: cutting at a separator, and decimal numerals. */
module Texts {

  function Digit(d: nat): char
    requires d < 10
  {
    "0123456789"[d]
  }

  /** The decimal numeral of n. */
  function Itoa(n: nat): (s: string)
    ensures s != ""
  {
    if n < 10 then [Digit(n)] else Itoa(n / 10) + [Digit(n % 10)]
  }

  /** The position of the first c in s, |s| when there is none. */
  function Find(s: string, c: char): (i: nat)
    ensures i <= |s|
    ensures i < |s| ==> s[i] == c
    ensures c !in s[..i]
  {
    if s == "" then 0
    else if s[0] == c then 0
    else
      var i := 1 + Find(s[1..], c);
      assert s[..i] == [s[0]] + s[1..][..i-1];
      i
  }

  lemma FindUnique(s: string, c: char, i: nat)
    requires i < |s| && s[i] == c && c !in s[..i]
    ensures Find(s, c) == i
  {
    if i > 0 {
      assert s[0] == s[..i][0];
      assert forall k :: 0 <= k < i-1 ==> s[1..][k] == s[..i][k + 1];
      FindUnique(s[1..], c, i-1);
    }
  }

  // --- the order of strings, by their characters ---

  predicate StrLe(a: string, b: string) {
    a == "" || (b != "" && (a[0] < b[0] || (a[0] == b[0] && StrLe(a[1..], b[1..]))))
  }

  lemma {:induction false} StrLeTotal(a: string, b: string)
    ensures StrLe(a, b) || StrLe(b, a)
    ensures StrLe(a, b) && StrLe(b, a) ==> a == b
  {
    if a != "" && b != "" {
      StrLeTotal(a[1..], b[1..]);
      assert a == [a[0]] + a[1..] && b == [b[0]] + b[1..];
    }
  }

  lemma {:induction false} StrLeTransitive(a: string, b: string, c: string)
    requires StrLe(a, b) && StrLe(b, c)
    ensures StrLe(a, c)
  {
    if a != "" && a[0] == b[0] == c[0] {
      StrLeTransitive(a[1..], b[1..], c[1..]);
    }
  }

  predicate Least(k: string, keys: set<string>) {
    k in keys && forall j :: j in keys ==> StrLe(k, j)
  }

  lemma LeastExists(keys: set<string>)
    requires keys != {}
    ensures exists k :: Least(k, keys)
    decreases |keys|
  {
    var k :| k in keys;
    var rest := keys - {k};
    if rest == {} {
      assert keys == {k};
      StrLeTotal(k, k);
      assert Least(k, keys);
    } else {
      LeastExists(rest);
      var m :| Least(m, rest);
      StrLeTotal(k, m);
      StrLeTotal(k, k);
      if StrLe(k, m) {
        forall j | j in keys ensures StrLe(k, j) {
          if j != k {
            StrLeTransitive(k, m, j);
          }
        }
        assert Least(k, keys);
      } else {
        assert Least(m, keys);
      }
    }
  }

  lemma LeastUnique(keys: set<string>)
    ensures forall k, m :: Least(k, keys) && Least(m, keys) ==> k == m
  {
    forall k, m | Least(k, keys) && Least(m, keys) ensures k == m {
      StrLeTotal(k, m);
    }
  }

  /** The keys, sorted. */
  function Sorted(keys: set<string>): (ks: seq<string>)
    ensures forall k :: k in ks <==> k in keys
    ensures forall i, j :: 0 <= i < j < |ks| ==> ks[i] != ks[j]
    decreases |keys|
  {
    if keys == {} then []
    else
      LeastExists(keys);
      LeastUnique(keys);
      var k :| Least(k, keys);
      [k] + Sorted(keys - {k})
  }
}
