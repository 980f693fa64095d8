/** The order in which the source compares texts: by code point, a proper prefix first.  (UTF-8
    byte order, which Rust uses, is the same order.) */
module Lex {

  predicate Leq(a: string, b: string) {
    a == "" || (b != "" && (a[0] < b[0] || (a[0] == b[0] && Leq(a[1..], b[1..]))))
  }

  /** `b` goes on from `a`, or has the greater character where they first differ. */
  lemma {:induction false} LeqMeans(a: string, b: string)
    ensures Leq(a, b) <==> a <= b || exists i | 0 <= i < |a| && i < |b| :: a[..i] == b[..i] && a[i] < b[i]
  {
    if a != "" && b != "" {
      LeqMeans(a[1..], b[1..]);
      assert a == [a[0]] + a[1..] && b == [b[0]] + b[1..];
      if a[0] == b[0] {
        SameFirst(a, b);
      } else if a[0] < b[0] {
        assert a[..0] == b[..0];
      } else {
        forall i | 0 <= i < |a| && i < |b| ensures !(a[..i] == b[..i] && a[i] < b[i]) {
          if i > 0 {
            assert a[..i][0] == a[0] && b[..i][0] == b[0];
          }
        }
      }
    }
  }

  lemma SameFirst(a: string, b: string)
    requires a != "" && b != "" && a[0] == b[0]
    ensures a <= b <==> a[1..] <= b[1..]
    ensures (exists i | 0 <= i < |a| && i < |b| :: a[..i] == b[..i] && a[i] < b[i]) <==>
            exists i | 0 <= i < |a| - 1 && i < |b| - 1 :: a[1..][..i] == b[1..][..i] && a[1..][i] < b[1..][i]
  {
    assert a == [a[0]] + a[1..] && b == [b[0]] + b[1..];
    if i :| 0 <= i < |a| && i < |b| && a[..i] == b[..i] && a[i] < b[i] {
      assert i > 0;
      assert a[1..][..i - 1] == a[..i][1..] && b[1..][..i - 1] == b[..i][1..];
      assert a[1..][i - 1] < b[1..][i - 1];
    }
    if i :| 0 <= i < |a| - 1 && i < |b| - 1 && a[1..][..i] == b[1..][..i] && a[1..][i] < b[1..][i] {
      assert a[..i + 1] == [a[0]] + a[1..][..i] && b[..i + 1] == [b[0]] + b[1..][..i];
      assert a[i + 1] < b[i + 1];
    }
  }

  predicate Less(a: string, b: string) { Leq(a, b) && a != b }

  lemma {:induction false} Reflexive(a: string)
    ensures Leq(a, a)
  {
    if a != "" {
      Reflexive(a[1..]);
    }
  }

  lemma {:induction false} Total(a: string, b: string)
    ensures Leq(a, b) || Leq(b, a)
  {
    if a != "" && b != "" && a[0] == b[0] {
      Total(a[1..], b[1..]);
    }
  }

  lemma {:induction false} Antisymmetric(a: string, b: string)
    requires Leq(a, b) && Leq(b, a)
    ensures a == b
  {
    if a != "" && b != "" {
      Antisymmetric(a[1..], b[1..]);
      assert a == [a[0]] + a[1..] && b == [b[0]] + b[1..];
    }
  }

  lemma {:induction false} Transitive(a: string, b: string, c: string)
    requires Leq(a, b) && Leq(b, c)
    ensures Leq(a, c)
  {
    if a != "" && b != "" && c != "" && a[0] == b[0] == c[0] {
      Transitive(a[1..], b[1..], c[1..]);
    }
  }

  /** Strictly ascending, so free of duplicates. */
  predicate Ascending(keys: seq<string>) {
    forall i, j | 0 <= i < j < |keys| :: Less(keys[i], keys[j])
  }

  predicate Enumerates(keys: seq<string>, s: set<string>) {
    && (forall k | k in keys :: k in s)
    && (forall k | k in s :: k in keys)
  }

  /** `key` put before the first key that is not below it. */
  function Insert(key: string, keys: seq<string>): (r: seq<string>)
    ensures |r| == |keys| + 1
    ensures forall k :: k in r <==> k == key || k in keys
  {
    if keys == [] || Leq(key, keys[0]) then [key] + keys
    else
      var r := Insert(key, keys[1..]);
      assert forall k :: k in keys <==> k == keys[0] || k in keys[1..];
      [keys[0]] + r
  }

  lemma {:induction false} InsertAscending(key: string, keys: seq<string>)
    requires Ascending(keys) && key !in keys
    ensures Ascending(Insert(key, keys))
  {
    if keys != [] {
      if Leq(key, keys[0]) {
        forall j | 0 < j < |keys| ensures Less(key, keys[j]) {
          Transitive(key, keys[0], keys[j]);
        }
      } else {
        InsertAscending(key, keys[1..]);
        Total(key, keys[0]);
        var r := Insert(key, keys[1..]);
        forall j | 0 <= j < |r| ensures Less(keys[0], r[j]) {
          assert r[j] == key || r[j] in keys[1..];
        }
      }
    }
  }

  /** The keys of a set in ascending order. */
  ghost function Sorted(s: set<string>): (keys: seq<string>)
    ensures Ascending(keys) && Enumerates(keys, s) && |keys| == |s|
    decreases |s|
  {
    if s == {} then []
    else
      var key :| key in s;
      InsertAscending(key, Sorted(s - {key}));
      Insert(key, Sorted(s - {key}))
  }

  lemma SomeMember(keys: seq<string>)
    ensures keys == [] || exists k :: k in keys
  {
    if keys != [] {
      assert keys[0] in keys;
    }
  }

  /** There is only one ascending enumeration of a set. */
  lemma {:induction false} AscendingIsUnique(a: seq<string>, b: seq<string>, s: set<string>)
    requires Ascending(a) && Ascending(b) && Enumerates(a, s) && Enumerates(b, s)
    ensures a == b
    decreases |a|
  {
    if a == [] {
      SomeMember(b);
    } else {
      assert a[0] in s;
      assert a[0] in b && b[0] in a;
      var i :| 0 <= i < |b| && b[i] == a[0];
      var j :| 0 <= j < |a| && a[j] == b[0];
      if i > 0 || j > 0 {
        if i > 0 && j > 0 { Antisymmetric(a[0], b[0]); }
      }
      assert a[0] == b[0];
      forall k | k in s - {a[0]} ensures k in a[1..] && k in b[1..] {
        assert k in a && k in b;
      }
      AscendingIsUnique(a[1..], b[1..], s - {a[0]});
      assert a == [a[0]] + a[1..] && b == [b[0]] + b[1..];
    }
  }
}
