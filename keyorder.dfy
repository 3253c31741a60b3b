/** The order of IndexedDB string keys: lexicographic comparison, character by
    character, where a proper prefix comes first. An object store hands its
    records out in this order of their primary keys. */
module KeyOrder {

  predicate KeyLess(a: string, b: string)
    decreases |a|
  {
    if a == [] then b != []
    else if b == [] then false
    else a[0] < b[0] || (a[0] == b[0] && KeyLess(a[1..], b[1..]))
  }

  lemma {:induction false} KeyLessIrreflexive(a: string)
    ensures !KeyLess(a, a)
    decreases |a|
  {
    if a != [] {
      KeyLessIrreflexive(a[1..]);
    }
  }

  lemma {:induction false} KeyLessTransitive(a: string, b: string, c: string)
    requires KeyLess(a, b) && KeyLess(b, c)
    ensures KeyLess(a, c)
    decreases |a|
  {
    if a != [] && a[0] == b[0] && b[0] == c[0] {
      KeyLessTransitive(a[1..], b[1..], c[1..]);
    }
  }

  /** Any two distinct keys are ordered one way or the other. */
  lemma {:induction false} KeyLessTotal(a: string, b: string)
    ensures a == b || KeyLess(a, b) || KeyLess(b, a)
    decreases |a|
  {
    if a != [] && b != [] && a[0] == b[0] {
      KeyLessTotal(a[1..], b[1..]);
      if a[1..] == b[1..] {
        assert a == [a[0]] + a[1..] && b == [b[0]] + b[1..];
      }
    }
  }

  lemma {:induction false} KeyLessAsymmetric(a: string, b: string)
    requires KeyLess(a, b)
    ensures !KeyLess(b, a)
  {
    if KeyLess(b, a) {
      KeyLessTransitive(a, b, a);
      KeyLessIrreflexive(a);
    }
  }

  /** `k` is the first key of `keys`. */
  predicate IsFirstKey(k: string, keys: set<string>)
  {
    k in keys && forall j :: j in keys ==> !KeyLess(j, k)
  }

  /** Every non-empty finite set of keys has a first key. */
  lemma {:induction false} FirstKeyExists(keys: set<string>)
    requires keys != {}
    ensures exists k :: IsFirstKey(k, keys)
    decreases |keys|
  {
    var x :| x in keys;
    var rest := keys - {x};
    if rest == {} {
      assert keys == {x};
      KeyLessIrreflexive(x);
      assert IsFirstKey(x, keys);
    } else {
      FirstKeyExists(rest);
      var m :| IsFirstKey(m, rest);
      if KeyLess(x, m) {
        forall j | j in keys ensures !KeyLess(j, x) {
          if j == x {
            KeyLessIrreflexive(x);
          } else if KeyLess(j, x) {
            KeyLessTransitive(j, x, m);
          }
        }
        assert IsFirstKey(x, keys);
      } else {
        assert IsFirstKey(m, keys);
      }
    }
  }

  /** The first key of a set is unique. */
  lemma FirstKeyUnique(keys: set<string>)
    ensures forall a, b :: IsFirstKey(a, keys) && IsFirstKey(b, keys) ==> a == b
  {
    forall a, b | IsFirstKey(a, keys) && IsFirstKey(b, keys) ensures a == b {
      KeyLessTotal(a, b);
    }
  }

  /** The keys of `keys` in ascending key order. */
  function SortedKeys(keys: set<string>): (ks: seq<string>)
    ensures |ks| == |keys|
    ensures forall k :: k in ks <==> k in keys
    ensures forall i, j :: 0 <= i < j < |ks| ==> KeyLess(ks[i], ks[j])
    decreases |keys|
  {
    if keys == {} then []
    else
      FirstKeyExists(keys);
      FirstKeyUnique(keys);
      var k :| IsFirstKey(k, keys);
      var rest := SortedKeys(keys - {k});
      FirstKeyBeforeRest(k, keys, rest);
      [k] + rest
  }

  lemma FirstKeyBeforeRest(k: string, keys: set<string>, rest: seq<string>)
    requires IsFirstKey(k, keys)
    requires forall x :: x in rest <==> x in keys - {k}
    ensures forall x :: x in rest ==> KeyLess(k, x)
  {
    forall x | x in rest ensures KeyLess(k, x) {
      KeyLessTotal(k, x);
    }
  }
}
