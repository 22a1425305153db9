/** Keys as byte strings in lexical order, and what a skip list keeps: a sorted chain, with
    every level a sublist of the one below. */
module SkipOrder {
  import opened Bytes

  type Key = seq<Byte>

  predicate Less(a: Key, b: Key) {
    b != [] && (a == [] || a[0] < b[0] || (a[0] == b[0] && Less(a[1..], b[1..])))
  }

  lemma {:induction false} LessIrreflexive(a: Key)
    ensures !Less(a, a)
  {
    if a != [] {
      LessIrreflexive(a[1..]);
    }
  }

  lemma {:induction false} LessTrans(a: Key, b: Key, c: Key)
    requires Less(a, b) && Less(b, c)
    ensures Less(a, c)
  {
    if a != [] && a[0] == b[0] == c[0] {
      LessTrans(a[1..], b[1..], c[1..]);
    }
  }

  lemma {:induction false} LessTotal(a: Key, b: Key)
    ensures Less(a, b) || a == b || Less(b, a)
  {
    if a != [] && b != [] && a[0] == b[0] {
      LessTotal(a[1..], b[1..]);
      assert a[1..] == b[1..] ==> a == [a[0]] + a[1..] == [b[0]] + b[1..] == b;
    }
  }

  /** Not below and below: the order reads the same through equal keys. */
  lemma NotLessTrans(a: Key, b: Key, c: Key)
    requires !Less(b, a) && Less(b, c)
    ensures Less(a, c)
  {
    LessTotal(a, b);
    if Less(a, b) {
      LessTrans(a, b, c);
    }
  }

  predicate Sorted(keys: seq<Key>) {
    forall i, j :: 0 <= i < j < |keys| ==> !Less(keys[j], keys[i])
  }

  /** How many keys at the front are below the target. */
  function Below(keys: seq<Key>, target: Key): (n: nat)
    ensures n <= |keys| && (forall i :: 0 <= i < n ==> Less(keys[i], target))
    ensures n < |keys| ==> !Less(keys[n], target)
  {
    if keys == [] || !Less(keys[0], target) then 0 else 1 + Below(keys[1..], target)
  }

  /** In sorted keys these are all that are below it. */
  lemma BelowIsAll(keys: seq<Key>, target: Key, i: nat)
    requires Sorted(keys) && i < |keys|
    ensures Less(keys[i], target) <==> i < Below(keys, target)
  {
    var n := Below(keys, target);
    if i >= n && Less(keys[i], target) && i > n {
      NotLessTrans(keys[n], keys[i], target);
    }
  }

  /** An entry goes before the first whose key is not below its own. */
  function Insert<T>(xs: seq<T>, p: nat, x: T): (r: seq<T>)
    requires p <= |xs|
    ensures |r| == |xs| + 1 && r[p] == x
  {
    xs[..p] + [x] + xs[p..]
  }

  lemma InsertSorted(keys: seq<Key>, k: Key)
    requires Sorted(keys)
    ensures Sorted(Insert(keys, Below(keys, k), k))
  {
    var p := Below(keys, k);
    var r := Insert(keys, p, k);
    forall i, j | 0 <= i < j < |r| ensures !Less(r[j], r[i]) {
      if i == p {
        BelowIsAll(keys, k, j - 1);
      } else if j == p {
        LessAsym(r[i], k);
      } else {
        assert r[i] == keys[if i < p then i else i - 1] && r[j] == keys[if j < p then j else j - 1];
      }
    }
  }

  lemma LessAsym(a: Key, b: Key)
    requires Less(a, b)
    ensures !Less(b, a)
  {
    if Less(b, a) {
      LessTrans(a, b, a);
      LessIrreflexive(a);
    }
  }
}
