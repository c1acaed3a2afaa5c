/**
 * PHP arrays as the Russian Post plugin uses them: ordered maps that remember
 * insertion order and never hold a key twice.
 */
module PhpArrays {
  import opened Wrappers

  datatype Pair<K, V> = Pair(key: K, val: V)

  /** No key occurs at two positions. */
  predicate UniqueKeys<K(==, !new), V>(a: seq<Pair<K, V>>) {
    forall i, j :: 0 <= i < j < |a| ==> a[i].key != a[j].key
  }

  /** An ordered PHP array: pairs in insertion order with pairwise distinct keys. */
  type PhpArray<K(==, !new), V> = a: seq<Pair<K, V>> | UniqueKeys(a) witness []

  /** The keys in iteration order (`array_keys`). */
  function Keys<K(==, !new), V>(a: PhpArray<K, V>): (ks: seq<K>)
    ensures |ks| == |a|
    ensures forall i :: 0 <= i < |a| ==> ks[i] == a[i].key
  {
    seq(|a|, i requires 0 <= i < |a| => a[i].key)
  }

  /** The values in iteration order (what `foreach ($a as $v)` visits). */
  function Values<K(==, !new), V>(a: PhpArray<K, V>): (vs: seq<V>)
    ensures |vs| == |a|
    ensures forall i :: 0 <= i < |a| ==> vs[i] == a[i].val
  {
    seq(|a|, i requires 0 <= i < |a| => a[i].val)
  }

  /** `isset($a[$k])` for arrays whose values are never null. */
  predicate HasKey<K(==, !new), V>(a: PhpArray<K, V>, k: K) {
    k in Keys(a)
  }

  /** The position of key `k`, or -1 when it is absent. */
  function IndexOf<K(==, !new), V>(a: seq<Pair<K, V>>, k: K): (i: int)
    ensures -1 <= i < |a|
    ensures 0 <= i ==> a[i].key == k && forall j :: 0 <= j < i ==> a[j].key != k
    ensures i == -1 <==> forall j :: 0 <= j < |a| ==> a[j].key != k
  {
    if |a| == 0 then -1
    else if a[|a| - 1].key == k && IndexOf(a[..|a| - 1], k) == -1 then |a| - 1
    else IndexOf(a[..|a| - 1], k)
  }

  /** `$a[$k]`, absent when the key is not there. */
  function Get<K(==, !new), V>(a: PhpArray<K, V>, k: K): (r: Option<V>)
    ensures r.Some? <==> HasKey(a, k)
    ensures forall i :: 0 <= i < |a| && a[i].key == k ==> r == Some(a[i].val)
  {
    var i := IndexOf(a, k);
    if i < 0 then None else Some(a[i].val)
  }

  /**
   * The assignment `$a[$k] = $v`: an existing key keeps its position and takes
   * the new value, a new key is appended at the end.
   */
  function Assign<K(==, !new), V>(a: PhpArray<K, V>, k: K, v: V): (r: PhpArray<K, V>)
    ensures HasKey(a, k) ==> Keys(r) == Keys(a)
    ensures !HasKey(a, k) ==> r == a + [Pair(k, v)]
    ensures Get(r, k) == Some(v)
    ensures forall k' :: k' != k ==> Get(r, k') == Get(a, k')
  {
    var i := IndexOf(a, k);
    if i < 0 then
      var r: seq<Pair<K, V>> := a + [Pair(k, v)];
      assert forall j :: 0 <= j < |a| ==> r[j].key == a[j].key;
      r
    else
      var r: seq<Pair<K, V>> := a[i := Pair(k, v)];
      assert forall j :: 0 <= j < |a| ==> r[j].key == a[j].key;
      assert Keys(r) == Keys(a);
      r
  }

  /** Assignment adds its key to the array's keys and keeps every other key's presence. */
  lemma AssignKeys<K(!new), V>(a: PhpArray<K, V>, k: K, v: V)
    ensures forall k' :: HasKey(Assign(a, k, v), k') <==> k' == k || HasKey(a, k')
  {
    forall k' | k' != k
      ensures HasKey(Assign(a, k, v), k') <==> HasKey(a, k')
    {
      assert Get(Assign(a, k, v), k') == Get(a, k');
    }
  }

  /** Every pair after an assignment is the assigned one or was already there. */
  lemma AssignPairs<K(!new), V>(a: PhpArray<K, V>, k: K, v: V)
    ensures forall p :: p in Assign(a, k, v) ==> p == Pair(k, v) || p in a
  {
    var r := Assign(a, k, v);
    var i := IndexOf(a, k);
    if 0 <= i {
      forall p | p in r
        ensures p == Pair(k, v) || p in a
      {
        var j :| 0 <= j < |r| && r[j] == p;
        if j != i {
          assert p == a[j];
        }
      }
    }
  }

  /** The keys of `r` occur in `a`, in the same relative order. */
  predicate InOrderOf<K(==, !new), V>(r: seq<Pair<K, V>>, a: seq<Pair<K, V>>) {
    forall i, j :: 0 <= i < j < |r| ==> 0 <= IndexOf(a, r[i].key) < IndexOf(a, r[j].key)
  }

  /** A prefix of an array with distinct keys has distinct keys, none of them the next key. */
  lemma UniqueKeysSnoc<K(!new), V>(a: seq<Pair<K, V>>, p: Pair<K, V>)
    requires UniqueKeys(a + [p])
    ensures UniqueKeys(a)
    ensures forall j :: 0 <= j < |a| ==> a[j].key != p.key
  {
    assert forall j :: 0 <= j < |a| ==> (a + [p])[j] == a[j];
    assert (a + [p])[|a|] == p;
  }

  /** Appending a pair moves no key already present and puts a new key last. */
  lemma IndexOfSnoc<K(!new), V>(a: seq<Pair<K, V>>, p: Pair<K, V>, k: K)
    ensures 0 <= IndexOf(a, k) ==> IndexOf(a + [p], k) == IndexOf(a, k)
    ensures IndexOf(a, k) < 0 && p.key == k ==> IndexOf(a + [p], k) == |a|
  {
    assert (a + [p])[..|a|] == a;
  }

  /** Assigning a new key appends it to the keys. */
  lemma AssignNewKey<K(!new), V>(a: PhpArray<K, V>, k: K, v: V)
    requires !HasKey(a, k)
    ensures Keys(Assign(a, k, v)) == Keys(a) + [k]
  {
    KeysAppend(a, Assign(a, k, v), Pair(k, v));
  }

  lemma KeysAppend<K(!new), V>(a: PhpArray<K, V>, b: PhpArray<K, V>, p: Pair<K, V>)
    requires b == a + [p]
    ensures Keys(b) == Keys(a) + [p.key]
  {
  }

  /**
   * The array built from an empty one by the assignments `$a[$k] = $v`, one
   * per pair and in order: a repeated key keeps its first position and takes
   * its last value.
   */
  function FromPairs<K(==, !new), V>(ps: seq<Pair<K, V>>): PhpArray<K, V> {
    if |ps| == 0 then []
    else
      var last := ps[|ps| - 1];
      Assign(FromPairs(ps[..|ps| - 1]), last.key, last.val)
  }

  /** Some pair assigns key `k`. */
  predicate Assigns<K(==), V>(ps: seq<Pair<K, V>>, k: K) {
    exists i :: 0 <= i < |ps| && ps[i].key == k
  }

  /** A key is assigned by some pair exactly when the last pair or an earlier one assigns it. */
  lemma AssignsSplitLast<K, V>(ps: seq<Pair<K, V>>, k: K)
    requires |ps| > 0
    ensures Assigns(ps, k) <==> ps[|ps| - 1].key == k || Assigns(ps[..|ps| - 1], k)
  {
    var init := ps[..|ps| - 1];
    if Assigns(ps, k) && ps[|ps| - 1].key != k {
      var i :| 0 <= i < |ps| && ps[i].key == k;
      assert init[i].key == k;
    }
    if Assigns(init, k) {
      var i :| 0 <= i < |init| && init[i].key == k;
      assert ps[i].key == k;
    }
  }

  /** The keys of the built array are exactly the keys assigned. */
  lemma {:induction false} FromPairsKeys<K(!new), V>(ps: seq<Pair<K, V>>)
    ensures forall k :: HasKey(FromPairs(ps), k) <==> Assigns(ps, k)
  {
    if |ps| > 0 {
      var init := ps[..|ps| - 1];
      var last := ps[|ps| - 1];
      FromPairsKeys(init);
      AssignKeys(FromPairs(init), last.key, last.val);
      forall k
        ensures HasKey(FromPairs(ps), k) <==> Assigns(ps, k)
      {
        AssignsSplitLast(ps, k);
      }
    }
  }

  /** The last pair with a given key supplies that key's value. */
  lemma {:induction false} FromPairsLast<K(!new), V>(ps: seq<Pair<K, V>>, i: int)
    requires 0 <= i < |ps|
    requires forall j :: i < j < |ps| ==> ps[j].key != ps[i].key
    ensures Get(FromPairs(ps), ps[i].key) == Some(ps[i].val)
  {
    if i < |ps| - 1 {
      FromPairsLast(ps[..|ps| - 1], i);
    }
  }

  /** Pairs with distinct keys are kept as they are, in order. */
  lemma {:induction false} FromPairsDistinct<K(!new), V>(ps: seq<Pair<K, V>>)
    requires UniqueKeys(ps)
    ensures FromPairs(ps) == ps
  {
    if |ps| > 0 {
      var init := ps[..|ps| - 1];
      var last := ps[|ps| - 1];
      FromPairsDistinct(init);
      assert !HasKey(FromPairs(init), last.key) by {
        assert forall j :: 0 <= j < |init| ==> init[j].key != last.key;
      }
      assert ps == init + [last];
    }
  }
}
