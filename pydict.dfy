/**
 * The few pieces of Python dictionary and string semantics that the
 * integration relies on: `d.get(k)`, f-string formatting of a value that may
 * be `None`, and the dictionary that a display or a comprehension builds.
 */
module PyDict {

  /** A JSON or form value as the integration reads it: `None` or a text. */
  datatype Value = Null | Text(text: string)

  /** `d.get(k)`: a missing key reads as `None`. */
  function Get<K>(d: map<K, Value>, k: K): Value
  {
    if k in d then d[k] else Null
  }

  /** `f"{v}"` (and `str(v)`) of a text or of `None`. */
  function Format(v: Value): string
  {
    match v
    case Text(s) => s
    case Null => "None"
  }

  /** Index `i` holds the last pair of `ps` whose key is `ps[i].0`. */
  ghost predicate IsLast<K, V>(ps: seq<(K, V)>, i: int)
    requires 0 <= i < |ps|
  {
    forall j :: i < j < |ps| ==> ps[j].0 != ps[i].0
  }

  /**
   * The dictionary that `{k0: v0, k1: v1, ...}` or `{k(x): v(x) for x in xs}`
   * builds: pairs are inserted from left to right, so when a key repeats the
   * value of its last occurrence is the one kept.
   */
  function FromPairs<K, V>(ps: seq<(K, V)>): (m: map<K, V>)
    ensures m.Keys == set i | 0 <= i < |ps| :: ps[i].0
  {
    if ps == [] then map[]
    else
      var front := ps[..|ps| - 1];
      var m := FromPairs(front);
      assert forall i :: 0 <= i < |front| ==> front[i] == ps[i];
      m[ps[|ps| - 1].0 := ps[|ps| - 1].1]
  }

  /** The pair at index `i`, when no later pair repeats its key, gives that key's value. */
  lemma {:induction false} FromPairsLast<K, V>(ps: seq<(K, V)>, i: int)
    requires 0 <= i < |ps| && IsLast(ps, i)
    ensures ps[i].0 in FromPairs(ps) && FromPairs(ps)[ps[i].0] == ps[i].1
  {
    var n := |ps| - 1;
    var front := ps[..n];
    assert FromPairs(ps) == FromPairs(front)[ps[n].0 := ps[n].1];
    if i < n {
      assert front[i] == ps[i];
      assert forall j :: i < j < n ==> front[j] == ps[j];
      FromPairsLast(front, i);
    }
  }

  /**
   * When every later pair with the same key agrees with pair `i`, the built
   * dictionary maps that key to pair `i`'s value, whichever duplicate wins.
   */
  lemma {:induction false} FromPairsAgrees<K, V>(ps: seq<(K, V)>, i: int)
    requires 0 <= i < |ps|
    requires forall j :: i < j < |ps| && ps[j].0 == ps[i].0 ==> ps[j].1 == ps[i].1
    ensures ps[i].0 in FromPairs(ps) && FromPairs(ps)[ps[i].0] == ps[i].1
  {
    var n := |ps| - 1;
    var front := ps[..n];
    assert FromPairs(ps) == FromPairs(front)[ps[n].0 := ps[n].1];
    if i < n && ps[n].0 != ps[i].0 {
      assert front[i] == ps[i];
      assert forall j :: i < j < n ==> front[j] == ps[j];
      FromPairsAgrees(front, i);
    }
  }

  /** No key of `ps` is paired with two different values. */
  ghost predicate Consistent<K, V>(ps: seq<(K, V)>)
  {
    forall i, j :: 0 <= i < j < |ps| && ps[i].0 == ps[j].0 ==> ps[i].1 == ps[j].1
  }

  /** Whatever key `a` and `b` share is paired with the same value in both. */
  ghost predicate Agree<K, V>(a: seq<(K, V)>, b: seq<(K, V)>)
  {
    forall i, j :: 0 <= i < |a| && 0 <= j < |b| && a[i].0 == b[j].0 ==> a[i].1 == b[j].1
  }

  /** Two consistent lists that agree on their shared keys make a consistent list. */
  lemma ConsistentConcat<K, V>(a: seq<(K, V)>, b: seq<(K, V)>)
    requires Consistent(a) && Consistent(b) && Agree(a, b)
    ensures Consistent(a + b)
  {
    var ab := a + b;
    forall i, j | 0 <= i < j < |ab| && ab[i].0 == ab[j].0
      ensures ab[i].1 == ab[j].1
    {
      if j < |a| {
        assert ab[i] == a[i] && ab[j] == a[j];
      } else if i < |a| {
        assert ab[i] == a[i] && ab[j] == b[j - |a|];
      } else {
        assert ab[i] == b[i - |a|] && ab[j] == b[j - |a|];
      }
    }
  }

  /** Two lists that each agree with `c` agree with it together. */
  lemma AgreeConcat<K, V>(a: seq<(K, V)>, b: seq<(K, V)>, c: seq<(K, V)>)
    requires Agree(a, c) && Agree(b, c)
    ensures Agree(a + b, c)
  {
    var ab := a + b;
    forall i, j | 0 <= i < |ab| && 0 <= j < |c| && ab[i].0 == c[j].0
      ensures ab[i].1 == c[j].1
    {
      if i < |a| {
        assert ab[i] == a[i];
      } else {
        assert ab[i] == b[i - |a|];
      }
    }
  }

  /** Built from a consistent list, the dictionary holds exactly the listed pairs. */
  lemma FromPairsOfConsistent<K, V>(ps: seq<(K, V)>, k: K, v: V)
    requires Consistent(ps)
    ensures (k in FromPairs(ps) && FromPairs(ps)[k] == v) <==> (k, v) in ps
  {
    if k in FromPairs(ps) {
      var i :| 0 <= i < |ps| && ps[i].0 == k;
      FromPairsAgrees(ps, i);
    }
    if (k, v) in ps {
      var i :| 0 <= i < |ps| && ps[i] == (k, v);
      FromPairsAgrees(ps, i);
    }
  }
}
