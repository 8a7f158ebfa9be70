/** Balance tables: finite maps from account keys to amounts, and their totals. */
module Tables {

  /** A public key, taken as an opaque identity. */
  type Key = nat

  type Table = map<Key, nat>

  function Balance<K>(t: map<K, nat>, k: K): nat {
    if k in t then t[k] else 0
  }

  function Credit<K>(t: map<K, nat>, k: K, amount: nat): map<K, nat> {
    t[k := Balance(t, k) + amount]
  }

  function Debit<K>(t: map<K, nat>, k: K, amount: nat): map<K, nat>
    requires amount <= Balance(t, k)
  {
    t[k := Balance(t, k) - amount]
  }

  ghost function Total<K>(t: map<K, nat>): nat {
    if t == map[] then 0 else
      var k :| k in t;
      t[k] + Total(t - {k})
  }

  /** The total does not depend on the order in which keys are taken out. */
  lemma {:induction false} TotalWithout<K>(t: map<K, nat>, k: K)
    requires k in t
    ensures Total(t) == t[k] + Total(t - {k})
    decreases |t|
  {
    var j :| j in t && Total(t) == t[j] + Total(t - {j});
    if j != k {
      TotalWithout(t - {j}, k);
      TotalWithout(t - {k}, j);
      assert t - {j} - {k} == t - {k} - {j};
    }
  }

  lemma TotalSet<K>(t: map<K, nat>, k: K, amount: nat)
    ensures Total(t[k := amount]) == Total(t) - Balance(t, k) + amount
    ensures Balance(t, k) <= Total(t)
  {
    TotalWithout(t[k := amount], k);
    assert t[k := amount] - {k} == t - {k};
    if k in t {
      TotalWithout(t, k);
    } else {
      assert t - {k} == t;
    }
  }

  lemma {:induction false} TotalRemove<K>(t: map<K, nat>, k: K)
    ensures Total(t - {k}) == Total(t) - Balance(t, k)
    ensures Balance(t, k) <= Total(t)
  {
    if k in t {
      TotalWithout(t, k);
    } else {
      assert t - {k} == t;
    }
  }

  lemma {:induction false} TotalCredit<K>(t: map<K, nat>, k: K, amount: nat)
    ensures Total(Credit(t, k, amount)) == Total(t) + amount
  {
    TotalSet(t, k, Balance(t, k) + amount);
  }

  lemma {:induction false} TotalDebit<K>(t: map<K, nat>, k: K, amount: nat)
    requires amount <= Balance(t, k)
    ensures Total(Debit(t, k, amount)) == Total(t) - amount
    ensures amount <= Total(t)
  {
    TotalSet(t, k, Balance(t, k) - amount);
  }

  /** A zero total leaves nothing in any entry. */
  lemma {:induction false} TotalZero<K>(t: map<K, nat>)
    requires Total(t) == 0
    ensures forall k :: k in t ==> t[k] == 0
  {
    forall k | k in t ensures t[k] == 0 {
      TotalWithout(t, k);
    }
  }
}
