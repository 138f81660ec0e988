// The key-value store under the codebase repository (src/store.cpp): batches that are
// applied in order by LevelDB and as "erasures, then sets" by the memory store, and the
// prefix scan of the memory store over its ordered map.
module Store {

  datatype Op<K, V> = Set(key: K, value: V) | Erase(key: K)

  // What LevelDB does with a batch: the operations one after the other.
  function ApplyLog<K, V>(m: map<K, V>, log: seq<Op<K, V>>): map<K, V> {
    if log == [] then m
    else
      var before := ApplyLog(m, log[..|log| - 1]);
      match log[|log| - 1]
      case Set(k, v) => before[k := v]
      case Erase(k) => before - {k}
  }

  // What the memory store does with the sets and erasures it collected.
  function ApplyBatch<K, V>(m: map<K, V>, sets: map<K, V>, dels: set<K>): map<K, V> {
    (m - dels) + sets
  }

  function SetsOf<K, V>(log: seq<Op<K, V>>): map<K, V> {
    if log == [] then map[]
    else
      var before := SetsOf(log[..|log| - 1]);
      match log[|log| - 1]
      case Set(k, v) => before[k := v]
      case Erase(_) => before
  }

  function DelsOf<K, V>(log: seq<Op<K, V>>): set<K> {
    if log == [] then {}
    else
      var before := DelsOf(log[..|log| - 1]);
      match log[|log| - 1]
      case Set(_, _) => before
      case Erase(k) => before + {k}
  }

  // No key is set and later erased.
  ghost predicate Clean<K, V>(log: seq<Op<K, V>>) {
    forall i, j :: 0 <= i < j < |log| && log[i].Set? && log[j].Erase? ==> log[i].key != log[j].key
  }

  lemma {:induction false} InSets<K, V>(log: seq<Op<K, V>>, k: K)
    ensures k in SetsOf(log) <==> exists i :: 0 <= i < |log| && log[i].Set? && log[i].key == k
  {
    if log != [] {
      var init := log[..|log| - 1];
      InSets(init, k);
      if i :| 0 <= i < |init| && init[i].Set? && init[i].key == k {
        assert log[i].Set? && log[i].key == k;
      }
    }
  }

  // The last operation of the log on k sets it.
  predicate EndsSet<K(==), V>(log: seq<Op<K, V>>, k: K) {
    log != [] &&
    var last := log[|log| - 1];
    if last.key == k then last.Set? else EndsSet(log[..|log| - 1], k)
  }

  // What either store makes of a key depends on the last operation on it, or on all of them.
  lemma {:induction false} BatchAt<K, V>(m: map<K, V>, log: seq<Op<K, V>>, k: K)
    ensures k !in SetsOf(log) ==> (k in ApplyLog(m, log) <==> k in m && k !in DelsOf(log))
    ensures k !in SetsOf(log) && k in ApplyLog(m, log) ==> ApplyLog(m, log)[k] == m[k]
    ensures k in SetsOf(log) ==> (k in ApplyLog(m, log) <==> EndsSet(log, k))
    ensures EndsSet(log, k) ==> k in SetsOf(log) && k in ApplyLog(m, log) && ApplyLog(m, log)[k] == SetsOf(log)[k]
  {
    if log != [] {
      BatchAt(m, log[..|log| - 1], k);
    }
  }

  predicate SameAt<K, V(==)>(m: map<K, V>, n: map<K, V>, k: K) {
    if k in m then k in n && m[k] == n[k] else k !in n
  }

  lemma StoresAgreeAt<K, V>(m: map<K, V>, log: seq<Op<K, V>>, k: K)
    ensures SameAt(ApplyLog(m, log), ApplyBatch(m, SetsOf(log), DelsOf(log)), k) <==>
            (k in SetsOf(log) ==> EndsSet(log, k))
  {
    BatchAt(m, log, k);
  }

  // The stores agree on a batch exactly if no key it sets is erased after it was last set.
  lemma StoresAgreeExactly<K, V>(m: map<K, V>, log: seq<Op<K, V>>)
    ensures ApplyLog(m, log) == ApplyBatch(m, SetsOf(log), DelsOf(log)) <==>
            forall k <- SetsOf(log) :: EndsSet(log, k)
  {
    forall k: K ensures SameAt(ApplyLog(m, log), ApplyBatch(m, SetsOf(log), DelsOf(log)), k) <==>
                        (k in SetsOf(log) ==> EndsSet(log, k)) {
      StoresAgreeAt(m, log, k);
    }
    if forall k <- SetsOf(log) :: EndsSet(log, k) {
      Extensional(ApplyLog(m, log), ApplyBatch(m, SetsOf(log), DelsOf(log)));
    } else {
      var k :| k in SetsOf(log) && !EndsSet(log, k);
      StoresAgreeAt(m, log, k);
    }
  }

  lemma Extensional<K, V>(m: map<K, V>, n: map<K, V>)
    requires forall k: K :: SameAt(m, n, k)
    ensures m == n
  {
    assert forall k :: k in m ==> SameAt(m, n, k);
    assert forall k :: k in n ==> SameAt(m, n, k);
  }

  lemma {:induction false} CleanEndsSet<K, V>(log: seq<Op<K, V>>, k: K)
    requires Clean(log) && k in SetsOf(log)
    ensures EndsSet(log, k)
  {
    var last := log[|log| - 1];
    var init := log[..|log| - 1];
    if last.key != k {
      CleanEndsSet(init, k);
    } else if last.Erase? {
      InSets(init, k);
    }
  }

  // Clean batches, which are all that the repository makes, mean the same to both stores.
  lemma CleanBatch<K, V>(m: map<K, V>, log: seq<Op<K, V>>)
    requires Clean(log)
    ensures ApplyLog(m, log) == ApplyBatch(m, SetsOf(log), DelsOf(log))
  {
    forall k | k in SetsOf(log) ensures EndsSet(log, k) {
      CleanEndsSet(log, k);
    }
    StoresAgreeExactly(m, log);
  }

  // Setting a key and then erasing it in one batch tells the two stores apart.
  lemma UncleanBatch<K, V>(m: map<K, V>, k: K, v: V)
    ensures var log := [Set(k, v), Erase(k)];
      ApplyLog(m, log) != ApplyBatch(m, SetsOf(log), DelsOf(log))
  {
    var log := [Set(k, v), Erase(k)];
    assert log[..1] == [Set(k, v)];
    assert k in SetsOf(log[..1]);
    StoresAgreeExactly(m, log);
  }

  class Batch<K(==), V> {
    var sets: map<K, V>
    var dels: set<K>
    var log: seq<Op<K, V>>

    ghost predicate Valid()
      reads this
    {
      sets == SetsOf(log) && dels == DelsOf(log)
    }

    constructor ()
      ensures Valid() && sets == map[] && dels == {} && Clean(log)
    {
      sets, dels, log := map[], {}, [];
    }

    method Set(k: K, v: V)
      requires Valid()
      modifies this
      ensures Valid() && sets == old(sets)[k := v] && dels == old(dels)
      ensures old(Clean(log)) ==> Clean(log)
    {
      sets := sets[k := v];
      log := log + [Op.Set(k, v)];
      assert log[..|log| - 1] == old(log);
    }

    method Erase(k: K)
      requires Valid()
      modifies this
      ensures Valid() && sets == old(sets) && dels == old(dels) + {k}
      ensures old(Clean(log)) && k !in sets ==> Clean(log)
    {
      InSets(log, k);
      dels := dels + {k};
      log := log + [Op.Erase(k)];
      assert log[..|log| - 1] == old(log);
    }
  }

  // A store of either kind: `ordered` for LevelDB, otherwise the memory store.
  class KeyValueStore<K(==), V> {
    const ordered: bool
    var records: map<K, V>

    constructor (ordered: bool)
      ensures records == map[] && this.ordered == ordered
    {
      this.ordered, records := ordered, map[];
    }

    method Set(k: K, v: V)
      modifies this
      ensures records == old(records)[k := v]
    {
      records := records[k := v];
    }

    // The memory store's commit: the erasures, then the sets.
    method CommitUnordered(batch: Batch<K, V>)
      modifies this
      ensures records == ApplyBatch(old(records), batch.sets, batch.dels)
    {
      var dels := batch.dels;
      while dels != {}
        invariant dels <= batch.dels
        invariant records == old(records) - (batch.dels - dels)
      {
        var k :| k in dels;
        dels := dels - {k};
        records := records - {k};
      }
      var todo := batch.sets.Keys;
      while todo != {}
        invariant todo <= batch.sets.Keys
        invariant records == (old(records) - batch.dels) + (batch.sets - todo)
      {
        var k :| k in todo;
        todo := todo - {k};
        records := records[k := batch.sets[k]];
      }
      assert batch.sets - {} == batch.sets;
    }

    // LevelDB's: every operation in turn.
    method CommitOrdered(batch: Batch<K, V>)
      modifies this
      ensures records == ApplyLog(old(records), batch.log)
    {
      for i := 0 to |batch.log|
        invariant records == ApplyLog(old(records), batch.log[..i])
      {
        assert batch.log[..i + 1][..i] == batch.log[..i];
        match batch.log[i] {
          case Set(k, v) => records := records[k := v];
          case Erase(k) => records := records - {k};
        }
      }
      assert batch.log[..|batch.log|] == batch.log;
    }

    // A clean batch has the same effect on either store.
    method Commit(batch: Batch<K, V>)
      requires batch.Valid()
      modifies this
      ensures records == if ordered then ApplyLog(old(records), batch.log)
                                    else ApplyBatch(old(records), batch.sets, batch.dels)
      ensures Clean(batch.log) ==> records == ApplyBatch(old(records), batch.sets, batch.dels)
    {
      if Clean(batch.log) {
        CleanBatch(records, batch.log);
      }
      if ordered {
        CommitOrdered(batch);
      } else {
        CommitUnordered(batch);
      }
    }
  }

  // ----- keys(): the prefix scan of the memory store ---------------------------------

  // The order of std::string.
  predicate Less(a: string, b: string) {
    b != [] && (a == [] || a[0] < b[0] || (a[0] == b[0] && Less(a[1..], b[1..])))
  }

  lemma {:induction false} LessTrans(a: string, b: string, c: string)
    requires Less(a, b) && Less(b, c)
    ensures Less(a, c)
  {
    if a != [] && a[0] == b[0] == c[0] {
      LessTrans(a[1..], b[1..], c[1..]);
    }
  }

  // A string with the prefix is not below the prefix.
  lemma {:induction false} PrefixNotBelow(base: string, k: string)
    requires base <= k
    ensures !Less(k, base)
  {
    if base != [] {
      PrefixNotBelow(base[1..], k[1..]);
    }
  }

  // Whatever lies between the prefix and a string that has it, has it too.
  lemma {:induction false} PrefixIsConvex(base: string, k: string, l: string)
    requires !Less(k, base) && Less(k, l) && base <= l
    ensures base <= k
  {
    if base != [] {
      PrefixIsConvex(base[1..], k[1..], l[1..]);
      assert base == [base[0]] + base[1..] && k == [k[0]] + k[1..];
    }
  }

  ghost predicate Sorted(ks: seq<string>) {
    forall i, j :: 0 <= i < j < |ks| ==> Less(ks[i], ks[j])
  }

  // Starting at lower_bound(base) and stopping at the first key without the prefix
  // collects exactly the keys with the prefix, as a scan of all keys would.
  method Keys(all: seq<string>, base: string) returns (keys: set<string>)
    requires Sorted(all)
    ensures keys == set k | k in all && base <= k
  {
    var i := 0;
    while i < |all| && Less(all[i], base)
      invariant 0 <= i <= |all|
      invariant forall j :: 0 <= j < i ==> Less(all[j], base)
    {
      i := i + 1;
    }
    ghost var first := i;
    forall j | 0 <= j < first && base <= all[j] ensures false {
      PrefixNotBelow(base, all[j]);
    }
    forall j | first <= j < |all| ensures !Less(all[j], base) {
      if j > first && Less(all[j], base) {
        LessTrans(all[first], all[j], base);
      }
    }
    keys := {};
    while i < |all|
      invariant first <= i <= |all|
      invariant keys == set k | k in all[..i] && base <= k
    {
      if !(base <= all[i]) {
        forall j | i < j < |all| && base <= all[j] ensures false {
          PrefixIsConvex(base, all[i], all[j]);
        }
        break;
      }
      keys := keys + {all[i]};
      i := i + 1;
    }
  }
}
