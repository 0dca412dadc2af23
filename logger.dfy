/**
 * logger/log.go: mergeFields, which folds the optional field maps of a log
 * call into one. Writing the entry to standard output is not modelled.
 */
module Logger {
  import opened Wrappers

  /** The map obtained by copying the maps in order: a later map overrides an earlier one. */
  function Merged<V>(fields: seq<map<string, V>>): map<string, V> {
    if fields == [] then map[] else Merged(fields[..|fields| - 1]) + fields[|fields| - 1]
  }

  /** The keys of all the maps. */
  function KeyUnion<V>(fields: seq<map<string, V>>): set<string> {
    if fields == [] then {} else KeyUnion(fields[..|fields| - 1]) + fields[|fields| - 1].Keys
  }

  /** The position of the last map that holds `k`, or -1 when none does. */
  function LastHolder<V>(fields: seq<map<string, V>>, k: string): (j: int)
    ensures -1 <= j < |fields|
    ensures j >= 0 ==> k in fields[j]
    ensures forall i :: j < i < |fields| ==> k !in fields[i]
  {
    if fields == [] then -1
    else if k in fields[|fields| - 1] then |fields| - 1
    else LastHolder(fields[..|fields| - 1], k)
  }

  function Restrict<V>(m: map<string, V>, keys: set<string>): map<string, V> {
    map k | k in keys && k in m :: m[k]
  }

  /**
   * mergeFields: nil when called without arguments; otherwise a fresh map
   * filled by copying every entry of every argument in order.
   */
  method MergeFields<V>(fields: seq<map<string, V>>) returns (r: Option<map<string, V>>)
    ensures r.None? <==> |fields| == 0
    ensures r.Some? ==> r.value == Merged(fields)
  {
    if |fields| == 0 {
      return None;
    }
    var result: map<string, V> := map[];
    for i := 0 to |fields|
      invariant result == Merged(fields[..i])
    {
      var f := fields[i];
      var base := result;
      var todo := f.Keys;
      ghost var done: set<string> := {};
      RestrictNone(f);
      while todo != {}
        invariant todo <= f.Keys && done == f.Keys - todo
        invariant result == base + Restrict(f, done)
        decreases todo
      {
        var k :| k in todo;
        CopyOne(base, f, done, k);
        result := result[k := f[k]];
        todo := todo - {k};
        done := done + {k};
      }
      assert done == f.Keys;
      CopiedAll(fields, i, base);
    }
    assert fields[..|fields|] == fields;
    return Some(result);
  }

  lemma RestrictNone<V>(f: map<string, V>)
    ensures Restrict(f, {}) == map[]
  {
  }

  /** Copying one more entry of `f` over the partial result. */
  lemma CopyOne<V>(base: map<string, V>, f: map<string, V>, done: set<string>, k: string)
    requires k in f
    ensures (base + Restrict(f, done))[k := f[k]] == base + Restrict(f, done + {k})
  {
  }

  /** Once every entry of `fields[i]` is copied, the result is the merge of the first i + 1 maps. */
  lemma CopiedAll<V>(fields: seq<map<string, V>>, i: int, base: map<string, V>)
    requires 0 <= i < |fields| && base == Merged(fields[..i])
    ensures base + Restrict(fields[i], fields[i].Keys) == Merged(fields[..i + 1])
  {
    assert Restrict(fields[i], fields[i].Keys) == fields[i];
    assert fields[..i + 1][..i] == fields[..i];
  }

  /** The merged map has exactly the keys of the inputs. */
  lemma {:induction false} MergedKeys<V>(fields: seq<map<string, V>>)
    ensures Merged(fields).Keys == KeyUnion(fields)
  {
    if fields != [] {
      MergedKeys(fields[..|fields| - 1]);
    }
  }

  /** Each key takes its value from the last map that holds it. */
  lemma {:induction false} MergedTakesLast<V>(fields: seq<map<string, V>>, k: string)
    ensures k in Merged(fields) <==> LastHolder(fields, k) >= 0
    ensures k in Merged(fields) ==> Merged(fields)[k] == fields[LastHolder(fields, k)][k]
  {
    if fields != [] && k !in fields[|fields| - 1] {
      var init := fields[..|fields| - 1];
      MergedTakesLast(init, k);
      var j := LastHolder(init, k);
      if j >= 0 {
        assert fields[j] == init[j];
      }
    }
  }
}
