/** Last-wins de-duplication of seed accounts and DKIM keys in internal/config/config.go. */
module Merge {
  import opened Text

  /** A seed account or DKIM key: the e-mail or domain it is keyed by, and the rest. */
  datatype Entry<T> = Entry(key: string, rest: T)

  function Normal<T>(e: Entry<T>): Entry<T> {
    e.(key := Canon(e.key))
  }

  /** The position of the first entry with normalised key `k`, or the length. */
  function FirstIndex<T>(entries: seq<Entry<T>>, k: string): (i: nat)
    ensures i <= |entries|
    ensures i < |entries| ==> Canon(entries[i].key) == k
    ensures forall j :: 0 <= j < i ==> Canon(entries[j].key) != k
  {
    if entries == [] || Canon(entries[0].key) == k then 0 else 1 + FirstIndex(entries[1..], k)
  }

  predicate Occurs<T>(entries: seq<Entry<T>>, k: string) {
    FirstIndex(entries, k) < |entries|
  }

  /** The normalised form of the last entry with key `k`. */
  function Last<T>(entries: seq<Entry<T>>, k: string): (r: Entry<T>)
    requires Occurs(entries, k)
    ensures r.key == k
    decreases |entries|
  {
    var n := |entries| - 1;
    if Canon(entries[n].key) == k then Normal(entries[n])
    else
      assert Occurs(entries[..n], k);
      Last(entries[..n], k)
  }

  /** `uniq` is the merged form of `entries`: every key once, with its last entry, at the place of its first. */
  ghost predicate Merged<T>(entries: seq<Entry<T>>, uniq: seq<Entry<T>>) {
    HoldsLast(entries, uniq) && FirstSeenOrder(entries, uniq) && Covers(entries, uniq)
  }

  ghost predicate HoldsLast<T>(entries: seq<Entry<T>>, uniq: seq<Entry<T>>) {
    forall i :: 0 <= i < |uniq| ==> Occurs(entries, uniq[i].key) && uniq[i] == Last(entries, uniq[i].key)
  }

  ghost predicate FirstSeenOrder<T>(entries: seq<Entry<T>>, uniq: seq<Entry<T>>) {
    forall i, j :: 0 <= i < j < |uniq| ==> FirstIndex(entries, uniq[i].key) < FirstIndex(entries, uniq[j].key)
  }

  ghost predicate Covers<T>(entries: seq<Entry<T>>, uniq: seq<Entry<T>>) {
    forall k :: Occurs(entries, k) ==> exists i :: 0 <= i < |uniq| && uniq[i].key == k
  }

  lemma FirstIndexAppend<T>(entries: seq<Entry<T>>, e: Entry<T>, k: string)
    ensures Occurs(entries, k) ==> FirstIndex(entries + [e], k) == FirstIndex(entries, k)
    ensures !Occurs(entries, k) && Canon(e.key) == k ==> FirstIndex(entries + [e], k) == |entries|
    ensures Occurs(entries + [e], k) <==> Occurs(entries, k) || Canon(e.key) == k
  {
    var all := entries + [e];
    assert all[|entries|] == e && forall i :: 0 <= i < |entries| ==> all[i] == entries[i];
  }

  lemma LastAppend<T>(entries: seq<Entry<T>>, e: Entry<T>, k: string)
    requires Occurs(entries, k) || Canon(e.key) == k
    ensures Occurs(entries + [e], k)
    ensures Last(entries + [e], k) == if Canon(e.key) == k then Normal(e) else Last(entries, k)
  {
    FirstIndexAppend(entries, e, k);
    assert (entries + [e])[..|entries|] == entries;
  }

  /** Overwriting the entry of a known key in place. */
  lemma OverwriteKeepsMerged<T>(entries: seq<Entry<T>>, e: Entry<T>, uniq: seq<Entry<T>>, i: nat)
    requires Merged(entries, uniq) && i < |uniq| && uniq[i].key == Canon(e.key)
    ensures Merged(entries + [e], uniq[i := Normal(e)])
  {
    var all, u := entries + [e], uniq[i := Normal(e)];
    forall j | 0 <= j < |u|
      ensures Occurs(all, u[j].key) && u[j] == Last(all, u[j].key) && u[j].key == uniq[j].key
      ensures FirstIndex(all, u[j].key) == FirstIndex(entries, uniq[j].key)
    {
      FirstIndexAppend(entries, e, u[j].key);
      LastAppend(entries, e, u[j].key);
      if j != i { MergedDistinct(entries, uniq, i, j); }
    }
    forall k | Occurs(all, k) ensures exists j :: 0 <= j < |u| && u[j].key == k {
      FirstIndexAppend(entries, e, k);
      var j :| 0 <= j < |uniq| && uniq[j].key == k;
      assert u[j].key == k;
    }
  }

  /** A merged list has every key once. */
  lemma MergedDistinct<T>(entries: seq<Entry<T>>, uniq: seq<Entry<T>>, i: nat, j: nat)
    requires Merged(entries, uniq) && i < |uniq| && j < |uniq| && i != j
    ensures uniq[i].key != uniq[j].key
  {
    if i < j {
      assert FirstIndex(entries, uniq[i].key) < FirstIndex(entries, uniq[j].key);
    } else {
      assert FirstIndex(entries, uniq[j].key) < FirstIndex(entries, uniq[i].key);
    }
  }

  /** Appending the entry of a new key. */
  lemma AppendKeepsMerged<T>(entries: seq<Entry<T>>, e: Entry<T>, uniq: seq<Entry<T>>)
    requires Merged(entries, uniq) && !Occurs(entries, Canon(e.key))
    ensures Merged(entries + [e], uniq + [Normal(e)])
  {
    var all, u := entries + [e], uniq + [Normal(e)];
    forall j | 0 <= j < |u|
      ensures Occurs(all, u[j].key) && u[j] == Last(all, u[j].key)
      ensures FirstIndex(all, u[j].key) == if j < |uniq| then FirstIndex(entries, uniq[j].key) else |entries|
    {
      FirstIndexAppend(entries, e, u[j].key);
      LastAppend(entries, e, u[j].key);
    }
    forall k | Occurs(all, k) ensures exists j :: 0 <= j < |u| && u[j].key == k {
      FirstIndexAppend(entries, e, k);
      if k == Canon(e.key) {
        assert u[|uniq|].key == k;
      } else {
        var j :| 0 <= j < |uniq| && uniq[j].key == k;
        assert u[j].key == k;
      }
    }
  }

  /** The index map points every key seen so far at its place. */
  ghost predicate Indexed<T>(entries: seq<Entry<T>>, uniq: seq<Entry<T>>, index: map<string, nat>) {
    && (forall k :: k in index <==> Occurs(entries, k))
    && (forall k :: k in index ==> index[k] < |uniq| && uniq[index[k]].key == k)
  }

  lemma OccursAppend<T>(entries: seq<Entry<T>>, e: Entry<T>, key: string)
    requires key == Canon(e.key)
    ensures forall k :: Occurs(entries + [e], k) <==> Occurs(entries, k) || k == key
  {
    forall k ensures Occurs(entries + [e], k) <==> Occurs(entries, k) || k == key {
      FirstIndexAppend(entries, e, k);
    }
  }

  lemma IndexedOverwrite<T>(
    entries: seq<Entry<T>>, e: Entry<T>, uniq: seq<Entry<T>>, index: map<string, nat>, key: string)
    requires Indexed(entries, uniq, index) && key == Canon(e.key) && key in index
    ensures Indexed(entries + [e], uniq[index[key] := Normal(e)], index)
  {
    OccursAppend(entries, e, key);
  }

  lemma IndexedAppend<T>(
    entries: seq<Entry<T>>, e: Entry<T>, uniq: seq<Entry<T>>, index: map<string, nat>, key: string)
    requires Indexed(entries, uniq, index) && key == Canon(e.key) && key !in index
    ensures Indexed(entries + [e], uniq + [Normal(e)], index[key := |uniq|])
  {
    OccursAppend(entries, e, key);
  }

  ghost predicate Progress<T>(entries: seq<Entry<T>>, uniq: seq<Entry<T>>, index: map<string, nat>) {
    Merged(entries, uniq) && Indexed(entries, uniq, index)
  }

  /** One turn of the loop: the entry of a known key is overwritten in place, that of a new key appended. */
  method Place<T>(ghost entries: seq<Entry<T>>, e: Entry<T>, uniq: seq<Entry<T>>, index: map<string, nat>)
    returns (uniq': seq<Entry<T>>, index': map<string, nat>)
    requires Progress(entries, uniq, index)
    ensures Progress(entries + [e], uniq', index')
  {
    var k := Canon(e.key);
    if k in index {
      IndexedOverwrite(entries, e, uniq, index, k);
      OverwriteKeepsMerged(entries, e, uniq, index[k]);
      uniq', index' := uniq[index[k] := Normal(e)], index;
    } else {
      IndexedAppend(entries, e, uniq, index, k);
      AppendKeepsMerged(entries, e, uniq);
      uniq', index' := uniq + [Normal(e)], index[k := |uniq|];
    }
  }

  /** The loops of normalizeAndValidate, with the index map they keep. */
  method Deduplicate<T>(entries: seq<Entry<T>>) returns (uniq: seq<Entry<T>>)
    ensures Merged(entries, uniq)
  {
    uniq := [];
    var index: map<string, nat> := map[];
    for n := 0 to |entries|
      invariant Progress(entries[..n], uniq, index)
    {
      uniq, index := Place(entries[..n], entries[n], uniq, index);
      TakeOneMore(entries, n);
    }
    assert entries[..|entries|] == entries;
  }

  lemma TakeOneMore<T>(entries: seq<Entry<T>>, n: nat)
    requires n < |entries|
    ensures entries[..n + 1] == entries[..n] + [entries[n]]
  {
  }

  predicate Named<T>(env: seq<Entry<T>>, key: string) {
    exists j :: 0 <= j < |env| && env[j].key == key
  }

  /** The YAML entries that no environment entry names by exactly the same string. */
  function Unnamed<T>(yaml: seq<Entry<T>>, env: seq<Entry<T>>): seq<Entry<T>> {
    if yaml == [] then []
    else
      var n := |yaml| - 1;
      Unnamed(yaml[..n], env) + if Named(env, yaml[n].key) then [] else [yaml[n]]
  }

  /** An entry of the configuration file stays exactly when no environment entry has literally its key. */
  lemma {:induction false} UnnamedExactly<T>(yaml: seq<Entry<T>>, env: seq<Entry<T>>, e: Entry<T>)
    ensures e in Unnamed(yaml, env) <==> e in yaml && forall j :: 0 <= j < |env| ==> env[j].key != e.key
  {
    if yaml != [] {
      var n := |yaml| - 1;
      UnnamedExactly(yaml[..n], env, e);
      assert e in yaml <==> e in yaml[..n] || e == yaml[n];
    }
  }

  /** The pre-filter of Load. */
  method MergeEnv<T>(yaml: seq<Entry<T>>, env: seq<Entry<T>>) returns (merged: seq<Entry<T>>)
    ensures merged == Unnamed(yaml, env) + env
  {
    if |env| == 0 {
      UnnamedByNone(yaml);
      assert yaml + env == yaml;
      return yaml;
    }
    merged := [];
    for i := 0 to |yaml|
      invariant merged == Unnamed(yaml[..i], env)
    {
      var dupe := false;
      for j := 0 to |env|
        invariant dupe <==> exists m :: 0 <= m < j && env[m].key == yaml[i].key
      {
        if env[j].key == yaml[i].key {
          dupe := true;
        }
      }
      assert yaml[..i + 1][..i] == yaml[..i];
      if !dupe {
        merged := merged + [yaml[i]];
      }
    }
    assert yaml[..|yaml|] == yaml;
    merged := merged + env;
  }

  lemma {:induction false} UnnamedByNone<T>(yaml: seq<Entry<T>>)
    ensures Unnamed(yaml, []) == yaml
  {
    if yaml != [] {
      var n := |yaml| - 1;
      UnnamedByNone(yaml[..n]);
      assert yaml == yaml[..n] + [yaml[n]];
    }
  }

  /** Later lists win: the last entry of a key in `a + b` is that of `b`, if `b` has the key at all. */
  lemma {:induction false} LastOfConcat<T>(a: seq<Entry<T>>, b: seq<Entry<T>>, k: string)
    ensures Occurs(a + b, k) <==> Occurs(a, k) || Occurs(b, k)
    ensures Occurs(b, k) ==> Last(a + b, k) == Last(b, k)
    ensures !Occurs(b, k) && Occurs(a, k) ==> Last(a + b, k) == Last(a, k)
    decreases |b|
  {
    if b == [] {
      assert a + b == a;
    } else {
      var n := |b| - 1;
      LastOfConcat(a, b[..n], k);
      assert a + b == (a + b[..n]) + [b[n]] && b == b[..n] + [b[n]];
      ConcatAppend(a, a + b[..n], b[..n], b[n], k);
    }
  }

  lemma ConcatAppend<T>(a: seq<Entry<T>>, ab: seq<Entry<T>>, b: seq<Entry<T>>, e: Entry<T>, k: string)
    requires Occurs(ab, k) <==> Occurs(a, k) || Occurs(b, k)
    requires Occurs(b, k) ==> Last(ab, k) == Last(b, k)
    requires !Occurs(b, k) && Occurs(a, k) ==> Last(ab, k) == Last(a, k)
    ensures Occurs(ab + [e], k) <==> Occurs(a, k) || Occurs(b + [e], k)
    ensures Occurs(b + [e], k) ==> Last(ab + [e], k) == Last(b + [e], k)
    ensures !Occurs(b + [e], k) && Occurs(a, k) ==> Last(ab + [e], k) == Last(a, k)
  {
    FirstIndexAppend(ab, e, k);
    FirstIndexAppend(b, e, k);
    if Occurs(ab + [e], k) { LastAppend(ab, e, k); }
    if Occurs(b + [e], k) { LastAppend(b, e, k); }
  }

  /** Two lists that agree on a key still do after the same entry is appended, or another key's to one of them. */
  lemma AgreeOn<T>(a: seq<Entry<T>>, b: seq<Entry<T>>, e: Entry<T>, k: string)
    requires Agree(a, b, k)
    ensures Agree(a + [e], b + [e], k)
    ensures Canon(e.key) != k ==> Agree(a, b + [e], k)
  {
    FirstIndexAppend(a, e, k);
    FirstIndexAppend(b, e, k);
    if Occurs(b + [e], k) {
      LastAppend(a, e, k);
      LastAppend(b, e, k);
    }
  }

  /** Both lists have the key, with the same last entry, or neither has it. */
  ghost predicate Agree<T>(a: seq<Entry<T>>, b: seq<Entry<T>>, k: string) {
    (Occurs(a, k) <==> Occurs(b, k)) && (Occurs(a, k) && Occurs(b, k) ==> Last(a, k) == Last(b, k))
  }

  /** A key the environment does not have is not touched by the pre-filter. */
  lemma {:induction false} UnnamedKeeps<T>(yaml: seq<Entry<T>>, env: seq<Entry<T>>, k: string)
    requires !Occurs(env, k)
    ensures Agree(Unnamed(yaml, env), yaml, k)
    decreases |yaml|
  {
    if yaml != [] {
      var n := |yaml| - 1;
      UnnamedKeeps(yaml[..n], env, k);
      AgreeOn(Unnamed(yaml[..n], env), yaml[..n], yaml[n], k);
      assert yaml == yaml[..n] + [yaml[n]];
      assert Named(env, yaml[n].key) ==> Unnamed(yaml, env) == Unnamed(yaml[..n], env);
    }
  }

  /** The pre-filter changes neither which keys there are nor which entry each of them ends up with. */
  lemma PreFilterHarmless<T>(yaml: seq<Entry<T>>, env: seq<Entry<T>>, k: string)
    ensures Agree(Unnamed(yaml, env) + env, yaml + env, k)
  {
    LastOfConcat(yaml, env, k);
    LastOfConcat(Unnamed(yaml, env), env, k);
    if !Occurs(env, k) { UnnamedKeeps(yaml, env, k); }
  }
}
