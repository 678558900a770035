/**
 * Tag mappings: a JSON object of string values as Python holds it, a dict
 * that remembers insertion order. Modelled as an association list whose
 * keys are distinct.
 */
module Tags {
  import opened Wrappers

  type TagList = seq<(string, string)>

  /** `d.keys()`, in order. */
  function Keys(d: TagList): (ks: seq<string>)
    ensures |ks| == |d|
    ensures forall i :: 0 <= i < |d| ==> ks[i] == d[i].0
  {
    if d == [] then [] else [d[0].0] + Keys(d[1..])
  }

  /** `d.values()`, in the same order as the keys. */
  function Values(d: TagList): (vs: seq<string>)
    ensures |vs| == |d|
    ensures forall i :: 0 <= i < |d| ==> vs[i] == d[i].1
  {
    if d == [] then [] else [d[0].1] + Values(d[1..])
  }

  predicate Distinct(ks: seq<string>) {
    forall i, j :: 0 <= i < j < |ks| ==> ks[i] != ks[j]
  }

  /** What every dict satisfies: no key twice. */
  predicate UniqueKeys(d: TagList) {
    Distinct(Keys(d))
  }

  /** `d.get(k)`: the value of the first entry with key `k`. */
  function Lookup(d: TagList, k: string): (r: Option<string>)
    ensures r.Some? <==> k in Keys(d)
  {
    if d == [] then None
    else if d[0].0 == k then Some(d[0].1)
    else Lookup(d[1..], k)
  }

  /** In a dict the key of entry `j` looks up the value of entry `j`. */
  lemma {:induction false} LookupAt(d: TagList, j: nat)
    requires UniqueKeys(d) && j < |d|
    ensures Lookup(d, d[j].0) == Some(d[j].1)
  {
    if j > 0 {
      assert Keys(d)[0] != Keys(d)[j];
      TailUnique(d);
      assert d[1..][j - 1] == d[j];
      LookupAt(d[1..], j - 1);
    }
  }

  /** `d[k] = v`. */
  function Set(d: TagList, k: string, v: string): TagList {
    if d == [] then [(k, v)]
    else if d[0].0 == k then [(k, v)] + d[1..]
    else [d[0]] + Set(d[1..], k, v)
  }

  /** Assigning `d[k] = v` makes `k` map to `v` and leaves every other key alone. */
  lemma {:induction false} SetLookup(d: TagList, k: string, v: string)
    ensures Lookup(Set(d, k, v), k) == Some(v)
    ensures forall k' :: k' != k ==> Lookup(Set(d, k, v), k') == Lookup(d, k')
  {
    if d != [] && d[0].0 != k {
      SetLookup(d[1..], k, v);
    }
  }

  /** After `d[k] = v` an existing key keeps its place; a new key goes at the end. */
  lemma {:induction false} SetKeys(d: TagList, k: string, v: string)
    ensures Keys(Set(d, k, v)) == if k in Keys(d) then Keys(d) else Keys(d) + [k]
  {
    if d == [] {
    } else if d[0].0 == k {
      assert Keys(Set(d, k, v)) == [k] + Keys(d[1..]) == Keys(d);
    } else {
      var rest := Set(d[1..], k, v);
      SetKeys(d[1..], k, v);
      assert Set(d, k, v) == [d[0]] + rest;
      assert Keys([d[0]] + rest) == [d[0].0] + Keys(rest);
      assert Keys(d) == [d[0].0] + Keys(d[1..]);
    }
  }

  /** Assignment keeps the keys distinct. */
  lemma SetUnique(d: TagList, k: string, v: string)
    requires UniqueKeys(d)
    ensures UniqueKeys(Set(d, k, v))
  {
    SetKeys(d, k, v);
    var ks := Keys(d);
    if k !in ks {
      assert Keys(Set(d, k, v)) == ks + [k];
      forall i, j | 0 <= i < j < |ks| + 1 ensures (ks + [k])[i] != (ks + [k])[j] {
        if j == |ks| {
          assert (ks + [k])[i] == ks[i];
        }
      }
    }
  }

  /** The keys of `ks` that `present` does not hold, in the order of `ks`. */
  function NewKeys(ks: seq<string>, present: seq<string>): (r: seq<string>)
    ensures forall k :: k in r <==> k in ks && k !in present
  {
    if ks == [] then []
    else (if ks[0] in present then [] else [ks[0]]) + NewKeys(ks[1..], present)
  }

  /** `l | r` (PEP 584): a copy of `l` updated, entry by entry, with `r`. */
  function Union(l: TagList, r: TagList): TagList
    decreases |r|
  {
    if r == [] then l else Union(Set(l, r[0].0, r[0].1), r[1..])
  }

  /** `l | r` of two dicts is a dict: its keys are distinct. */
  lemma {:induction false} UnionUnique(l: TagList, r: TagList)
    requires UniqueKeys(l)
    ensures UniqueKeys(Union(l, r))
    decreases |r|
  {
    if r != [] {
      SetUnique(l, r[0].0, r[0].1);
      UnionUnique(Set(l, r[0].0, r[0].1), r[1..]);
    }
  }

  /** In `l | r` a key `r` holds takes `r`'s value; any other key keeps `l`'s. */
  lemma {:induction false} UnionLookup(l: TagList, r: TagList, k: string)
    requires UniqueKeys(r)
    ensures Lookup(Union(l, r), k) == if Lookup(r, k).Some? then Lookup(r, k) else Lookup(l, k)
    decreases |r|
  {
    if r != [] {
      var (k0, v0) := r[0];
      SetLookup(l, k0, v0);
      TailUnique(r);
      UnionLookup(Set(l, k0, v0), r[1..], k);
      if k == k0 {
        assert Lookup(r[1..], k) == None;
      } else {
        assert Lookup(r, k) == Lookup(r[1..], k);
      }
    }
  }

  /**
   * In `l | r` the keys of `l` keep their order and the keys only `r` has
   * follow in `r`'s order.
   */
  lemma {:induction false} UnionKeys(l: TagList, r: TagList)
    requires UniqueKeys(r)
    ensures Keys(Union(l, r)) == Keys(l) + NewKeys(Keys(r), Keys(l))
    decreases |r|
  {
    if r == [] {
      assert Keys(l) + [] == Keys(l);
    } else {
      var k0, v0, r' := r[0].0, r[0].1, r[1..];
      var l' := Set(l, k0, v0);
      SetKeys(l, k0, v0);
      TailUnique(r);
      UnionKeys(l', r');
      assert Keys(r) == [k0] + Keys(r');
      KeysStep(Keys(l), k0, Keys(r'), Keys(l'));
    }
  }

  /** One step of UnionKeys, on key sequences alone. */
  lemma KeysStep(kl: seq<string>, k0: string, kr: seq<string>, kl': seq<string>)
    requires k0 !in kr
    requires kl' == if k0 in kl then kl else kl + [k0]
    ensures kl' + NewKeys(kr, kl') == kl + NewKeys([k0] + kr, kl)
  {
    var n := NewKeys(kr, kl);
    assert ([k0] + kr)[1..] == kr;
    assert NewKeys([k0] + kr, kl) == (if k0 in kl then [] else [k0]) + n;
    if k0 in kl {
      assert [] + n == n;
    } else {
      NewKeysIgnores(kr, kl, k0);
      Assoc(kl, [k0], n);
    }
  }

  /** The rest of a dict with distinct keys has distinct keys, none of them its first key. */
  lemma TailUnique(r: TagList)
    requires r != []
    ensures UniqueKeys(r) ==> UniqueKeys(r[1..]) && r[0].0 !in Keys(r[1..])
  {
    if UniqueKeys(r) {
      forall i, j | 0 <= i < j < |r| - 1 ensures Keys(r[1..])[i] != Keys(r[1..])[j] {
        assert Keys(r[1..])[i] == Keys(r)[i + 1];
        assert Keys(r[1..])[j] == Keys(r)[j + 1];
      }
      forall i | 0 <= i < |r| - 1 ensures Keys(r[1..])[i] != r[0].0 {
        assert Keys(r[1..])[i] == Keys(r)[i + 1];
      }
    }
  }

  /** A key that `ks` does not hold makes no difference to which keys of `ks` are new. */
  lemma {:induction false} NewKeysIgnores(ks: seq<string>, present: seq<string>, x: string)
    ensures x !in ks ==> NewKeys(ks, present + [x]) == NewKeys(ks, present)
  {
    if ks != [] && x !in ks {
      NewKeysIgnores(ks[1..], present, x);
    }
  }

}
