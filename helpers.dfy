/** The list and dict utilities of src/utils/helpers.py: `chunk_list`, `deduplicate_entities`
    and `merge_dictionaries`. */
module Helpers {
  import opened Wrappers
  import opened PyStr
  import opened Records

  // ---------------------------------------------------------------------------
  // chunk_list

  /** `chunk_list(lst, chunk_size)`: the slices `lst[i:i + chunk_size]` for `i` in
      `range(0, len(lst), chunk_size)`. The size must be positive: `range` raises on a step
      of 0, and a negative step yields no index at all. */
  function ChunkList<T>(lst: seq<T>, size: nat): (r: seq<seq<T>>)
    requires size > 0
    decreases |lst|
  {
    if lst == [] then []
    else if |lst| <= size then [lst]
    else [lst[..size]] + ChunkList(lst[size..], size)
  }

  /** Concatenating the chunks gives the list back. */
  lemma {:induction false} ChunkListFlatten<T>(lst: seq<T>, size: nat)
    requires size > 0
    ensures Flatten(ChunkList(lst, size)) == lst
    decreases |lst|
  {
    var r := ChunkList(lst, size);
    if |lst| > size {
      var head, tail := lst[..size], lst[size..];
      var rest := ChunkList(tail, size);
      assert r == [head] + rest;
      ChunkListFlatten(tail, size);
      FlattenCons(head, rest);
      assert Flatten(r) == head + tail;
      assert head + tail == lst;
    } else if lst != [] {
      assert r == [lst] + [];
      FlattenCons(lst, []);
    }
  }

  lemma FlattenCons<T>(a: seq<T>, rest: seq<seq<T>>)
    ensures Flatten([a] + rest) == a + Flatten(rest)
  {
    assert ([a] + rest)[1..] == rest;
  }

  /** Every chunk is non-empty and at most `size` long, and all but the last are exactly
      `size` long; there are `ceil(len(lst) / size)` of them, the number of steps of the
      `range`. */
  lemma {:induction false} ChunkListShape<T>(lst: seq<T>, size: nat)
    requires size > 0
    ensures var r := ChunkList(lst, size);
      (|r| - 1) * size < |lst| <= |r| * size &&
      forall k :: 0 <= k < |r| ==> 0 < |r[k]| <= size && (k < |r| - 1 ==> |r[k]| == size)
    decreases |lst|
  {
    var r := ChunkList(lst, size);
    if |lst| > size {
      var rest := ChunkList(lst[size..], size);
      ChunkListShape(lst[size..], size);
      assert r == [lst[..size]] + rest;
      MulStep(|r|, size);
      MulStep(|rest|, size);
      forall k | 1 <= k < |r| ensures r[k] == rest[k - 1] {
      }
    }
  }

  lemma MulStep(j: int, d: int)
    ensures j * d == (j - 1) * d + d
    ensures 1 <= j && 0 <= d ==> 0 <= (j - 1) * d
  {
  }

  /** `lst[i:i + size]` for `0 <= i <= len(lst)`. */
  function Window<T>(lst: seq<T>, i: nat, size: nat): (r: seq<T>)
    requires i <= |lst|
    ensures r == Slice(lst, i, i + size)
  {
    if i + size <= |lst| then lst[i..i + size] else lst[i..]
  }

  /** The `j`-th chunk is the slice the comprehension takes at `i = j * size`. */
  lemma {:induction false} ChunkListIndex<T>(lst: seq<T>, size: nat, j: nat)
    requires size > 0 && j < |ChunkList(lst, size)|
    ensures j * size < |lst|
    ensures ChunkList(lst, size)[j] == Window(lst, j * size, size)
    decreases |lst|
  {
    var r := ChunkList(lst, size);
    if j == 0 {
      assert j * size == 0;
    } else {
      var rest := ChunkList(lst[size..], size);
      assert r[j] == rest[j - 1];
      ChunkListIndex(lst[size..], size, j - 1);
      MulStep(j, size);
      var i: nat := (j - 1) * size;
      var js := j * size;
      assert js == i + size;
      WindowShift(lst, size, i);
      assert r[j] == Window(lst, js, size);
    }
  }

  /** A window of `lst[size:]` is the window of `lst` shifted by `size`. */
  lemma WindowShift<T>(lst: seq<T>, size: nat, i: nat)
    requires size <= |lst| && i < |lst| - size
    ensures Window(lst[size..], i, size) == Window(lst, i + size, size)
  {
    if i + size <= |lst| - size {
      assert lst[size..][i..i + size] == lst[i + size..i + size + size];
    } else {
      assert lst[size..][i..] == lst[i + size..];
    }
  }

  // ---------------------------------------------------------------------------
  // deduplicate_entities
  //
  // The loop and its properties are stated for any key function `key`; the source's key is
  // `Key` below, and nothing here depends on how it normalises.

  /** The de-duplication key: the entity's text, lower-cased and stripped. */
  function Key(e: ExtractedEntity): string {
    Strip(Lower(e.text))
  }

  /** The keys of a list of elements. */
  function KeysOf<E>(es: seq<E>, key: E -> string): set<string> {
    set k | 0 <= k < |es| :: key(es[k])
  }

  lemma KeysOfAppend<E>(es: seq<E>, e: E, key: E -> string)
    ensures KeysOf(es + [e], key) == KeysOf(es, key) + {key(e)}
  {
    var es' := es + [e];
    forall x | x in KeysOf(es', key) ensures x in KeysOf(es, key) + {key(e)} {
      var k :| 0 <= k < |es'| && key(es'[k]) == x;
      if k < |es| {
        assert es'[k] == es[k];
      }
    }
    forall x | x in KeysOf(es, key) ensures x in KeysOf(es', key) {
      var k :| 0 <= k < |es| && key(es[k]) == x;
      assert es'[k] == es[k];
    }
    assert es'[|es|] == e;
  }

  /** What the loop of `deduplicate_entities` has kept after the elements of `es`: an element
      is appended when its key has not been seen. */
  function Dedup<E>(es: seq<E>, key: E -> string): (r: seq<E>)
    ensures |r| <= |es|
  {
    if es == [] then []
    else
      var u := Dedup(es[..|es| - 1], key);
      var e := es[|es| - 1];
      if key(e) in KeysOf(u, key) then u else u + [e]
  }

  /** `deduplicate_entities(entities)` */
  method DeduplicateEntities(entities: seq<ExtractedEntity>) returns (unique: seq<ExtractedEntity>)
    ensures unique == Dedup(entities, Key)
  {
    var seen: set<string> := {};
    unique := [];
    for i := 0 to |entities|
      invariant unique == Dedup(entities[..i], Key)
      invariant seen == KeysOf(unique, Key)
    {
      var entity := entities[i];
      var normalized := Strip(Lower(entity.text));
      assert entities[..i + 1][..i] == entities[..i];
      if normalized !in seen {
        KeysOfAppend(unique, entity, Key);
        seen := seen + {normalized};
        unique := unique + [entity];
      }
    }
    assert entities[..|entities|] == entities;
  }

  /** The element at `j` is the first one with its key. */
  predicate IsFirst<E>(es: seq<E>, key: E -> string, j: nat)
    requires j < |es|
  {
    forall i :: 0 <= i < j ==> key(es[i]) != key(es[j])
  }

  /** The first element with each key, in input order: an independent description of what
      is kept. */
  function FirstOccurrences<E>(es: seq<E>, key: E -> string): seq<E> {
    if es == [] then []
    else
      var n := |es| - 1;
      FirstOccurrences(es[..n], key) + (if IsFirst(es, key, n) then [es[n]] else [])
  }

  /** No two elements share a key. */
  predicate DistinctKeys<E>(es: seq<E>, key: E -> string) {
    forall i, j :: 0 <= i < j < |es| ==> key(es[i]) != key(es[j])
  }

  /** Every key of the input is kept, and no other. */
  lemma {:induction false} DedupKeys<E>(es: seq<E>, key: E -> string)
    ensures KeysOf(Dedup(es, key), key) == KeysOf(es, key)
  {
    if es != [] {
      var n := |es| - 1;
      var u := Dedup(es[..n], key);
      DedupKeys(es[..n], key);
      KeysOfAppend(es[..n], es[n], key);
      assert es[..n] + [es[n]] == es;
      if key(es[n]) !in KeysOf(u, key) {
        KeysOfAppend(u, es[n], key);
      }
    }
  }

  /** The kept elements have pairwise different keys. */
  lemma {:induction false} DedupDistinct<E>(es: seq<E>, key: E -> string)
    ensures DistinctKeys(Dedup(es, key), key)
  {
    if es != [] {
      var n := |es| - 1;
      var u := Dedup(es[..n], key);
      DedupDistinct(es[..n], key);
      if key(es[n]) !in KeysOf(u, key) {
        var u' := u + [es[n]];
        forall i, j | 0 <= i < j < |u'| ensures key(u'[i]) != key(u'[j]) {
          if j == |u| {
            assert u'[i] == u[i];
            assert key(u[i]) in KeysOf(u, key);
          } else {
            assert u'[i] == u[i] && u'[j] == u[j];
          }
        }
      }
    }
  }

  /** An element is the first with its key exactly when no earlier one has it. */
  lemma IsFirstPrefix<E>(es: seq<E>, key: E -> string, n: nat)
    requires n < |es|
    ensures IsFirst(es, key, n) <==> key(es[n]) !in KeysOf(es[..n], key)
  {
    if !IsFirst(es, key, n) {
      var i :| 0 <= i < n && key(es[i]) == key(es[n]);
      assert es[..n][i] == es[i];
    }
    if key(es[n]) in KeysOf(es[..n], key) {
      var i :| 0 <= i < n && key(es[..n][i]) == key(es[n]);
      assert es[..n][i] == es[i];
    }
  }

  /** The loop keeps exactly the first element with each key, in order. */
  lemma {:induction false} DedupFirstOccurrences<E>(es: seq<E>, key: E -> string)
    ensures Dedup(es, key) == FirstOccurrences(es, key)
  {
    if es != [] {
      var n := |es| - 1;
      DedupFirstOccurrences(es[..n], key);
      DedupKeys(es[..n], key);
      IsFirstPrefix(es, key, n);
    }
  }

  lemma DistinctKeysPrefix<E>(es: seq<E>, key: E -> string, n: nat)
    requires n <= |es| && DistinctKeys(es, key)
    ensures DistinctKeys(es[..n], key)
  {
    forall i, j | 0 <= i < j < n ensures key(es[..n][i]) != key(es[..n][j]) {
      assert es[..n][i] == es[i] && es[..n][j] == es[j];
    }
  }

  /** A list whose keys are already distinct is left as it is. */
  lemma {:induction false} DedupDistinctFixed<E>(es: seq<E>, key: E -> string)
    requires DistinctKeys(es, key)
    ensures Dedup(es, key) == es
  {
    if es != [] {
      var n := |es| - 1;
      DistinctKeysPrefix(es, key, n);
      DedupDistinctFixed(es[..n], key);
      DedupKeys(es[..n], key);
      IsFirstPrefix(es, key, n);
      assert IsFirst(es, key, n);
      assert es[..n] + [es[n]] == es;
    }
  }

  /** Deduplicating twice is deduplicating once. */
  lemma DedupIdempotent<E>(es: seq<E>, key: E -> string)
    ensures Dedup(Dedup(es, key), key) == Dedup(es, key)
  {
    DedupDistinct(es, key);
    DedupDistinctFixed(Dedup(es, key), key);
  }

  /** `a` is `b` with some elements left out, the rest in order. */
  predicate Subsequence<T(==)>(a: seq<T>, b: seq<T>)
    decreases |b|
  {
    if a == [] then true
    else if b == [] then false
    else (a[|a| - 1] == b[|b| - 1] && Subsequence(a[..|a| - 1], b[..|b| - 1])) || Subsequence(a, b[..|b| - 1])
  }

  /** What is kept is a subsequence of the input. */
  lemma {:induction false} DedupSubsequence<E>(es: seq<E>, key: E -> string)
    ensures Subsequence(Dedup(es, key), es)
  {
    if es != [] {
      var n := |es| - 1;
      var u := Dedup(es[..n], key);
      DedupSubsequence(es[..n], key);
      assert es[..|es| - 1] == es[..n];
      if key(es[n]) !in KeysOf(u, key) {
        assert (u + [es[n]])[..|u|] == u;
      }
    }
  }

  // ---------------------------------------------------------------------------
  // merge_dictionaries

  /** A dict value: a nested dict, or any other value, kept opaque. */
  datatype Value = Scalar(text: string) | Nested(dict: Dict)

  /** A Python dict with string keys: its keys in insertion order and its entries. */
  datatype Dict = Dict(keys: seq<string>, entries: map<string, Value>)

  const EmptyDict := Dict([], map[])

  /** A dict lists each of its keys once and lists exactly the keys it maps. */
  predicate KeysMatch(d: Dict) {
    Distinct(d.keys) && (forall k :: k in d.keys ==> k in d.entries) && (forall k :: k in d.entries ==> k in d.keys)
  }

  /** `KeysMatch` at every level of nesting. */
  predicate Wellformed(d: Dict)
    decreases d
  {
    KeysMatch(d) && forall k :: k in d.entries && d.entries[k].Nested? ==> Wellformed(d.entries[k].dict)
  }

  /** `d[key] = value`: a new key goes to the end of the order, an existing one keeps its place. */
  function Set(d: Dict, key: string, value: Value): (r: Dict)
    ensures r.entries == d.entries[key := value]
  {
    Dict(if key in d.entries then d.keys else d.keys + [key], d.entries[key := value])
  }

  /** `result` after the loop of `merge_dictionaries` has handled the first `i` keys of
      `dict2`: a nested dict on both sides is merged, anything else is overwritten. */
  function MergeFold(d1: Dict, d2: Dict, i: nat): Dict
    requires Wellformed(d2) && i <= |d2.keys|
    decreases d2, i
  {
    if i == 0 then d1
    else
      var acc := MergeFold(d1, d2, i - 1);
      var key := d2.keys[i - 1];
      var value := d2.entries[key];
      if key in acc.entries && acc.entries[key].Nested? && value.Nested? then
        Set(acc, key, Nested(MergeFold(acc.entries[key].dict, value.dict, |value.dict.keys|)))
      else Set(acc, key, value)
  }

  /** `merge_dictionaries(dict1, dict2)` */
  function Merge(d1: Dict, d2: Dict): Dict
    requires Wellformed(d2)
  {
    MergeFold(d1, d2, |d2.keys|)
  }

  /** `merge_dictionaries(dict1, dict2)`: `dict1` is copied and never changed. */
  method MergeDictionaries(dict1: Dict, dict2: Dict) returns (result: Dict)
    requires Wellformed(dict2)
    ensures result == Merge(dict1, dict2)
    decreases dict2, 1
  {
    result := dict1;
    for i := 0 to |dict2.keys|
      invariant result == MergeFold(dict1, dict2, i)
    {
      result := MergeKey(dict1, dict2, i, result);
    }
  }

  /** One turn of the loop of `merge_dictionaries`: the `i`-th key of `dict2` goes into
      `result`. */
  method MergeKey(dict1: Dict, dict2: Dict, i: nat, result: Dict) returns (next: Dict)
    requires Wellformed(dict2) && i < |dict2.keys|
    requires result == MergeFold(dict1, dict2, i)
    ensures next == MergeFold(dict1, dict2, i + 1)
    decreases dict2, 0
  {
    var key := dict2.keys[i];
    var value := dict2.entries[key];
    if key in result.entries && result.entries[key].Nested? && value.Nested? {
      var merged := MergeDictionaries(result.entries[key].dict, value.dict);
      next := Set(result, key, Nested(merged));
    } else {
      next := Set(result, key, value);
    }
  }

  /** The keys of `ks` that `d` lacks, in order. */
  function NewKeys(d: Dict, ks: seq<string>): seq<string> {
    if ks == [] then [] else
      var n := |ks| - 1;
      NewKeys(d, ks[..n]) + (if ks[n] in d.entries then [] else [ks[n]])
  }

  /** The value `merge_dictionaries` gives a key of `dict2`. */
  function MergedValue(d1: Dict, d2: Dict, k: string): Value
    requires Wellformed(d2) && k in d2.entries
  {
    var v := d2.entries[k];
    if k in d1.entries && d1.entries[k].Nested? && v.Nested? then Nested(Merge(d1.entries[k].dict, v.dict)) else v
  }

  /** After `i` keys, the keys are those of `dict1` followed by the new keys of `dict2` met
      so far. */
  ghost predicate FoldKeys(d1: Dict, d2: Dict, i: nat, r: Dict)
    requires i <= |d2.keys|
  {
    r.keys == d1.keys + NewKeys(d1, d2.keys[..i]) &&
    forall k :: k in r.entries <==> k in d1.entries || k in d2.keys[..i]
  }

  /** After `i` keys, each key of `dict2` met so far has its merged value, and every other
      key keeps the value of `dict1`. */
  ghost predicate FoldValues(d1: Dict, d2: Dict, i: nat, r: Dict)
    requires Wellformed(d2) && i <= |d2.keys|
  {
    (forall k :: k in r.entries && k !in d2.keys[..i] ==> k in d1.entries && r.entries[k] == d1.entries[k]) &&
    (forall k :: k in d2.keys[..i] ==> k in r.entries && r.entries[k] == MergedValue(d1, d2, k))
  }

  lemma {:induction false} MergeFoldState(d1: Dict, d2: Dict, i: nat)
    requires Wellformed(d2) && i <= |d2.keys|
    ensures FoldKeys(d1, d2, i, MergeFold(d1, d2, i))
    ensures FoldValues(d1, d2, i, MergeFold(d1, d2, i))
  {
    if i == 0 {
      assert d2.keys[..0] == [];
    } else {
      MergeFoldState(d1, d2, i - 1);
      FreshKey(d2, i);
      FoldValuesStep(d1, d2, i);
      FoldKeysStep(d1, d2, i);
    }
  }

  /** The `i`-th key of `dict2` has not been met before it. */
  lemma FreshKey(d2: Dict, i: nat)
    requires KeysMatch(d2) && 0 < i <= |d2.keys|
    ensures d2.keys[i - 1] !in d2.keys[..i - 1]
    ensures d2.keys[..i] == d2.keys[..i - 1] + [d2.keys[i - 1]]
  {
    var done := d2.keys[..i - 1];
    forall j | 0 <= j < |done| ensures done[j] != d2.keys[i - 1] {
      assert done[j] == d2.keys[j];
    }
  }

  lemma FoldKeysStep(d1: Dict, d2: Dict, i: nat)
    requires Wellformed(d2) && 0 < i <= |d2.keys|
    requires FoldKeys(d1, d2, i - 1, MergeFold(d1, d2, i - 1))
    requires d2.keys[i - 1] !in d2.keys[..i - 1]
    ensures FoldKeys(d1, d2, i, MergeFold(d1, d2, i))
  {
    var acc := MergeFold(d1, d2, i - 1);
    var r := MergeFold(d1, d2, i);
    var key := d2.keys[i - 1];
    assert key in acc.entries <==> key in d1.entries;
    assert r.entries.Keys == acc.entries.Keys + {key};
    assert d2.keys[..i][..i - 1] == d2.keys[..i - 1];
    assert r.keys == d1.keys + NewKeys(d1, d2.keys[..i]);
  }

  lemma FoldValuesStep(d1: Dict, d2: Dict, i: nat)
    requires Wellformed(d2) && 0 < i <= |d2.keys|
    requires FoldKeys(d1, d2, i - 1, MergeFold(d1, d2, i - 1))
    requires FoldValues(d1, d2, i - 1, MergeFold(d1, d2, i - 1))
    requires d2.keys[i - 1] !in d2.keys[..i - 1]
    requires d2.keys[..i] == d2.keys[..i - 1] + [d2.keys[i - 1]]
    ensures FoldValues(d1, d2, i, MergeFold(d1, d2, i))
  {
    var acc := MergeFold(d1, d2, i - 1);
    var key := d2.keys[i - 1];
    assert key in acc.entries <==> key in d1.entries;
    if key in d1.entries {
      assert acc.entries[key] == d1.entries[key];
    }
    assert MergeFold(d1, d2, i).entries == acc.entries[key := MergedValue(d1, d2, key)];
  }

  /** The merged dict has the keys of both, `dict1`'s first in their order and then the new
      keys of `dict2` in theirs; keys only in `dict1` keep their value, and every key of
      `dict2` takes `dict2`'s value unless both values are dicts, which are merged. */
  lemma MergeSpec(d1: Dict, d2: Dict)
    requires Wellformed(d2)
    ensures var r := Merge(d1, d2);
      r.keys == d1.keys + NewKeys(d1, d2.keys) &&
      r.entries.Keys == d1.entries.Keys + d2.entries.Keys &&
      (forall k :: k in d1.entries && k !in d2.entries ==> r.entries[k] == d1.entries[k]) &&
      (forall k :: k in d2.entries ==> r.entries[k] == MergedValue(d1, d2, k))
  {
    MergeFoldState(d1, d2, |d2.keys|);
    assert d2.keys[..|d2.keys|] == d2.keys;
    assert FoldKeys(d1, d2, |d2.keys|, Merge(d1, d2));
  }

  /** Merging an empty dict changes nothing. */
  lemma MergeEmpty(d: Dict)
    ensures Merge(d, EmptyDict) == d
  {
  }

  /** When both inputs list their keys properly, so does the result. */
  lemma MergeKeysMatch(d1: Dict, d2: Dict)
    requires KeysMatch(d1) && Wellformed(d2)
    ensures KeysMatch(Merge(d1, d2))
  {
    MergeSpec(d1, d2);
    NewKeysSpec(d1, d2.keys);
    var r := Merge(d1, d2);
    var nk := NewKeys(d1, d2.keys);
    forall a, b | 0 <= a < b < |r.keys| ensures r.keys[a] != r.keys[b] {
      if b < |d1.keys| {
      } else if a < |d1.keys| {
        assert r.keys[b] == nk[b - |d1.keys|];
        assert r.keys[a] in d1.entries;
      } else {
        assert r.keys[a] == nk[a - |d1.keys|] && r.keys[b] == nk[b - |d1.keys|];
      }
    }
    forall k | k in r.entries ensures k in r.keys {
      if k !in d1.entries {
        assert k in d2.keys;
        NewKeysHas(d1, d2.keys, k);
      }
    }
  }

  /** The new keys are keys of `ks` that `d` lacks, each listed once when `ks` lists each once. */
  lemma {:induction false} NewKeysSpec(d: Dict, ks: seq<string>)
    requires Distinct(ks)
    ensures var nk := NewKeys(d, ks);
      Distinct(nk) && forall j :: 0 <= j < |nk| ==> nk[j] in ks && nk[j] !in d.entries
  {
    if ks != [] {
      var n := |ks| - 1;
      var nk := NewKeys(d, ks);
      var nk' := NewKeys(d, ks[..n]);
      NewKeysSpec(d, ks[..n]);
      forall j | 0 <= j < |nk'| ensures nk'[j] in ks && nk'[j] != ks[n] {
        var m :| 0 <= m < n && ks[..n][m] == nk'[j];
        assert ks[m] == nk'[j];
      }
    }
  }

  /** Every key of `ks` that `d` lacks is among the new keys. */
  lemma {:induction false} NewKeysHas(d: Dict, ks: seq<string>, k: string)
    requires k in ks && k !in d.entries
    ensures k in NewKeys(d, ks)
  {
    var n := |ks| - 1;
    if ks[n] != k {
      var m :| 0 <= m < |ks| && ks[m] == k;
      assert ks[..n][m] == k;
      NewKeysHas(d, ks[..n], k);
    }
  }
}
