/** Which annotations of a service are kept as metadata: the wildcard filter. */
module Annotations {
  import opened Types

  predicate NoSlash(s: string) {
    '/' !in s
  }

  /** `key` has exactly one slash, between `prefix` and `name`. */
  predicate IsPair(key: string, prefix: string, name: string) {
    NoSlash(prefix) && NoSlash(name) && key == prefix + "/" + name
  }

  /** What one entry of the filter list admits. */
  ghost predicate Matches(key: string, pattern: string) {
    || pattern == "*/*"
    || pattern == key
    || exists prefix, name :: IsPair(key, prefix, name) && (pattern == prefix + "/*" || pattern == "*/" + name)
  }

  ghost predicate Kept(key: string, filter: seq<string>) {
    exists i :: 0 <= i < |filter| && Matches(key, filter[i])
  }

  ghost function Filtered(annotations: Meta, filter: seq<string>): Meta {
    map k | k in annotations && Kept(k, filter) :: annotations[k]
  }

  /** `key` has one slash, at `j`. */
  predicate OneSlash(key: string, j: nat) {
    j < |key| && key[j] == '/' && forall l :: 0 <= l < |key| && l != j ==> key[l] != '/'
  }

  /**
   A key is kept iff the list has everything, the key itself or, if it has exactly one slash, what
   is before it with a star after it, or a star before it with what is after it.
   */
  lemma KeptMeans(key: string, filter: seq<string>)
    ensures Kept(key, filter) <==>
      || "*/*" in filter
      || key in filter
      || exists j: nat :: OneSlash(key, j) && (key[..j] + "/*" in filter || "*/" + key[j + 1..] in filter)
  {
    if i :| 0 <= i < |filter| && Matches(key, filter[i]) {
      assert filter[i] in filter;
      if prefix, name :| IsPair(key, prefix, name) && (filter[i] == prefix + "/*" || filter[i] == "*/" + name) {
        PairAtSlash(key, prefix, name);
      }
    }
    if pattern :| pattern in filter && (pattern == "*/*" || pattern == key) {
      var i :| 0 <= i < |filter| && filter[i] == pattern;
      assert Matches(key, filter[i]);
    }
    if j: nat :| OneSlash(key, j) && (key[..j] + "/*" in filter || "*/" + key[j + 1..] in filter) {
      SlashMakesPair(key, j);
      var pattern :| pattern in filter && (pattern == key[..j] + "/*" || pattern == "*/" + key[j + 1..]);
      var i :| 0 <= i < |filter| && filter[i] == pattern;
      assert Matches(key, filter[i]);
    }
  }

  lemma PairAtSlash(key: string, prefix: string, name: string)
    requires IsPair(key, prefix, name)
    ensures OneSlash(key, |prefix|) && key[..|prefix|] == prefix && key[|prefix| + 1..] == name
  {
    forall l | 0 <= l < |key| && l != |prefix| ensures key[l] != '/' {
      assert key[l] == if l < |prefix| then prefix[l] else name[l - |prefix| - 1];
    }
  }

  lemma SlashMakesPair(key: string, j: nat)
    requires OneSlash(key, j)
    ensures IsPair(key, key[..j], key[j + 1..])
  {
    assert key == key[..j] + [key[j]] + key[j + 1..];
    assert [key[j]] == "/";
  }

  // ----- splitting at slashes -----

  /** The parts of `s` between its slashes. */
  function Split(s: string): (parts: seq<string>)
    ensures |parts| >= 1
  {
    if s == "" then [""]
    else
      var rest := Split(s[1..]);
      if s[0] == '/' then [""] + rest else [[s[0]] + rest[0]] + rest[1..]
  }

  lemma {:induction false} SplitNoSlash(s: string)
    requires NoSlash(s)
    ensures Split(s) == [s]
  {
    if s != "" {
      SplitNoSlash(s[1..]);
      assert [s[0]] + s[1..] == s;
    }
  }

  lemma {:induction false} SplitPair(key: string, prefix: string, name: string)
    requires IsPair(key, prefix, name)
    ensures Split(key) == [prefix, name]
  {
    if prefix == "" {
      assert key[1..] == name;
      SplitNoSlash(name);
    } else {
      assert key[0] == prefix[0] && key[1..] == prefix[1..] + "/" + name;
      SplitPair(key[1..], prefix[1..], name);
      assert [prefix[0]] + prefix[1..] == prefix;
    }
  }

  lemma {:induction false} PartsHaveNoSlash(s: string)
    ensures forall i :: 0 <= i < |Split(s)| ==> NoSlash(Split(s)[i])
  {
    if s != "" {
      PartsHaveNoSlash(s[1..]);
      var rest := Split(s[1..]);
      assert NoSlash(rest[0]);
      if s[0] != '/' {
        assert Split(s) == [[s[0]] + rest[0]] + rest[1..];
        assert NoSlash([s[0]] + rest[0]);
      }
    }
  }

  /** Joining one or two parts again gives `s`. */
  lemma {:induction false} SplitJoins(s: string)
    ensures |Split(s)| == 1 ==> s == Split(s)[0]
    ensures |Split(s)| == 2 ==> s == Split(s)[0] + "/" + Split(s)[1]
  {
    if s != "" {
      SplitJoins(s[1..]);
      assert s == [s[0]] + s[1..];
    }
  }

  /** Splitting finds two parts exactly when the key has exactly one slash. */
  lemma SplitIsPair(key: string)
    ensures |Split(key)| == 2 ==> IsPair(key, Split(key)[0], Split(key)[1])
    ensures forall prefix, name :: IsPair(key, prefix, name) ==> Split(key) == [prefix, name]
  {
    PartsHaveNoSlash(key);
    SplitJoins(key);
    forall prefix, name | IsPair(key, prefix, name) ensures Split(key) == [prefix, name] {
      SplitPair(key, prefix, name);
    }
  }

  // ----- the filter -----

  /** The tests the loop makes for one key, given the set of filter entries. */
  predicate Admits(filterSet: set<string>, key: string) {
    || key in filterSet
    || (|Split(key)| == 2 && (Split(key)[0] + "/*" in filterSet || "*/" + Split(key)[1] in filterSet))
  }

  lemma AdmitsIsKept(filter: seq<string>, filterSet: set<string>, key: string)
    requires forall p :: p in filterSet <==> p in filter
    ensures Kept(key, filter) <==> "*/*" in filterSet || Admits(filterSet, key)
  {
    SplitIsPair(key);
    if "*/*" in filterSet || Admits(filterSet, key) {
      var pattern :| pattern in filter && Matches(key, pattern);
      var i :| 0 <= i < |filter| && filter[i] == pattern;
    }
  }

  method FilterAnnotations(currentAnnotations: Meta, filter: seq<string>) returns (filtered: Meta)
    ensures filtered == Filtered(currentAnnotations, filter)
    ensures forall k :: k in filtered <==> k in currentAnnotations && Kept(k, filter)
    ensures forall k :: k in filtered ==> filtered[k] == currentAnnotations[k]
  {
    var filterMap: set<string> := {};
    for i := 0 to |filter|
      invariant forall p :: p in filterMap <==> p in filter[..i]
    {
      filterMap := filterMap + {filter[i]};
    }
    assert filter[..|filter|] == filter;
    forall k | k in currentAnnotations
      ensures Kept(k, filter) <==> "*/*" in filterMap || Admits(filterMap, k)
    {
      AdmitsIsKept(filter, filterMap, k);
    }
    if "*/*" in filterMap {
      return currentAnnotations;
    }
    filtered := KeepAdmitted(currentAnnotations, filterMap);
  }

  /** The loop over the annotations, in whatever order Go visits them. */
  method KeepAdmitted(currentAnnotations: Meta, filterMap: set<string>) returns (filtered: Meta)
    ensures filtered == map k | k in currentAnnotations && Admits(filterMap, k) :: currentAnnotations[k]
  {
    filtered := map[];
    var rest := currentAnnotations.Keys;
    while rest != {}
      invariant rest <= currentAnnotations.Keys
      invariant filtered == map k | k in currentAnnotations && k !in rest && Admits(filterMap, k) :: currentAnnotations[k]
      decreases rest
    {
      var key :| key in rest;
      rest := rest - {key};
      var val := currentAnnotations[key];
      if key in filterMap {
        filtered := filtered[key := val];
        continue;
      }
      var prefixName := Split(key);
      if |prefixName| != 2 {
        continue;
      }
      if prefixName[0] + "/*" in filterMap {
        filtered := filtered[key := val];
        continue;
      }
      if "*/" + prefixName[1] in filterMap {
        filtered := filtered[key := val];
      }
    }
  }

  /**
   The filter is determined by the set of its entries, filters entry by entry, and filtering
   twice is filtering once.
   */
  lemma FilterAlgebra(a: Meta, f: seq<string>, g: seq<string>)
    ensures (forall p :: p in f ==> p in g) ==> Filtered(a, f).Items <= Filtered(a, g).Items
    ensures (forall p :: p in f <==> p in g) ==> Filtered(a, f) == Filtered(a, g)
    ensures Filtered(a, f + g) == Filtered(a, f) + Filtered(a, g)
    ensures Filtered(Filtered(a, f), f) == Filtered(a, f)
  {
    if forall p :: p in f ==> p in g {
      FilterMonotone(a, f, g);
      if forall p :: p in g ==> p in f {
        FilterMonotone(a, g, f);
        SameItems(Filtered(a, f), Filtered(a, g));
      }
    }
    FilterConcat(a, f, g);
  }

  lemma FilterMonotone(a: Meta, f: seq<string>, g: seq<string>)
    requires forall p :: p in f ==> p in g
    ensures Filtered(a, f).Items <= Filtered(a, g).Items
  {
    forall k | Kept(k, f) ensures Kept(k, g) {
      KeptSubset(k, f, g);
    }
  }

  lemma SameItems(a: Meta, b: Meta)
    requires a.Items <= b.Items && b.Items <= a.Items
    ensures a == b
  {
    forall k ensures k in a <==> k in b
             ensures k in a ==> a[k] == b[k]
    {
      assert k in a ==> (k, a[k]) in a.Items;
      assert k in b ==> (k, b[k]) in b.Items;
    }
  }

  lemma FilterConcat(a: Meta, f: seq<string>, g: seq<string>)
    ensures Filtered(a, f + g) == Filtered(a, f) + Filtered(a, g)
  {
    forall k ensures Kept(k, f + g) <==> Kept(k, f) || Kept(k, g) {
      KeptByEither(k, f, g);
    }
  }

  lemma KeptByEither(k: string, f: seq<string>, g: seq<string>)
    ensures Kept(k, f + g) <==> Kept(k, f) || Kept(k, g)
  {
    if Kept(k, f) {
      KeptSubset(k, f, f + g);
    }
    if Kept(k, g) {
      KeptSubset(k, g, f + g);
    }
  }

  lemma KeptSubset(k: string, f: seq<string>, g: seq<string>)
    requires Kept(k, f) && forall p :: p in f ==> p in g
    ensures Kept(k, g)
  {
    var i :| 0 <= i < |f| && Matches(k, f[i]);
    assert f[i] in f;
    var j :| 0 <= j < |g| && g[j] == f[i];
  }
}
