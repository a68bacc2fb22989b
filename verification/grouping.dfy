/** The generic `$group ... $push` fold used four times by the autocomplete
    pipeline: the input documents are partitioned by a key, each distinct key
    becomes one group, and every document is pushed, in input order, onto the
    list of the group that has its key.

    Groups are emitted in the order in which their key is first met. The
    store does not promise any order across groups; fixing first-encounter
    order is a modelling choice, and every property below that is not about
    order holds for any order. */
module Grouping {

  /** One output document of a `$group` stage: the `_id` and the pushed list. */
  datatype Group<K, T> = Group(key: K, members: seq<T>)

  /** `$push` of `f` over a list: one entry per element, in order. */
  function Push<T, U>(xs: seq<T>, f: T -> U): seq<U>
  {
    seq(|xs|, i requires 0 <= i < |xs| => f(xs[i]))
  }

  function Keys<K, T>(gs: seq<Group<K, T>>): seq<K>
  {
    seq(|gs|, j requires 0 <= j < |gs| => gs[j].key)
  }

  predicate Distinct<K(==)>(ks: seq<K>)
  {
    forall i, j :: 0 <= i < j < |ks| ==> ks[i] != ks[j]
  }

  /** No two elements of `xs` agree on `f`. */
  predicate DistinctBy<T, K(==)>(xs: seq<T>, f: T -> K)
  {
    forall i, j :: 0 <= i < j < |xs| ==> f(xs[i]) != f(xs[j])
  }

  /** Every member of `g` carries the group's key. */
  predicate Uniform<K(==), T>(g: Group<K, T>, key: T -> K)
  {
    forall i :: 0 <= i < |g.members| ==> key(g.members[i]) == g.key
  }

  /** Reference definition of one group's contents: the elements of `xs`
      whose key is `k`, in input order. */
  function Members<K(==), T>(xs: seq<T>, key: T -> K, k: K): (r: seq<T>)
    ensures forall i :: 0 <= i < |r| ==> r[i] in xs && key(r[i]) == k
    ensures forall i :: 0 <= i < |xs| && key(xs[i]) == k ==> xs[i] in r
    ensures |r| <= |xs|
  {
    if xs == [] then []
    else
      var p := xs[..|xs| - 1];
      assert xs == p + [xs[|xs| - 1]];
      Members(p, key, k) + (if key(xs[|xs| - 1]) == k then [xs[|xs| - 1]] else [])
  }

  /** Reference definition of the group keys: the distinct keys of `xs` in
      order of first appearance. */
  function FirstKeys<K(==), T>(xs: seq<T>, key: T -> K): (r: seq<K>)
    ensures Distinct(r)
    ensures forall i :: 0 <= i < |xs| ==> key(xs[i]) in r
    ensures forall j :: 0 <= j < |r| ==> exists i :: 0 <= i < |xs| && key(xs[i]) == r[j]
    ensures |r| <= |xs|
  {
    if xs == [] then []
    else
      var p := xs[..|xs| - 1];
      var ks := FirstKeys(p, key);
      assert forall i :: 0 <= i < |p| ==> p[i] == xs[i];
      if key(xs[|xs| - 1]) in ks then ks else ks + [key(xs[|xs| - 1])]
  }

  /** The grouping `xs` is supposed to produce: one group per key of
      `FirstKeys`, holding exactly that key's `Members`. */
  function Reference<K(==), T>(xs: seq<T>, key: T -> K): seq<Group<K, T>>
  {
    var ks := FirstKeys(xs, key);
    seq(|ks|, j requires 0 <= j < |ks| => Group(ks[j], Members(xs, key, ks[j])))
  }

  /** Position of the group with key `k`, or `|gs|` when there is none. */
  function Find<K(==), T>(gs: seq<Group<K, T>>, k: K): (j: nat)
    ensures j <= |gs|
    ensures j < |gs| ==> gs[j].key == k
    ensures forall i :: 0 <= i < j ==> gs[i].key != k
  {
    if gs == [] then 0
    else if gs[0].key == k then 0
    else 1 + Find(gs[1..], k)
  }

  /** One step of the fold: push `x` onto the group with its key, opening a
      new group at the end when the key has not been seen. */
  function Insert<K(==), T>(gs: seq<Group<K, T>>, x: T, key: T -> K): seq<Group<K, T>>
  {
    var j := Find(gs, key(x));
    if j < |gs| then gs[j := Group(gs[j].key, gs[j].members + [x])]
    else gs + [Group(key(x), [x])]
  }

  /** The `$group` stage: a single left-to-right pass of `Insert`. */
  function GroupBy<K(==), T>(xs: seq<T>, key: T -> K): seq<Group<K, T>>
  {
    if xs == [] then []
    else Insert(GroupBy(xs[..|xs| - 1], key), xs[|xs| - 1], key)
  }

  /** Concatenation of all groups' lists, group after group. */
  function Flatten<K, T>(gs: seq<Group<K, T>>): seq<T>
  {
    if gs == [] then [] else Flatten(gs[..|gs| - 1]) + gs[|gs| - 1].members
  }

  function FlatMap<T, U>(xs: seq<T>, f: T -> seq<U>): seq<U>
  {
    if xs == [] then [] else FlatMap(xs[..|xs| - 1], f) + f(xs[|xs| - 1])
  }

  function SumOf<T>(xs: seq<T>, w: T -> nat): nat
  {
    if xs == [] then 0 else SumOf(xs[..|xs| - 1], w) + w(xs[|xs| - 1])
  }

  // ---------------------------------------------------------------------
  // The fold computes the reference grouping.
  // ---------------------------------------------------------------------

  lemma MembersAppend<K, T>(xs: seq<T>, x: T, key: T -> K, k: K)
    ensures Members(xs + [x], key, k) == Members(xs, key, k) + (if key(x) == k then [x] else [])
  {
    assert (xs + [x])[..|xs|] == xs;
  }

  lemma FirstKeysAppend<K, T>(xs: seq<T>, x: T, key: T -> K)
    ensures FirstKeys(xs + [x], key) ==
            (if key(x) in FirstKeys(xs, key) then FirstKeys(xs, key) else FirstKeys(xs, key) + [key(x)])
  {
    assert (xs + [x])[..|xs|] == xs;
  }

  /** One `Insert` step takes the reference grouping of `xs` to the
      reference grouping of `xs + [x]`. */
  lemma InsertReference<K, T>(xs: seq<T>, x: T, key: T -> K)
    ensures Insert(Reference(xs, key), x, key) == Reference(xs + [x], key)
  {
    if key(x) in FirstKeys(xs, key) {
      InsertExistingKey(xs, x, key);
    } else {
      InsertNewKey(xs, x, key);
    }
  }

  lemma InsertExistingKey<K, T>(xs: seq<T>, x: T, key: T -> K)
    requires key(x) in FirstKeys(xs, key)
    ensures Insert(Reference(xs, key), x, key) == Reference(xs + [x], key)
  {
    var ks := FirstKeys(xs, key);
    var gs := Reference(xs, key);
    var j := FindKnownKey(xs, key, key(x));
    assert gs[j].key == ks[j];
    var ins := Insert(gs, x, key);
    assert ins == gs[j := Group(gs[j].key, gs[j].members + [x])];
    var gs' := Reference(xs + [x], key);
    ExistingKeyLength(xs, x, key, j);
    forall i | 0 <= i < |ks| ensures ins[i] == gs'[i] {
      ExistingKeyEntry(xs, x, key, j, i);
    }
  }

  /** A key that occurs in `xs` is found among the reference groups. */
  lemma FindKnownKey<K, T>(xs: seq<T>, key: T -> K, k: K) returns (j: nat)
    requires k in FirstKeys(xs, key)
    ensures j == Find(Reference(xs, key), k) && j < |Reference(xs, key)|
  {
    var gs := Reference(xs, key);
    var m :| 0 <= m < |FirstKeys(xs, key)| && FirstKeys(xs, key)[m] == k;
    assert gs[m].key == k;
    j := Find(gs, k);
  }

  lemma ExistingKeyLength<K, T>(xs: seq<T>, x: T, key: T -> K, j: nat)
    requires j < |FirstKeys(xs, key)| && FirstKeys(xs, key)[j] == key(x)
    ensures FirstKeys(xs + [x], key) == FirstKeys(xs, key)
    ensures |Reference(xs + [x], key)| == |Reference(xs, key)|
  {
    FirstKeysAppend(xs, x, key);
  }

  lemma ExistingKeyEntry<K, T>(xs: seq<T>, x: T, key: T -> K, j: nat, i: nat)
    requires j < |FirstKeys(xs, key)| && FirstKeys(xs, key)[j] == key(x) && i < |FirstKeys(xs, key)|
    ensures Reference(xs + [x], key)[i] ==
      (if i == j then Group(key(x), Members(xs, key, key(x)) + [x]) else Reference(xs, key)[i])
  {
    var ks := FirstKeys(xs, key);
    ExistingKeyLength(xs, x, key, j);
    MembersAppend(xs, x, key, ks[i]);
    if i != j {
      assert ks[i] != ks[j];
    }
  }

  lemma UnseenKeyHasNoMembers<K, T>(xs: seq<T>, key: T -> K, k: K)
    requires k !in FirstKeys(xs, key)
    ensures Members(xs, key, k) == []
  {
  }

  lemma InsertNewKey<K, T>(xs: seq<T>, x: T, key: T -> K)
    requires key(x) !in FirstKeys(xs, key)
    ensures Insert(Reference(xs, key), x, key) == Reference(xs + [x], key)
  {
    var ks := FirstKeys(xs, key);
    var gs := Reference(xs, key);
    assert forall i :: 0 <= i < |ks| ==> gs[i].key == ks[i] != key(x);
    assert Find(gs, key(x)) == |gs|;
    var ins := gs + [Group(key(x), [x])];
    assert Insert(gs, x, key) == ins;
    FirstKeysAppend(xs, x, key);
    forall i | 0 <= i < |ins| ensures ins[i] == Reference(xs + [x], key)[i] {
      NewKeyEntry(xs, x, key, i);
    }
  }

  lemma NewKeyEntry<K, T>(xs: seq<T>, x: T, key: T -> K, i: nat)
    requires key(x) !in FirstKeys(xs, key) && i <= |FirstKeys(xs, key)|
    ensures |Reference(xs + [x], key)| == |FirstKeys(xs, key)| + 1
    ensures Reference(xs + [x], key)[i] == (Reference(xs, key) + [Group(key(x), [x])])[i]
  {
    var ks := FirstKeys(xs, key);
    FirstKeysAppend(xs, x, key);
    assert FirstKeys(xs + [x], key) == ks + [key(x)];
    var r' := Reference(xs + [x], key);
    if i == |ks| {
      MembersAppend(xs, x, key, key(x));
      UnseenKeyHasNoMembers(xs, key, key(x));
      assert r'[i] == Group(key(x), Members(xs + [x], key, key(x)));
    } else {
      MembersAppend(xs, x, key, ks[i]);
      assert ks[i] != key(x);
      assert r'[i] == Group(ks[i], Members(xs + [x], key, ks[i]));
      assert Reference(xs, key)[i] == Group(ks[i], Members(xs, key, ks[i]));
    }
  }

  /** The single-pass fold and the reference grouping coincide: group `j`
      has the `j`-th distinct key in order of first appearance, and its list
      is every element with that key, in input order, duplicates kept. */
  lemma {:induction false} GroupByIsReference<K, T>(xs: seq<T>, key: T -> K)
    ensures GroupBy(xs, key) == Reference(xs, key)
    decreases |xs|
  {
    if xs != [] {
      var p := xs[..|xs| - 1];
      var x := xs[|xs| - 1];
      assert p + [x] == xs;
      assert GroupBy(xs, key) == Insert(GroupBy(p, key), x, key);
      GroupByIsReference(p, key);
      InsertReference(p, x, key);
    }
  }

  /** The facts about one `$group` stage that the pipeline relies on: one
      group per distinct key and no two groups sharing a key; every element
      lands in the group with its key; each group holds exactly the elements
      with its key, in input order. */
  lemma GroupByGroups<K, T>(xs: seq<T>, key: T -> K)
    ensures var gs := GroupBy(xs, key);
      && Keys(gs) == FirstKeys(xs, key)
      && Distinct(Keys(gs))
      && (forall i :: 0 <= i < |xs| ==> key(xs[i]) in Keys(gs))
      && (forall j :: 0 <= j < |gs| ==> gs[j].members == Members(xs, key, gs[j].key))
      && (forall j :: 0 <= j < |gs| ==> Uniform(gs[j], key) && gs[j].members != [])
  {
    GroupByIsReference(xs, key);
    var gs := GroupBy(xs, key);
    var ks := FirstKeys(xs, key);
    assert |gs| == |ks|;
    forall j | 0 <= j < |gs|
      ensures gs[j].key == ks[j] && gs[j].members == Members(xs, key, ks[j])
      ensures Uniform(gs[j], key) && gs[j].members != []
    {
      ReferenceEntry(xs, key, j);
    }
    assert Keys(gs) == ks;
  }

  /** One entry of the reference grouping: a non-empty group of elements
      that all carry its key. */
  lemma ReferenceEntry<K, T>(xs: seq<T>, key: T -> K, j: nat)
    requires j < |FirstKeys(xs, key)|
    ensures var g := Reference(xs, key)[j];
      && g == Group(FirstKeys(xs, key)[j], Members(xs, key, FirstKeys(xs, key)[j]))
      && Uniform(g, key) && g.members != []
  {
    var k := FirstKeys(xs, key)[j];
    var i :| 0 <= i < |xs| && key(xs[i]) == k;
    assert xs[i] in Members(xs, key, k);
  }

  /** Two elements with the same key are pushed onto the same group. */
  lemma GroupByMerges<K, T>(xs: seq<T>, key: T -> K, a: nat, b: nat)
    requires a < |xs| && b < |xs| && key(xs[a]) == key(xs[b])
    ensures exists j :: 0 <= j < |GroupBy(xs, key)| &&
                        xs[a] in GroupBy(xs, key)[j].members && xs[b] in GroupBy(xs, key)[j].members
  {
    GroupByGroups(xs, key);
    var gs := GroupBy(xs, key);
    assert key(xs[a]) in Keys(gs);
    var j :| 0 <= j < |gs| && Keys(gs)[j] == key(xs[a]);
    assert xs[a] in gs[j].members && xs[b] in gs[j].members;
  }

  /** Two elements with different keys are never pushed onto the same group. */
  lemma GroupByKeepsApart<K, T>(xs: seq<T>, key: T -> K, a: nat, b: nat)
    requires a < |xs| && b < |xs| && key(xs[a]) != key(xs[b])
    ensures forall j :: 0 <= j < |GroupBy(xs, key)| ==>
      !(xs[a] in GroupBy(xs, key)[j].members && xs[b] in GroupBy(xs, key)[j].members)
  {
    GroupByGroups(xs, key);
  }

  // ---------------------------------------------------------------------
  // Conservation: grouping is a permutation of its input.
  // ---------------------------------------------------------------------

  lemma FlattenAppend<K, T>(gs: seq<Group<K, T>>, g: Group<K, T>)
    ensures Flatten(gs + [g]) == Flatten(gs) + g.members
  {
    assert (gs + [g])[..|gs|] == gs;
  }

  lemma {:induction false} FlattenConcat<K, T>(a: seq<Group<K, T>>, b: seq<Group<K, T>>)
    ensures Flatten(a + b) == Flatten(a) + Flatten(b)
    decreases |b|
  {
    if b == [] {
      assert a + b == a;
    } else {
      var b' := b[..|b| - 1];
      assert (a + b)[..|a + b| - 1] == a + b';
      FlattenConcat(a, b');
    }
  }

  lemma FlattenUpdate<K, T>(gs: seq<Group<K, T>>, j: nat, g: Group<K, T>)
    requires j < |gs|
    ensures multiset(Flatten(gs[j := g])) + multiset(gs[j].members) ==
            multiset(Flatten(gs)) + multiset(g.members)
  {
    var pre, post := gs[..j], gs[j + 1..];
    assert gs == (pre + [gs[j]]) + post;
    assert gs[j := g] == (pre + [g]) + post;
    FlattenConcat(pre + [gs[j]], post);
    FlattenConcat(pre + [g], post);
    FlattenAppend(pre, gs[j]);
    FlattenAppend(pre, g);
    var mp, mq := multiset(Flatten(pre)), multiset(Flatten(post));
    assert multiset(Flatten(gs)) == mp + multiset(gs[j].members) + mq;
    assert multiset(Flatten(gs[j := g])) == mp + multiset(g.members) + mq;
  }

  lemma InsertFlatten<K, T>(gs: seq<Group<K, T>>, x: T, key: T -> K)
    ensures multiset(Flatten(Insert(gs, x, key))) == multiset(Flatten(gs)) + multiset{x}
  {
    var j := Find(gs, key(x));
    if j < |gs| {
      var g := Group(gs[j].key, gs[j].members + [x]);
      assert Insert(gs, x, key) == gs[j := g];
      FlattenUpdate(gs, j, g);
      var mj, mg, mf, mf' := multiset(gs[j].members), multiset(g.members), multiset(Flatten(gs)), multiset(Flatten(gs[j := g]));
      assert mg == mj + multiset{x};
      assert mf' + mj == mf + mg;
      assert mf' + mj == (mf + multiset{x}) + mj;
      assert mf' == mf' + mj - mj;
    } else {
      assert Insert(gs, x, key) == gs + [Group(key(x), [x])];
      FlattenAppend(gs, Group(key(x), [x]));
    }
  }

  /** Every element ends up in exactly one group and nothing is invented:
      the groups' lists, concatenated, are a permutation of the input. */
  lemma {:induction false} GroupByPermutes<K, T>(xs: seq<T>, key: T -> K)
    ensures multiset(Flatten(GroupBy(xs, key))) == multiset(xs)
    decreases |xs|
  {
    if xs != [] {
      var p := xs[..|xs| - 1];
      var x := xs[|xs| - 1];
      assert p + [x] == xs;
      assert GroupBy(xs, key) == Insert(GroupBy(p, key), x, key);
      GroupByPermutes(p, key);
      InsertFlatten(GroupBy(p, key), x, key);
      assert multiset(xs) == multiset(p) + multiset{x};
    }
  }

  // ---------------------------------------------------------------------
  // FlatMap and SumOf: tools to read a regrouped list back.
  // ---------------------------------------------------------------------

  lemma {:induction false} FlatMapConcat<T, U>(a: seq<T>, b: seq<T>, f: T -> seq<U>)
    ensures FlatMap(a + b, f) == FlatMap(a, f) + FlatMap(b, f)
    decreases |b|
  {
    if b == [] {
      assert a + b == a;
    } else {
      var b' := b[..|b| - 1];
      assert (a + b)[..|a + b| - 1] == a + b';
      FlatMapConcat(a, b', f);
    }
  }

  /** Taking one element out of a list takes its image out of the
      flat-map. */
  lemma {:induction false} FlatMapRemove<T, U>(b: seq<T>, i: nat, f: T -> seq<U>)
    requires i < |b|
    ensures multiset(FlatMap(b, f)) == multiset(FlatMap(b[..i] + b[i + 1..], f)) + multiset(f(b[i]))
    decreases |b|
  {
    var n := |b| - 1;
    var p := b[..n];
    if i == n {
      assert b[..i] + b[i + 1..] == p;
    } else {
      var q := p[..i] + p[i + 1..];
      FlatMapRemove(p, i, f);
      assert b[..i] + b[i + 1..] == q + [b[n]];
      assert (q + [b[n]])[..|q|] == q;
      assert FlatMap(q + [b[n]], f) == FlatMap(q, f) + f(b[n]);
      var mq, mi, mn := multiset(FlatMap(q, f)), multiset(f(b[i])), multiset(f(b[n]));
      assert multiset(FlatMap(p, f)) == mq + mi;
      assert multiset(FlatMap(b, f)) == mq + mi + mn;
    }
  }

  lemma MultisetRemove<T>(s: seq<T>, i: nat)
    requires i < |s|
    ensures multiset(s[..i] + s[i + 1..]) == multiset(s) - multiset{s[i]}
  {
    assert s == s[..i] + [s[i]] + s[i + 1..];
  }

  /** Reading back from a permuted list yields a permutation of the result. */
  lemma {:induction false} FlatMapPermutes<T, U>(a: seq<T>, b: seq<T>, f: T -> seq<U>)
    requires multiset(a) == multiset(b)
    ensures multiset(FlatMap(a, f)) == multiset(FlatMap(b, f))
    decreases |a|
  {
    if a == [] {
      assert |multiset(b)| == 0;
      assert b == [];
    } else {
      var n := |a| - 1;
      assert a[n] in multiset(a);
      var i :| 0 <= i < |b| && b[i] == a[n];
      var a', b' := a[..n] + a[n + 1..], b[..i] + b[i + 1..];
      MultisetRemove(a, n);
      MultisetRemove(b, i);
      FlatMapPermutes(a', b', f);
      FlatMapRemove(a, n, f);
      FlatMapRemove(b, i, f);
    }
  }

  /** Reading each group back through `expand` after building it with
      `bucket` returns its members; then the read-back of the whole stage is
      a permutation of its input. */
  lemma {:induction false} FlatMapBuckets<K, T, B>(gs: seq<Group<K, T>>, key: T -> K, bucket: Group<K, T> -> B, expand: B -> seq<T>)
    requires forall j :: 0 <= j < |gs| ==> Uniform(gs[j], key)
    requires forall g :: Uniform(g, key) ==> expand(bucket(g)) == g.members
    ensures FlatMap(Push(gs, bucket), expand) == Flatten(gs)
    decreases |gs|
  {
    if gs != [] {
      var gs' := gs[..|gs| - 1];
      FlatMapBuckets(gs', key, bucket, expand);
      assert Push(gs, bucket)[..|gs| - 1] == Push(gs', bucket);
    }
  }

  /** A `$group` stage followed by a projection that can be undone is
      lossless: undoing it yields a permutation of the stage's input. */
  lemma StageRoundTrip<K, T, B>(xs: seq<T>, key: T -> K, bucket: Group<K, T> -> B, expand: B -> seq<T>)
    requires forall g :: Uniform(g, key) ==> expand(bucket(g)) == g.members
    ensures multiset(FlatMap(Push(GroupBy(xs, key), bucket), expand)) == multiset(xs)
  {
    GroupByGroups(xs, key);
    FlatMapBuckets(GroupBy(xs, key), key, bucket, expand);
    GroupByPermutes(xs, key);
  }

  lemma {:induction false} SumOfFlatMap<T, U>(xs: seq<T>, f: T -> seq<U>, w: U -> nat, v: T -> nat)
    requires forall i :: 0 <= i < |xs| ==> SumOf(f(xs[i]), w) == v(xs[i])
    ensures SumOf(FlatMap(xs, f), w) == SumOf(xs, v)
    decreases |xs|
  {
    if xs != [] {
      var p := xs[..|xs| - 1];
      SumOfFlatMap(p, f, w, v);
      SumOfConcat(FlatMap(p, f), f(xs[|xs| - 1]), w);
    }
  }

  lemma {:induction false} SumOfConcat<T>(a: seq<T>, b: seq<T>, w: T -> nat)
    ensures SumOf(a + b, w) == SumOf(a, w) + SumOf(b, w)
    decreases |b|
  {
    if b == [] {
      assert a + b == a;
    } else {
      var b' := b[..|b| - 1];
      assert (a + b)[..|a + b| - 1] == a + b';
      SumOfConcat(a, b', w);
    }
  }

  lemma {:induction false} SumOfPush<T, U>(xs: seq<T>, f: T -> U, w: U -> nat, v: T -> nat)
    requires forall i :: 0 <= i < |xs| ==> w(f(xs[i])) == v(xs[i])
    ensures SumOf(Push(xs, f), w) == SumOf(xs, v)
    decreases |xs|
  {
    if xs != [] {
      var p := xs[..|xs| - 1];
      assert Push(xs, f)[..|xs| - 1] == Push(p, f);
      SumOfPush(p, f, w, v);
    }
  }

  lemma {:induction false} FlatMapLength<T, U>(xs: seq<T>, f: T -> seq<U>, v: T -> nat)
    requires forall i :: 0 <= i < |xs| ==> |f(xs[i])| == v(xs[i])
    ensures |FlatMap(xs, f)| == SumOf(xs, v)
    decreases |xs|
  {
    if xs != [] {
      FlatMapLength(xs[..|xs| - 1], f, v);
    }
  }

  /** An element is in the read-back exactly when it is in the read-back of
      some input element. */
  lemma {:induction false} FlatMapMembers<T, U>(xs: seq<T>, f: T -> seq<U>)
    ensures forall i, y :: 0 <= i < |xs| && y in f(xs[i]) ==> y in FlatMap(xs, f)
    ensures forall y :: y in FlatMap(xs, f) ==> exists i :: 0 <= i < |xs| && y in f(xs[i])
    decreases |xs|
  {
    if xs != [] {
      var p := xs[..|xs| - 1];
      FlatMapMembers(p, f);
      assert forall i :: 0 <= i < |p| ==> p[i] == xs[i];
    }
  }

  lemma {:induction false} DistinctByCount<T, K>(b: seq<T>, f: T -> K, x: T)
    requires DistinctBy(b, f)
    ensures multiset(b)[x] <= 1
    decreases |b|
  {
    if b != [] {
      var p := b[..|b| - 1];
      assert b == p + [b[|b| - 1]];
      assert DistinctBy(p, f);
      DistinctByCount(p, f, x);
      if b[|b| - 1] == x {
        assert x !in p by {
          assert forall i :: 0 <= i < |p| ==> f(p[i]) != f(b[|b| - 1]);
        }
      }
    }
  }

  /** Distinctness survives any permutation. */
  lemma DistinctByPermutation<T, K>(a: seq<T>, b: seq<T>, f: T -> K)
    requires multiset(a) == multiset(b) && DistinctBy(b, f)
    ensures DistinctBy(a, f)
  {
    forall i, j | 0 <= i < j < |a| ensures f(a[i]) != f(a[j]) {
      if a[i] == a[j] {
        var x := a[i];
        assert a == a[..j] + [x] + a[j + 1..];
        assert x in a[..j];
        assert multiset(a)[x] >= 2 by {
          assert multiset(a) == multiset(a[..j]) + multiset{x} + multiset(a[j + 1..]);
        }
        DistinctByCount(b, f, x);
      } else {
        assert a[i] in multiset(b) && a[j] in multiset(b);
        var p :| 0 <= p < |b| && b[p] == a[i];
        var q :| 0 <= q < |b| && b[q] == a[j];
        assert p != q;
      }
    }
  }

  /** A `$group` stage whose documents carry their group key as `_id` has
      pairwise distinct `_id`s. */
  lemma StageDistinct<K, T, B>(xs: seq<T>, key: T -> K, bucket: Group<K, T> -> B, idOf: B -> K)
    requires forall g :: idOf(bucket(g)) == g.key
    ensures DistinctBy(Push(GroupBy(xs, key), bucket), idOf)
  {
    GroupByKeys(xs, key);
    var gs := GroupBy(xs, key);
    var out := Push(gs, bucket);
    assert forall j :: 0 <= j < |out| ==> idOf(out[j]) == Keys(gs)[j];
  }

  lemma GroupByKeys<K, T>(xs: seq<T>, key: T -> K)
    ensures Keys(GroupBy(xs, key)) == FirstKeys(xs, key)
  {
    GroupByIsReference(xs, key);
  }

  lemma GroupByMembers<K, T>(xs: seq<T>, key: T -> K)
    ensures forall j :: 0 <= j < |GroupBy(xs, key)| ==>
      GroupBy(xs, key)[j] == Group(GroupBy(xs, key)[j].key, Members(xs, key, GroupBy(xs, key)[j].key))
  {
    GroupByIsReference(xs, key);
  }

  /** Every input element's key is the `_id` of some document of the stage. */
  lemma StageCovers<K, T, B>(xs: seq<T>, key: T -> K, bucket: Group<K, T> -> B, idOf: B -> K)
    requires forall g :: idOf(bucket(g)) == g.key
    ensures var out := Push(GroupBy(xs, key), bucket);
      forall i :: 0 <= i < |xs| ==> exists j :: 0 <= j < |out| && idOf(out[j]) == key(xs[i])
  {
    GroupByKeys(xs, key);
    var gs := GroupBy(xs, key);
    var out := Push(gs, bucket);
    forall i | 0 <= i < |xs| ensures exists j :: 0 <= j < |out| && idOf(out[j]) == key(xs[i]) {
      assert key(xs[i]) in Keys(gs);
      var j :| 0 <= j < |gs| && Keys(gs)[j] == key(xs[i]);
      assert idOf(out[j]) == gs[j].key;
    }
  }

  /** Every document's `_id` is the key of some input element. */
  lemma StageSources<K, T, B>(xs: seq<T>, key: T -> K, bucket: Group<K, T> -> B, idOf: B -> K)
    requires forall g :: idOf(bucket(g)) == g.key
    ensures var out := Push(GroupBy(xs, key), bucket);
      forall j :: 0 <= j < |out| ==> exists i :: 0 <= i < |xs| && key(xs[i]) == idOf(out[j])
  {
    GroupByKeys(xs, key);
    var gs := GroupBy(xs, key);
    var out := Push(gs, bucket);
    forall j | 0 <= j < |out| ensures exists i :: 0 <= i < |xs| && key(xs[i]) == idOf(out[j]) {
      assert idOf(out[j]) == Keys(gs)[j];
    }
  }

  /** Every document is built from exactly the elements with its `_id`. */
  lemma StageMembers<K, T, B>(xs: seq<T>, key: T -> K, bucket: Group<K, T> -> B, idOf: B -> K)
    requires forall g :: idOf(bucket(g)) == g.key
    ensures var out := Push(GroupBy(xs, key), bucket);
      forall j :: 0 <= j < |out| ==> out[j] == bucket(Group(idOf(out[j]), Members(xs, key, idOf(out[j]))))
  {
    GroupByMembers(xs, key);
    var gs := GroupBy(xs, key);
    var out := Push(gs, bucket);
    forall j | 0 <= j < |out| ensures out[j] == bucket(Group(idOf(out[j]), Members(xs, key, idOf(out[j])))) {
      assert idOf(out[j]) == gs[j].key;
    }
  }

  /** A stage has no output exactly when it has no input. */
  lemma GroupByEmpty<K, T>(xs: seq<T>, key: T -> K)
    ensures GroupBy(xs, key) == [] <==> xs == []
  {
    GroupByKeys(xs, key);
    if xs != [] {
      assert key(xs[0]) in Keys(GroupBy(xs, key));
    }
  }

  lemma {:induction false} DistinctCard<K>(ks: seq<K>)
    requires Distinct(ks)
    ensures |set k | k in ks| == |ks|
    decreases |ks|
  {
    if ks != [] {
      var p := ks[..|ks| - 1];
      var x := ks[|ks| - 1];
      assert Distinct(p);
      DistinctCard(p);
      assert ks == p + [x];
      assert (set k | k in ks) == (set k | k in p) + {x};
      assert x !in (set k | k in p);
    }
  }

  /** The set of keys the elements of `xs` carry. */
  function KeySet<K, T>(xs: seq<T>, key: T -> K): set<K>
  {
    set i | 0 <= i < |xs| :: key(xs[i])
  }

  /** The number of groups is the number of distinct keys in the input. */
  lemma GroupCount<K, T>(xs: seq<T>, key: T -> K)
    ensures |GroupBy(xs, key)| == |KeySet(xs, key)|
  {
    GroupByKeys(xs, key);
    var ks := FirstKeys(xs, key);
    DistinctCard(ks);
    assert (set k | k in ks) == KeySet(xs, key);
  }
}
