/** Lists with keys that may repeat, and what putting modified elements into them one after the
    other leaves at every position. */
module KeyedLists {
  import opened Wrappers
  import opened Text

  /** The first element with the key of mod is exchanged for it; without one mod is appended,
      or forgotten. */
  function Put<T, K(==)>(s: seq<T>, mod: T, key: T -> K, append: bool): seq<T> {
    if s == [] then (if append then [mod] else [])
    else if key(s[0]) == key(mod) then [mod] + s[1..]
    else [s[0]] + Put(s[1..], mod, key, append)
  }

  function PutAll<T, K(==)>(s: seq<T>, mods: seq<T>, key: T -> K, append: bool): seq<T> {
    if mods == [] then s else Put(PutAll(s, Front(mods), key, append), Last(mods), key, append)
  }

  lemma {:induction false} PutAt<T, K>(s: seq<T>, mod: T, key: T -> K, append: bool, i: nat)
    requires i <= |s| && forall k :: 0 <= k < i ==> key(s[k]) != key(mod)
    requires i < |s| ==> key(s[i]) == key(mod)
    ensures Put(s, mod, key, append) == if i < |s| then s[i := mod] else if append then s + [mod] else s
    decreases i
  {
    if i > 0 {
      PutAt(s[1..], mod, key, append, i - 1);
    }
  }

  /** The last of the modifications with this key. */
  function LastOf<T, K(==)>(mods: seq<T>, key: T -> K, x: K): (t: Option<T>)
    ensures t.Some? ==> key(t.value) == x
  {
    if mods == [] then None else if key(Last(mods)) == x then Some(Last(mods)) else LastOf(Front(mods), key, x)
  }

  ghost predicate HasKey<T, K>(s: seq<T>, key: T -> K, x: K) { exists k :: 0 <= k < |s| && key(s[k]) == x }

  /** The keys of the modifications that are not in the list, in the order of first appearance. */
  ghost function NewKeys<T, K>(s: seq<T>, mods: seq<T>, key: T -> K): seq<K> {
    if mods == [] then []
    else
      var before, x := NewKeys(s, Front(mods), key), key(Last(mods));
      if HasKey(s, key, x) || x in before then before else before + [x]
  }

  predicate FirstOfKey<T, K(==)>(s: seq<T>, key: T -> K, k: nat)
    requires k < |s|
  {
    forall j :: 0 <= j < k ==> key(s[j]) != key(s[k])
  }

  /** The first element of each modified key is its last modification, every other element is
      as it was, and the new keys follow, each with its last modification. */
  ghost predicate Exactly<T, K>(s: seq<T>, mods: seq<T>, key: T -> K, append: bool, r: seq<T>) {
    var added := if append then NewKeys(s, mods, key) else [];
    && |r| == |s| + |added|
    && (forall k: nat :: k < |s| ==>
          r[k] == if FirstOfKey(s, key, k) && LastOf(mods, key, key(s[k])).Some?
                  then LastOf(mods, key, key(s[k])).value else s[k])
    && (forall j: nat :: j < |added| ==> LastOf(mods, key, added[j]) == Some(r[|s| + j]))
  }

  ghost predicate Unrepeated<K>(s: seq<K>) { forall i, j :: 0 <= i < j < |s| ==> s[i] != s[j] }

  lemma {:induction false} NewKeysAreNew<T, K>(s: seq<T>, mods: seq<T>, key: T -> K)
    ensures forall j :: 0 <= j < |NewKeys(s, mods, key)| ==> !HasKey(s, key, NewKeys(s, mods, key)[j])
    ensures Unrepeated(NewKeys(s, mods, key))
    decreases |mods|
  {
    if mods != [] {
      NewKeysAreNew(s, Front(mods), key);
      var before, x := NewKeys(s, Front(mods), key), key(Last(mods));
      assert NewKeys(s, mods, key) == if HasKey(s, key, x) || x in before then before else before + [x];
      forall j | 0 <= j < |before| && x !in before ensures before[j] != x {}
    }
  }

  lemma LastOfSnoc<T, K>(mods: seq<T>, mod: T, key: T -> K, x: K)
    ensures LastOf(mods + [mod], key, x) == if key(mod) == x then Some(mod) else LastOf(mods, key, x)
  {
    assert Front(mods + [mod]) == mods;
  }

  lemma FirstPosition<T, K>(r: seq<T>, key: T -> K, x: K) returns (at: nat)
    ensures at <= |r| && (forall j :: 0 <= j < at ==> key(r[j]) != x) && (at < |r| ==> key(r[at]) == x)
  {
    at := 0;
    while at < |r| && key(r[at]) != x
      invariant at <= |r| && forall j :: 0 <= j < at ==> key(r[j]) != x
    {
      at := at + 1;
    }
  }

  /** The position that Put writes to. */
  ghost predicate IsPlace<T, K>(r: seq<T>, key: T -> K, x: K, at: nat) {
    at <= |r| && (forall j :: 0 <= j < at ==> key(r[j]) != x) && (at < |r| ==> key(r[at]) == x)
  }

  lemma KeysStay<T, K>(s: seq<T>, mods: seq<T>, key: T -> K, append: bool, r: seq<T>)
    requires Exactly(s, mods, key, append, r)
    ensures |s| <= |r|
    ensures forall k: nat :: k < |s| ==> key(r[k]) == key(s[k])
    ensures append ==> |r| == |s| + |NewKeys(s, mods, key)|
    ensures append ==> forall j: nat :: j < |r| - |s| ==> key(r[|s| + j]) == NewKeys(s, mods, key)[j]
  {
    if append {
      forall j: nat | j < |r| - |s| ensures key(r[|s| + j]) == NewKeys(s, mods, key)[j] {
        assert LastOf(mods, key, NewKeys(s, mods, key)[j]) == Some(r[|s| + j]);
      }
    }
  }

  lemma KeysGrow<T, K>(s: seq<T>, mods: seq<T>, key: T -> K, append: bool, r: seq<T>, mod: T, at: nat)
    requires Exactly(s, mods, key, append, r) && IsPlace(r, key, key(mod), at) && append
    ensures NewKeys(s, mods + [mod], key) ==
            if at < |r| then NewKeys(s, mods, key) else NewKeys(s, mods, key) + [key(mod)]
  {
    KeysStay(s, mods, key, append, r);
    var names := NewKeys(s, mods, key);
    assert Front(mods + [mod]) == mods;
    if at < |s| {
      assert key(s[at]) == key(mod);
      assert HasKey(s, key, key(mod));
    } else if at < |r| {
      assert names[at - |s|] == key(mod);
    } else {
      forall k | 0 <= k < |s| ensures key(s[k]) != key(mod) {
        assert key(r[k]) == key(s[k]);
      }
      forall j | 0 <= j < |names| ensures names[j] != key(mod) {
        assert key(r[|s| + j]) == names[j];
      }
    }
  }

  lemma OldPositions<T, K>(s: seq<T>, mods: seq<T>, key: T -> K, append: bool, r: seq<T>, mod: T, at: nat, k: nat)
    requires Exactly(s, mods, key, append, r) && IsPlace(r, key, key(mod), at) && k < |s|
    ensures
      var after := if at < |r| then r[at := mod] else if append then r + [mod] else r;
      after[k] == if FirstOfKey(s, key, k) && LastOf(mods + [mod], key, key(s[k])).Some?
                  then LastOf(mods + [mod], key, key(s[k])).value else s[k]
  {
    KeysStay(s, mods, key, append, r);
    LastOfSnoc(mods, mod, key, key(s[k]));
    if key(s[k]) == key(mod) {
      assert at <= k;
      if at < k {
        assert key(s[at]) == key(s[k]);
      } else {
        forall j | 0 <= j < k ensures key(s[j]) != key(s[k]) {
          assert key(r[j]) == key(s[j]);
        }
      }
    }
  }

  lemma AddedPositions<T, K>(s: seq<T>, mods: seq<T>, key: T -> K, r: seq<T>, mod: T, at: nat, j: nat)
    requires Exactly(s, mods, key, true, r) && IsPlace(r, key, key(mod), at)
    requires j < |NewKeys(s, mods + [mod], key)|
    ensures
      var after := if at < |r| then r[at := mod] else r + [mod];
      |after| == |s| + |NewKeys(s, mods + [mod], key)| &&
      LastOf(mods + [mod], key, NewKeys(s, mods + [mod], key)[j]) == Some(after[|s| + j])
  {
    KeysGrow(s, mods, key, true, r, mod, at);
    LastOfSnoc(mods, mod, key, NewKeys(s, mods + [mod], key)[j]);
    if j < |NewKeys(s, mods, key)| {
      AddedBefore(s, mods, key, r, key(mod), at, j);
    }
  }

  /** An element added before is at the place of key x exactly when it has that key. */
  lemma AddedBefore<T, K>(s: seq<T>, mods: seq<T>, key: T -> K, r: seq<T>, x: K, at: nat, j: nat)
    requires Exactly(s, mods, key, true, r) && IsPlace(r, key, x, at) && j < |NewKeys(s, mods, key)|
    ensures |s| + j < |r| && LastOf(mods, key, NewKeys(s, mods, key)[j]) == Some(r[|s| + j])
    ensures x == NewKeys(s, mods, key)[j] <==> at == |s| + j
  {
    KeysStay(s, mods, key, true, r);
    NewKeysAreNew(s, mods, key);
    var names := NewKeys(s, mods, key);
    if x == names[j] {
      assert |s| <= at;
      assert names[at - |s|] == names[j];
    }
  }

  lemma PutKeepsExact<T, K>(s: seq<T>, mods: seq<T>, key: T -> K, append: bool, r: seq<T>, mod: T)
    requires Exactly(s, mods, key, append, r)
    ensures Exactly(s, mods + [mod], key, append, Put(r, mod, key, append))
  {
    var at := FirstPosition(r, key, key(mod));
    PutAt(r, mod, key, append, at);
    forall k: nat | k < |s|
      ensures Put(r, mod, key, append)[k] ==
              if FirstOfKey(s, key, k) && LastOf(mods + [mod], key, key(s[k])).Some?
              then LastOf(mods + [mod], key, key(s[k])).value else s[k]
    {
      OldPositions(s, mods, key, append, r, mod, at, k);
    }
    if append {
      KeysStay(s, mods, key, append, r);
      KeysGrow(s, mods, key, append, r, mod, at);
      forall j: nat | j < |NewKeys(s, mods + [mod], key)|
        ensures LastOf(mods + [mod], key, NewKeys(s, mods + [mod], key)[j])
                == Some(Put(r, mod, key, append)[|s| + j])
      {
        AddedPositions(s, mods, key, r, mod, at, j);
      }
    }
  }

  /** For every list and all modifications, keys repeated or not. */
  lemma {:induction false} PutAllExactly<T, K>(s: seq<T>, mods: seq<T>, key: T -> K, append: bool)
    ensures Exactly(s, mods, key, append, PutAll(s, mods, key, append))
    decreases |mods|
  {
    if mods != [] {
      PutAllExactly(s, Front(mods), key, append);
      PutKeepsExact(s, Front(mods), key, append, PutAll(s, Front(mods), key, append), Last(mods));
      assert mods == Front(mods) + [Last(mods)];
    }
  }
}
