/**
 * The order in which `Object.keys` and `Object.values` enumerate the own
 * string keys of an ordinary object (OrdinaryOwnPropertyKeys, section
 * 10.1.11.1 of ECMA-262): first every array index, in ascending numeric
 * order, then every other key, in the order the keys were created.
 */
module PropertyOrder {
  import opened Basics

  predicate IsDigit(c: char) {
    '0' <= c <= '9'
  }

  predicate AllDigits(s: string) {
    forall i :: 0 <= i < |s| ==> IsDigit(s[i])
  }

  /** The number a string of decimal digits denotes. */
  function DecimalValue(digits: string): (n: nat)
    requires AllDigits(digits)
  {
    if digits == [] then 0
    else DecimalValue(digits[..|digits| - 1]) * 10 + (digits[|digits| - 1] as int - '0' as int)
  }

  /** A canonical numeric string (no sign, no leading zero) whose value is below 2^32 - 1. */
  predicate IsArrayIndex(key: string) {
    && |key| > 0
    && AllDigits(key)
    && (key == "0" || key[0] != '0')
    && DecimalValue(key) < 0xFFFF_FFFF
  }

  /** An array index paired with the number it denotes. */
  type Numbered = (nat, string)

  predicate WellNumbered(p: Numbered) {
    IsArrayIndex(p.1) && p.0 == DecimalValue(p.1)
  }

  /** The array indices among `keys`, in creation order, each with its number. */
  function Indices(keys: seq<string>): (ps: seq<Numbered>) {
    if keys == [] then []
    else (if IsArrayIndex(keys[0]) then [(DecimalValue(keys[0]), keys[0])] else []) + Indices(keys[1..])
  }

  /** The other keys, in creation order. */
  function Names(keys: seq<string>): (ns: seq<string>) {
    if keys == [] then []
    else (if IsArrayIndex(keys[0]) then [] else [keys[0]]) + Names(keys[1..])
  }

  /** Every selected pair is an array index of `keys` with its own number. */
  lemma {:induction false} IndicesFacts(keys: seq<string>)
    ensures forall p :: p in Indices(keys) ==> WellNumbered(p) && p.1 in keys
  {
    if keys != [] {
      IndicesFacts(keys[1..]);
    }
  }

  /** No selected name is an array index. */
  lemma {:induction false} NamesFacts(keys: seq<string>)
    ensures forall i :: 0 <= i < |Names(keys)| ==> !IsArrayIndex(Names(keys)[i])
  {
    if keys != [] {
      NamesFacts(keys[1..]);
    }
  }

  predicate Ascending(ps: seq<Numbered>) {
    forall i, j :: 0 <= i < j < |ps| ==> ps[i].0 <= ps[j].0
  }

  /** Insert a numbered key into a list ascending by number, after those with a smaller number. */
  function Insert(sorted: seq<Numbered>, p: Numbered): (r: seq<Numbered>) {
    if sorted == [] then [p]
    else if p.0 <= sorted[0].0 then [p] + sorted
    else [sorted[0]] + Insert(sorted[1..], p)
  }

  /** Insertion sort by number. */
  function Sort(ps: seq<Numbered>): (r: seq<Numbered>) {
    if ps == [] then []
    else Insert(Sort(ps[..|ps| - 1]), ps[|ps| - 1])
  }

  /**
   * OrdinaryOwnPropertyKeys as stated: the array indices in ascending
   * numeric order, then the other keys in creation order.
   */
  function Enumerated(keys: seq<string>): (order: seq<string>) {
    Seconds(Sort(Indices(keys))) + Names(keys)
  }

  /** Place an array index in front of the first key that is not an index or has a number at least its own. */
  function InsertIndex(order: seq<string>, k: string): (r: seq<string>)
    requires IsArrayIndex(k)
  {
    if order == [] || !IsArrayIndex(order[0]) || DecimalValue(k) <= DecimalValue(order[0]) then [k] + order
    else [order[0]] + InsertIndex(order[1..], k)
  }

  /** A key being created: an array index joins the indices by number, any other key goes last. */
  function AddKey(order: seq<string>, k: string): (r: seq<string>) {
    if IsArrayIndex(k) then InsertIndex(order, k) else order + [k]
  }

  /** The key list of an object whose keys were created in the order `keys`, built one creation at a time. */
  function OwnKeys(keys: seq<string>): (order: seq<string>) {
    if keys == [] then [] else AddKey(OwnKeys(keys[..|keys| - 1]), keys[|keys| - 1])
  }

  /** Inserting keeps the list ascending and adds exactly the one element. */
  lemma {:induction false} InsertFacts(sorted: seq<Numbered>, p: Numbered)
    requires Ascending(sorted)
    ensures Ascending(Insert(sorted, p))
    ensures multiset(Insert(sorted, p)) == multiset(sorted) + multiset{p}
  {
    if sorted == [] {
    } else if p.0 <= sorted[0].0 {
      var r := [p] + sorted;
      forall i, j | 0 <= i < j < |r| ensures r[i].0 <= r[j].0 {
        assert r[j] == sorted[j - 1];
      }
    } else {
      InsertFacts(sorted[1..], p);
      InsertBelowHead(sorted, p, Insert(sorted[1..], p));
    }
  }

  lemma {:induction false} InsertKeys(sorted: seq<Numbered>, p: Numbered)
    ensures multiset(Seconds(Insert(sorted, p))) == multiset(Seconds(sorted)) + multiset{p.1}
  {
    assert Seconds([p]) == [p.1];
    if sorted == [] {
    } else if p.0 <= sorted[0].0 {
      SecondsAppend([p], sorted);
    } else {
      var head := [sorted[0]];
      assert Seconds(head) == [sorted[0].1];
      InsertKeys(sorted[1..], p);
      SecondsAppend(head, Insert(sorted[1..], p));
      SecondsAppend(head, sorted[1..]);
      assert sorted == head + sorted[1..];
    }
  }

  /** The head of `sorted` stays in front of the rest once `p` has gone into it. */
  lemma InsertBelowHead(sorted: seq<Numbered>, p: Numbered, rest: seq<Numbered>)
    requires Ascending(sorted) && sorted != [] && p.0 > sorted[0].0
    requires Ascending(rest) && multiset(rest) == multiset(sorted[1..]) + multiset{p}
    ensures Ascending([sorted[0]] + rest)
    ensures multiset([sorted[0]] + rest) == multiset(sorted) + multiset{p}
  {
    var r := [sorted[0]] + rest;
    forall j | 0 <= j < |rest| ensures sorted[0].0 <= rest[j].0 {
      assert rest[j] in multiset(rest);
      if rest[j] != p {
        assert rest[j] in sorted[1..];
        var m :| 0 <= m < |sorted[1..]| && sorted[1..][m] == rest[j];
        assert sorted[m + 1] == rest[j];
      }
    }
    forall i, j | 0 <= i < j < |r| ensures r[i].0 <= r[j].0 {
      assert r[j] == rest[j - 1];
    }
    assert sorted == [sorted[0]] + sorted[1..];
  }

  /** Sorting yields an ascending list of the same elements. */
  lemma {:induction false} SortFacts(ps: seq<Numbered>)
    ensures Ascending(Sort(ps))
    ensures multiset(Sort(ps)) == multiset(ps)
    ensures multiset(Seconds(Sort(ps))) == multiset(Seconds(ps))
  {
    if ps != [] {
      var init, last := ps[..|ps| - 1], ps[|ps| - 1];
      assert ps == init + [last];
      SortFacts(init);
      InsertFacts(Sort(init), last);
      InsertKeys(Sort(init), last);
      SecondsAppend(init, [last]);
      assert Seconds([last]) == [last.1];
    }
  }

  lemma {:induction false} SplitKeys(keys: seq<string>)
    ensures multiset(Seconds(Indices(keys))) + multiset(Names(keys)) == multiset(keys)
  {
    if keys != [] {
      SplitKeys(keys[1..]);
      if IsArrayIndex(keys[0]) {
        SplitIndexHead(keys);
      } else {
        SplitNameHead(keys);
      }
      assert keys == [keys[0]] + keys[1..];
      assert multiset(keys) == multiset{keys[0]} + multiset(keys[1..]);
    }
  }

  /** The first key goes to exactly one of the two lists. */
  lemma SplitIndexHead(keys: seq<string>)
    requires keys != [] && IsArrayIndex(keys[0])
    ensures Seconds(Indices(keys)) == [keys[0]] + Seconds(Indices(keys[1..]))
    ensures Names(keys) == Names(keys[1..])
  {
    var h: seq<Numbered> := [(DecimalValue(keys[0]), keys[0])];
    assert Indices(keys) == h + Indices(keys[1..]);
    SecondsAppend(h, Indices(keys[1..]));
    assert Seconds(h) == [keys[0]];
    assert Names(keys) == [] + Names(keys[1..]);
  }

  lemma SplitNameHead(keys: seq<string>)
    requires keys != [] && !IsArrayIndex(keys[0])
    ensures Indices(keys) == Indices(keys[1..])
    ensures Names(keys) == [keys[0]] + Names(keys[1..])
  {
    assert Indices(keys) == [] + Indices(keys[1..]);
  }

  lemma {:induction false} IndicesSnoc(init: seq<string>, k: string)
    ensures Indices(init + [k]) == Indices(init) + (if IsArrayIndex(k) then [(DecimalValue(k), k)] else [])
  {
    if init != [] {
      assert (init + [k])[1..] == init[1..] + [k];
      IndicesSnoc(init[1..], k);
    }
  }

  lemma {:induction false} NamesSnoc(init: seq<string>, k: string)
    ensures Names(init + [k]) == Names(init) + (if IsArrayIndex(k) then [] else [k])
  {
    if init != [] {
      assert (init + [k])[1..] == init[1..] + [k];
      NamesSnoc(init[1..], k);
    }
  }

  /** Every pair of the sorted indices is an array index with its own number. */
  lemma SortedIndicesWellNumbered(keys: seq<string>)
    ensures forall i :: 0 <= i < |Sort(Indices(keys))| ==> WellNumbered(Sort(Indices(keys))[i])
  {
    var ps := Indices(keys);
    SortFacts(ps);
    IndicesFacts(keys);
    forall i | 0 <= i < |Sort(ps)| ensures WellNumbered(Sort(ps)[i]) {
      assert Sort(ps)[i] in multiset(ps);
    }
  }

  /** Inserting into the key list matches inserting into the sorted pairs, with the names left behind. */
  lemma {:induction false} InsertIndexKeys(sorted: seq<Numbered>, names: seq<string>, p: Numbered)
    requires forall i :: 0 <= i < |sorted| ==> WellNumbered(sorted[i])
    requires forall i :: 0 <= i < |names| ==> !IsArrayIndex(names[i])
    requires WellNumbered(p)
    ensures InsertIndex(Seconds(sorted) + names, p.1) == Seconds(Insert(sorted, p)) + names
  {
    assert Seconds([p]) == [p.1];
    if sorted == [] {
      assert Seconds(sorted) + names == names;
    } else if p.0 <= sorted[0].0 {
      SecondsAppend([p], sorted);
    } else {
      var head := [sorted[0]];
      var order := Seconds(sorted) + names;
      assert order[0] == sorted[0].1;
      assert order[1..] == Seconds(sorted[1..]) + names;
      InsertIndexKeys(sorted[1..], names, p);
      SecondsAppend(head, Insert(sorted[1..], p));
      assert Seconds(head) == [sorted[0].1];
    }
  }

  /** Building the key list one creation at a time yields the order OrdinaryOwnPropertyKeys states. */
  lemma {:induction false} OwnKeysIsEnumerated(keys: seq<string>)
    ensures OwnKeys(keys) == Enumerated(keys)
  {
    if keys != [] {
      var init, k := keys[..|keys| - 1], keys[|keys| - 1];
      assert keys == init + [k];
      OwnKeysIsEnumerated(init);
      if IsArrayIndex(k) {
        AddIndexEnumerated(init, k);
      } else {
        AddNameEnumerated(init, k);
      }
    }
  }

  /** Creating an array index inserts it among the indices by number. */
  lemma AddIndexEnumerated(init: seq<string>, k: string)
    requires IsArrayIndex(k)
    ensures AddKey(Enumerated(init), k) == Enumerated(init + [k])
  {
    var p := (DecimalValue(k), k);
    IndicesSnoc(init, k);
    NamesSnoc(init, k);
    var ps := Indices(init) + [p];
    assert ps[..|ps| - 1] == Indices(init);
    assert Sort(Indices(init + [k])) == Insert(Sort(Indices(init)), p);
    SortedIndicesWellNumbered(init);
    NamesFacts(init);
    InsertIndexKeys(Sort(Indices(init)), Names(init), p);
  }

  /** Creating any other key appends it. */
  lemma AddNameEnumerated(init: seq<string>, k: string)
    requires !IsArrayIndex(k)
    ensures AddKey(Enumerated(init), k) == Enumerated(init + [k])
  {
    IndicesSnoc(init, k);
    NamesSnoc(init, k);
    assert Indices(init + [k]) == Indices(init) + [] == Indices(init);
    assert Seconds(Sort(Indices(init))) + Names(init) + [k] == Seconds(Sort(Indices(init))) + (Names(init) + [k]);
  }

  /** The enumeration is a permutation of the keys. */
  lemma OwnKeysPermutes(keys: seq<string>)
    ensures multiset(OwnKeys(keys)) == multiset(keys)
  {
    OwnKeysIsEnumerated(keys);
    SplitKeys(keys);
    SortFacts(Indices(keys));
  }

  /** The enumeration lists every key, and nothing else, as many times as there are keys. */
  lemma OwnKeysMembers(keys: seq<string>)
    ensures |OwnKeys(keys)| == |keys|
    ensures forall k :: k in OwnKeys(keys) <==> k in keys
  {
    var r := OwnKeys(keys);
    OwnKeysPermutes(keys);
    assert |r| == |multiset(r)| == |multiset(keys)| == |keys|;
    forall k ensures k in r <==> k in keys {
      assert k in r <==> k in multiset(r);
      assert k in keys <==> k in multiset(keys);
    }
  }

  predicate Distinct(keys: seq<string>) {
    forall i, j :: 0 <= i < j < |keys| ==> keys[i] != keys[j]
  }

  lemma {:induction false} DistinctCounts(keys: seq<string>)
    requires Distinct(keys)
    ensures forall k :: multiset(keys)[k] <= 1
  {
    if keys != [] {
      DistinctCounts(keys[1..]);
      assert keys == [keys[0]] + keys[1..];
      assert keys[0] !in keys[1..];
    }
  }

  /** A key at two positions is counted at least twice. */
  lemma CountedTwice(keys: seq<string>, i: nat, j: nat)
    requires i < j < |keys| && keys[i] == keys[j]
    ensures multiset(keys)[keys[i]] >= 2
  {
    assert keys == keys[..j] + [keys[j]] + keys[j + 1..];
    assert keys[..j][i] == keys[i];
  }

  /** Distinct keys enumerate as distinct keys. */
  lemma OwnKeysDistinct(keys: seq<string>)
    requires Distinct(keys)
    ensures Distinct(OwnKeys(keys))
  {
    var r := OwnKeys(keys);
    DistinctCounts(keys);
    OwnKeysPermutes(keys);
    forall i, j | 0 <= i < j < |r| ensures r[i] != r[j] {
      if r[i] == r[j] {
        CountedTwice(r, i, j);
        assert false;
      }
    }
  }

  /**
   * The array indices come first, in ascending numeric order, and the other
   * keys follow in creation order.
   */
  lemma OwnKeysOrder(keys: seq<string>)
    ensures var r, n := OwnKeys(keys), |Indices(keys)|;
      && n <= |r|
      && (forall i :: 0 <= i < n ==> IsArrayIndex(r[i]))
      && (forall i, j :: 0 <= i < j < n ==> DecimalValue(r[i]) <= DecimalValue(r[j]))
      && r[n..] == Names(keys)
  {
    var ps := Indices(keys);
    var sorted := Sort(ps);
    var r := OwnKeys(keys);
    OwnKeysIsEnumerated(keys);
    SortFacts(ps);
    IndicesFacts(keys);
    assert |sorted| == |multiset(sorted)| == |multiset(ps)| == |ps|;
    forall i | 0 <= i < |sorted| ensures WellNumbered(sorted[i]) && r[i] == sorted[i].1 {
      assert sorted[i] in multiset(ps);
    }
  }

  /** Without array indices among the keys, the enumeration is the creation order. */
  lemma {:induction false} NamesOnly(keys: seq<string>)
    requires forall i :: 0 <= i < |keys| ==> !IsArrayIndex(keys[i])
    ensures OwnKeys(keys) == keys
  {
    OwnKeysIsEnumerated(keys);
    NamesKeepAll(keys);
    NoIndices(keys);
  }

  lemma {:induction false} NamesKeepAll(keys: seq<string>)
    requires forall i :: 0 <= i < |keys| ==> !IsArrayIndex(keys[i])
    ensures Names(keys) == keys
  {
    if keys != [] {
      NamesKeepAll(keys[1..]);
    }
  }

  lemma {:induction false} NoIndices(keys: seq<string>)
    requires forall i :: 0 <= i < |keys| ==> !IsArrayIndex(keys[i])
    ensures Indices(keys) == []
  {
    if keys != [] {
      NoIndices(keys[1..]);
    }
  }

  /** An object whose keys were created as "b", "2", "a", "1" enumerates them as "1", "2", "b", "a". */
  lemma IndicesJumpAhead(keys: seq<string>)
    requires keys == ["b", "2", "a", "1"]
    ensures OwnKeys(keys) == ["1", "2", "b", "a"]
  {
    OwnKeysIsEnumerated(keys);
    SplitExample(keys);
    SortExample();
    var sorted: seq<Numbered> := [(1, "1"), (2, "2")];
    assert Sort(Indices(keys)) == sorted;
    assert Seconds(sorted) == ["1", "2"];
  }

  lemma SplitExample(keys: seq<string>)
    requires keys == ["b", "2", "a", "1"]
    ensures Indices(keys) == [(2, "2"), (1, "1")]
    ensures Names(keys) == ["b", "a"]
  {
    ExampleKinds();
    var k1, k2, k3 := keys[1..], keys[2..], keys[3..];
    assert k1 == ["2", "a", "1"] && k2 == ["a", "1"] && k3 == ["1"] && k3[1..] == [];
    assert k1[1..] == k2 && k2[1..] == k3;
    IndicesExample(keys, k1, k2, k3);
    NamesExample(keys, k1, k2, k3);
  }

  lemma IndicesExample(keys: seq<string>, k1: seq<string>, k2: seq<string>, k3: seq<string>)
    requires keys == ["b", "2", "a", "1"] && k1 == keys[1..] && k2 == k1[1..] && k3 == k2[1..] && k3[1..] == []
    requires DecimalValue("1") == 1 && DecimalValue("2") == 2
    requires IsArrayIndex("1") && IsArrayIndex("2") && !IsArrayIndex("a") && !IsArrayIndex("b")
    ensures Indices(keys) == [(2, "2"), (1, "1")]
  {
    assert Indices(k3) == [(1, "1")];
    assert Indices(k2) == [(1, "1")];
    assert Indices(k1) == [(2, "2"), (1, "1")];
  }

  lemma NamesExample(keys: seq<string>, k1: seq<string>, k2: seq<string>, k3: seq<string>)
    requires keys == ["b", "2", "a", "1"] && k1 == keys[1..] && k2 == k1[1..] && k3 == k2[1..] && k3[1..] == []
    requires IsArrayIndex("1") && IsArrayIndex("2") && !IsArrayIndex("a") && !IsArrayIndex("b")
    ensures Names(keys) == ["b", "a"]
  {
    assert Names(k3) == [];
    assert Names(k2) == ["a"];
    assert Names(k1) == ["a"];
  }

  lemma ExampleKinds()
    ensures DecimalValue("1") == 1 && DecimalValue("2") == 2
    ensures IsArrayIndex("1") && IsArrayIndex("2") && !IsArrayIndex("a") && !IsArrayIndex("b")
  {
    assert DecimalValue("1") == 1 by { assert "1"[..0] == ""; }
    assert DecimalValue("2") == 2 by { assert "2"[..0] == ""; }
    assert !IsDigit("a"[0]) && !IsDigit("b"[0]);
  }

  lemma SortExample()
    ensures Sort([(2, "2"), (1, "1")]) == [(1, "1"), (2, "2")]
  {
    var ps: seq<Numbered> := [(2, "2"), (1, "1")];
    assert ps[..1] == [(2, "2")];
    var first := Sort([(2, "2")]);
    assert first == [(2, "2")];
    assert Sort(ps) == Insert(first, (1, "1"));
  }
}
