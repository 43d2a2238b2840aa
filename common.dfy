/**
 * Shared vocabulary of the model: optional values, Python's insertion-ordered
 * dict, ASCII case folding, substring search (Python's `in` on strings),
 * `str.strip`, Python slice semantics for negative bounds, and the stable
 * descending sort that `list.sort(key=..., reverse=True)` performs.
 */
module Common {

  datatype Option<T> = None | Some(value: T)

  /** The outcome of calling a caller-supplied Python callable: it returns a value or raises. */
  datatype CallOutcome<T> = Returned(value: T) | Raised

  // ---------------------------------------------------------------------------
  // Sequences
  // ---------------------------------------------------------------------------

  predicate NoDup<T(==)>(s: seq<T>) {
    forall i, j :: 0 <= i < j < |s| ==> s[i] != s[j]
  }

  /** Every occurrence of `x` removed, the order of the rest kept. */
  function RemoveAll<T(==)>(s: seq<T>, x: T): (r: seq<T>)
    ensures forall i :: 0 <= i < |r| ==> r[i] in s && r[i] != x
    ensures forall i :: 0 <= i < |s| && s[i] != x ==> s[i] in r
    ensures |r| <= |s|
    ensures x !in s ==> r == s
  {
    if s == [] then [] else (if s[0] == x then [] else [s[0]]) + RemoveAll(s[1..], x)
  }

  lemma {:induction false} RemoveAllNoDup<T>(s: seq<T>, x: T)
    requires NoDup(s)
    ensures NoDup(RemoveAll(s, x))
  {
    if s != [] {
      assert NoDup(s[1..]);
      RemoveAllNoDup(s[1..], x);
      assert s[0] !in s[1..];
    }
  }

  /** Python's `s[-n:]`, for any integer `n` (note that `-0 == 0` keeps everything). */
  function PyTail<T>(s: seq<T>, n: int): (r: seq<T>)
    ensures |r| <= |s|
    ensures n > 0 ==> |r| == if n < |s| then n else |s|
    ensures n > 0 ==> r == s[|s| - |r|..]
  {
    if n > 0 then (if n < |s| then s[|s| - n..] else s)
    else if -n < |s| then s[-n..]
    else []
  }

  /** Python's `s[:n]`, for any integer `n`. */
  function PyHead<T>(s: seq<T>, n: int): (r: seq<T>)
    ensures n >= 0 ==> |r| == if n < |s| then n else |s|
    ensures |r| <= |s| && r == s[..|r|]
  {
    if n >= 0 then (if n < |s| then s[..n] else s)
    else if |s| + n > 0 then s[..|s| + n]
    else []
  }

  /**
   * Appending `x` to a history and, when it grows beyond `cap`, keeping the
   * newest `cap` entries (`h.append(x); if len(h) > cap: h = h[-cap:]`).
   */
  function AppendCapped<T>(h: seq<T>, x: T, cap: int): seq<T> {
    var h' := h + [x];
    if |h'| > cap then PyTail(h', cap) else h'
  }

  lemma AppendCappedBounded<T>(h: seq<T>, x: T, cap: int)
    requires cap >= 1 && |h| <= cap
    ensures var r := AppendCapped(h, x, cap);
      |r| == (if |h| < cap then |h| + 1 else cap)
      && r[|r| - 1] == x
      && r[..|r| - 1] == (h + [x])[|h| + 1 - |r|..|h|]
  {
  }

  // ---------------------------------------------------------------------------
  // Python's dict: a map that remembers the order in which keys were inserted
  // ---------------------------------------------------------------------------

  datatype Dict<K(==), V> = Dict(keys: seq<K>, entries: map<K, V>) {

    ghost predicate Valid() {
      NoDup(keys) && entries.Keys == set k | k in keys
    }

    /** `d[k] = v`: a new key goes to the end, an existing key keeps its place. */
    function Put(k: K, v: V): (d: Dict<K, V>)
      ensures Valid() ==> d.Valid()
      ensures d.entries == entries[k := v]
      ensures k in entries ==> d.keys == keys
      ensures k !in entries ==> d.keys == keys + [k]
    {
      Dict(if k in entries then keys else keys + [k], entries[k := v])
    }

    /** `del d[k]`: the other keys keep their order. */
    function Remove(k: K): (d: Dict<K, V>)
      ensures Valid() ==> d.Valid()
      ensures d.entries == entries - {k}
      ensures d.keys == RemoveAll(keys, k)
    {
      var d := Dict(RemoveAll(keys, k), entries - {k});
      if NoDup(keys) then RemoveAllNoDup(keys, k); d else d
    }
  }

  /** `list(d.values())`. */
  function Values<K(==), V>(d: Dict<K, V>): (vs: seq<V>)
    requires d.Valid()
    ensures |vs| == |d.keys|
    ensures forall i :: 0 <= i < |d.keys| ==> vs[i] == d.entries[d.keys[i]]
  {
    seq(|d.keys|, i requires 0 <= i < |d.keys| => d.entries[d.keys[i]])
  }

  function EmptyDict<K(==), V>(): (d: Dict<K, V>)
    ensures d.Valid() && d.entries == map[]
  {
    Dict([], map[])
  }

  // ---------------------------------------------------------------------------
  // Strings
  // ---------------------------------------------------------------------------

  /** `str.lower()` restricted to ASCII letters. */
  function LowerChar(c: char): char {
    if 'A' <= c <= 'Z' then (c as int + 32) as char else c
  }

  function Lower(s: string): (r: string)
    ensures |r| == |s| && forall i :: 0 <= i < |s| ==> r[i] == LowerChar(s[i])
  {
    seq(|s|, i requires 0 <= i < |s| => LowerChar(s[i]))
  }

  lemma LowerConcat(a: string, b: string)
    ensures Lower(a + b) == Lower(a) + Lower(b)
  {
  }

  predicate OccursAt(needle: string, hay: string, i: nat) {
    i + |needle| <= |hay| && hay[i..i + |needle|] == needle
  }

  /** Python's `needle in hay` for strings. */
  predicate IsSubstring(needle: string, hay: string)
    decreases |hay|
  {
    needle <= hay || (hay != [] && IsSubstring(needle, hay[1..]))
  }

  lemma {:induction false} SubstringAt(needle: string, hay: string, i: nat)
    requires OccursAt(needle, hay, i)
    ensures IsSubstring(needle, hay)
    decreases i
  {
    if i > 0 {
      assert hay[1..][i - 1..i - 1 + |needle|] == hay[i..i + |needle|];
      SubstringAt(needle, hay[1..], i - 1);
    }
  }

  lemma {:induction false} SubstringHasPosition(needle: string, hay: string)
    requires IsSubstring(needle, hay)
    ensures exists i: nat :: OccursAt(needle, hay, i)
    decreases |hay|
  {
    if needle <= hay {
      assert OccursAt(needle, hay, 0);
    } else {
      SubstringHasPosition(needle, hay[1..]);
      var i: nat :| OccursAt(needle, hay[1..], i);
      assert hay[1..][i..i + |needle|] == hay[i + 1..i + 1 + |needle|];
      assert OccursAt(needle, hay, i + 1);
    }
  }

  /** A character of the needle that the haystack lacks rules the needle out. */
  lemma {:induction false} SubstringNeedsChar(needle: string, hay: string, c: char)
    requires c in needle && c !in hay
    ensures !IsSubstring(needle, hay)
    decreases |hay|
  {
    if hay != [] {
      assert c !in hay[1..];
      SubstringNeedsChar(needle, hay[1..], c);
    }
  }

  /** `any(keyword.lower() in text for keyword in keywords)`. */
  function AnyKeyword(keywords: seq<string>, text: string): (r: bool)
    ensures r <==> exists i :: 0 <= i < |keywords| && IsSubstring(Lower(keywords[i]), text)
  {
    if keywords == [] then false
    else
      assert forall i :: 0 < i < |keywords| ==> keywords[i] == keywords[1..][i - 1];
      IsSubstring(Lower(keywords[0]), text) || AnyKeyword(keywords[1..], text)
  }

  /** The characters Python's `str.isspace` accepts (and hence `str.strip()` removes). */
  predicate IsSpace(c: char) {
    var n := c as int;
    (9 <= n <= 13) || (28 <= n <= 32) || n == 0x85 || n == 0xA0 || n == 0x1680
    || (0x2000 <= n <= 0x200A) || n == 0x2028 || n == 0x2029 || n == 0x202F
    || n == 0x205F || n == 0x3000
  }

  /** Drops the leading characters that satisfy `drop` (Python's `lstrip`). */
  function TrimStart(s: string, drop: char -> bool): (r: string)
    ensures |r| <= |s| && r == s[|s| - |r|..]
    ensures r == [] || !drop(r[0])
    ensures forall i :: 0 <= i < |s| - |r| ==> drop(s[i])
  {
    if s != [] && drop(s[0]) then
      var r := TrimStart(s[1..], drop);
      assert forall i :: 1 <= i < |s| - |r| ==> s[i] == s[1..][i - 1];
      r
    else s
  }

  /** Drops the trailing characters that satisfy `drop` (Python's `rstrip`). */
  function TrimEnd(s: string, drop: char -> bool): (r: string)
    ensures |r| <= |s| && r == s[..|r|]
    ensures r == [] || !drop(r[|r| - 1])
    ensures forall i :: |r| <= i < |s| ==> drop(s[i])
  {
    if s != [] && drop(s[|s| - 1]) then
      var r := TrimEnd(s[..|s| - 1], drop);
      assert forall i :: |r| <= i < |s| - 1 ==> s[i] == s[..|s| - 1][i];
      r
    else s
  }

  /** Python's `strip` with a character class. */
  function Trim(s: string, drop: char -> bool): (r: string)
    ensures |r| <= |s|
    ensures r == [] || (!drop(r[0]) && !drop(r[|r| - 1]))
    ensures r == [] <==> forall i :: 0 <= i < |s| ==> drop(s[i])
  {
    var a := TrimStart(s, drop);
    var r := TrimEnd(a, drop);
    assert a != [] ==> r != [] by {
      if a != [] { assert !drop(a[0]); }
    }
    r
  }

  /** Python's `str.strip()`. */
  function Strip(s: string): string {
    Trim(s, IsSpace)
  }

  lemma TrimIdempotent(s: string, drop: char -> bool)
    ensures Trim(Trim(s, drop), drop) == Trim(s, drop)
  {
    var t := Trim(s, drop);
    assert TrimStart(t, drop) == t;
    assert TrimEnd(t, drop) == t;
  }

  lemma StripIdempotent(s: string)
    ensures Strip(Strip(s)) == Strip(s)
  {
    TrimIdempotent(s, IsSpace);
  }

  // ---------------------------------------------------------------------------
  // Stable sort, highest key first: Python's `list.sort(key=key, reverse=True)`
  // ---------------------------------------------------------------------------

  ghost predicate SortedDesc<T>(s: seq<T>, key: T -> int) {
    forall i, j :: 0 <= i < j < |s| ==> key(s[i]) >= key(s[j])
  }

  /** The elements whose key is `v`, in their order in `s`. */
  function WithKey<T>(s: seq<T>, key: T -> int, v: int): seq<T> {
    if s == [] then [] else WithKey(s[..|s| - 1], key, v) + (if key(s[|s| - 1]) == v then [s[|s| - 1]] else [])
  }

  /** Places `x`, which came after every element of `s`, behind every element whose key is at least its own. */
  function InsertDesc<T>(s: seq<T>, x: T, key: T -> int): seq<T> {
    if s == [] || key(s[|s| - 1]) >= key(x) then s + [x]
    else InsertDesc(s[..|s| - 1], x, key) + [s[|s| - 1]]
  }

  /** Insertion sort, taking the elements in their original order. */
  function SortDesc<T>(s: seq<T>, key: T -> int): seq<T> {
    if s == [] then [] else InsertDesc(SortDesc(s[..|s| - 1], key), s[|s| - 1], key)
  }

  lemma {:induction false} InsertDescPermutes<T>(s: seq<T>, x: T, key: T -> int)
    ensures multiset(InsertDesc(s, x, key)) == multiset(s) + multiset{x}
    decreases |s|
  {
    if !(s == [] || key(s[|s| - 1]) >= key(x)) {
      var init := s[..|s| - 1];
      assert s == init + [s[|s| - 1]];
      InsertDescPermutes(init, x, key);
    }
  }

  lemma {:induction false} InsertDescSorted<T>(s: seq<T>, x: T, key: T -> int)
    requires SortedDesc(s, key)
    ensures SortedDesc(InsertDesc(s, x, key), key)
    decreases |s|
  {
    if !(s == [] || key(s[|s| - 1]) >= key(x)) {
      var init, last := s[..|s| - 1], s[|s| - 1];
      assert SortedDesc(init, key);
      InsertDescSorted(init, x, key);
      InsertDescPermutes(init, x, key);
      var ri := InsertDesc(init, x, key);
      var r := ri + [last];
      forall i, j | 0 <= i < j < |r| ensures key(r[i]) >= key(r[j]) {
        if j == |r| - 1 {
          assert r[i] == ri[i];
          assert ri[i] in multiset(init) + multiset{x};
          if ri[i] != x {
            assert ri[i] in init;
            var k :| 0 <= k < |init| && init[k] == ri[i];
            assert s[k] == init[k];
          }
        } else {
          assert r[i] == ri[i] && r[j] == ri[j];
        }
      }
    }
  }

  lemma SingletonWithKey<T>(x: T, key: T -> int, v: int)
    ensures WithKey([x], key, v) == if key(x) == v then [x] else []
  {
    assert [x][..0] == [];
  }

  lemma {:induction false} InsertDescStable<T>(s: seq<T>, x: T, key: T -> int, v: int)
    ensures WithKey(InsertDesc(s, x, key), key, v) == WithKey(s, key, v) + WithKey([x], key, v)
    decreases |s|
  {
    SingletonWithKey(x, key, v);
    var r := InsertDesc(s, x, key);
    if s == [] || key(s[|s| - 1]) >= key(x) {
      assert r[..|r| - 1] == s;
    } else {
      var init, last := s[..|s| - 1], s[|s| - 1];
      InsertDescStable(init, x, key, v);
      var ri := InsertDesc(init, x, key);
      var tail := if key(last) == v then [last] else [];
      assert r[..|r| - 1] == ri;
      assert WithKey(r, key, v) == WithKey(ri, key, v) + tail;
      assert WithKey(s, key, v) == WithKey(init, key, v) + tail;
      if key(last) == v {
        assert WithKey([x], key, v) == [];
      } else {
        assert tail == [];
      }
    }
  }

  lemma {:induction false} SortDescFacts<T>(s: seq<T>, key: T -> int)
    ensures multiset(SortDesc(s, key)) == multiset(s)
    ensures SortedDesc(SortDesc(s, key), key)
    ensures forall v :: WithKey(SortDesc(s, key), key, v) == WithKey(s, key, v)
    decreases |s|
  {
    if s != [] {
      var init, last := s[..|s| - 1], s[|s| - 1];
      assert s == init + [last];
      SortDescFacts(init, key);
      InsertDescPermutes(SortDesc(init, key), last, key);
      InsertDescSorted(SortDesc(init, key), last, key);
      forall v ensures WithKey(SortDesc(s, key), key, v) == WithKey(s, key, v) {
        InsertDescStable(SortDesc(init, key), last, key, v);
        SingletonWithKey(last, key, v);
      }
    }
  }

  /** What a prefix of a descending list leaves out is never above anything the prefix keeps. */
  lemma SortedPrefixNewest<T>(s: seq<T>, n: int, key: T -> int)
    requires SortedDesc(s, key) && 0 <= n <= |s|
    ensures multiset(s[..n]) <= multiset(s)
    ensures forall x, i :: x in multiset(s) - multiset(s[..n]) && 0 <= i < n ==> key(x) <= key(s[i])
  {
    assert s == s[..n] + s[n..];
    assert multiset(s) == multiset(s[..n]) + multiset(s[n..]);
    forall x, i | x in multiset(s) - multiset(s[..n]) && 0 <= i < n ensures key(x) <= key(s[i]) {
      assert x in s[n..];
      var j :| 0 <= j < |s[n..]| && s[n..][j] == x;
      assert s[n + j] == x;
    }
  }

  /** Sorting a list that is already sorted leaves it as it is. */
  lemma {:induction false} SortDescOfSorted<T>(s: seq<T>, key: T -> int)
    requires SortedDesc(s, key)
    ensures SortDesc(s, key) == s
    decreases |s|
  {
    if s != [] {
      var init := s[..|s| - 1];
      assert SortedDesc(init, key);
      SortDescOfSorted(init, key);
      assert s == init + [s[|s| - 1]];
    }
  }

  /** Where `InsertDesc` puts `x`: behind the longest tail of `s` whose keys are all below `x`'s. */
  function InsertPoint<T>(s: seq<T>, x: T, key: T -> int): (k: nat)
    ensures k <= |s|
  {
    if s == [] || key(s[|s| - 1]) >= key(x) then |s| else InsertPoint(s[..|s| - 1], x, key)
  }

  lemma {:induction false} InsertDescShape<T>(s: seq<T>, x: T, key: T -> int)
    ensures var k := InsertPoint(s, x, key); InsertDesc(s, x, key) == s[..k] + [x] + s[k..]
    decreases |s|
  {
    if !(s == [] || key(s[|s| - 1]) >= key(x)) {
      var init, last := s[..|s| - 1], s[|s| - 1];
      InsertDescShape(init, x, key);
      var k := InsertPoint(init, x, key);
      assert s[..k] == init[..k];
      assert s[k..] == init[k..] + [last];
    }
  }

  lemma {:induction false} InsertPointSplits<T>(s: seq<T>, x: T, key: T -> int)
    requires SortedDesc(s, key)
    ensures var k := InsertPoint(s, x, key);
      (forall j :: 0 <= j < k ==> key(s[j]) >= key(x)) && (forall j :: k <= j < |s| ==> key(s[j]) < key(x))
    decreases |s|
  {
    if !(s == [] || key(s[|s| - 1]) >= key(x)) {
      var init := s[..|s| - 1];
      assert SortedDesc(init, key);
      InsertPointSplits(init, x, key);
    }
  }

  /**
   * Sorting a sorted list with one element appended places that element behind
   * every element whose key is at least its own and ahead of every other.
   */
  lemma AppendThenSort<T>(s: seq<T>, x: T, key: T -> int)
    requires SortedDesc(s, key)
    ensures var k := InsertPoint(s, x, key);
      SortDesc(s + [x], key) == s[..k] + [x] + s[k..]
      && (forall j :: 0 <= j < k ==> key(s[j]) >= key(x))
      && (forall j :: k <= j < |s| ==> key(s[j]) < key(x))
  {
    assert (s + [x])[..|s|] == s;
    SortDescOfSorted(s, key);
    InsertDescShape(s, x, key);
    InsertPointSplits(s, x, key);
  }

  // ---------------------------------------------------------------------------
  // Maps
  // ---------------------------------------------------------------------------

  /** Python's `d.get(k, default)`. */
  function Get<K, V>(m: map<K, V>, k: K, default: V): (r: V)
    ensures k in m ==> r == m[k]
    ensures k !in m ==> r == default
  {
    if k in m then m[k] else default
  }

  /** The sum of a map's values (`sum(d.values())`). */
  ghost function SumValues<K>(m: map<K, nat>): nat
    decreases |m.Keys|
  {
    if m == map[] then 0
    else
      var k :| k in m;
      assert |(m - {k}).Keys| < |m.Keys| by { assert (m - {k}).Keys < m.Keys; }
      m[k] + SumValues(m - {k})
  }

  /** Any key may be taken out first. */
  lemma {:induction false} SumValuesRemove<K>(m: map<K, nat>, k: K)
    requires k in m
    ensures SumValues(m) == m[k] + SumValues(m - {k})
    decreases |m.Keys|
  {
    var j :| j in m && SumValues(m) == m[j] + SumValues(m - {j});
    if j != k {
      assert (m - {j}).Keys < m.Keys;
      SumValuesRemove(m - {j}, k);
      assert (m - {k}).Keys < m.Keys;
      SumValuesRemove(m - {k}, j);
      assert m - {j} - {k} == m - {k} - {j};
    }
  }

  /** Pointwise smaller values have a smaller sum. */
  lemma {:induction false} SumValuesMono<K>(small: map<K, nat>, large: map<K, nat>)
    requires small.Keys == large.Keys
    requires forall k | k in small :: small[k] <= large[k]
    ensures SumValues(small) <= SumValues(large)
    decreases |small.Keys|
  {
    if small != map[] {
      var k :| k in small;
      SumValuesRemove(small, k);
      SumValuesRemove(large, k);
      assert (small - {k}).Keys < small.Keys;
      SumValuesMono(small - {k}, large - {k});
    }
  }

  /** Adding one more key adds its value. */
  lemma SumValuesAdd<K>(m: map<K, nat>, k: K, v: nat)
    requires k !in m
    ensures SumValues(m[k := v]) == SumValues(m) + v
  {
    SumValuesRemove(m[k := v], k);
    assert m[k := v] - {k} == m;
  }

  /** `sum(d.values())`, one key at a time. */
  method SumOf<K>(m: map<K, nat>) returns (total: nat)
    ensures total == SumValues(m)
  {
    total := 0;
    var rest := m;
    while rest != map[]
      invariant total + SumValues(rest) == SumValues(m)
      decreases |rest.Keys|
    {
      var k :| k in rest;
      SumValuesRemove(rest, k);
      assert (rest - {k}).Keys < rest.Keys;
      total := total + rest[k];
      rest := rest - {k};
    }
  }

  /** `{k: sum(d[k].values()) for k in d}`. */
  method SumEach<J, K>(d: map<J, map<K, nat>>) returns (r: map<J, nat>)
    ensures r.Keys == d.Keys && forall j | j in d :: r[j] == SumValues(d[j])
  {
    r := map[];
    var rest := d.Keys;
    while rest != {}
      invariant rest <= d.Keys && r.Keys == d.Keys - rest
      invariant forall j | j in r :: r[j] == SumValues(d[j])
      decreases rest
    {
      var j :| j in rest;
      var n := SumOf(d[j]);
      r := r[j := n];
      rest := rest - {j};
    }
  }
  // ---------------------------------------------------------------------------
  // Counting
  // ---------------------------------------------------------------------------

  /** `len([x for x in s if p(x)])`. */
  function CountWhere<T>(s: seq<T>, p: T -> bool): (n: nat)
    ensures n <= |s|
  {
    if s == [] then 0 else CountWhere(s[..|s| - 1], p) + (if p(s[|s| - 1]) then 1 else 0)
  }

  /** How many elements have key `k`. */
  function CountKey<T, K(==)>(s: seq<T>, key: T -> K, k: K): (n: nat)
    ensures n <= |s|
  {
    if s == [] then 0 else CountKey(s[..|s| - 1], key, k) + (if key(s[|s| - 1]) == k then 1 else 0)
  }

  /** `counts[key(x)] = counts.get(key(x), 0) + 1` for each element in turn. */
  function Tally<T, K(==)>(s: seq<T>, key: T -> K): Dict<K, nat> {
    if s == [] then EmptyDict()
    else
      var d := Tally(s[..|s| - 1], key);
      var k := key(s[|s| - 1]);
      d.Put(k, Get(d.entries, k, 0) + 1)
  }

  /** The tally lists each key that occurs, in order of first occurrence, with its number of elements. */
  lemma {:induction false} TallyFacts<T, K>(s: seq<T>, key: T -> K)
    ensures Tally(s, key).Valid()
    ensures forall k :: k in Tally(s, key).entries <==> CountKey(s, key, k) > 0
    ensures forall k :: k in Tally(s, key).entries ==> Tally(s, key).entries[k] == CountKey(s, key, k)
    decreases |s|
  {
    if s != [] {
      var init := s[..|s| - 1];
      TallyFacts(init, key);
      var d, k := Tally(init, key), key(s[|s| - 1]);
      assert Tally(s, key) == d.Put(k, Get(d.entries, k, 0) + 1);
      forall j | j in Tally(s, key).entries ensures Tally(s, key).entries[j] == CountKey(s, key, j) {
        assert CountKey(s, key, j) == CountKey(init, key, j) + (if k == j then 1 else 0);
        if j != k {
          assert j in d.entries;
        }
      }
    }
  }

  /** The counts of a tally add up to the number of elements. */
  lemma {:induction false} TallyTotal<T, K>(s: seq<T>, key: T -> K)
    ensures SumValues(Tally(s, key).entries) == |s|
    decreases |s|
  {
    if s != [] {
      var init := s[..|s| - 1];
      TallyTotal(init, key);
      var e := Tally(init, key).entries;
      var k := key(s[|s| - 1]);
      if k in e {
        SumValuesRemove(e, k);
        SumValuesRemove(e[k := e[k] + 1], k);
        assert e[k := e[k] + 1] - {k} == e - {k};
      } else {
        SumValuesAdd(e, k, 1);
      }
    }
  }

  /** The counting loop. */
  method TallyOf<T, K(==)>(s: seq<T>, key: T -> K) returns (d: Dict<K, nat>)
    ensures d == Tally(s, key)
  {
    d := EmptyDict();
    for i := 0 to |s|
      invariant d == Tally(s[..i], key)
    {
      assert s[..i + 1][..i] == s[..i];
      var k := key(s[i]);
      d := d.Put(k, Get(d.entries, k, 0) + 1);
    }
    assert s[..|s|] == s;
  }
}
