/** The JSON layer between the backend and the page. Flask's `jsonify`
    serialises dictionaries with their keys sorted, and Python orders
    strings code point by code point; the browser's `JSON.parse` keeps the
    order of the text, and `Object.entries` lists a parsed object's keys in
    that order. A dictionary keyed by prize name therefore reaches the page
    sorted by name, whatever its order in the backend. */
module Json {
  import opened Wire

  /** Python's string order `a <= b`: code point by code point, a proper
      prefix first. */
  predicate NameLe(a: string, b: string)
    decreases |a|
  {
    a == [] || (b != [] && (a[0] < b[0] || (a[0] == b[0] && NameLe(a[1..], b[1..]))))
  }

  /** Any two names are ordered one way or the other. */
  lemma {:induction false} NameLeTotal(a: string, b: string)
    ensures NameLe(a, b) || NameLe(b, a)
    decreases |a|
  {
    if a != [] && b != [] && a[0] == b[0] {
      NameLeTotal(a[1..], b[1..]);
    }
  }

  /** Consecutive entries are in key order. */
  predicate KeySorted<T>(xs: seq<T>, key: T -> string) {
    forall i | 0 < i < |xs| :: NameLe(key(xs[i - 1]), key(xs[i]))
  }

  /** `x` placed into the sorted `xs` before the first entry it does not
      follow. */
  function Insert<T(==)>(x: T, xs: seq<T>, key: T -> string): (ys: seq<T>)
    requires KeySorted(xs, key)
    ensures multiset(ys) == multiset(xs) + multiset{x}
    ensures KeySorted(ys, key)
    ensures |ys| == |xs| + 1 && ys != []
    ensures ys[0] == x || (xs != [] && ys[0] == xs[0])
  {
    if xs == [] then [x]
    else if NameLe(key(x), key(xs[0])) then [x] + xs
    else
      NameLeTotal(key(x), key(xs[0]));
      var tail := xs[1..];
      assert KeySorted(tail, key) by {
        forall i | 0 < i < |tail| ensures NameLe(key(tail[i - 1]), key(tail[i])) {
          assert tail[i - 1] == xs[i] && tail[i] == xs[i + 1];
        }
      }
      var rest := Insert(x, tail, key);
      assert xs == [xs[0]] + tail;
      assert tail != [] ==> NameLe(key(xs[0]), key(tail[0])) by {
        if tail != [] { assert tail[0] == xs[1]; }
      }
      var ys := [xs[0]] + rest;
      assert KeySorted(ys, key) by {
        forall i | 0 < i < |ys| ensures NameLe(key(ys[i - 1]), key(ys[i])) {
          if i > 1 {
            assert ys[i - 1] == rest[i - 2] && ys[i] == rest[i - 1];
          }
        }
      }
      ys
  }

  /** The entries of `xs` in key order, as a key-sorting serialiser emits
      them. */
  function SortByKey<T(==)>(xs: seq<T>, key: T -> string): (ys: seq<T>)
    ensures multiset(ys) == multiset(xs)
    ensures KeySorted(ys, key)
    ensures |ys| == |xs|
  {
    if xs == [] then []
    else
      assert xs == [xs[0]] + xs[1..];
      Insert(xs[0], SortByKey(xs[1..], key), key)
  }

  /** Three entries whose keys sort as first, third, second. */
  lemma SortFirstThirdSecond<T>(a: T, b: T, c: T, key: T -> string)
    requires NameLe(key(a), key(c)) && !NameLe(key(b), key(c))
    ensures SortByKey([a, b, c], key) == [a, c, b]
  {
    SortPair(b, c, key);
    assert [a, b, c][1..] == [b, c];
    NameLeTotal(key(b), key(c));
    InsertFront(a, [c, b], key);
  }

  /** Two entries whose keys are out of order are swapped. */
  lemma SortPair<T>(b: T, c: T, key: T -> string)
    requires !NameLe(key(b), key(c))
    ensures SortByKey([b, c], key) == [c, b]
  {
    assert [b, c][1..] == [c] && [c][1..] == [];
    assert SortByKey([c], key) == [c];
    assert Insert(b, [c], key) == [c] + Insert(b, [], key);
  }

  /** An entry no later than the head of a sorted sequence goes in front. */
  lemma InsertFront<T>(x: T, xs: seq<T>, key: T -> string)
    requires KeySorted(xs, key) && xs != [] && NameLe(key(x), key(xs[0]))
    ensures Insert(x, xs, key) == [x] + xs
  {
  }

  /** The key of a results entry: its prize name. */
  function AwardName(a: Award): string {
    a.prize
  }

  /** The key of a prize-table entry: its name. */
  function PrizeName(p: Prize): string {
    p.name
  }
}
