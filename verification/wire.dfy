/** The records the lottery backend publishes and the browser client reads:
    participants, prize tiers and the per-tier winner lists. Both sides of
    the system share these shapes through the JSON of the status endpoint. */
module Wire {

  datatype Option<+T> = None | Some(value: T) {
    /** The value, or `default` when absent (JavaScript's `x || default`
        for values that are never falsy when present). */
    function GetOr(default: T): T {
      match this
      case Some(v) => v
      case None => default
    }
  }

  /** A mesh node identifier such as "!a1b2c3d4". */
  type NodeId = string

  /** A registered participant as published: its id and display name. */
  datatype Participant = Participant(id: NodeId, name: string)

  /** One prize tier: its name and how many winners it is meant to have. */
  datatype Prize = Prize(name: string, count: nat)

  /** The winners of one tier, in draw order. A results object is a sequence
      of these, in the order of the dictionary that holds them: insertion
      order in the backend, name order once serialised. */
  datatype Award = Award(prize: string, winners: seq<Participant>)

  /** No element occurs twice. */
  predicate Distinct<T(==)>(xs: seq<T>) {
    forall i, j | 0 <= i < j < |xs| :: xs[i] != xs[j]
  }

  /** The set of elements of a sequence. */
  function Elems<T>(xs: seq<T>): set<T> {
    set x | x in xs
  }

  /** The ids of a participant list, in order. */
  function Ids(ps: seq<Participant>): (ids: seq<NodeId>)
    ensures |ids| == |ps|
    ensures forall i | 0 <= i < |ps| :: ids[i] == ps[i].id
  {
    if ps == [] then [] else [ps[0].id] + Ids(ps[1..])
  }

  /** `xs` lists every element of `s` exactly once. */
  predicate Enumerates<T(==)>(xs: seq<T>, s: set<T>) {
    Distinct(xs) && Elems(xs) == s
  }

  /** A duplicate-free sequence has as many elements as its set. */
  lemma {:induction false} DistinctCardinality<T>(xs: seq<T>)
    requires Distinct(xs)
    ensures |Elems(xs)| == |xs|
  {
    if xs != [] {
      var tail := xs[1..];
      assert Distinct(tail) by {
        forall i, j | 0 <= i < j < |tail| ensures tail[i] != tail[j] {
          assert tail[i] == xs[i + 1] && tail[j] == xs[j + 1];
        }
      }
      DistinctCardinality(tail);
      assert xs[0] !in Elems(tail);
      assert Elems(xs) == {xs[0]} + Elems(tail) by {
        assert xs == [xs[0]] + tail;
      }
    }
  }

  /** Concatenating two duplicate-free sequences with no common element
      gives a duplicate-free sequence. */
  lemma DistinctAppend<T>(a: seq<T>, b: seq<T>)
    requires Distinct(a) && Distinct(b)
    requires Elems(a) !! Elems(b)
    ensures Distinct(a + b)
  {
    var ab := a + b;
    forall i, j | 0 <= i < j < |ab| ensures ab[i] != ab[j] {
      if j < |a| {
        assert ab[i] == a[i] && ab[j] == a[j];
      } else if i >= |a| {
        assert ab[i] == b[i - |a|] && ab[j] == b[j - |a|];
      } else {
        assert ab[i] == a[i] && ab[i] in Elems(a);
        assert ab[j] == b[j - |a|] && ab[j] in Elems(b);
      }
    }
  }
}
