/** The multi-level draw of the backend: prize tiers are served in table
    order, each taking `min(count, remaining)` winners out of the pool of
    not-yet-drawn participants, and the draw stops at the first tier that
    finds the pool empty.

    The random choice is abstracted as a `Picker`: any function that, given
    the remaining pool and a number `k` no larger than it, returns `k`
    distinct members of the pool. Every property below holds for every such
    picker. Because the pool strictly shrinks whenever a tier draws anyone,
    no two drawing tiers ever present the same pool, so every sequence of
    random choices `run_lottery` can make is realised by some picker. */
module Draw {
  import opened Wire

  /** A node's display name: its last announced long name, else its id. */
  function DisplayName(names: map<NodeId, string>, id: NodeId): (n: string)
    ensures id in names ==> n == names[id]
    ensures id !in names ==> n == id
  {
    if id in names then names[id] else id
  }

  /** Chooses `k` members of a pool. */
  type Picker = (set<NodeId>, nat) -> seq<NodeId>

  /** `w` is a draw of exactly `k` distinct members of `pool`. */
  ghost predicate IsSample(w: seq<NodeId>, pool: set<NodeId>, k: nat) {
    |w| == k && Distinct(w) && Elems(w) <= pool
  }

  /** The picker behaves like `random.sample`: whenever `k` fits in the
      pool it returns `k` distinct members of it. */
  ghost predicate FairPicker(pick: Picker) {
    forall pool: set<NodeId>, k: nat :: k <= |pool| ==> IsSample(pick(pool, k), pool, k)
  }

  function Min(a: nat, b: nat): nat {
    if a <= b then a else b
  }

  /** Total of the tiers' nominal winner counts. */
  function SumCounts(tiers: seq<Prize>): nat {
    if tiers == [] then 0 else tiers[0].count + SumCounts(tiers[1..])
  }

  /** Every winner id of a results list, tier by tier, in draw order. */
  function Winners(r: seq<Award>): seq<NodeId> {
    if r == [] then [] else Ids(r[0].winners) + Winners(r[1..])
  }

  /** How many winners the first tiers of `r` hold in all. */
  function Drawn(r: seq<Award>): nat {
    |Winners(r)|
  }

  /** Attaches display names to drawn ids, keeping their order. */
  function Named(w: seq<NodeId>, names: map<NodeId, string>): (ps: seq<Participant>)
    ensures Ids(ps) == w
    ensures forall i | 0 <= i < |ps| :: ps[i].name == DisplayName(names, w[i])
  {
    if w == [] then []
    else
      var ps := [Participant(w[0], DisplayName(names, w[0]))] + Named(w[1..], names);
      assert Ids(ps) == [w[0]] + Ids(Named(w[1..], names));
      ps
  }

  /** Every winner in the results carries its display name. */
  ghost predicate NamedBy(r: seq<Award>, names: map<NodeId, string>) {
    forall i, j | 0 <= i < |r| && 0 <= j < |r[i].winners| ::
      r[i].winners[j].name == DisplayName(names, r[i].winners[j].id)
  }

  /** Drawn totals of a results list that starts with `a`. */
  lemma DrawnCons(a: Award, tail: seq<Award>)
    ensures Winners([a] + tail) == Ids(a.winners) + Winners(tail)
    ensures Drawn([a] + tail) == |a.winners| + Drawn(tail)
    ensures forall i | 1 <= i <= |tail| + 1 :: Drawn(([a] + tail)[..i]) == |a.winners| + Drawn(tail[..i - 1])
  {
    var r := [a] + tail;
    assert r[1..] == tail;
    forall i | 1 <= i <= |r| ensures Drawn(r[..i]) == |a.winners| + Drawn(tail[..i - 1]) {
      assert r[..i][0] == a && r[..i][1..] == tail[..i - 1];
    }
  }

  /** Prepending a tier whose winners come from `pool` to results drawn from
      what is left of it keeps the winners distinct members of `pool`. */
  lemma ConsDistinct(a: Award, tail: seq<Award>, pool: set<NodeId>)
    requires Distinct(Ids(a.winners)) && Elems(Ids(a.winners)) <= pool
    requires Distinct(Winners(tail)) && Elems(Winners(tail)) <= pool - Elems(Ids(a.winners))
    ensures Distinct(Winners([a] + tail)) && Elems(Winners([a] + tail)) <= pool
  {
    DrawnCons(a, tail);
    DistinctAppend(Ids(a.winners), Winners(tail));
    assert Elems(Ids(a.winners) + Winners(tail)) == Elems(Ids(a.winners)) + Elems(Winners(tail));
  }

  /** The results of drawing `tiers` out of `pool`: the tiers present are a
      prefix of the table, in table order, and the winners are pairwise
      distinct members of the pool. */
  function Allocate(tiers: seq<Prize>, pool: set<NodeId>, names: map<NodeId, string>, pick: Picker): (r: seq<Award>)
    requires FairPicker(pick)
    ensures |r| <= |tiers|
    ensures forall i | 0 <= i < |r| :: r[i].prize == tiers[i].name
    ensures Distinct(Winners(r)) && Elems(Winners(r)) <= pool
    decreases |tiers|
  {
    if tiers == [] || pool == {} then []
    else
      var k := Min(tiers[0].count, |pool|);
      var w := pick(pool, k);
      var a := Award(tiers[0].name, Named(w, names));
      var tail := Allocate(tiers[1..], pool - Elems(w), names, pick);
      assert IsSample(w, pool, k);
      ConsDistinct(a, tail, pool);
      [a] + tail
  }

  /** The tier counts of results `r` drawn from `n` participants under
      `tiers`: the tiers present form a prefix of the table; a tier is
      present only if someone was left when it was reached, and it then
      received `min(count, remaining)` winners; a tier is absent only if
      nobody was left before it. */
  ghost predicate TierCounts(tiers: seq<Prize>, n: nat, r: seq<Award>) {
    && |r| <= |tiers|
    && (forall i | 0 <= i < |r| ::
          Drawn(r[..i]) < n && |r[i].winners| == Min(tiers[i].count, n - Drawn(r[..i])))
    && (|r| < |tiers| ==> Drawn(r) == n)
  }

  /** Taking `k` of the `|pool|` members out of the pool leaves `|pool| - k`. */
  lemma PickShrinks(pick: Picker, pool: set<NodeId>, k: nat)
    requires FairPicker(pick) && k <= |pool|
    ensures |pool - Elems(pick(pool, k))| == |pool| - k
  {
    var w := pick(pool, k);
    assert IsSample(w, pool, k);
    DistinctCardinality(w);
  }

  /** A first tier served with `min(count, n)` winners, followed by results
      that respect the rest of the table on what is left. */
  lemma TierCountsCons(tiers: seq<Prize>, n: nat, a: Award, tail: seq<Award>)
    requires |tiers| > 0 && n > 0
    requires |a.winners| == Min(tiers[0].count, n)
    requires TierCounts(tiers[1..], n - |a.winners|, tail)
    ensures TierCounts(tiers, n, [a] + tail)
  {
    var r := [a] + tail;
    DrawnCons(a, tail);
    assert r[..0] == [];
    forall i | 1 <= i < |r|
      ensures Drawn(r[..i]) < n && |r[i].winners| == Min(tiers[i].count, n - Drawn(r[..i]))
    {
      assert r[i] == tail[i - 1] && tiers[i] == tiers[1..][i - 1];
    }
  }

  /** The tier counts of a draw, for every picker. */
  lemma {:induction false} AllocateCounts(tiers: seq<Prize>, pool: set<NodeId>, names: map<NodeId, string>, pick: Picker)
    requires FairPicker(pick)
    ensures TierCounts(tiers, |pool|, Allocate(tiers, pool, names, pick))
    decreases |tiers|
  {
    if tiers != [] && pool != {} {
      var k := Min(tiers[0].count, |pool|);
      var w := pick(pool, k);
      var rest := pool - Elems(w);
      PickShrinks(pick, pool, k);
      AllocateCounts(tiers[1..], rest, names, pick);
      TierCountsCons(tiers, |pool|, Award(tiers[0].name, Named(w, names)), Allocate(tiers[1..], rest, names, pick));
    }
  }

  /** Every winner of a draw carries the display name its id had at draw
      time. */
  lemma {:induction false} AllocateNames(tiers: seq<Prize>, pool: set<NodeId>, names: map<NodeId, string>, pick: Picker)
    requires FairPicker(pick)
    ensures NamedBy(Allocate(tiers, pool, names, pick), names)
    decreases |tiers|
  {
    if tiers != [] && pool != {} {
      var k := Min(tiers[0].count, |pool|);
      var w := pick(pool, k);
      AllocateNames(tiers[1..], pool - Elems(w), names, pick);
    }
  }

  /** A draw never hands out more prizes than the table offers nor more
      than there are participants. */
  lemma {:induction false} AllocateTotal(tiers: seq<Prize>, pool: set<NodeId>, names: map<NodeId, string>, pick: Picker)
    requires FairPicker(pick)
    ensures Drawn(Allocate(tiers, pool, names, pick)) <= Min(SumCounts(tiers), |pool|)
    decreases |tiers|
  {
    if tiers != [] && pool != {} {
      var k := Min(tiers[0].count, |pool|);
      var w := pick(pool, k);
      var rest := pool - Elems(w);
      var a := Award(tiers[0].name, Named(w, names));
      PickShrinks(pick, pool, k);
      AllocateTotal(tiers[1..], rest, names, pick);
      DrawnCons(a, Allocate(tiers[1..], rest, names, pick));
    }
  }
}
