/** Generation numbers: the memoised depth-first search computes, on every
    acyclic commit set, the length of the longest parent chain, and ends on
    every commit set whatever its shape. Object ids are any type with equality. */
module Generations {

  datatype Commit<Id> = Commit(oid: Id, parents: seq<Id>)

  const UINT32 := 0x1_0000_0000

  /** The position of each commit; a repeated Id keeps its last position. */
  function Positions<Id(==)>(commits: seq<Commit<Id>>): (m: map<Id, nat>)
    ensures forall o :: o in m ==> m[o] < |commits| && commits[m[o]].oid == o
  {
    if commits == [] then map[]
    else Positions(commits[..|commits| - 1])[commits[|commits| - 1].oid := |commits| - 1]
  }

  lemma {:induction false} PositionsAreFew<Id(!new)>(commits: seq<Commit<Id>>)
    ensures |Positions(commits).Keys| <= |commits|
  {
    if commits != [] {
      var front, last := commits[..|commits| - 1], commits[|commits| - 1];
      PositionsAreFew(front);
      assert Positions(commits).Keys == Positions(front).Keys + {last.oid};
    }
  }

  /** `b` is a parent of commit `a`. */
  predicate Edge<Id(==)>(commits: seq<Commit<Id>>, a: Id, b: Id) {
    a in Positions(commits) && b in commits[Positions(commits)[a]].parents
  }

  /** A line of commits, each the parent of the one before. */
  predicate Chain<Id(==)>(commits: seq<Commit<Id>>, p: seq<Id>) {
    && p != []
    && (forall i :: 0 <= i < |p| ==> p[i] in Positions(commits))
    && (forall i :: 0 <= i < |p| - 1 ==> Edge(commits, p[i], p[i + 1]))
  }

  ghost predicate Acyclic<Id(!new)>(commits: seq<Commit<Id>>) {
    forall p :: Chain(commits, p) && |p| > 1 ==> p[0] != p[|p| - 1]
  }

  /** `n` is the length of the longest chain that starts at `o`; 0 for an unknown id. */
  ghost predicate Longest<Id(!new)>(commits: seq<Commit<Id>>, o: Id, n: nat) {
    && (forall p :: Chain(commits, p) && p[0] == o ==> |p| <= n)
    && (n > 0 ==> exists p :: Chain(commits, p) && p[0] == o && |p| == n)
  }

  // ---- Properties of longest chains ----

  lemma ChainTail<Id(!new)>(commits: seq<Commit<Id>>, p: seq<Id>)
    requires Chain(commits, p) && |p| > 1
    ensures Chain(commits, p[1..]) && Edge(commits, p[0], p[1])
  {
    forall i | 0 <= i < |p[1..]| - 1 ensures Edge(commits, p[1..][i], p[1..][i + 1]) {
      assert Edge(commits, p[i + 1], p[i + 2]);
    }
  }

  lemma ChainCons<Id(!new)>(commits: seq<Commit<Id>>, a: Id, p: seq<Id>)
    requires Chain(commits, p) && Edge(commits, a, p[0])
    ensures Chain(commits, [a] + p)
  {
    var q := [a] + p;
    forall i | 0 <= i < |q| - 1 ensures Edge(commits, q[i], q[i + 1]) {
      if i > 0 { assert Edge(commits, p[i - 1], p[i]); }
    }
  }

  /** A commit's generation is strictly above each of its parents'. */
  lemma LongestAboveParents<Id(!new)>(commits: seq<Commit<Id>>, o: Id, q: Id, m: nat, n: nat)
    requires Edge(commits, o, q) && Longest(commits, o, m) && Longest(commits, q, n)
    ensures n < m
  {
    if n == 0 {
      assert Chain(commits, [o]);
    } else {
      var p :| Chain(commits, p) && p[0] == q && |p| == n;
      ChainCons(commits, o, p);
      assert ([o] + p)[0] == o;
    }
  }

  ghost function Elements<Id(!new)>(p: seq<Id>): set<Id> {
    set o | o in p
  }

  lemma {:induction false} DistinctFitsIn<Id(!new)>(p: seq<Id>, s: set<Id>)
    requires forall i, j :: 0 <= i < j < |p| ==> p[i] != p[j]
    requires forall i :: 0 <= i < |p| ==> p[i] in s
    ensures |p| <= |s|
  {
    if p != [] {
      DistinctFitsIn(p[1..], s - {p[0]});
    }
  }

  lemma SubChain<Id(!new)>(commits: seq<Commit<Id>>, p: seq<Id>, i: nat, j: nat)
    requires Chain(commits, p) && i < j <= |p|
    ensures Chain(commits, p[i..j])
  {
    var q := p[i..j];
    forall k | 0 <= k < |q| - 1 ensures Edge(commits, q[k], q[k + 1]) {
      assert Edge(commits, p[i + k], p[i + k + 1]);
    }
  }

  lemma ChainsDoNotReturn<Id(!new)>(commits: seq<Commit<Id>>, p: seq<Id>, i: nat, j: nat)
    requires Acyclic(commits) && Chain(commits, p) && i < j < |p|
    ensures p[i] != p[j]
  {
    SubChain(commits, p, i, j + 1);
    hide Chain;
    var q := p[i..j + 1];
    assert q[0] == p[i] && q[|q| - 1] == p[j];
  }

  /** No chain of an acyclic commit set is longer than the set, so generations never wrap. */
  lemma ChainsAreShort<Id(!new)>(commits: seq<Commit<Id>>, p: seq<Id>)
    requires Acyclic(commits) && Chain(commits, p)
    ensures |p| <= |commits|
  {
    hide Positions;
    forall i, j | 0 <= i < j < |p| ensures p[i] != p[j] {
      ChainsDoNotReturn(commits, p, i, j);
    }
    hide Acyclic;
    DistinctFitsIn(p, Positions(commits).Keys);
    PositionsAreFew(commits);
  }

  lemma LongestIsSmall<Id(!new)>(commits: seq<Commit<Id>>, o: Id, n: nat)
    requires Acyclic(commits) && Longest(commits, o, n)
    ensures n <= |commits|
  {
    if n > 0 {
      var p :| Chain(commits, p) && p[0] == o && |p| == n;
      ChainsAreShort(commits, p);
    }
  }

  lemma {:induction false} BoundedHasLongest<Id(!new)>(commits: seq<Commit<Id>>, o: Id, bound: nat)
    requires forall p :: Chain(commits, p) && p[0] == o ==> |p| <= bound
    ensures exists n: nat :: Longest(commits, o, n)
  {
    if bound == 0 || exists p :: Chain(commits, p) && p[0] == o && |p| == bound {
      assert Longest(commits, o, bound);
    } else {
      BoundedHasLongest(commits, o, bound - 1);
    }
  }

  lemma LongestExists<Id(!new)>(commits: seq<Commit<Id>>, o: Id)
    requires Acyclic(commits)
    ensures exists n: nat :: Longest(commits, o, n)
  {
    forall p | Chain(commits, p) && p[0] == o ensures |p| <= |commits| {
      ChainsAreShort(commits, p);
    }
    BoundedHasLongest(commits, o, |commits|);
  }

  ghost function LongestLength<Id(!new)>(commits: seq<Commit<Id>>, o: Id): (n: nat)
    requires Acyclic(commits)
    ensures Longest(commits, o, n)
  {
    LongestExists(commits, o);
    var n: nat :| Longest(commits, o, n);
    n
  }

  // ---- The numbering equation ----

  /** The largest rank in `parents`, 0 when there are none. */
  ghost function MaxRank<Id>(parents: seq<Id>, rank: Id -> nat): nat {
    if parents == [] then 0
    else
      var m, r := MaxRank(parents[..|parents| - 1], rank), rank(parents[|parents| - 1]);
      if r > m then r else m
  }

  lemma {:induction false} MaxRankBounds<Id>(parents: seq<Id>, rank: Id -> nat, p: Id)
    requires p in parents
    ensures rank(p) <= MaxRank(parents, rank)
  {
    if p != parents[|parents| - 1] {
      MaxRankBounds(parents[..|parents| - 1], rank, p);
    }
  }

  lemma {:induction false} MaxRankIsLeast<Id>(parents: seq<Id>, rank: Id -> nat, n: nat)
    requires forall p :: p in parents ==> rank(p) <= n
    requires n == 0 || exists p :: p in parents && rank(p) == n
    ensures MaxRank(parents, rank) == n
  {
    MaxRankAtMost(parents, rank, n);
    if n > 0 {
      var p :| p in parents && rank(p) == n;
      MaxRankBounds(parents, rank, p);
    }
  }

  lemma {:induction false} MaxRankAtMost<Id>(parents: seq<Id>, rank: Id -> nat, n: nat)
    requires forall p :: p in parents ==> rank(p) <= n
    ensures MaxRank(parents, rank) <= n
  {
    if parents != [] {
      MaxRankAtMost(parents[..|parents| - 1], rank, n);
    }
  }

  /** `rank` numbers every known commit one above the best of its parents, and an unknown id 0. */
  ghost predicate Numbers<Id(!new)>(commits: seq<Commit<Id>>, idx: map<Id, nat>, rank: Id -> nat) {
    && (forall o :: o in idx ==> idx[o] < |commits| && rank(o) == 1 + MaxRank(commits[idx[o]].parents, rank))
    && (forall o :: o !in idx ==> rank(o) == 0)
  }

  /** `rank` solves the numbering equation within 32 bits. */
  ghost predicate Solves<Id(!new)>(commits: seq<Commit<Id>>, idx: map<Id, nat>, rank: Id -> nat) {
    Numbers(commits, idx, rank) && forall o :: rank(o) < UINT32
  }

  lemma LongestIsOneAboveBest<Id(!new)>(commits: seq<Commit<Id>>, o: Id, rank: Id -> nat)
    requires o in Positions(commits) && forall q :: Longest(commits, q, rank(q))
    ensures rank(o) == 1 + MaxRank(commits[Positions(commits)[o]].parents, rank)
  {
    var parents := commits[Positions(commits)[o]].parents;
    assert Longest(commits, o, rank(o));
    forall q | q in parents ensures rank(q) <= rank(o) - 1 {
      LongestAboveParents(commits, o, q, rank(o), rank(q));
    }
    assert Chain(commits, [o]);
    if rank(o) > 1 {
      var p :| Chain(commits, p) && p[0] == o && |p| == rank(o);
      ChainTail(commits, p);
      assert p[1] in parents && Longest(commits, p[1], rank(p[1]));
      assert |p[1..]| <= rank(p[1]);
    }
    MaxRankIsLeast(parents, rank, rank(o) - 1);
  }

  /** On an acyclic commit set the longest chain lengths solve the equation. */
  lemma Solution<Id(!new)>(commits: seq<Commit<Id>>) returns (rank: Id -> nat)
    ensures Acyclic(commits) && |commits| < UINT32 ==> Solves(commits, Positions(commits), rank)
    ensures Acyclic(commits) ==> forall o :: Longest(commits, o, rank(o)) && rank(o) <= |commits|
  {
    rank := o => if Acyclic(commits) then LongestLength(commits, o) else 0;
    if Acyclic(commits) {
      forall o ensures Longest(commits, o, rank(o)) && rank(o) <= |commits| {
        LongestIsSmall(commits, o, rank(o));
      }
      LongestNumbers(commits, rank);
    }
  }

  lemma LongestNumbers<Id(!new)>(commits: seq<Commit<Id>>, rank: Id -> nat)
    requires forall o :: Longest(commits, o, rank(o))
    ensures Numbers(commits, Positions(commits), rank)
  {
    forall o | o in Positions(commits) ensures rank(o) == 1 + MaxRank(commits[Positions(commits)[o]].parents, rank) {
      LongestIsOneAboveBest(commits, o, rank);
    }
    forall o | o !in Positions(commits) ensures rank(o) == 0 {
      assert Longest(commits, o, rank(o));
    }
  }

  // ---- The search ----

  /** The table agrees with `rank`. */
  ghost predicate Agrees<Id(!new)>(gens: map<Id, nat>, rank: Id -> nat) {
    forall o :: o in gens ==> gens[o] == rank(o)
  }

  lemma AgreesGrows<Id(!new)>(gens: map<Id, nat>, rank: Id -> nat, o: Id)
    requires Agrees(gens, rank)
    ensures Agrees(gens[o := rank(o)], rank)
  {}

  /** Everything in `visiting` ranks above `o`. */
  ghost predicate Above<Id(!new)>(visiting: set<Id>, rank: Id -> nat, o: Id) {
    forall q :: q in visiting ==> rank(q) > rank(o)
  }

  predicate Bounded<Id>(gens: map<Id, nat>) {
    forall o :: o in gens ==> gens[o] < UINT32
  }

  lemma BoundedGrows<Id>(gens: map<Id, nat>, o: Id, g: nat)
    requires Bounded(gens) && g < UINT32
    ensures Bounded(gens[o := g])
  {}

  class Search<Id(==, !new)> {
    const commits: seq<Commit<Id>>
    const idx: map<Id, nat>
    var gens: map<Id, nat>
    var visiting: set<Id>

    ghost predicate Valid()
      reads this
    {
      (forall o :: o in idx ==> idx[o] < |commits|) && Bounded(gens)
    }

    constructor (commits: seq<Commit<Id>>)
      ensures Valid() && this.commits == commits && idx == Positions(commits) && gens == map[] && visiting == {}
    {
      this.commits := commits;
      idx := Positions(commits);
      gens := map[];
      visiting := {};
    }

    /** Numbers `oid` and everything it reaches, and ends on every graph. If `rank` solves
        the numbering equation within 32 bits, the answer is `rank`. */
    method Compute(oid: Id, ghost exact: bool, ghost rank: Id -> nat) returns (g: nat)
      requires Valid()
      requires exact ==> Solves(commits, idx, rank) && Agrees(gens, rank) && Above(visiting, rank, oid)
      modifies this`gens, this`visiting
      decreases idx.Keys - visiting, 0
      ensures Valid() && visiting == old(visiting) && old(gens).Keys <= gens.Keys
      ensures oid in gens || oid in visiting
      ensures exact ==> Agrees(gens, rank) && g == rank(oid)
    {
      hide MaxRank;
      if oid in gens {
        return gens[oid];
      }
      if oid in visiting {
        return 0;
      }
      if oid !in idx {
        if exact { AgreesGrows(gens, rank, oid); }
        BoundedGrows(gens, oid, 0);
        gens := gens[oid := 0];
        return 0;
      }
      visiting := visiting + {oid};
      assert visiting - {oid} == old(visiting);
      var best := Best(oid, exact, rank);
      visiting := visiting - {oid};
      g := (best + 1) % UINT32;
      if exact { AgreesGrows(gens, rank, oid); }
      BoundedGrows(gens, oid, g);
      gens := gens[oid := g];
    }

    /** The largest number among the parents of `oid`, which is being visited. */
    method Best(oid: Id, ghost exact: bool, ghost rank: Id -> nat) returns (best: nat)
      requires Valid() && oid in idx && oid in visiting
      requires exact ==> Solves(commits, idx, rank) && Agrees(gens, rank) && Above(visiting - {oid}, rank, oid)
      modifies this`gens, this`visiting
      decreases idx.Keys - visiting, 1
      ensures Valid() && visiting == old(visiting) && old(gens).Keys <= gens.Keys
      ensures exact ==> Agrees(gens, rank) && best + 1 == rank(oid)
    {
      var parents := commits[idx[oid]].parents;
      best := 0;
      for i := 0 to |parents|
        invariant Valid() && visiting == old(visiting) && old(gens).Keys <= gens.Keys
        invariant exact ==> Agrees(gens, rank)
        invariant exact ==> best == MaxRank(parents[..i], rank)
      {
        MaxRankBounds(parents, rank, parents[i]);
        var h := Compute(parents[i], exact, rank);
        assert parents[..i + 1][..i] == parents[..i];
        if h > best {
          best := h;
        }
      }
      assert parents[..|parents|] == parents;
    }
  }

  /** Generation numbers for all commits: an entry for each, and on an acyclic set of
      fewer than 2^32 commits the length of the longest chain, with no wrap-around. */
  method ComputeGenerations<Id(==, !new)>(commits: seq<Commit<Id>>) returns (gens: map<Id, nat>)
    ensures forall i :: 0 <= i < |commits| ==> commits[i].oid in gens
    ensures forall o :: o in gens ==> gens[o] < UINT32
    ensures Acyclic(commits) && |commits| < UINT32
            ==> forall o :: o in gens ==> Longest(commits, o, gens[o]) && gens[o] <= |commits|
  {
    var s := new Search(commits);
    ghost var exact := Acyclic(commits) && |commits| < UINT32;
    ghost var rank := Solution(commits);
    for i := 0 to |commits|
      invariant s.Valid() && s.visiting == {}
      invariant forall j :: 0 <= j < i ==> commits[j].oid in s.gens
      invariant exact ==> Agrees(s.gens, rank)
    {
      var g := s.Compute(commits[i].oid, exact, rank);
    }
    gens := s.gens;
  }
}
