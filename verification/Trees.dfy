/** Finite directory trees, and the weight of a tree under an arbitrary weight of its nodes. */
module Trees {
  import opened Counting

  /** Directories and regular files; other directory entries are skipped by the program. */
  datatype Tree = File(name: nat) | Dir(name: nat, kids: seq<Tree>)

  /** Every directory and file in the tree, with multiplicity. */
  function Nodes(t: Tree): multiset<Tree>
    decreases t
  {
    multiset{t} + if t.Dir? then Forest(t.kids) else multiset{}
  }

  function Forest(ts: seq<Tree>): multiset<Tree>
    decreases ts
  {
    if ts == [] then multiset{} else Nodes(ts[0]) + Forest(ts[1..])
  }

  /** The sum of `w` over the directories and files of a tree. */
  ghost function Weight(t: Tree, w: Tree -> nat): nat
    decreases t
  {
    w(t) + if t.Dir? then ForestWeight(t.kids, w) else 0
  }

  ghost function ForestWeight(ts: seq<Tree>, w: Tree -> nat): nat
    decreases ts
  {
    if ts == [] then 0 else Weight(ts[0], w) + ForestWeight(ts[1..], w)
  }

  function Is(x: Tree): Tree -> nat { t => if t == x then 1 else 0 }

  function One(): Tree -> nat { t => 1 }

  lemma NodesWeigh(t: Tree, x: Tree)
    ensures Nodes(t)[x] == Weight(t, Is(x))
    decreases t
  {
    if t.Dir? {
      ForestWeighs(t.kids, x);
    }
  }

  lemma {:induction false} ForestWeighs(ts: seq<Tree>, x: Tree)
    ensures Forest(ts)[x] == ForestWeight(ts, Is(x))
    decreases ts
  {
    if ts != [] {
      NodesWeigh(ts[0], x);
      ForestWeighs(ts[1..], x);
    }
  }

  lemma {:induction false} SequenceWeighs(ts: seq<Tree>, x: Tree)
    ensures multiset(ts)[x] == Sum(ts, Is(x))
  {
    if ts != [] {
      assert ts == ts[..|ts| - 1] + [ts[|ts| - 1]];
      SequenceWeighs(ts[..|ts| - 1], x);
    }
  }
}
