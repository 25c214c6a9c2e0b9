/**
 * The page hierarchy as a parent map (page id to parent id, `None` for a
 * root), with a rank that witnesses acyclicity: a page's rank is larger than
 * its parent's. Ancestors, descendants and subtrees are defined over it.
 */
module Forest {
  import opened Wrappers

  type Parents = map<nat, Option<nat>>

  /** Every parent exists and ranks strictly increase from parent to child,
    * so following parents always ends at a root. */
  ghost predicate Ranked(parents: Parents, rank: map<nat, nat>)
  {
    && parents.Keys <= rank.Keys
    && (forall id :: id in parents && parents[id].Some? ==>
          parents[id].value in parents && rank[parents[id].value] < rank[id])
  }

  /** `a` is a proper ancestor of `d`: it is reached by following parents. */
  ghost predicate IsAncestor(parents: Parents, rank: map<nat, nat>, a: nat, d: nat)
    requires Ranked(parents, rank)
    decreases if d in parents then rank[d] else 0
  {
    && d in parents && parents[d].Some?
    && (parents[d].value == a || IsAncestor(parents, rank, a, parents[d].value))
  }

  /** `d` is `root` or one of its descendants. */
  ghost predicate InSubtree(parents: Parents, rank: map<nat, nat>, root: nat, d: nat)
    requires Ranked(parents, rank)
  {
    d == root || IsAncestor(parents, rank, root, d)
  }

  ghost function Children(parents: Parents, p: nat): set<nat>
  {
    set c | c in parents && parents[c] == Some(p)
  }

  /** The child of `a` through which `d` descends from `a`. */
  ghost function TopChild(parents: Parents, rank: map<nat, nat>, a: nat, d: nat): nat
    requires Ranked(parents, rank)
    requires IsAncestor(parents, rank, a, d)
    decreases rank[d]
  {
    if parents[d].value == a then d else TopChild(parents, rank, a, parents[d].value)
  }

  /** An ancestor exists and has a smaller rank; so no page is its own
    * ancestor. */
  lemma {:induction false} AncestorRank(parents: Parents, rank: map<nat, nat>, a: nat, d: nat)
    requires Ranked(parents, rank)
    requires IsAncestor(parents, rank, a, d)
    ensures a in parents && d in parents && rank[a] < rank[d]
    ensures a != d
    decreases rank[d]
  {
    if parents[d].value != a {
      AncestorRank(parents, rank, a, parents[d].value);
    }
  }

  lemma {:induction false} AncestorTrans(parents: Parents, rank: map<nat, nat>, a: nat, b: nat, d: nat)
    requires Ranked(parents, rank)
    requires IsAncestor(parents, rank, a, b) && IsAncestor(parents, rank, b, d)
    ensures IsAncestor(parents, rank, a, d)
    decreases rank[d]
  {
    if parents[d].value != b {
      AncestorTrans(parents, rank, a, b, parents[d].value);
    }
  }

  /** `TopChild` is a child of `a` whose subtree holds `d`. */
  lemma {:induction false} TopChildShape(parents: Parents, rank: map<nat, nat>, a: nat, d: nat)
    requires Ranked(parents, rank)
    requires IsAncestor(parents, rank, a, d)
    ensures TopChild(parents, rank, a, d) in Children(parents, a)
    ensures InSubtree(parents, rank, TopChild(parents, rank, a, d), d)
    decreases rank[d]
  {
    var p := parents[d].value;
    if p != a {
      TopChildShape(parents, rank, a, p);
      var c := TopChild(parents, rank, a, p);
      if p != c {
        AncestorTrans(parents, rank, c, p, d);
      }
    }
  }

  /** Conversely, every page in the subtree of a child `c` of `a` descends
    * from `a` through `c`: sibling subtrees are disjoint. */
  lemma {:induction false} ChildSubtreeTop(parents: Parents, rank: map<nat, nat>, a: nat, c: nat, d: nat)
    requires Ranked(parents, rank)
    requires c in Children(parents, a)
    requires InSubtree(parents, rank, c, d)
    ensures IsAncestor(parents, rank, a, d)
    ensures TopChild(parents, rank, a, d) == c
    decreases if d in parents then rank[d] else 0
  {
    if d != c {
      var p := parents[d].value;
      if p != c {
        ChildSubtreeTop(parents, rank, a, c, p);
        AncestorRank(parents, rank, a, p);
        assert p != a;
      } else {
        assert c != a;
      }
    }
  }

  /** The descendants of `a` that lie below its child `c` are exactly the
    * subtree of `c`. */
  lemma ChildSubtrees(parents: Parents, rank: map<nat, nat>, a: nat, c: nat)
    requires Ranked(parents, rank)
    requires c in Children(parents, a)
    ensures forall d :: InSubtree(parents, rank, c, d) ==>
      IsAncestor(parents, rank, a, d) && TopChild(parents, rank, a, d) == c
    ensures forall d :: IsAncestor(parents, rank, a, d) && TopChild(parents, rank, a, d) == c ==>
      InSubtree(parents, rank, c, d)
  {
    forall d | InSubtree(parents, rank, c, d)
      ensures IsAncestor(parents, rank, a, d) && TopChild(parents, rank, a, d) == c
    {
      ChildSubtreeTop(parents, rank, a, c, d);
    }
    forall d | IsAncestor(parents, rank, a, d) && TopChild(parents, rank, a, d) == c
      ensures InSubtree(parents, rank, c, d)
    {
      TopChildShape(parents, rank, a, d);
    }
  }

  /** Reparenting `page` under `newParent`, which is neither `page` nor one of
    * its descendants, keeps the hierarchy acyclic: shifting the ranks of
    * `page`'s subtree up by `delta` yields a rank for the new parent map. */
  lemma Reparent(parents: Parents, rank: map<nat, nat>, page: nat, newParent: nat)
    returns (rank': map<nat, nat>)
    requires Ranked(parents, rank)
    requires page in parents && newParent in parents
    requires !InSubtree(parents, rank, page, newParent)
    ensures Ranked(parents[page := Some(newParent)], rank')
    ensures rank'.Keys == rank.Keys
    ensures forall id :: id in rank ==> rank[id] <= rank'[id] <= rank[id] + RankShift(rank, page, newParent)
  {
    var delta := RankShift(rank, page, newParent);
    rank' := map id | id in rank :: if id in parents && InSubtree(parents, rank, page, id) then rank[id] + delta else rank[id];
    var ps := parents[page := Some(newParent)];
    forall id | id in ps && ps[id].Some?
      ensures ps[id].value in ps && rank'[ps[id].value] < rank'[id]
    {
      if id != page {
        var p := parents[id].value;
        if InSubtree(parents, rank, page, p) {
          assert IsAncestor(parents, rank, page, id) by {
            if p != page { assert IsAncestor(parents, rank, page, p); }
          }
        }
      }
    }
  }

  function RankShift(rank: map<nat, nat>, page: nat, newParent: nat): nat
    requires page in rank && newParent in rank
  {
    if rank[newParent] + 1 > rank[page] then rank[newParent] + 1 - rank[page] else 0
  }
}
