/**
 * The page-tree helpers of the content administration controller, over the
 * `CmsPages` table as a map from id to row: paths built from a parent, the
 * upward ancestor walk, next positions, the recursive path cascade and the
 * recursive subtree delete.
 */
module PageTree {
  import opened Wrappers
  import opened Text
  import opened CmsUrl
  import opened CmsDomain
  import opened Forest

  type Pages = map<nat, CmsPage>
  type Components = map<nat, CmsPageComponent>

  /** The parent links of a page table. */
  function ParentMap(pages: Pages): (r: Parents)
    ensures r.Keys == pages.Keys
    ensures forall id :: id in pages ==> r[id] == pages[id].parentId
  {
    map id | id in pages :: pages[id].parentId
  }

  // ---------------------------------------------------------------------
  // Paths

  /** `BuildPath(parent, slug)`; `parentPath` is the parent's path, `None`
    * when there is no parent. */
  function BuildPath(parentPath: Option<string>, slug: string): string
  {
    var basePath := if parentPath.Some? then TrimEndChar(parentPath.value, '/') else "";
    if IsBlank(basePath) then "/" + slug else basePath + "/" + slug
  }

  /** The path a non-homepage page gets from its parent's path: its custom URL,
    * normalised, when it has one, and otherwise `BuildPath`. Create, Edit and
    * the descendant cascade all compute a page's path this way. */
  function ChildPath(parentPath: string, page: CmsPage): string
  {
    if IsNullOrBlank(page.customUrl) then BuildPath(Some(parentPath), page.slug)
    else NormalizeCustomUrl(page.customUrl.value)
  }

  /** Under a canonical parent path (or no parent), `BuildPath` appends the
    * slug as one more segment, so the result is canonical again; under the
    * root `/` or no parent it is `/slug`. */
  lemma BuildPathCanonical(parentPath: Option<string>, slug: string)
    requires parentPath.Some? ==> IsCanonicalPath(parentPath.value)
    requires slug != "" && IsSlug(slug)
    ensures IsCanonicalPath(BuildPath(parentPath, slug))
    ensures parentPath.None? || parentPath.value == "/" ==> BuildPath(parentPath, slug) == "/" + slug
    ensures Split(BuildPath(parentPath, slug), '/') ==
      (if parentPath.Some? then Split(parentPath.value, '/') else []) + [slug]
  {
    if parentPath.None? || parentPath.value == "/" {
      BuildPathUnderRoot(parentPath, slug);
    } else {
      BuildPathUnderPage(parentPath.value, slug);
    }
  }

  lemma BuildPathUnderRoot(parentPath: Option<string>, slug: string)
    requires parentPath.None? || parentPath.value == "/"
    requires slug != "" && IsSlug(slug)
    ensures BuildPath(parentPath, slug) == "/" + slug
    ensures IsCanonicalPath("/" + slug)
    ensures Split("/" + slug, '/') == [slug]
    ensures Split("/", '/') == []
  {
    assert TrimEndChar("/", '/') == "";
    assert Join([slug], '/') == slug;
    SegmentsPath([slug]);
    assert Split("/", '/') == [] by { SplitSepFront("", '/'); }
  }

  lemma BuildPathUnderPage(p: string, slug: string)
    requires IsCanonicalPath(p) && p != "/"
    requires slug != "" && IsSlug(slug)
    ensures BuildPath(Some(p), slug) == p + "/" + slug
    ensures IsCanonicalPath(p + "/" + slug)
    ensures Split(p + "/" + slug, '/') == Split(p, '/') + [slug]
  {
    var segs := Split(p, '/');
    assert segs != [] by { assert p == "/" + Join(segs, '/'); }
    var last := segs[|segs| - 1];
    assert last in segs;
    JoinLast(segs, '/');
    SlugNoSlash(last);
    assert last[|last| - 1] in last;
    assert p[|p| - 1] != '/';
    assert TrimEndChar(p, '/') == p;
    assert !IsBlank(p) by { assert !IsWhiteSpace(p[0]); }
    JoinSnoc(segs, slug, '/');
    assert p + "/" + slug == "/" + Join(segs + [slug], '/');
    SegmentsPath(segs + [slug]);
  }

  /** A child's path is canonical when its parent's path and its stored
    * custom URL are. */
  lemma ChildPathCanonical(parentPath: string, page: CmsPage)
    requires IsCanonicalPath(parentPath)
    requires page.slug != "" && IsSlug(page.slug)
    ensures IsCanonicalPath(ChildPath(parentPath, page))
  {
    if IsNullOrBlank(page.customUrl) {
      BuildPathCanonical(Some(parentPath), page.slug);
    } else {
      NormalizePathSegments(page.customUrl.value);
    }
  }

  // ---------------------------------------------------------------------
  // The ancestor walk

  /** `IsDescendantAsync(pageId, possibleParentId)`: walks up the parent links
    * from `possibleParentId` and reports whether it meets `pageId`. A missing
    * row reads as a null parent, which ends the walk. */
  method IsDescendant(pages: Pages, ghost rank: map<nat, nat>, pageId: nat, possibleParentId: nat)
    returns (b: bool)
    requires Ranked(ParentMap(pages), rank)
    ensures b <==> IsAncestor(ParentMap(pages), rank, pageId, possibleParentId)
  {
    ghost var parents := ParentMap(pages);
    var currentId := possibleParentId;
    while true
      invariant IsAncestor(parents, rank, pageId, possibleParentId) <==> IsAncestor(parents, rank, pageId, currentId)
      decreases if currentId in pages then rank[currentId] + 1 else 0
    {
      var parentId := if currentId in pages then pages[currentId].parentId else None;
      if parentId.None? {
        return false;
      }
      if parentId.value == pageId {
        return true;
      }
      currentId := parentId.value;
    }
  }

  /** Moving `page` under an existing `newParent` keeps the table acyclic
    * exactly when the two checks of `Edit` pass: the new parent is not the
    * page itself and the walk from it does not meet the page. */
  lemma EditParentChecks(pages: Pages, rank: map<nat, nat>, page: nat, newParent: nat)
    returns (rank': map<nat, nat>)
    requires Ranked(ParentMap(pages), rank)
    requires page in pages && newParent in pages
    requires newParent != page && !IsAncestor(ParentMap(pages), rank, page, newParent)
    ensures Ranked(ParentMap(pages)[page := Some(newParent)], rank')
    ensures rank'.Keys == rank.Keys
    ensures forall id :: id in rank ==> rank[id] <= rank'[id] <= rank[id] + RankShift(rank, page, newParent)
  {
    rank' := Reparent(ParentMap(pages), rank, page, newParent);
  }

  // ---------------------------------------------------------------------
  // Positions

  /** `r` is what `(max ?? 0) + 1` gives over `positions` in C#'s unchecked
    * `int` arithmetic: 1 when there are none, else the largest position plus
    * one, wrapped into 32 bits. */
  predicate IsNextAfter(positions: map<nat, int>, r: int)
  {
    && (positions == map[] ==> r == 1)
    && (positions != map[] ==>
          exists k :: k in positions && (forall j :: j in positions ==> positions[j] <= positions[k])
                      && r == Wrap32(positions[k] + 1))
  }

  /** `(max ?? 0) + 1` over a set of positions. */
  method NextAfterMax(positions: map<nat, int>) returns (r: int)
    ensures IsNextAfter(positions, r)
    ensures IsInt32(r)
  {
    var max: Option<int> := None;
    var todo := positions.Keys;
    while todo != {}
      invariant todo <= positions.Keys
      invariant max.None? <==> todo == positions.Keys
      invariant forall k :: k in positions && k !in todo ==> positions[k] <= max.value
      invariant max.Some? ==> exists k :: k in positions && k !in todo && positions[k] == max.value
      decreases |todo|
    {
      var k :| k in todo;
      if max.None? || positions[k] > max.value {
        max := Some(positions[k]);
      }
      todo := todo - {k};
    }
    if max.None? {
      assert positions.Keys == {};
      return 1;
    }
    return Wrap32(max.value + 1);
  }

  /** Below `int.MaxValue` the next position is above every position and one
    * more than the largest. */
  lemma NextAboveAll(positions: map<nat, int>, r: int)
    requires IsNextAfter(positions, r)
    requires forall k :: k in positions ==> Int32Min <= positions[k] < Int32Max
    ensures forall k :: k in positions ==> positions[k] < r
    ensures positions != map[] ==> exists k :: k in positions && positions[k] == r - 1
  {
    if positions != map[] {
      var k :| k in positions && (forall j :: j in positions ==> positions[j] <= positions[k])
               && r == Wrap32(positions[k] + 1);
      assert r == positions[k] + 1;
    }
  }

  /** A position at `int.MaxValue` makes the next position `int.MinValue`,
    * which sorts before every other. */
  lemma NextWrapsAtMax(positions: map<nat, int>, r: int)
    requires IsNextAfter(positions, r)
    requires forall k :: k in positions ==> IsInt32(positions[k])
    requires exists k :: k in positions && positions[k] == Int32Max
    ensures r == Int32Min
    ensures forall k :: k in positions ==> r <= positions[k]
  {
    var m :| m in positions && positions[m] == Int32Max;
    var k :| k in positions && (forall j :: j in positions ==> positions[j] <= positions[k])
             && r == Wrap32(positions[k] + 1);
    assert positions[m] <= positions[k];
  }

  /** The positions of the pages under `parentId`. */
  function SiblingPositions(pages: Pages, parentId: Option<nat>): (m: map<nat, int>)
    ensures forall id :: id in m <==> id in pages && pages[id].parentId == parentId
    ensures forall id :: id in m ==> m[id] == pages[id].position
  {
    map id | id in pages && pages[id].parentId == parentId :: pages[id].position
  }

  /** The positions of the components of page `pageId`. */
  function ComponentPositions(components: Components, pageId: nat): (m: map<nat, int>)
    ensures forall id :: id in m <==> id in components && components[id].pageId == pageId
    ensures forall id :: id in m ==> m[id] == components[id].position
  {
    map id | id in components && components[id].pageId == pageId :: components[id].position
  }

  predicate IsNextPosition(pages: Pages, parentId: Option<nat>, r: int)
  {
    IsNextAfter(SiblingPositions(pages, parentId), r)
  }

  predicate IsNextComponentPosition(components: Components, pageId: nat, r: int)
  {
    IsNextAfter(ComponentPositions(components, pageId), r)
  }

  /** `GetNextPositionAsync(parentId)`: `(max ?? 0) + 1` over the positions
    * of the pages with that parent. */
  method GetNextPosition(pages: Pages, parentId: Option<nat>) returns (r: int)
    ensures IsNextPosition(pages, parentId, r)
    ensures IsInt32(r)
  {
    var positions := map id | id in pages && pages[id].parentId == parentId :: pages[id].position;
    r := NextAfterMax(positions);
  }

  /** `GetNextComponentPositionAsync(pageId)`: the same over the components
    * of one page. */
  method GetNextComponentPosition(components: Components, pageId: nat) returns (r: int)
    ensures IsNextComponentPosition(components, pageId, r)
    ensures IsInt32(r)
  {
    var positions := map id | id in components && components[id].pageId == pageId :: components[id].position;
    r := NextAfterMax(positions);
  }

  // ---------------------------------------------------------------------
  // The descendant cascade and the subtree delete

  /** The path the cascade rooted at `root` (whose new path is `rootPath`)
    * leaves on `d`, defined bottom-up along `d`'s ancestor chain in the parent
    * links `P`: a homepage keeps its path, any other page takes `ChildPath` of
    * its parent's new path. */
  ghost function NewPath(P: Parents, rank: map<nat, nat>, W: Pages, root: nat, rootPath: string, d: nat): string
    requires Ranked(P, rank)
    requires W.Keys == P.Keys
    requires InSubtree(P, rank, root, d)
    decreases if d in P then rank[d] else 0
  {
    if d == root then rootPath
    else if W[d].isHomepage then W[d].path
    else ChildPath(NewPath(P, rank, W, root, rootPath, P[d].value), W[d])
  }

  /** Seen from a child `c` of `root`, the cascade below `c` computes the
    * same paths, provided the rows strictly below `c` are unchanged. */
  lemma {:induction false} NewPathFromChild(P: Parents, rank: map<nat, nat>, W: Pages, W2: Pages,
                                            root: nat, rootPath: string, c: nat, d: nat)
    requires Ranked(P, rank)
    requires W.Keys == P.Keys && W2.Keys == P.Keys
    requires c in Children(P, root)
    requires forall x :: IsAncestor(P, rank, c, x) ==> W2[x] == W[x]
    requires InSubtree(P, rank, c, d)
    ensures InSubtree(P, rank, root, d)
    ensures NewPath(P, rank, W, root, rootPath, d) ==
      NewPath(P, rank, W2, c, NewPath(P, rank, W, root, rootPath, c), d)
    decreases if d in P then rank[d] else 0
  {
    ChildSubtreeTop(P, rank, root, c, d);
    if d != c {
      var p := P[d].value;
      AncestorRank(P, rank, root, d);
      if p != c {
        NewPathFromChild(P, rank, W, W2, root, rootPath, c, p);
      }
    }
  }

  /** The table after the whole cascade rooted at `root`: every descendant
    * of `root` carries its `NewPath`, every other row is as in `W`. */
  ghost function CascadeResult(P: Parents, rank: map<nat, nat>, W: Pages, root: nat, rootPath: string): (r: Pages)
    requires Ranked(P, rank)
    requires W.Keys == P.Keys
    ensures r.Keys == W.Keys
    ensures forall id :: id in r ==> r[id].id == W[id].id
  {
    map d | d in W :: if IsAncestor(P, rank, root, d) then W[d].(path := NewPath(P, rank, W, root, rootPath, d)) else W[d]
  }

  /** The cascade changes paths only, and only below `root`. */
  lemma CascadeChangesPathsOnly(P: Parents, rank: map<nat, nat>, W: Pages, root: nat, rootPath: string)
    requires Ranked(P, rank)
    requires W.Keys == P.Keys
    ensures var r := CascadeResult(P, rank, W, root, rootPath);
      && (forall id :: id in r ==> r[id] == W[id].(path := r[id].path))
      && (forall id :: id in r && !IsAncestor(P, rank, root, id) ==> r[id] == W[id])
  {
  }

  /** The table after the cascade has visited the children of `root` in
    * `done`: the rows below them carry their new paths. */
  ghost function CascadedBelow(P: Parents, rank: map<nat, nat>, W: Pages, root: nat, rootPath: string,
                               done: set<nat>): (r: Pages)
    requires Ranked(P, rank)
    requires W.Keys == P.Keys
    ensures r.Keys == W.Keys
    ensures forall id :: id in r ==> r[id].id == W[id].id
  {
    map d | d in W ::
      if IsAncestor(P, rank, root, d) && TopChild(P, rank, root, d) in done
      then W[d].(path := NewPath(P, rank, W, root, rootPath, d))
      else W[d]
  }

  lemma CascadeStart(P: Parents, rank: map<nat, nat>, W: Pages, root: nat, rootPath: string)
    requires Ranked(P, rank) && W.Keys == P.Keys
    ensures CascadedBelow(P, rank, W, root, rootPath, {}) == W
  {
  }

  /** A child not yet visited still has its row from `W`. */
  lemma CascadeUnvisited(P: Parents, rank: map<nat, nat>, W: Pages, root: nat, rootPath: string,
                         done: set<nat>, c: nat)
    requires Ranked(P, rank) && W.Keys == P.Keys
    requires c in Children(P, root) && c !in done
    ensures c in W && CascadedBelow(P, rank, W, root, rootPath, done)[c] == W[c]
  {
    ChildSubtrees(P, rank, root, c);
  }

  /** One iteration of the cascade loop: writing child `c`'s new row `child`
    * and running the cascade below it extends the finished part by `c`'s
    * subtree. */
  lemma CascadeStep(P: Parents, rank: map<nat, nat>, W: Pages, root: nat, rootPath: string,
                    done: set<nat>, c: nat, child: CmsPage)
    requires Ranked(P, rank) && W.Keys == P.Keys
    requires c in Children(P, root) && c !in done
    requires child == if W[c].isHomepage then W[c] else W[c].(path := ChildPath(rootPath, W[c]))
    ensures var Wa := CascadedBelow(P, rank, W, root, rootPath, done);
      CascadeResult(P, rank, Wa[c := child], c, child.path) == CascadedBelow(P, rank, W, root, rootPath, done + {c})
  {
    ChildNewPath(P, rank, W, root, rootPath, c, child);
    var Wm := CascadedBelow(P, rank, W, root, rootPath, done)[c := child];
    CascadeKeepsSubtree(P, rank, W, root, rootPath, done, c, child, Wm);
    var L := CascadeResult(P, rank, Wm, c, child.path);
    var R := CascadedBelow(P, rank, W, root, rootPath, done + {c});
    forall d | d in W ensures L[d] == R[d] {
      CascadeStepAt(P, rank, W, Wm, root, rootPath, done, c, child, d);
    }
    assert L.Keys == R.Keys;
  }

  /** Before child `c` is visited, the rows strictly below it are as in `W`. */
  lemma CascadeKeepsSubtree(P: Parents, rank: map<nat, nat>, W: Pages, root: nat, rootPath: string,
                            done: set<nat>, c: nat, child: CmsPage, Wm: Pages)
    requires Ranked(P, rank) && W.Keys == P.Keys
    requires c in Children(P, root) && c !in done
    requires Wm == CascadedBelow(P, rank, W, root, rootPath, done)[c := child]
    ensures forall x :: IsAncestor(P, rank, c, x) ==> Wm[x] == W[x]
  {
    forall x | IsAncestor(P, rank, c, x) ensures Wm[x] == W[x] {
      AncestorRank(P, rank, c, x);
      ChildSubtreeTop(P, rank, root, c, x);
    }
  }

  lemma ChildNewPath(P: Parents, rank: map<nat, nat>, W: Pages, root: nat, rootPath: string, c: nat, child: CmsPage)
    requires Ranked(P, rank) && W.Keys == P.Keys
    requires c in Children(P, root)
    requires child == if W[c].isHomepage then W[c] else W[c].(path := ChildPath(rootPath, W[c]))
    ensures InSubtree(P, rank, root, c)
    ensures child == W[c].(path := NewPath(P, rank, W, root, rootPath, c))
  {
    assert P[c] == Some(root);
    assert c != root by { assert rank[root] < rank[c]; }
  }

  lemma CascadeStepAt(P: Parents, rank: map<nat, nat>, W: Pages, Wm: Pages, root: nat, rootPath: string,
                      done: set<nat>, c: nat, child: CmsPage, d: nat)
    requires Ranked(P, rank) && W.Keys == P.Keys
    requires c in Children(P, root) && c !in done
    requires child == W[c].(path := NewPath(P, rank, W, root, rootPath, c))
    requires Wm == CascadedBelow(P, rank, W, root, rootPath, done)[c := child]
    requires forall x :: IsAncestor(P, rank, c, x) ==> Wm[x] == W[x]
    requires d in W
    ensures CascadeResult(P, rank, Wm, c, child.path)[d] == CascadedBelow(P, rank, W, root, rootPath, done + {c})[d]
  {
    if IsAncestor(P, rank, c, d) {
      CascadeStepBelow(P, rank, W, Wm, root, rootPath, done, c, child, d);
    } else {
      CascadeStepOutside(P, rank, W, Wm, root, rootPath, done, c, child, d);
    }
  }

  lemma CascadeStepOutside(P: Parents, rank: map<nat, nat>, W: Pages, Wm: Pages, root: nat, rootPath: string,
                           done: set<nat>, c: nat, child: CmsPage, d: nat)
    requires Ranked(P, rank) && W.Keys == P.Keys
    requires c in Children(P, root) && c !in done
    requires child == W[c].(path := NewPath(P, rank, W, root, rootPath, c))
    requires Wm == CascadedBelow(P, rank, W, root, rootPath, done)[c := child]
    requires d in W && !IsAncestor(P, rank, c, d)
    ensures CascadeResult(P, rank, Wm, c, child.path)[d] == CascadedBelow(P, rank, W, root, rootPath, done + {c})[d]
  {
    var Wa := CascadedBelow(P, rank, W, root, rootPath, done);
    var R := CascadedBelow(P, rank, W, root, rootPath, done + {c});
    if d == c {
      ChildSubtreeTop(P, rank, root, c, c);
      assert R[c] == child;
    } else if IsAncestor(P, rank, root, d) {
      TopChildShape(P, rank, root, d);
      assert TopChild(P, rank, root, d) != c;
      assert R[d] == Wa[d];
    } else {
      assert R[d] == Wa[d];
    }
  }

  lemma CascadeStepBelow(P: Parents, rank: map<nat, nat>, W: Pages, Wm: Pages, root: nat, rootPath: string,
                         done: set<nat>, c: nat, child: CmsPage, d: nat)
    requires Ranked(P, rank) && W.Keys == P.Keys && Wm.Keys == P.Keys
    requires c in Children(P, root)
    requires child.path == NewPath(P, rank, W, root, rootPath, c)
    requires forall x :: IsAncestor(P, rank, c, x) ==> Wm[x] == W[x]
    requires IsAncestor(P, rank, c, d)
    ensures IsAncestor(P, rank, root, d) && TopChild(P, rank, root, d) == c
    ensures CascadeResult(P, rank, Wm, c, child.path)[d] == W[d].(path := NewPath(P, rank, W, root, rootPath, d))
  {
    ChildSubtreeTop(P, rank, root, c, d);
    NewPathFromChild(P, rank, W, Wm, root, rootPath, c, d);
  }

  /** Once every child was visited, the whole subtree carries its new paths. */
  lemma CascadeFinished(P: Parents, rank: map<nat, nat>, W: Pages, root: nat, rootPath: string, done: set<nat>)
    requires Ranked(P, rank) && W.Keys == P.Keys
    requires forall c :: c in Children(P, root) ==> c in done
    ensures CascadedBelow(P, rank, W, root, rootPath, done) == CascadeResult(P, rank, W, root, rootPath)
  {
    forall d | IsAncestor(P, rank, root, d)
      ensures TopChild(P, rank, root, d) in done
    {
      TopChildShape(P, rank, root, d);
    }
  }

  /** `UpdateDescendantPathsAsync(page)`. The children of a page are read from
    * the database (`S`, the committed table) and their tracked rows from the
    * working copy `W`; each non-homepage child gets the path computed from
    * `page`'s new path, and the walk continues below every child. Children are
    * visited in an unspecified order; the result does not depend on it. */
  method UpdateDescendantPaths(S: Pages, ghost P: Parents, ghost rank: map<nat, nat>, ghost height: nat,
                               page: CmsPage, W: Pages)
    returns (W': Pages)
    requires P == ParentMap(S) && Ranked(P, rank)
    requires forall id :: id in S ==> rank[id] < height
    requires W.Keys == S.Keys && forall id :: id in W ==> W[id].id == id
    requires page.id in W
    ensures W' == CascadeResult(P, rank, W, page.id, page.path)
    decreases height - rank[page.id]
  {
    var children := set c | c in S && S[c].parentId == Some(page.id);
    assert children == Children(P, page.id);
    W' := W;
    CascadeStart(P, rank, W, page.id, page.path);
    var todo := children;
    ghost var done: set<nat> := {};
    while todo != {}
      invariant todo <= children
      invariant forall x :: x in children ==> (x in done <==> x !in todo)
      invariant W' == CascadedBelow(P, rank, W, page.id, page.path, done)
      decreases todo
    {
      var c :| c in todo;
      CascadeUnvisited(P, rank, W, page.id, page.path, done, c);
      var child := W'[c];
      if !child.isHomepage {
        child := child.(path := ChildPath(page.path, child));
      }
      CascadeStep(P, rank, W, page.id, page.path, done, c, child);
      W' := UpdateDescendantPaths(S, P, rank, height, child, W'[c := child]);
      todo := todo - {c};
      done := done + {c};
    }
    CascadeFinished(P, rank, W, page.id, page.path, done);
  }

  /** The pages left after removing the subtree of `root`. */
  ghost function PagesOutside(P: Parents, rank: map<nat, nat>, W: Pages, root: nat): Pages
    requires Ranked(P, rank)
  {
    map d | d in W && !InSubtree(P, rank, root, d) :: W[d]
  }

  /** The components left after removing those owned, in the database
    * table `SC`, by a page of the subtree of `root`. */
  ghost function ComponentsOutside(P: Parents, rank: map<nat, nat>, SC: Components, WC: Components, root: nat): Components
    requires Ranked(P, rank)
  {
    map k | k in WC && !(k in SC && InSubtree(P, rank, root, SC[k].pageId)) :: WC[k]
  }

  /** What the delete has removed after visiting the children of `root` in
    * `done`. */
  ghost function PagesOutsideBelow(P: Parents, rank: map<nat, nat>, W: Pages, root: nat, done: set<nat>): Pages
    requires Ranked(P, rank)
  {
    map d | d in W && !(IsAncestor(P, rank, root, d) && TopChild(P, rank, root, d) in done) :: W[d]
  }

  ghost function ComponentsOutsideBelow(P: Parents, rank: map<nat, nat>, SC: Components, WC: Components,
                                        root: nat, done: set<nat>): Components
    requires Ranked(P, rank)
  {
    map k | k in WC && !(k in SC && IsAncestor(P, rank, root, SC[k].pageId)
                         && TopChild(P, rank, root, SC[k].pageId) in done) :: WC[k]
  }

  /** Deleting the subtree of an unvisited child `c` extends the removed
    * part by that subtree. */
  lemma DeleteStep(P: Parents, rank: map<nat, nat>, SC: Components, W: Pages, WC: Components,
                   root: nat, done: set<nat>, c: nat)
    requires Ranked(P, rank)
    requires c in Children(P, root)
    ensures PagesOutside(P, rank, PagesOutsideBelow(P, rank, W, root, done), c)
      == PagesOutsideBelow(P, rank, W, root, done + {c})
    ensures ComponentsOutside(P, rank, SC, ComponentsOutsideBelow(P, rank, SC, WC, root, done), c)
      == ComponentsOutsideBelow(P, rank, SC, WC, root, done + {c})
  {
    ChildSubtrees(P, rank, root, c);
  }

  /** After every child, removing `root` itself and its own components
    * leaves exactly what lies outside the subtree. */
  lemma DeleteFinished(P: Parents, rank: map<nat, nat>, SC: Components, W: Pages, WC: Components,
                       root: nat, done: set<nat>, owned: set<nat>)
    requires Ranked(P, rank)
    requires forall c :: c in Children(P, root) ==> c in done
    requires owned == set k | k in SC && SC[k].pageId == root
    ensures PagesOutsideBelow(P, rank, W, root, done) - {root} == PagesOutside(P, rank, W, root)
    ensures ComponentsOutsideBelow(P, rank, SC, WC, root, done) - owned == ComponentsOutside(P, rank, SC, WC, root)
  {
    forall d | IsAncestor(P, rank, root, d)
      ensures TopChild(P, rank, root, d) in done
    {
      TopChildShape(P, rank, root, d);
    }
  }

  /** `DeletePageTreeAsync(page)`: removes the subtrees of the children of
    * `page` (read from the database table `S`), then the components the
    * database lists for `page`, then `page` itself, from the working copies
    * `W` and `WC`. */
  method DeletePageTree(S: Pages, SC: Components, ghost P: Parents, ghost rank: map<nat, nat>, ghost height: nat,
                        page: CmsPage, W: Pages, WC: Components)
    returns (W': Pages, WC': Components)
    requires P == ParentMap(S) && Ranked(P, rank)
    requires forall id :: id in S ==> rank[id] < height && S[id].id == id
    requires page.id in S
    ensures W' == PagesOutside(P, rank, W, page.id)
    ensures WC' == ComponentsOutside(P, rank, SC, WC, page.id)
    decreases height - rank[page.id]
  {
    var children := set c | c in S && S[c].parentId == Some(page.id);
    assert children == Children(P, page.id);
    W', WC' := W, WC;
    assert W' == PagesOutsideBelow(P, rank, W, page.id, {});
    assert WC' == ComponentsOutsideBelow(P, rank, SC, WC, page.id, {});
    var todo := children;
    ghost var done: set<nat> := {};
    while todo != {}
      invariant todo <= children
      invariant forall x :: x in children ==> (x in done <==> x !in todo)
      invariant W' == PagesOutsideBelow(P, rank, W, page.id, done)
      invariant WC' == ComponentsOutsideBelow(P, rank, SC, WC, page.id, done)
      decreases todo
    {
      var c :| c in todo;
      assert c in S && rank[c] > rank[page.id];
      DeleteStep(P, rank, SC, W, WC, page.id, done, c);
      W', WC' := DeletePageTree(S, SC, P, rank, height, S[c], W', WC');
      todo := todo - {c};
      done := done + {c};
    }
    var owned := set k | k in SC && SC[k].pageId == page.id;
    DeleteFinished(P, rank, SC, W, WC, page.id, done, owned);
    WC' := WC' - owned;
    W' := W' - {page.id};
  }
}
