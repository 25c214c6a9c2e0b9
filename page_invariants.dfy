/**
 * What the page actions of the content administration keep true of the
 * `CmsPages` and `CmsPageComponents` tables: inserting a child, editing a
 * page (with or without the descendant cascade) and deleting a subtree
 * preserve the tree shape, and, where the controller's checks cover them,
 * the unique indexes.
 */
module PageInvariants {
  import opened Wrappers
  import opened Text
  import opened CmsUrl
  import opened CmsDomain
  import opened Forest
  import opened PageTree
  import opened CmsDatabase

  // ---------------------------------------------------------------------
  // Inserting a child page

  /** A new child row with a fresh id, a well-formed shape and the path its
    * parent gives it keeps the tree invariant, one rank below its parent. */
  lemma InsertPreservesTree(pages: Pages, rank: map<nat, nat>, height: nat, page: CmsPage)
    requires TreeInvariant(pages, rank, height)
    requires page.id !in pages
    requires page.parentId.Some? && page.parentId.value in pages
    requires WellFormedPage(page)
    requires page.path == ChildPath(pages[page.parentId.value].path, page)
    ensures TreeInvariant(pages[page.id := page], rank[page.id := rank[page.parentId.value] + 1], height + 1)
  {
    InsertRanked(pages, rank, page);
    InsertPaths(pages, page);
  }

  lemma InsertRanked(pages: Pages, rank: map<nat, nat>, page: CmsPage)
    requires Ranked(ParentMap(pages), rank)
    requires page.id !in pages
    requires page.parentId.Some? && page.parentId.value in pages
    ensures Ranked(ParentMap(pages[page.id := page]), rank[page.id := rank[page.parentId.value] + 1])
  {
    var P := ParentMap(pages);
    var rank' := rank[page.id := rank[page.parentId.value] + 1];
    var P' := ParentMap(pages[page.id := page]);
    assert P' == P[page.id := page.parentId];
    forall x | x in P' && P'[x].Some?
      ensures P'[x].value in P' && rank'[P'[x].value] < rank'[x]
    {
      if x != page.id {
        assert P'[x] == P[x];
      }
    }
  }

  lemma InsertPaths(pages: Pages, page: CmsPage)
    requires PathsFollowParents(pages)
    requires page.id !in pages
    requires page.parentId.Some? && page.parentId.value in pages
    requires page.path == ChildPath(pages[page.parentId.value].path, page)
    ensures PathsFollowParents(pages[page.id := page])
  {
    var pages' := pages[page.id := page];
    forall x | x in pages' && pages'[x].parentId.Some?
      ensures pages'[x].parentId.value in pages'
      ensures pages'[x].path == ChildPath(pages'[pages'[x].parentId.value].path, pages'[x])
    {
      if x != page.id {
        assert pages'[pages[x].parentId.value] == pages[pages[x].parentId.value];
      }
    }
  }

  /** The same insert keeps every index when no page has the new path, no
    * sibling has the new slug and the new page is not a homepage. */
  lemma InsertKeepsIndexes(pages: Pages, components: Components, routes: Routes, page: CmsPage)
    requires IndexesHold(pages, components, routes)
    requires page.id !in pages
    requires page.parentId.Some? && page.parentId.value in pages
    requires !page.isHomepage
    requires forall id :: id in pages ==> pages[id].path != page.path
    requires forall id :: id in pages && pages[id].parentId == page.parentId ==> pages[id].slug != page.slug
    ensures IndexesHold(pages[page.id := page], components, routes)
  {
  }

  // ---------------------------------------------------------------------
  // Editing a page

  /** The table after `Edit` has written `edited` over its row: the row
    * alone when the path is unchanged, otherwise the descendant cascade
    * rooted at it. */
  ghost function TableAfterEdit(pages: Pages, rank: map<nat, nat>, edited: CmsPage): (r: Pages)
    requires Ranked(ParentMap(pages), rank)
    requires edited.id in pages
    ensures r.Keys == pages.Keys
    ensures r[edited.id] == edited
    ensures forall id :: id in r && id != edited.id ==> r[id] == pages[id].(path := r[id].path)
    ensures edited.path == pages[edited.id].path ==> r == pages[edited.id := edited]
  {
    var W := pages[edited.id := edited];
    if edited.path == pages[edited.id].path then W
    else
      var r := CascadeResult(ParentMap(pages), rank, W, edited.id, edited.path);
      CascadeChangesPathsOnly(ParentMap(pages), rank, W, edited.id, edited.path);
      assert !IsAncestor(ParentMap(pages), rank, edited.id, edited.id) by {
        if IsAncestor(ParentMap(pages), rank, edited.id, edited.id) {
          AncestorRank(ParentMap(pages), rank, edited.id, edited.id);
        }
      }
      r
  }

  /** The paths the cascade computes are canonical when the new root path
    * is and every slug below is a non-empty slug. */
  lemma {:induction false} NewPathCanonical(P: Parents, rank: map<nat, nat>, W: Pages, root: nat, rootPath: string, d: nat)
    requires Ranked(P, rank)
    requires W.Keys == P.Keys
    requires IsCanonicalPath(rootPath)
    requires AllWellFormed(W)
    requires InSubtree(P, rank, root, d)
    ensures IsCanonicalPath(NewPath(P, rank, W, root, rootPath, d))
    decreases if d in P then rank[d] else 0
  {
    if d != root && !W[d].isHomepage {
      NewPathCanonical(P, rank, W, root, rootPath, P[d].value);
      ChildPathCanonical(NewPath(P, rank, W, root, rootPath, P[d].value), W[d]);
    }
  }

  /** The conditions under which `Edit` may write `edited`: it keeps the
    * row's homepage flag and is well formed, and it either has no parent (the
    * homepage) or a parent that is neither the page nor one of its
    * descendants and whose path gives the page its own. */
  ghost predicate EditableTo(pages: Pages, rank: map<nat, nat>, edited: CmsPage)
    requires Ranked(ParentMap(pages), rank)
  {
    var editable :=
      && edited.id in pages && edited.isHomepage == pages[edited.id].isHomepage
      && WellFormedPage(edited)
      && (edited.parentId.Some? ==>
            && edited.parentId.value in pages && edited.parentId.value != edited.id
            && !IsAncestor(ParentMap(pages), rank, edited.id, edited.parentId.value)
            && edited.path == ChildPath(pages[edited.parentId.value].path, edited));
    editable
  }

  /** Such an edit keeps the tree invariant, given a rank `rank'` of the new
    * parent links bounded by `height'`. */
  lemma EditPreservesTree(pages: Pages, rank: map<nat, nat>, height: nat, edited: CmsPage,
                          rank': map<nat, nat>, height': nat)
    requires TreeInvariant(pages, rank, height)
    requires EditableTo(pages, rank, edited)
    requires Ranked(ParentMap(pages)[edited.id := edited.parentId], rank')
    requires forall id :: id in pages ==> id in rank' && rank'[id] < height'
    ensures TreeInvariant(TableAfterEdit(pages, rank, edited), rank', height')
  {
    var R := TableAfterEdit(pages, rank, edited);
    ParentMapAfterEdit(pages, rank, edited);
    assert Ranked(ParentMap(R), rank');
    assert RankBounded(R, rank', height');
    if edited.path == pages[edited.id].path {
      EditInPlaceShape(pages, rank, height, edited);
    } else {
      EditCascadeWellFormed(pages, rank, height, edited);
      EditCascadePaths(pages, rank, height, edited);
    }
    assert AllWellFormed(R) && PathsFollowParents(R);
  }

  /** An edit changes the parent link of the edited page only. */
  lemma ParentMapAfterEdit(pages: Pages, rank: map<nat, nat>, edited: CmsPage)
    requires Ranked(ParentMap(pages), rank)
    requires edited.id in pages
    ensures ParentMap(TableAfterEdit(pages, rank, edited)) == ParentMap(pages)[edited.id := edited.parentId]
  {
    var R := TableAfterEdit(pages, rank, edited);
    var L := ParentMap(R);
    var M := ParentMap(pages)[edited.id := edited.parentId];
    assert L.Keys == M.Keys;
    forall x | x in L ensures L[x] == M[x] {
      if x != edited.id {
        assert R[x].parentId == pages[x].parentId;
      }
    }
  }

  /** Without the cascade, the children of the page keep the path they had. */
  lemma EditInPlaceShape(pages: Pages, rank: map<nat, nat>, height: nat, edited: CmsPage)
    requires TreeInvariant(pages, rank, height)
    requires EditableTo(pages, rank, edited)
    requires edited.path == pages[edited.id].path
    ensures AllWellFormed(pages[edited.id := edited])
    ensures PathsFollowParents(pages[edited.id := edited])
  {
    var R := pages[edited.id := edited];
    forall x | x in R && R[x].parentId.Some?
      ensures R[x].parentId.value in R && R[x].path == ChildPath(R[R[x].parentId.value].path, R[x])
    {
      if x != edited.id {
        var p := pages[x].parentId.value;
        assert R[p].path == pages[p].path;
      }
    }
  }

  /** A path-changing edit leaves the table the cascade computes from the
    * table with the edited row written over. */
  lemma CascadeTable(pages: Pages, rank: map<nat, nat>, edited: CmsPage)
    returns (P: Parents, W: Pages, R: Pages)
    requires Ranked(ParentMap(pages), rank)
    requires edited.id in pages && edited.path != pages[edited.id].path
    ensures P == ParentMap(pages) && W == pages[edited.id := edited] && W.Keys == P.Keys
    ensures R == TableAfterEdit(pages, rank, edited) && R == CascadeResult(P, rank, W, edited.id, edited.path)
  {
    P, W := ParentMap(pages), pages[edited.id := edited];
    R := CascadeResult(P, rank, W, edited.id, edited.path);
  }

  /** Writing a well-formed row keeps every row well formed. */
  lemma WriteWellFormed(pages: Pages, edited: CmsPage)
    requires AllWellFormed(pages) && WellFormedPage(edited)
    ensures AllWellFormed(pages[edited.id := edited])
  {
  }

  lemma EditCascadeWellFormed(pages: Pages, rank: map<nat, nat>, height: nat, edited: CmsPage)
    requires TreeInvariant(pages, rank, height)
    requires EditableTo(pages, rank, edited)
    requires edited.path != pages[edited.id].path
    ensures AllWellFormed(TableAfterEdit(pages, rank, edited))
  {
    var P, W, R := CascadeTable(pages, rank, edited);
    WriteWellFormed(pages, edited);
    forall x | x in R ensures WellFormedPage(R[x]) {
      CascadeRowWellFormed(pages, rank, edited, P, W, R, x);
    }
  }

  lemma CascadeRowWellFormed(pages: Pages, rank: map<nat, nat>, edited: CmsPage, P: Parents, W: Pages, R: Pages, x: nat)
    requires Ranked(P, rank) && W.Keys == P.Keys
    requires P == ParentMap(pages) && W == pages[edited.id := edited]
    requires AllWellFormed(W) && IsCanonicalPath(edited.path)
    requires R == CascadeResult(P, rank, W, edited.id, edited.path)
    requires x in W
    ensures WellFormedPage(R[x])
  {
    if x != edited.id && IsAncestor(P, rank, edited.id, x) {
      assert P[x].Some?;
      NewPathCanonical(P, rank, W, edited.id, edited.path, x);
    }
  }

  lemma EditCascadePaths(pages: Pages, rank: map<nat, nat>, height: nat, edited: CmsPage)
    requires TreeInvariant(pages, rank, height)
    requires EditableTo(pages, rank, edited)
    requires edited.path != pages[edited.id].path
    ensures PathsFollowParents(TableAfterEdit(pages, rank, edited))
  {
    var P, W, R := CascadeTable(pages, rank, edited);
    WriteWellFormed(pages, edited);
    forall x | x in R && R[x].parentId.Some?
      ensures R[x].parentId.value in R && R[x].path == ChildPath(R[R[x].parentId.value].path, R[x])
    {
      CascadeRowFollowsParent(pages, rank, edited, P, W, R, x);
    }
  }

  lemma CascadeRowFollowsParent(pages: Pages, rank: map<nat, nat>, edited: CmsPage, P: Parents, W: Pages, R: Pages, x: nat)
    requires Ranked(P, rank) && W.Keys == P.Keys
    requires P == ParentMap(pages) && W == pages[edited.id := edited]
    requires AllWellFormed(W) && PathsFollowParents(pages) && EditableTo(pages, rank, edited)
    requires R == CascadeResult(P, rank, W, edited.id, edited.path)
    requires x in R && R[x].parentId.Some?
    ensures R[x].parentId.value in R && R[x].path == ChildPath(R[R[x].parentId.value].path, R[x])
  {
    if x == edited.id {
      assert !IsAncestor(P, rank, edited.id, edited.parentId.value);
    } else if IsAncestor(P, rank, edited.id, x) {
      CascadeBelowFollowsParent(pages, rank, edited, P, W, R, x);
    } else {
      CascadeOutsideFollowsParent(pages, rank, edited, P, W, R, x);
    }
  }

  /** A row the cascade rewrote sits below its parent's new path. */
  lemma CascadeBelowFollowsParent(pages: Pages, rank: map<nat, nat>, edited: CmsPage, P: Parents, W: Pages, R: Pages, x: nat)
    requires Ranked(P, rank) && W.Keys == P.Keys
    requires P == ParentMap(pages) && W == pages[edited.id := edited]
    requires AllWellFormed(W)
    requires R == CascadeResult(P, rank, W, edited.id, edited.path)
    requires x != edited.id && IsAncestor(P, rank, edited.id, x)
    ensures R[x].parentId.value in R && R[x].path == ChildPath(R[R[x].parentId.value].path, R[x])
  {
    var id := edited.id;
    var p := P[x].value;
    assert !W[x].isHomepage;
    assert R[x].path == ChildPath(NewPath(P, rank, W, id, edited.path, p), W[x]);
    if p != id {
      assert IsAncestor(P, rank, id, p);
    }
  }

  /** A row outside the subtree keeps its path, and so does its parent. */
  lemma CascadeOutsideFollowsParent(pages: Pages, rank: map<nat, nat>, edited: CmsPage, P: Parents, W: Pages, R: Pages, x: nat)
    requires Ranked(P, rank) && W.Keys == P.Keys
    requires P == ParentMap(pages) && W == pages[edited.id := edited]
    requires PathsFollowParents(pages)
    requires R == CascadeResult(P, rank, W, edited.id, edited.path)
    requires x in R && x != edited.id && !IsAncestor(P, rank, edited.id, x) && R[x].parentId.Some?
    ensures R[x].parentId.value in R && R[x].path == ChildPath(R[R[x].parentId.value].path, R[x])
  {
    var p := pages[x].parentId.value;
    assert p != edited.id;
    assert !IsAncestor(P, rank, edited.id, p);
    assert R[p] == pages[p];
  }

  /** An edit that leaves the path alone keeps every index when no other
    * page has the path, no other page under the new parent has the slug, and
    * the homepage flag is unchanged. */
  lemma EditKeepsIndexes(pages: Pages, components: Components, routes: Routes, edited: CmsPage)
    requires IndexesHold(pages, components, routes)
    requires edited.id in pages && edited.isHomepage == pages[edited.id].isHomepage
    requires edited.parentId.Some? ==> edited.parentId.value in pages
    requires forall id :: id in pages && id != edited.id ==> pages[id].path != edited.path
    requires edited.parentId.Some? ==>
      forall id :: id in pages && id != edited.id && pages[id].parentId == edited.parentId ==> pages[id].slug != edited.slug
    ensures IndexesHold(pages[edited.id := edited], components, routes)
  {
  }

  // ---------------------------------------------------------------------
  // Deleting a subtree

  /** A page outside a subtree has its parent outside it too. */
  lemma OutsideParent(P: Parents, rank: map<nat, nat>, root: nat, x: nat)
    requires Ranked(P, rank)
    requires x in P && P[x].Some? && !InSubtree(P, rank, root, x)
    ensures !InSubtree(P, rank, root, P[x].value)
  {
  }

  /** Removing the subtree of a page, with the components its pages own,
    * keeps the tree invariant and every index. */
  lemma DeletePreserves(pages: Pages, components: Components, routes: Routes,
                        rank: map<nat, nat>, height: nat, root: nat)
    requires IndexesHold(pages, components, routes) && TreeInvariant(pages, rank, height)
    ensures var P := ParentMap(pages);
      && TreeInvariant(PagesOutside(P, rank, pages, root), rank, height)
      && IndexesHold(PagesOutside(P, rank, pages, root), ComponentsOutside(P, rank, components, components, root), routes)
  {
    DeleteRanked(pages, rank, root);
    DeletePaths(pages, rank, root);
    DeleteIndexes(pages, components, routes, rank, root);
  }

  lemma DeleteRanked(pages: Pages, rank: map<nat, nat>, root: nat)
    requires Ranked(ParentMap(pages), rank)
    ensures Ranked(ParentMap(PagesOutside(ParentMap(pages), rank, pages, root)), rank)
  {
    var P := ParentMap(pages);
    var R := ParentMap(PagesOutside(P, rank, pages, root));
    forall x | x in R && R[x].Some?
      ensures R[x].value in R && rank[R[x].value] < rank[x]
    {
      OutsideParent(P, rank, root, x);
    }
  }

  lemma DeletePaths(pages: Pages, rank: map<nat, nat>, root: nat)
    requires Ranked(ParentMap(pages), rank)
    requires PathsFollowParents(pages)
    ensures PathsFollowParents(PagesOutside(ParentMap(pages), rank, pages, root))
  {
    var P := ParentMap(pages);
    var R := PagesOutside(P, rank, pages, root);
    forall x | x in R && R[x].parentId.Some?
      ensures R[x].parentId.value in R
    {
      OutsideParent(P, rank, root, x);
    }
  }

  lemma DeleteIndexes(pages: Pages, components: Components, routes: Routes, rank: map<nat, nat>, root: nat)
    requires Ranked(ParentMap(pages), rank)
    requires IndexesHold(pages, components, routes)
    ensures var P := ParentMap(pages);
      IndexesHold(PagesOutside(P, rank, pages, root), ComponentsOutside(P, rank, components, components, root), routes)
  {
    var P := ParentMap(pages);
    var R := PagesOutside(P, rank, pages, root);
    var RC := ComponentsOutside(P, rank, components, components, root);
    forall x | x in R && R[x].parentId.Some?
      ensures R[x].parentId.value in R
    {
      OutsideParent(P, rank, root, x);
    }
    forall k | k in RC ensures RC[k].pageId in R {
      assert components[k].pageId in pages;
    }
  }

  // ---------------------------------------------------------------------
  // Components

  /** Storing a component under its own id, owned by an existing page, keeps
    * every index. */
  lemma StoreComponentKeepsIndexes(pages: Pages, components: Components, routes: Routes, c: CmsPageComponent)
    requires IndexesHold(pages, components, routes)
    requires c.pageId in pages
    ensures IndexesHold(pages, components[c.id := c], routes)
  {
  }

  /** Removing a component keeps every index. */
  lemma RemoveComponentKeepsIndexes(pages: Pages, components: Components, routes: Routes, id: nat)
    requires IndexesHold(pages, components, routes)
    ensures IndexesHold(pages, components - {id}, routes)
  {
  }
}
