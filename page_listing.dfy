/**
 * The two views of the page hierarchy the content administration shows:
 * the nested page list (`BuildTree`) and the indented parent drop-down
 * (`BuildParentOptionsRecursive`), both built level by level from the listed
 * rows, each level in position-then-title order.
 */
module PageListing {
  import opened Wrappers
  import opened Text
  import opened CmsDomain
  import opened Sorting

  /** `CmsPageTreeItemViewModel`. */
  datatype TreeItem = TreeItem(
    id: nat,
    title: string,
    path: string,
    isHomepage: bool,
    isPublished: bool,
    position: int,
    children: seq<TreeItem>)

  /** A `SelectListItem` of the parent drop-down; `value` is the page id. */
  datatype ParentOption = ParentOption(value: nat, text: string, selected: bool)

  /** `OrderBy(p => p.Position).ThenBy(p => p.Title)`, titles compared ordinally. */
  predicate ByPositionTitle(a: CmsPage, b: CmsPage)
  {
    a.position < b.position || (a.position == b.position && OrdinalLe(a.title, b.title))
  }

  lemma ByPositionTitleIsTotalPreorder()
    ensures IsTotalPreorder(ByPositionTitle)
  {
    forall a: CmsPage, b: CmsPage ensures ByPositionTitle(a, b) || ByPositionTitle(b, a) {
      OrdinalLeTotal(a.title, b.title);
    }
    forall a: CmsPage, b: CmsPage, c: CmsPage | ByPositionTitle(a, b) && ByPositionTitle(b, c)
      ensures ByPositionTitle(a, c)
    {
      if a.position == b.position == c.position {
        OrdinalLeTrans(a.title, b.title, c.title);
      }
    }
  }

  /** `OrderBy(p => p.Position)`, the order the drop-down's rows are read in. */
  predicate ByPosition(a: CmsPage, b: CmsPage)
  {
    a.position <= b.position
  }

  lemma ByPositionIsTotalPreorder()
    ensures IsTotalPreorder(ByPosition)
  {
  }

  /** `pages.Where(p => p.ParentId == parentId)`. */
  function ChildRows(pages: seq<CmsPage>, parentId: Option<nat>): (r: seq<CmsPage>)
    ensures forall c :: c in r <==> c in pages && c.parentId == parentId
  {
    if pages == [] then []
    else (if pages[0].parentId == parentId then [pages[0]] else []) + ChildRows(pages[1..], parentId)
  }

  /** One level of either view: the rows under `parentId` in the order the
    * views list them. */
  function Level(pages: seq<CmsPage>, parentId: Option<nat>): (r: seq<CmsPage>)
    ensures multiset(r) == multiset(ChildRows(pages, parentId))
    ensures SortedBy(r, ByPositionTitle)
    ensures forall c :: c in r ==> c in pages && c.parentId == parentId
  {
    var rows := ChildRows(pages, parentId);
    ByPositionTitleIsTotalPreorder();
    SortByCorrect(rows, ByPositionTitle);
    var r := SortBy(rows, ByPositionTitle);
    assert forall c :: c in r ==> c in multiset(rows);
    r
  }

  /** The listed rows' parent links climb in `rank`, which `bound` bounds:
    * the hierarchy has no cycle, so both views are finite. */
  ghost predicate ListRanked(pages: seq<CmsPage>, rank: map<nat, nat>, bound: nat)
  {
    forall p :: p in pages ==>
      && p.id in rank && rank[p.id] < bound
      && (p.parentId.Some? ==> p.parentId.value in rank && rank[p.parentId.value] < rank[p.id])
  }

  ghost predicate ParentRanked(parentId: Option<nat>, rank: map<nat, nat>, bound: nat)
  {
    parentId.Some? ==> parentId.value in rank && rank[parentId.value] < bound
  }

  /** How far below `parentId` the walk can still go. */
  ghost function Room(parentId: Option<nat>, rank: map<nat, nat>, bound: nat): nat
    requires ParentRanked(parentId, rank, bound)
  {
    if parentId.None? then bound + 1 else bound - rank[parentId.value]
  }

  function ItemFor(p: CmsPage, children: seq<TreeItem>): TreeItem
  {
    TreeItem(p.id, p.title, p.path, p.isHomepage, p.isPublished, p.position, children)
  }

  // ---------------------------------------------------------------------
  // BuildTree

  /** `BuildTree(pages, parentId)`. */
  function BuildTree(pages: seq<CmsPage>, parentId: Option<nat>, ghost rank: map<nat, nat>, ghost bound: nat)
    : seq<TreeItem>
    requires ListRanked(pages, rank, bound) && ParentRanked(parentId, rank, bound)
    decreases Room(parentId, rank, bound), 1
  {
    ItemsOf(pages, Level(pages, parentId), parentId, rank, bound)
  }

  /** The `Select` of `BuildTree` over one level. */
  function ItemsOf(pages: seq<CmsPage>, level: seq<CmsPage>, parentId: Option<nat>,
                   ghost rank: map<nat, nat>, ghost bound: nat): seq<TreeItem>
    requires ListRanked(pages, rank, bound) && ParentRanked(parentId, rank, bound)
    requires forall c :: c in level ==> c in pages && c.parentId == parentId
    decreases Room(parentId, rank, bound), 0, |level|
  {
    if level == [] then []
    else [ItemFor(level[0], BuildTree(pages, Some(level[0].id), rank, bound))]
         + ItemsOf(pages, level[1..], parentId, rank, bound)
  }

  lemma {:induction false} ItemsOfShape(pages: seq<CmsPage>, level: seq<CmsPage>, parentId: Option<nat>,
                                        rank: map<nat, nat>, bound: nat)
    requires ListRanked(pages, rank, bound) && ParentRanked(parentId, rank, bound)
    requires forall c :: c in level ==> c in pages && c.parentId == parentId
    ensures var r := ItemsOf(pages, level, parentId, rank, bound);
      && |r| == |level|
      && forall i :: 0 <= i < |r| ==> r[i] == ItemFor(level[i], BuildTree(pages, Some(level[i].id), rank, bound))
    decreases |level|
  {
    if level != [] {
      var rest := ItemsOf(pages, level[1..], parentId, rank, bound);
      ItemsOfShape(pages, level[1..], parentId, rank, bound);
      var r := ItemsOf(pages, level, parentId, rank, bound);
      assert r == [ItemFor(level[0], BuildTree(pages, Some(level[0].id), rank, bound))] + rest;
      forall i | 0 < i < |r| ensures r[i] == ItemFor(level[i], BuildTree(pages, Some(level[i].id), rank, bound)) {
        assert r[i] == rest[i - 1] && level[i] == level[1..][i - 1];
      }
    }
  }

  /** Item `i` of a level of the page list is the `i`-th row under the parent
    * in position-then-title order, with that row's fields and its own
    * subtree as children; the level lists every row under the parent once. */
  lemma BuildTreeLevel(pages: seq<CmsPage>, parentId: Option<nat>, rank: map<nat, nat>, bound: nat)
    requires ListRanked(pages, rank, bound) && ParentRanked(parentId, rank, bound)
    ensures |BuildTree(pages, parentId, rank, bound)| == |ChildRows(pages, parentId)|
    ensures var r := BuildTree(pages, parentId, rank, bound);
      var level := Level(pages, parentId);
      |r| == |level| &&
      forall i :: 0 <= i < |r| ==>
        && level[i] in pages && level[i].parentId == parentId
        && r[i] == ItemFor(level[i], BuildTree(pages, Some(level[i].id), rank, bound))
    ensures var r := BuildTree(pages, parentId, rank, bound);
      forall i, j :: 0 <= i < j < |r| ==>
        r[i].position < r[j].position || (r[i].position == r[j].position && OrdinalLe(r[i].title, r[j].title))
    ensures var r := BuildTree(pages, parentId, rank, bound);
      forall p :: p in pages && p.parentId == parentId ==> exists i :: 0 <= i < |r| && r[i].id == p.id
  {
    var level := Level(pages, parentId);
    ItemsOfShape(pages, level, parentId, rank, bound);
    assert |level| == |ChildRows(pages, parentId)| by {
      assert |multiset(level)| == |multiset(ChildRows(pages, parentId))|;
    }
    LevelOrdered(pages, parentId, rank, bound);
    LevelComplete(pages, parentId, rank, bound);
  }

  lemma LevelOrdered(pages: seq<CmsPage>, parentId: Option<nat>, rank: map<nat, nat>, bound: nat)
    requires ListRanked(pages, rank, bound) && ParentRanked(parentId, rank, bound)
    requires var level := Level(pages, parentId);
      var r := BuildTree(pages, parentId, rank, bound);
      |r| == |level| && forall i :: 0 <= i < |r| ==> r[i] == ItemFor(level[i], BuildTree(pages, Some(level[i].id), rank, bound))
    ensures var r := BuildTree(pages, parentId, rank, bound);
      forall i, j :: 0 <= i < j < |r| ==>
        r[i].position < r[j].position || (r[i].position == r[j].position && OrdinalLe(r[i].title, r[j].title))
  {
    var level := Level(pages, parentId);
    var r := BuildTree(pages, parentId, rank, bound);
    forall i, j | 0 <= i < j < |r|
      ensures r[i].position < r[j].position || (r[i].position == r[j].position && OrdinalLe(r[i].title, r[j].title))
    {
      assert ByPositionTitle(level[i], level[j]);
    }
  }

  lemma LevelComplete(pages: seq<CmsPage>, parentId: Option<nat>, rank: map<nat, nat>, bound: nat)
    requires ListRanked(pages, rank, bound) && ParentRanked(parentId, rank, bound)
    requires var level := Level(pages, parentId);
      var r := BuildTree(pages, parentId, rank, bound);
      |r| == |level| && forall i :: 0 <= i < |r| ==> r[i] == ItemFor(level[i], BuildTree(pages, Some(level[i].id), rank, bound))
    ensures var r := BuildTree(pages, parentId, rank, bound);
      forall p :: p in pages && p.parentId == parentId ==> exists i :: 0 <= i < |r| && r[i].id == p.id
  {
    var level := Level(pages, parentId);
    var r := BuildTree(pages, parentId, rank, bound);
    forall i | 0 <= i < |r| ensures r[i].id == level[i].id {
    }
    IdsCover(level, r, ChildRows(pages, parentId));
  }

  /** Items carrying the ids of a permutation of `rows` name every row. */
  lemma IdsCover(level: seq<CmsPage>, r: seq<TreeItem>, rows: seq<CmsPage>)
    requires |r| == |level| && forall i :: 0 <= i < |r| ==> r[i].id == level[i].id
    requires multiset(level) == multiset(rows)
    ensures forall p :: p in rows ==> exists i :: 0 <= i < |r| && r[i].id == p.id
  {
    forall p | p in rows ensures exists i :: 0 <= i < |r| && r[i].id == p.id {
      assert p in multiset(level);
      var i :| 0 <= i < |level| && level[i] == p;
      assert r[i].id == p.id;
    }
  }

  // ---------------------------------------------------------------------
  // BuildParentOptionsRecursive

  /** The indentation of a drop-down entry at `depth`: none at the top, else
    * `depth * 2` hyphens and a space. */
  function Prefix(depth: nat): (r: string)
    ensures depth == 0 ==> r == ""
    ensures depth > 0 ==> |r| == depth * 2 + 1 && r[depth * 2] == ' ' && forall i :: 0 <= i < depth * 2 ==> r[i] == '-'
  {
    if depth == 0 then "" else seq(depth * 2, _ => '-') + " "
  }

  /** `levels` lists the rows under each parent as `Level` does. The walk of
    * the drop-down is specified over `levels` rather than `Level` itself, so
    * that unfolding it does not unfold the sort. */
  ghost predicate LevelsOf(levels: Option<nat> -> seq<CmsPage>, pages: seq<CmsPage>)
  {
    forall parentId {:trigger Level(pages, parentId)} :: levels(parentId) == Level(pages, parentId)
  }

  /** Every row `levels` lists sits strictly below its parent in `rank`. */
  ghost predicate LevelsRanked(levels: Option<nat> -> seq<CmsPage>, rank: map<nat, nat>, bound: nat)
  {
    forall parentId, c {:trigger c in levels(parentId)} :: c in levels(parentId) ==>
      && c.id in rank && rank[c.id] < bound
      && (parentId.Some? ==> parentId.value in rank && rank[parentId.value] < rank[c.id])
  }

  lemma LevelsRankedOf(levels: Option<nat> -> seq<CmsPage>, pages: seq<CmsPage>, rank: map<nat, nat>, bound: nat)
    requires LevelsOf(levels, pages) && ListRanked(pages, rank, bound)
    ensures LevelsRanked(levels, rank, bound)
  {
    forall parentId, c | c in levels(parentId)
      ensures c.id in rank && rank[c.id] < bound
      ensures parentId.Some? ==> parentId.value in rank && rank[parentId.value] < rank[c.id]
    {
      assert levels(parentId) == Level(pages, parentId);
    }
  }

  /** The entries `BuildParentOptionsRecursive` appends for the rows under
    * `parentId`: each row but the excluded one, followed by its own entries
    * one level deeper; the excluded row's subtree is skipped. */
  ghost function OptionsUnder(levels: Option<nat> -> seq<CmsPage>, parentId: Option<nat>, depth: nat,
                              excludeId: Option<nat>, selectedId: Option<nat>, rank: map<nat, nat>, bound: nat)
    : seq<ParentOption>
    requires LevelsRanked(levels, rank, bound) && ParentRanked(parentId, rank, bound)
    decreases Room(parentId, rank, bound), 1
  {
    OptionsOfLevel(levels, levels(parentId), parentId, depth, excludeId, selectedId, rank, bound)
  }

  ghost function OptionsOfLevel(levels: Option<nat> -> seq<CmsPage>, level: seq<CmsPage>, parentId: Option<nat>,
                                depth: nat, excludeId: Option<nat>, selectedId: Option<nat>,
                                rank: map<nat, nat>, bound: nat)
    : seq<ParentOption>
    requires LevelsRanked(levels, rank, bound) && ParentRanked(parentId, rank, bound)
    requires forall j :: 0 <= j < |level| ==> level[j] in levels(parentId)
    decreases Room(parentId, rank, bound), 0, |level|
  {
    if level == [] then []
    else
      var p := level[0];
      EntriesOf(levels, p, depth, excludeId, selectedId, rank, bound)
      + OptionsOfLevel(levels, level[1..], parentId, depth, excludeId, selectedId, rank, bound)
  }

  /** The entries of one row: none when it is the excluded page, else its own
    * entry and those of its subtree. */
  ghost function EntriesOf(levels: Option<nat> -> seq<CmsPage>, p: CmsPage, depth: nat,
                           excludeId: Option<nat>, selectedId: Option<nat>, rank: map<nat, nat>, bound: nat)
    : seq<ParentOption>
    requires LevelsRanked(levels, rank, bound) && ParentRanked(Some(p.id), rank, bound)
    decreases Room(Some(p.id), rank, bound), 2
  {
    if excludeId == Some(p.id) then []
    else [ParentOption(p.id, Prefix(depth) + p.title, selectedId == Some(p.id))]
         + OptionsUnder(levels, Some(p.id), depth + 1, excludeId, selectedId, rank, bound)
  }

  /** `level` lists each row under `parentId` once, by position and then
    * title. */
  ghost predicate ChildrenListed(pages: seq<CmsPage>, parentId: Option<nat>, level: seq<CmsPage>)
  {
    multiset(level) == multiset(ChildRows(pages, parentId)) && SortedBy(level, ByPositionTitle)
  }

  /** The `Where`/`OrderBy`/`ThenBy` query of `BuildParentOptionsRecursive`. */
  method ChildrenInOrder(pages: seq<CmsPage>, parentId: Option<nat>, ghost levels: Option<nat> -> seq<CmsPage>)
    returns (level: seq<CmsPage>)
    requires LevelsOf(levels, pages)
    ensures level == levels(parentId)
    ensures ChildrenListed(pages, parentId, level)
  {
    level := Level(pages, parentId);
  }

  /** `BuildParentOptionsRecursive(pages, options, parentId, depth, excludeId,
    * selectedId)`: appends the entries for the rows under `parentId`. */
  method BuildParentOptionsRecursive(pages: seq<CmsPage>, options: seq<ParentOption>, parentId: Option<nat>,
                                     depth: nat, excludeId: Option<nat>, selectedId: Option<nat>,
                                     ghost levels: Option<nat> -> seq<CmsPage>,
                                     ghost rank: map<nat, nat>, ghost bound: nat)
    returns (out: seq<ParentOption>)
    requires LevelsOf(levels, pages) && LevelsRanked(levels, rank, bound) && ParentRanked(parentId, rank, bound)
    ensures out == options + OptionsUnder(levels, parentId, depth, excludeId, selectedId, rank, bound)
    decreases Room(parentId, rank, bound), 0
  {
    var level := ChildrenInOrder(pages, parentId, levels);
    ghost var whole := options + OptionsOfLevel(levels, level, parentId, depth, excludeId, selectedId, rank, bound);
    out := options;
    for i := 0 to |level|
      invariant out + OptionsOfLevel(levels, level[i..], parentId, depth, excludeId, selectedId, rank, bound) == whole
    {
      var page := level[i];
      ghost var before := out;
      out := AppendEntries(pages, out, page, parentId, depth, excludeId, selectedId, levels, rank, bound);
      LevelStep(levels, level, i, parentId, depth, excludeId, selectedId, rank, bound, before, out);
    }
    assert level[|level|..] == [];
  }

  /** One pass of the loop body: `page`'s entry, unless it is the excluded
    * page, followed by the entries of its subtree. */
  method AppendEntries(pages: seq<CmsPage>, options: seq<ParentOption>, page: CmsPage, ghost parentId: Option<nat>,
                       depth: nat, excludeId: Option<nat>, selectedId: Option<nat>,
                       ghost levels: Option<nat> -> seq<CmsPage>,
                       ghost rank: map<nat, nat>, ghost bound: nat)
    returns (out: seq<ParentOption>)
    requires LevelsOf(levels, pages) && LevelsRanked(levels, rank, bound) && ParentRanked(parentId, rank, bound)
    requires page in levels(parentId)
    ensures out == options + EntriesOf(levels, page, depth, excludeId, selectedId, rank, bound)
    decreases Room(Some(page.id), rank, bound), 2
  {
    if excludeId.Some? && page.id == excludeId.value {
      out := options;
    } else {
      var entry := ParentOption(page.id, Prefix(depth) + page.title, selectedId.Some? && page.id == selectedId.value);
      out := BuildParentOptionsRecursive(pages, options + [entry], Some(page.id), depth + 1, excludeId, selectedId,
                                         levels, rank, bound);
      AppendAssoc(options, [entry], OptionsUnder(levels, Some(page.id), depth + 1, excludeId, selectedId, rank, bound));
    }
  }

  lemma AppendAssoc<T>(a: seq<T>, b: seq<T>, c: seq<T>)
    ensures a + b + c == a + (b + c)
  {
  }

  /** The top-level call `BuildParentOptionsRecursive(pages, options, null, 0,
    * excludeId, selectedId)` on an empty list. */
  method ParentOptions(pages: seq<CmsPage>, excludeId: Option<nat>, selectedId: Option<nat>,
                       ghost rank: map<nat, nat>, ghost bound: nat)
    returns (options: seq<ParentOption>)
    requires ListRanked(pages, rank, bound)
    ensures options == OptionsOfTree(BuildTree(pages, None, rank, bound), 0, excludeId, selectedId)
    ensures forall o :: o in options ==>
      && Some(o.value) != excludeId
      && (o.selected <==> selectedId == Some(o.value))
      && exists p, d :: p in pages && p.id == o.value && o.text == Prefix(d) + p.title
  {
    ghost var levels := (parentId: Option<nat>) => Level(pages, parentId);
    LevelsRankedOf(levels, pages, rank, bound);
    options := BuildParentOptionsRecursive(pages, [], None, 0, excludeId, selectedId, levels, rank, bound);
    OptionsFollowTree(pages, levels, None, 0, excludeId, selectedId, rank, bound);
    OptionsShape(pages, levels, None, 0, excludeId, selectedId, rank, bound);
  }

  /** One step of the loop over a level: appending the entries of `level[i]`
    * leaves those of `level[i + 1..]` to go. */
  lemma LevelStep(levels: Option<nat> -> seq<CmsPage>, level: seq<CmsPage>, i: nat, parentId: Option<nat>,
                  depth: nat, excludeId: Option<nat>, selectedId: Option<nat>, rank: map<nat, nat>, bound: nat,
                  before: seq<ParentOption>, after: seq<ParentOption>)
    requires LevelsRanked(levels, rank, bound) && ParentRanked(parentId, rank, bound)
    requires forall j :: 0 <= j < |level| ==> level[j] in levels(parentId)
    requires i < |level|
    requires after == before + EntriesOf(levels, level[i], depth, excludeId, selectedId, rank, bound)
    ensures before + OptionsOfLevel(levels, level[i..], parentId, depth, excludeId, selectedId, rank, bound)
      == after + OptionsOfLevel(levels, level[i + 1..], parentId, depth, excludeId, selectedId, rank, bound)
  {
    var rest := level[i..];
    assert rest[0] == level[i] && rest[1..] == level[i + 1..];
    var entries := EntriesOf(levels, level[i], depth, excludeId, selectedId, rank, bound);
    var later := OptionsOfLevel(levels, level[i + 1..], parentId, depth, excludeId, selectedId, rank, bound);
    assert OptionsOfLevel(levels, rest, parentId, depth, excludeId, selectedId, rank, bound) == entries + later;
    AppendAssoc(before, entries, later);
  }

  /** The drop-down read off a page list: a pre-order walk that indents each
    * level and cuts off the excluded page with everything below it. */
  function OptionsOfTree(items: seq<TreeItem>, depth: nat, excludeId: Option<nat>, selectedId: Option<nat>)
    : seq<ParentOption>
    decreases items
  {
    if items == [] then []
    else
      var t := items[0];
      (if excludeId == Some(t.id) then []
       else [ParentOption(t.id, Prefix(depth) + t.title, selectedId == Some(t.id))]
            + OptionsOfTree(t.children, depth + 1, excludeId, selectedId))
      + OptionsOfTree(items[1..], depth, excludeId, selectedId)
  }

  /** The parent drop-down is the page list walked in pre-order, minus the
    * excluded subtree: both views show the same hierarchy in the same order. */
  lemma {:induction false} OptionsFollowTree(pages: seq<CmsPage>, levels: Option<nat> -> seq<CmsPage>,
                                             parentId: Option<nat>, depth: nat,
                                             excludeId: Option<nat>, selectedId: Option<nat>,
                                             rank: map<nat, nat>, bound: nat)
    requires ListRanked(pages, rank, bound) && LevelsOf(levels, pages) && LevelsRanked(levels, rank, bound)
    requires ParentRanked(parentId, rank, bound)
    ensures OptionsUnder(levels, parentId, depth, excludeId, selectedId, rank, bound)
      == OptionsOfTree(BuildTree(pages, parentId, rank, bound), depth, excludeId, selectedId)
    decreases Room(parentId, rank, bound), 1
  {
    assert levels(parentId) == Level(pages, parentId);
    LevelOptionsFollowTree(pages, levels, levels(parentId), parentId, depth, excludeId, selectedId, rank, bound);
  }

  lemma {:induction false} LevelOptionsFollowTree(pages: seq<CmsPage>, levels: Option<nat> -> seq<CmsPage>,
                                                  level: seq<CmsPage>, parentId: Option<nat>, depth: nat,
                                                  excludeId: Option<nat>, selectedId: Option<nat>,
                                                  rank: map<nat, nat>, bound: nat)
    requires ListRanked(pages, rank, bound) && LevelsOf(levels, pages) && LevelsRanked(levels, rank, bound)
    requires ParentRanked(parentId, rank, bound)
    requires forall c :: c in level ==> c in pages && c.parentId == parentId
    requires forall j :: 0 <= j < |level| ==> level[j] in levels(parentId)
    ensures OptionsOfLevel(levels, level, parentId, depth, excludeId, selectedId, rank, bound)
      == OptionsOfTree(ItemsOf(pages, level, parentId, rank, bound), depth, excludeId, selectedId)
    decreases Room(parentId, rank, bound), 0, |level|
  {
    if level != [] {
      var p := level[0];
      var items := ItemsOf(pages, level, parentId, rank, bound);
      assert items[0] == ItemFor(p, BuildTree(pages, Some(p.id), rank, bound));
      assert items[1..] == ItemsOf(pages, level[1..], parentId, rank, bound);
      if excludeId != Some(p.id) {
        OptionsFollowTree(pages, levels, Some(p.id), depth + 1, excludeId, selectedId, rank, bound);
      }
      LevelOptionsFollowTree(pages, levels, level[1..], parentId, depth, excludeId, selectedId, rank, bound);
    }
  }

  /** An entry of the drop-down at `depth` or deeper: a row other than the
    * excluded one, indented at least `depth` levels, and selected exactly
    * when it is the selected page. */
  ghost predicate EntryShape(o: ParentOption, pages: seq<CmsPage>, depth: nat,
                             excludeId: Option<nat>, selectedId: Option<nat>)
  {
    && Some(o.value) != excludeId
    && (o.selected <==> selectedId == Some(o.value))
    && exists p, d :: p in pages && p.id == o.value && d >= depth && o.text == Prefix(d) + p.title
  }

  lemma EntryShapeDeeper(o: ParentOption, pages: seq<CmsPage>, depth: nat,
                         excludeId: Option<nat>, selectedId: Option<nat>)
    requires EntryShape(o, pages, depth + 1, excludeId, selectedId)
    ensures EntryShape(o, pages, depth, excludeId, selectedId)
  {
    var p, d :| p in pages && p.id == o.value && d >= depth + 1 && o.text == Prefix(d) + p.title;
  }

  /** Every entry under `parentId` has the shape of an entry at `depth`. */
  lemma {:induction false} OptionsShape(pages: seq<CmsPage>, levels: Option<nat> -> seq<CmsPage>,
                                        parentId: Option<nat>, depth: nat,
                                        excludeId: Option<nat>, selectedId: Option<nat>,
                                        rank: map<nat, nat>, bound: nat)
    requires LevelsOf(levels, pages) && LevelsRanked(levels, rank, bound) && ParentRanked(parentId, rank, bound)
    ensures forall o :: o in OptionsUnder(levels, parentId, depth, excludeId, selectedId, rank, bound) ==>
      EntryShape(o, pages, depth, excludeId, selectedId)
    decreases Room(parentId, rank, bound), 1
  {
    assert levels(parentId) == Level(pages, parentId);
    LevelOptionsShape(pages, levels, levels(parentId), parentId, depth, excludeId, selectedId, rank, bound);
  }

  lemma {:induction false} LevelOptionsShape(pages: seq<CmsPage>, levels: Option<nat> -> seq<CmsPage>,
                                             level: seq<CmsPage>, parentId: Option<nat>, depth: nat,
                                             excludeId: Option<nat>, selectedId: Option<nat>,
                                             rank: map<nat, nat>, bound: nat)
    requires LevelsOf(levels, pages) && LevelsRanked(levels, rank, bound) && ParentRanked(parentId, rank, bound)
    requires forall c :: c in level ==> c in pages
    requires forall j :: 0 <= j < |level| ==> level[j] in levels(parentId)
    ensures forall o :: o in OptionsOfLevel(levels, level, parentId, depth, excludeId, selectedId, rank, bound) ==>
      EntryShape(o, pages, depth, excludeId, selectedId)
    decreases Room(parentId, rank, bound), 0, |level|
  {
    if level != [] {
      var p := level[0];
      var head := EntriesOf(levels, p, depth, excludeId, selectedId, rank, bound);
      var tail := OptionsOfLevel(levels, level[1..], parentId, depth, excludeId, selectedId, rank, bound);
      assert OptionsOfLevel(levels, level, parentId, depth, excludeId, selectedId, rank, bound) == head + tail;
      LevelOptionsShape(pages, levels, level[1..], parentId, depth, excludeId, selectedId, rank, bound);
      if excludeId != Some(p.id) {
        OptionsShape(pages, levels, Some(p.id), depth + 1, excludeId, selectedId, rank, bound);
        var sub := OptionsUnder(levels, Some(p.id), depth + 1, excludeId, selectedId, rank, bound);
        var entry := ParentOption(p.id, Prefix(depth) + p.title, selectedId == Some(p.id));
        assert head == [entry] + sub;
        assert EntryShape(entry, pages, depth, excludeId, selectedId) by {
          assert p in pages && p.id == entry.value && entry.text == Prefix(depth) + p.title;
        }
        forall o | o in sub ensures EntryShape(o, pages, depth, excludeId, selectedId) {
          EntryShapeDeeper(o, pages, depth, excludeId, selectedId);
        }
      }
    }
  }
}
