/**
 * The admin category page of the frontend: the category forest as fetched,
 * its preorder flattening for the parent drop-down, the edit form derived
 * from a category, the request the form submits, and the indentation of
 * the nested list.
 */
module AdminCategoriesPage {
  import opened Wrappers
  import opened Seqs
  import opened Text
  import CategoryController

  /** A category as the index returns it, with its (possibly empty) `children`. */
  datatype CategoryNode = CategoryNode(id: int, title: string, description: Option<string>, parentId: Option<int>, children: seq<CategoryNode>)

  /** The form state: every field is text, `parent_id` being the selected option's value. */
  datatype FormData = FormData(title: string, description: string, parentId: string)

  /** What the page renders once a render is reached. */
  datatype View = Spinner | Nothing | Content

  /** The empty form the page starts with and resets to. */
  const EmptyForm := FormData("", "", "")

  /** Every node of the forest, each before its children, siblings in order. */
  function Preorder(forest: seq<CategoryNode>): seq<CategoryNode>
    decreases forest
  {
    if forest == [] then []
    else [forest[0]] + Preorder(forest[0].children) + Preorder(forest[1..])
  }

  /** The number of nodes in a forest. */
  function Size(forest: seq<CategoryNode>): nat
    decreases forest
  {
    if forest == [] then 0 else 1 + Size(forest[0].children) + Size(forest[1..])
  }

  /** `x` is one of the roots, or reachable from one of them through `children`. */
  predicate Reachable(x: CategoryNode, forest: seq<CategoryNode>)
    decreases forest
  {
    exists i :: 0 <= i < |forest| && (forest[i] == x || Reachable(x, forest[i].children))
  }

  lemma {:induction false} PreorderAppend(a: seq<CategoryNode>, b: seq<CategoryNode>)
    ensures Preorder(a + b) == Preorder(a) + Preorder(b)
    decreases a
  {
    if a != [] {
      assert (a + b)[0] == a[0] && (a + b)[1..] == a[1..] + b;
      PreorderAppend(a[1..], b);
      calc {
        Preorder(a + b);
        [a[0]] + Preorder(a[0].children) + Preorder(a[1..] + b);
        [a[0]] + Preorder(a[0].children) + (Preorder(a[1..]) + Preorder(b));
        ([a[0]] + Preorder(a[0].children) + Preorder(a[1..])) + Preorder(b);
      }
    } else {
      assert a + b == b;
    }
  }

  /**
   * The shape of the flattening: the part before root `k`, root `k`, its
   * subtree, then the roots after it. Each node precedes its descendants and
   * siblings keep their order.
   */
  lemma {:induction false} PreorderAt(forest: seq<CategoryNode>, k: nat)
    requires k < |forest|
    ensures Preorder(forest) == Preorder(forest[..k]) + [forest[k]] + Preorder(forest[k].children) + Preorder(forest[k + 1..])
  {
    assert forest == forest[..k] + forest[k..];
    PreorderAppend(forest[..k], forest[k..]);
  }

  /** Flattening one more root appends that root and its flattened subtree. */
  lemma PreorderExtend(items: seq<CategoryNode>, i: nat)
    requires i < |items|
    ensures Preorder(items[..i + 1]) == Preorder(items[..i]) + [items[i]] + Preorder(items[i].children)
  {
    assert Preorder([items[i]]) == [items[i]] + Preorder(items[i].children);
    assert items[..i + 1] == items[..i] + [items[i]];
    PreorderAppend(items[..i], [items[i]]);
  }

  /** The flattening holds every node once: its length is the size of the forest. */
  lemma {:induction false} PreorderLength(forest: seq<CategoryNode>)
    ensures |Preorder(forest)| == Size(forest)
    decreases forest
  {
    if forest != [] {
      PreorderLength(forest[0].children);
      PreorderLength(forest[1..]);
    }
  }

  /** A node occurs in the flattening exactly when it is reachable in the forest. */
  lemma {:induction false} PreorderHoldsReachable(forest: seq<CategoryNode>, x: CategoryNode)
    ensures x in Preorder(forest) <==> Reachable(x, forest)
    decreases forest
  {
    if forest != [] {
      PreorderHoldsReachable(forest[0].children, x);
      PreorderHoldsReachable(forest[1..], x);
      if Reachable(x, forest[1..]) {
        var i :| 0 <= i < |forest[1..]| && (forest[1..][i] == x || Reachable(x, forest[1..][i].children));
        assert forest[i + 1] == forest[1..][i];
      }
      if Reachable(x, forest) && !(forest[0] == x || Reachable(x, forest[0].children)) {
        var i :| 0 <= i < |forest| && (forest[i] == x || Reachable(x, forest[i].children));
        assert forest[1..][i - 1] == forest[i];
      }
    }
  }

  /** A descendant of a reachable node is reachable. */
  lemma {:induction false} ReachableTransitive(forest: seq<CategoryNode>, y: CategoryNode, x: CategoryNode)
    requires Reachable(y, forest) && Reachable(x, y.children)
    ensures Reachable(x, forest)
    decreases forest
  {
    var i :| 0 <= i < |forest| && (forest[i] == y || Reachable(y, forest[i].children));
    if forest[i] != y {
      ReachableTransitive(forest[i].children, y, x);
    }
  }

  /**
   * `flatten(items)`: for each item in order, push it onto `acc` and flatten
   * its children onto the same array.
   */
  method FlattenInto(items: seq<CategoryNode>, acc: seq<CategoryNode>) returns (result: seq<CategoryNode>)
    ensures result == acc + Preorder(items)
    decreases items
  {
    result := acc;
    var i := 0;
    while i < |items|
      invariant 0 <= i <= |items|
      invariant result == acc + Preorder(items[..i])
    {
      var item := items[i];
      result := result + [item];
      result := FlattenInto(item.children, result);
      PreorderExtend(items, i);
      i := i + 1;
    }
    assert items[..i] == items;
  }

  /** `getAllCategoriesFlat(cats)`. */
  method GetAllCategoriesFlat(cats: seq<CategoryNode>) returns (result: seq<CategoryNode>)
    ensures result == Preorder(cats)
    ensures |result| == Size(cats)
    ensures forall x :: x in result <==> Reachable(x, cats)
  {
    result := FlattenInto(cats, []);
    PreorderLength(cats);
    forall x ensures x in result <==> Reachable(x, cats) {
      PreorderHoldsReachable(cats, x);
    }
  }

  /** The drop-down's options: every flattened category except the one being edited. */
  function ParentOptions(all: seq<CategoryNode>, editing: Option<CategoryNode>): (r: seq<CategoryNode>)
    ensures IsSubsequence(r, all)
    ensures forall i :: 0 <= i < |all| ==> (all[i] in r <==> editing.None? || all[i].id != editing.value.id)
  {
    var keep := (c: CategoryNode) => editing.None? || c.id != editing.value.id;
    FilterIsSubsequence(all, keep);
    Filter(all, keep)
  }

  /**
   * The parent drop-down for a category of the forest still offers every
   * descendant of that category whose id differs from it, so a category can
   * be moved under its own subtree.
   */
  lemma DescendantsOffered(forest: seq<CategoryNode>, editing: CategoryNode, d: CategoryNode)
    requires Reachable(editing, forest) && Reachable(d, editing.children) && d.id != editing.id
    ensures d in ParentOptions(Preorder(forest), Some(editing))
  {
    ReachableTransitive(forest, editing, d);
    PreorderHoldsReachable(forest, d);
  }

  /** `handleEdit(category)`: the form fields derived from the category. */
  function EditForm(c: CategoryNode): (f: FormData)
    ensures f.title == c.title
    ensures f.description == (if c.description.Some? then c.description.value else "")
    ensures c.parentId.None? <==> f.parentId == ""
  {
    FormData(c.title,
             if c.description.Some? then c.description.value else "",
             if c.parentId.Some? then IntToString(c.parentId.value) else "")
  }

  /**
   * The body `handleSubmit` sends: empty description and empty parent are
   * `undefined`, so left out of the JSON; a parent that does not parse is
   * `NaN`, which JSON writes as `null`.
   */
  function SubmitRequest(f: FormData): (r: CategoryController.CategoryRequest)
    ensures r.title == CategoryController.Given(f.title)
    ensures r.description.Absent? <==> f.description == ""
    ensures f.description != "" ==> r.description == CategoryController.Given(f.description)
    ensures r.parent.Absent? <==> f.parentId == ""
    ensures f.parentId != "" && ParseInt(f.parentId).Some? ==> r.parent == CategoryController.Given(ParseInt(f.parentId).value)
    ensures f.parentId != "" && ParseInt(f.parentId).None? ==> r.parent == CategoryController.Null
    ensures f.parentId != "" && AllDigits(f.parentId) ==> r.parent == CategoryController.Given(DigitsValue(f.parentId) as int)
  {
    assert f.parentId != "" && AllDigits(f.parentId) ==> ParseInt(f.parentId) == Some(DigitsValue(f.parentId) as int) by {
      if f.parentId != "" && AllDigits(f.parentId) { ParseIntOfDigits(f.parentId); }
    }
    CategoryController.CategoryRequest(
      CategoryController.Given(f.title),
      if f.description == "" then CategoryController.Absent else CategoryController.Given(f.description),
      if f.parentId == "" then CategoryController.Absent
      else match ParseInt(f.parentId) {
        case Some(n) => CategoryController.Given(n)
        case None => CategoryController.Null
      })
  }

  /**
   * Opening a category in the edit form and submitting it unchanged sends its
   * own title and parent back; a parent id survives the text round trip.
   */
  lemma EditSubmitRoundTrip(c: CategoryNode)
    ensures SubmitRequest(EditForm(c)).title == CategoryController.Given(c.title)
    ensures SubmitRequest(EditForm(c)).parent
            == (if c.parentId.Some? then CategoryController.Given(c.parentId.value) else CategoryController.Absent)
  {
    if c.parentId.Some? {
      ParseIntOfIntToString(c.parentId.value);
    }
  }

  /**
   * As written, choosing "no parent" for a category that has one sends no
   * `parent_id` at all, and the update then keeps the old parent: an edited
   * category cannot be made a root again.
   */
  lemma NoParentChoiceKeepsParent(c: CategoryController.Category, f: FormData)
    requires c.parent.Some? && f.parentId == ""
    ensures CategoryController.Apply(c, SubmitRequest(f)).parent == c.parent
  {
  }

  /**
   * Likewise, emptying the description of a category that has one sends no
   * `description`, and the update keeps the old text.
   */
  lemma ClearedDescriptionKept(c: CategoryController.Category, f: FormData)
    requires c.description.Some? && f.description == ""
    ensures CategoryController.Apply(c, SubmitRequest(f)).description == c.description
  {
  }

  /**
   * The submit body with the evident intent: an empty parent choice and an
   * empty description are sent as `null`.
   */
  function SubmitRequestIntended(f: FormData): (r: CategoryController.CategoryRequest)
    ensures r.title == CategoryController.Given(f.title)
    ensures f.parentId == "" ==> r.parent == CategoryController.Null
    ensures f.parentId != "" ==> r.parent == SubmitRequest(f).parent
    ensures f.description == "" ==> r.description == CategoryController.Null
    ensures f.description != "" ==> r.description == CategoryController.Given(f.description)
  {
    SubmitRequest(f).(
      description := if f.description == "" then CategoryController.Null else SubmitRequest(f).description,
      parent := if f.parentId == "" then CategoryController.Null else SubmitRequest(f).parent)
  }

  /**
   * With the intended body, choosing "no parent" passes validation and makes
   * the category a root, and an emptied description is cleared.
   */
  lemma NoParentChoiceMakesRoot(rows: map<int, CategoryController.Category>, id: int, f: FormData)
    requires id in rows && f.parentId == "" && CategoryController.TitleAcceptable(CategoryController.Given(f.title))
    ensures CategoryController.UpdateErrors(rows, SubmitRequestIntended(f)) == {}
    ensures CategoryController.Apply(rows[id], SubmitRequestIntended(f)).parent == None
    ensures f.description == "" ==> CategoryController.Apply(rows[id], SubmitRequestIntended(f)).description == None
  {
  }

  /** A row of the nested list: `CategoryItem` at some `level`, indented when the level is positive. */
  datatype Row = Row(id: int, level: nat, indented: bool)

  /** The rows `CategoryItem` renders for a forest at `level`, children at `level + 1`. */
  function RenderRows(forest: seq<CategoryNode>, level: nat): seq<Row>
    decreases forest
  {
    if forest == [] then []
    else [Row(forest[0].id, level, level > 0)] + RenderRows(forest[0].children, level + 1) + RenderRows(forest[1..], level)
  }

  /**
   * The nested list shows the categories in the same order as the
   * flattening, never above the starting level, and indents exactly the rows
   * below level 0.
   */
  lemma {:induction false} RenderRowsFollowPreorder(forest: seq<CategoryNode>, level: nat)
    ensures |RenderRows(forest, level)| == |Preorder(forest)|
    ensures forall i :: 0 <= i < |Preorder(forest)| ==>
              RenderRows(forest, level)[i].id == Preorder(forest)[i].id
              && RenderRows(forest, level)[i].level >= level
              && (RenderRows(forest, level)[i].indented <==> RenderRows(forest, level)[i].level > 0)
    decreases forest
  {
    if forest != [] {
      RenderRowsFollowPreorder(forest[0].children, level + 1);
      RenderRowsFollowPreorder(forest[1..], level);
    }
  }

  /** Rendering two forests one after the other renders each at the same level. */
  lemma {:induction false} RenderRowsAppend(a: seq<CategoryNode>, b: seq<CategoryNode>, level: nat)
    ensures RenderRows(a + b, level) == RenderRows(a, level) + RenderRows(b, level)
    decreases a
  {
    if a != [] {
      assert (a + b)[0] == a[0] && (a + b)[1..] == a[1..] + b;
      RenderRowsAppend(a[1..], b, level);
    } else {
      assert a + b == b;
    }
  }

  /**
   * The shape of the nested list: root `k` is drawn at the list's level,
   * directly followed by its children's rows drawn one level deeper, then
   * the roots after it.
   */
  lemma {:induction false} RenderRowsAt(forest: seq<CategoryNode>, level: nat, k: nat)
    requires k < |forest|
    ensures RenderRows(forest, level) ==
              RenderRows(forest[..k], level) + [Row(forest[k].id, level, level > 0)]
              + RenderRows(forest[k].children, level + 1) + RenderRows(forest[k + 1..], level)
  {
    var before, rest := forest[..k], forest[k..];
    assert forest == before + rest;
    RenderRowsAppend(before, rest, level);
    assert rest[0] == forest[k] && rest[1..] == forest[k + 1..];
  }

  /** Below level 0 every row is indented: in particular every row of a category's children. */
  lemma ChildRowsIndented(forest: seq<CategoryNode>, level: nat)
    requires level > 0
    ensures forall j :: 0 <= j < |RenderRows(forest, level)| ==>
              RenderRows(forest, level)[j].level >= level && RenderRows(forest, level)[j].indented
  {
    RenderRowsFollowPreorder(forest, level);
  }

  /** The page renders nothing for a user whose role is not 1 once loading is over. */
  function PageView(loading: bool, role: Option<int>): (v: View)
    ensures v == Nothing <==> !loading && role != Some(1)
    ensures v == Content <==> !loading && role == Some(1)
  {
    if loading then Spinner else if role != Some(1) then Nothing else Content
  }
}
