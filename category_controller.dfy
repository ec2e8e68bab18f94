/**
 * The category controller of the backend: a self-referencing category table
 * (every row may name a parent row through `parent_id`) with the actions
 * index, show, store, update and destroy, and the validation rules that
 * guard store and update.
 */
module CategoryController {
  import opened Wrappers
  import opened Seqs

  /** `max:150` on the title. */
  const MaxTitleLength := 150

  datatype Category = Category(title: string, description: Option<string>, parent: Option<int>)

  /** A field of a request body: left out, sent as `null`, or sent with a value. */
  datatype Input<T> = Absent | Null | Given(value: T)

  datatype CategoryRequest = CategoryRequest(title: Input<string>, description: Input<string>, parent: Input<int>)

  /** The fields whose validation can fail (`description` is `nullable|string` and always passes). */
  datatype Field = TitleField | ParentField

  /** A row of the listings table, as far as `show` looks at it. */
  datatype Listing = Listing(id: int, status: string)

  /** A row of the items table with its listings; `category_id` references a category and restricts its deletion. */
  datatype Item = Item(id: int, categoryId: int, listings: seq<Listing>)

  /** A root category with its direct children attached (`with('children')`). */
  datatype RootEntry = RootEntry(category: Category, children: map<int, Category>)

  /** The category, its children and its items, each item carrying only its active listings. */
  datatype CategoryDetail = CategoryDetail(category: Category, children: map<int, Category>, items: seq<Item>)

  datatype Response =
    | Listed(roots: map<int, RootEntry>)
    | Found(detail: CategoryDetail)
    | Created(id: int, created: Category)
    | Updated(id: int, updated: Category)
    | Deleted
    | NotFound
    | Invalid(errors: set<Field>)
    | ServerError

  /** The HTTP status the controller answers with. */
  function StatusCode(r: Response): int {
    match r
    case Created(_, _) => 201
    case NotFound => 404
    case Invalid(_) => 422
    case ServerError => 500
    case _ => 200
  }

  /** The characters PHP's `trim` removes, which the `required` rule ignores. */
  predicate IsPhpTrimChar(c: char) {
    c == ' ' || c == '\t' || c == '\n' || c == '\r' || c == '\0' || c == '\U{000B}'
  }

  /** `required` rejects a string that is empty after trimming. */
  predicate IsBlank(s: string) {
    forall i :: 0 <= i < |s| ==> IsPhpTrimChar(s[i])
  }

  /** `required|string|max:150` on a title that is validated. */
  predicate TitleAcceptable(t: Input<string>) {
    t.Given? && !IsBlank(t.value) && |t.value| <= MaxTitleLength
  }

  /** `nullable|exists:categories,id`: absent or null, or the id of an existing row. */
  predicate ParentAcceptable(rows: map<int, Category>, p: Input<int>) {
    p.Given? ==> p.value in rows
  }

  /** The failed fields of a store request. */
  function StoreErrors(rows: map<int, Category>, req: CategoryRequest): (e: set<Field>)
    ensures TitleField in e <==> (req.title.Absent? || req.title.Null? || IsBlank(req.title.value) || |req.title.value| > MaxTitleLength)
    ensures ParentField in e <==> (req.parent.Given? && req.parent.value !in rows)
  {
    (if TitleAcceptable(req.title) then {} else {TitleField})
    + (if ParentAcceptable(rows, req.parent) then {} else {ParentField})
  }

  /**
   * The failed fields of an update request: the title is `sometimes|required`,
   * so it is checked only when the body carries it; the parent is checked only
   * for existence, never against the category being updated or its descendants.
   */
  function UpdateErrors(rows: map<int, Category>, req: CategoryRequest): (e: set<Field>)
    ensures TitleField in e <==> (req.title.Null? || (req.title.Given? && (IsBlank(req.title.value) || |req.title.value| > MaxTitleLength)))
    ensures ParentField in e <==> (req.parent.Given? && req.parent.value !in rows)
  {
    (if req.title.Absent? || TitleAcceptable(req.title) then {} else {TitleField})
    + (if ParentAcceptable(rows, req.parent) then {} else {ParentField})
  }

  /** `Category::create($data)` on validated data; fields left out of the body are null. */
  function NewCategory(req: CategoryRequest): (c: Category)
    requires req.title.Given?
    ensures c.title == req.title.value
    ensures c.description == (if req.description.Given? then Some(req.description.value) else None)
    ensures c.parent == (if req.parent.Given? then Some(req.parent.value) else None)
  {
    Category(req.title.value,
             if req.description.Given? then Some(req.description.value) else None,
             if req.parent.Given? then Some(req.parent.value) else None)
  }

  /** `$category->update($data)`: the fields the body carries are written, the others are kept. */
  function Apply(c: Category, req: CategoryRequest): (r: Category)
    requires !req.title.Null?
    ensures r.title == (if req.title.Given? then req.title.value else c.title)
    ensures req.description.Absent? ==> r.description == c.description
    ensures req.description.Null? ==> r.description == None
    ensures req.description.Given? ==> r.description == Some(req.description.value)
    ensures req.parent.Absent? ==> r.parent == c.parent
    ensures req.parent.Null? ==> r.parent == None
    ensures req.parent.Given? ==> r.parent == Some(req.parent.value)
  {
    Category(
      match req.title { case Given(t) => t case _ => c.title },
      match req.description { case Absent => c.description case Null => None case Given(d) => Some(d) },
      match req.parent { case Absent => c.parent case Null => None case Given(p) => Some(p) })
  }

  /** The direct children of category `id`. */
  function ChildrenOf(rows: map<int, Category>, id: int): (r: map<int, Category>)
    ensures forall c :: c in r <==> c in rows && rows[c].parent == Some(id)
    ensures forall c :: c in r ==> r[c] == rows[c]
  {
    map c | c in rows && rows[c].parent == Some(id) :: rows[c]
  }

  /** `Category::with('children')->whereNull('parent_id')->get()`. */
  function Roots(rows: map<int, Category>): (r: map<int, RootEntry>)
    ensures forall id :: id in r <==> id in rows && rows[id].parent == None
    ensures forall id :: id in r ==> r[id] == RootEntry(rows[id], ChildrenOf(rows, id))
  {
    map id | id in rows && rows[id].parent == None :: RootEntry(rows[id], ChildrenOf(rows, id))
  }

  /** The category appears in the index, either as a root or as a child of a root. */
  predicate InIndex(rows: map<int, Category>, id: int) {
    var r := Roots(rows);
    id in r || exists p :: p in r && id in r[p].children
  }

  /** The index shows exactly the categories at depth 0 or 1: deeper ones are not materialised. */
  lemma InIndexIffDepthAtMostOne(rows: map<int, Category>, id: int)
    requires id in rows
    ensures InIndex(rows, id) <==> rows[id].parent == None || (rows[id].parent.value in rows && rows[rows[id].parent.value].parent == None)
  {
    var r := Roots(rows);
    if rows[id].parent.Some? && rows[id].parent.value in rows && rows[rows[id].parent.value].parent == None {
      assert id in r[rows[id].parent.value].children;
    }
  }

  /** An item with the listings `with(['items.listings' => where status = active])` attaches. */
  function WithActiveListings(it: Item): (r: Item)
    ensures r.id == it.id && r.categoryId == it.categoryId
    ensures IsSubsequence(r.listings, it.listings)
    ensures forall i :: 0 <= i < |r.listings| ==> r.listings[i].status == "active"
    ensures forall i :: 0 <= i < |it.listings| && it.listings[i].status == "active" ==> it.listings[i] in r.listings
  {
    FilterIsSubsequence(it.listings, (l: Listing) => l.status == "active");
    it.(listings := Filter(it.listings, (l: Listing) => l.status == "active"))
  }

  /** The items of category `id`, in table order (the `items` relation). */
  function ItemsOf(items: seq<Item>, id: int): (r: seq<Item>)
    ensures IsSubsequence(r, items)
    ensures forall i :: 0 <= i < |r| ==> r[i].categoryId == id
    ensures forall i :: 0 <= i < |items| ==> (items[i] in r <==> items[i].categoryId == id)
  {
    FilterIsSubsequence(items, (it: Item) => it.categoryId == id);
    Filter(items, (it: Item) => it.categoryId == id)
  }

  /** `show($id)`: `findOrFail`, then the children and the items with their active listings. */
  function Show(rows: map<int, Category>, items: seq<Item>, id: int): (r: Response)
    ensures id !in rows <==> r == NotFound
    ensures id in rows <==> r.Found?
    ensures r.Found? ==> r.detail.category == rows[id] && r.detail.children == ChildrenOf(rows, id)
    ensures r.Found? ==> |r.detail.items| == |ItemsOf(items, id)|
    ensures r.Found? ==> forall i :: 0 <= i < |r.detail.items| ==>
              r.detail.items[i] == WithActiveListings(ItemsOf(items, id)[i])
    ensures r.Found? ==> forall i :: 0 <= i < |items| && items[i].categoryId == id ==>
              WithActiveListings(items[i]) in r.detail.items
    ensures r.Found? ==> forall i :: 0 <= i < |r.detail.items| ==>
              r.detail.items[i].categoryId == id
              && forall j :: 0 <= j < |r.detail.items[i].listings| ==> r.detail.items[i].listings[j].status == "active"
  {
    if id !in rows then NotFound
    else
      var own := ItemsOf(items, id);
      var detail := seq(|own|, i requires 0 <= i < |own| => WithActiveListings(own[i]));
      assert forall i :: 0 <= i < |items| && items[i].categoryId == id ==> WithActiveListings(items[i]) in detail by {
        forall i | 0 <= i < |items| && items[i].categoryId == id
          ensures WithActiveListings(items[i]) in detail
        {
          var k :| 0 <= k < |own| && own[k] == items[i];
          assert detail[k] == WithActiveListings(items[i]);
        }
      }
      Found(CategoryDetail(rows[id], ChildrenOf(rows, id), detail))
  }

  /** `destroy` is refused by the items table's restricting foreign key while an item names the category. */
  predicate Referenced(items: seq<Item>, id: int) {
    exists i :: 0 <= i < |items| && items[i].categoryId == id
  }

  /** An update that makes a category its own parent passes validation: nothing checks for cycles. */
  lemma UpdateAcceptsSelfParent(rows: map<int, Category>, id: int)
    requires id in rows
    ensures UpdateErrors(rows, CategoryRequest(Absent, Absent, Given(id))) == {}
    ensures Apply(rows[id], CategoryRequest(Absent, Absent, Given(id))).parent == Some(id)
  {
  }

  /**
   * Making a category its own parent takes it out of the index: it is no
   * longer a root, and no root has it as a child.
   */
  lemma {:induction false} SelfParentLeavesIndex(rows: map<int, Category>, id: int, req: CategoryRequest)
    requires id in rows && req.parent == Given(id) && !req.title.Null?
    ensures !InIndex(rows[id := Apply(rows[id], req)], id)
  {
    var after := rows[id := Apply(rows[id], req)];
    var r := Roots(after);
    assert id !in r;
    forall p | p in r ensures id !in r[p].children {
      assert r[p].children == ChildrenOf(after, p);
    }
  }

  /**
   * Setting a category's parent to one of its own children is accepted too,
   * and the two then name each other as parent and both leave the index.
   */
  lemma {:induction false} ParentSwapMakesCycle(rows: map<int, Category>, id: int, child: int)
    requires id in rows && child in rows && child != id && rows[child].parent == Some(id)
    ensures UpdateErrors(rows, CategoryRequest(Absent, Absent, Given(child))) == {}
    ensures var after := rows[id := Apply(rows[id], CategoryRequest(Absent, Absent, Given(child)))];
            after[id].parent == Some(child) && after[child].parent == Some(id)
            && !InIndex(after, id) && !InIndex(after, child)
  {
    var after := rows[id := Apply(rows[id], CategoryRequest(Absent, Absent, Given(child)))];
    InIndexIffDepthAtMostOne(after, id);
    InIndexIffDepthAtMostOne(after, child);
  }

  /** The category table; `nextId` is the auto-increment counter of the `id` column. */
  class CategoryTable {
    var rows: map<int, Category>
    var nextId: int

    ghost predicate Valid()
      reads this
    {
      forall id :: id in rows ==> id < nextId
    }

    constructor ()
      ensures Valid() && rows == map[] && nextId == 1
    {
      rows := map[];
      nextId := 1;
    }

    /** `index()`: the roots, each with its direct children. */
    function Index(): (r: Response)
      reads this
      ensures r.Listed? && StatusCode(r) == 200 && r.roots == Roots(rows)
      ensures forall id :: id in r.roots <==> id in rows && rows[id].parent == None
      ensures forall id :: id in r.roots ==> r.roots[id].category == rows[id]
      ensures forall id, c :: id in r.roots ==> (c in r.roots[id].children <==> c in rows && rows[c].parent == Some(id))
      ensures forall id, c :: id in r.roots && c in r.roots[id].children ==> r.roots[id].children[c] == rows[c]
    {
      Listed(Roots(rows))
    }

    /** `store($request)`: validate, then insert one row under the next id and answer 201. */
    method Store(req: CategoryRequest) returns (resp: Response)
      requires Valid()
      modifies this
      ensures Valid()
      ensures StoreErrors(old(rows), req) != {} ==>
                resp == Invalid(StoreErrors(old(rows), req)) && rows == old(rows) && nextId == old(nextId)
      ensures StoreErrors(old(rows), req) == {} ==>
                && resp == Created(old(nextId), NewCategory(req))
                && StatusCode(resp) == 201
                && old(nextId) !in old(rows)
                && rows == old(rows)[old(nextId) := NewCategory(req)]
                && nextId == old(nextId) + 1
    {
      var errors := StoreErrors(rows, req);
      if errors != {} {
        return Invalid(errors);
      }
      var c := NewCategory(req);
      var id := nextId;
      rows := rows[id := c];
      nextId := nextId + 1;
      resp := Created(id, c);
    }

    /** `update($request, $category)`: 404 for an unknown id, else validate and write the fields sent. */
    method Update(id: int, req: CategoryRequest) returns (resp: Response)
      requires Valid()
      modifies this
      ensures Valid() && nextId == old(nextId)
      ensures id !in old(rows) ==> resp == NotFound && rows == old(rows)
      ensures id in old(rows) && UpdateErrors(old(rows), req) != {} ==>
                resp == Invalid(UpdateErrors(old(rows), req)) && rows == old(rows)
      ensures id in old(rows) && UpdateErrors(old(rows), req) == {} ==>
                && !req.title.Null?
                && resp == Updated(id, Apply(old(rows)[id], req))
                && rows == old(rows)[id := Apply(old(rows)[id], req)]
    {
      if id !in rows {
        return NotFound;
      }
      var errors := UpdateErrors(rows, req);
      if errors != {} {
        return Invalid(errors);
      }
      var c := Apply(rows[id], req);
      rows := rows[id := c];
      resp := Updated(id, c);
    }

    /**
     * `destroy($category)`: 404 for an unknown id; a server error, with the
     * table unchanged, while an item still references the category; otherwise
     * that one row is deleted.
     */
    method Destroy(id: int, items: seq<Item>) returns (resp: Response)
      requires Valid()
      modifies this
      ensures Valid() && nextId == old(nextId)
      ensures id !in old(rows) ==> resp == NotFound && rows == old(rows)
      ensures id in old(rows) && Referenced(items, id) ==> resp == ServerError && rows == old(rows)
      ensures id in old(rows) && !Referenced(items, id) ==>
                resp == Deleted && rows.Keys == old(rows).Keys - {id}
                && forall k :: k in rows ==> rows[k] == old(rows)[k]
    {
      if id !in rows {
        return NotFound;
      }
      if Referenced(items, id) {
        return ServerError;
      }
      rows := rows - {id};
      resp := Deleted;
    }
  }
}
