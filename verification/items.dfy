/** The toy item router: a module-level list of items, read, appended to
    and edited. The handlers copy the stored list before changing anything
    and answer the copy, so no change outlives the request that made it. */
module Items {
  import opened Wrappers

  /** One entry of the list, `{"item": ...}`. */
  datatype Item = Item(item: string)

  /** `fake_items_db`. */
  const FakeItemsDb: seq<Item> := [Item("HK416"), Item("PA-15")]

  const NotFound := "Item not found"

  /** `read_items`: the stored list. */
  function ReadItems(): (items: seq<Item>)
    ensures |items| == 2 && items[0].item == "HK416" && items[1].item == "PA-15"
  {
    FakeItemsDb
  }

  /** `read_item`: echoes the path parameter. */
  function ReadItem(itemName: string): (r: Item)
    ensures r.item == itemName
  {
    Item(itemName)
  }

  /** Some entry of `db` is called `name`. */
  predicate Holds(db: seq<Item>, name: string) {
    exists k :: 0 <= k < |db| && db[k].item == name
  }

  /** `j` is the first position of `db` whose entry is called `name`. */
  predicate FirstMatchAt(db: seq<Item>, name: string, j: int) {
    && 0 <= j < |db| && db[j].item == name
    && forall k :: 0 <= k < j ==> db[k].item != name
  }

  /** Reference definition of an edit: replace the first entry called
      `edited`, or report that there is none. */
  function ReplaceFirst(db: seq<Item>, edited: string, newItem: string): (r: Option<seq<Item>>)
    ensures r.Some? <==> Holds(db, edited)
    ensures r.Some? ==> |r.value| == |db|
  {
    if |db| == 0 then None
    else if db[0].item == edited then Some([Item(newItem)] + db[1..])
    else match ReplaceFirst(db[1..], edited, newItem)
      case None =>
        assert !Holds(db, edited) by {
          forall k | 0 <= k < |db| ensures db[k].item != edited {
            if k > 0 {
              assert db[1..][k - 1] == db[k];
            }
          }
        }
        None
      case Some(rest) =>
        assert Holds(db, edited) by {
          var k :| 0 <= k < |db[1..]| && db[1..][k].item == edited;
          assert db[k + 1].item == edited;
        }
        Some([db[0]] + rest)
  }

  /** The reference edit writes the new entry at the first match and
      nowhere else. */
  lemma {:induction false} ReplaceFirstAt(db: seq<Item>, edited: string, newItem: string, j: int)
    requires FirstMatchAt(db, edited, j)
    ensures ReplaceFirst(db, edited, newItem) == Some(db[j := Item(newItem)])
    decreases |db|
  {
    if j > 0 {
      assert FirstMatchAt(db[1..], edited, j - 1);
      ReplaceFirstAt(db[1..], edited, newItem, j - 1);
      assert db[j := Item(newItem)] == [db[0]] + db[1..][j - 1 := Item(newItem)];
    } else {
      assert db[j := Item(newItem)] == [Item(newItem)] + db[1..];
    }
  }

  // ---------------------------------------------------------------------
  // The interpreter's list objects
  // ---------------------------------------------------------------------

  /** The list objects alive in the process: `heap[ref]` is the list that
      reference `ref` points at. Lists are mutable and shared by reference,
      so a write through one reference is seen through every other
      reference to the same list. */
  type Heap = seq<seq<Item>>

  /** The reference that the module-level name `fake_items_db` holds. */
  const Stored: nat := 0

  /** The process at start-up: only `fake_items_db` is allocated. */
  const InitialHeap: Heap := [FakeItemsDb]

  /** A list display `[...]`: a new list object at an unused reference;
      every existing object keeps its contents. */
  function NewList(heap: Heap, contents: seq<Item>): (out: (Heap, nat))
    ensures out.1 == |heap| && |out.0| == |heap| + 1
    ensures out.0[..|heap|] == heap && out.0[out.1] == contents
  {
    (heap + [contents], |heap|)
  }

  /** `xs[i] = x` through reference `ref`: position `i` of that list
      changes and nothing else does. */
  function SetItem(heap: Heap, ref: nat, i: nat, x: Item): (h: Heap)
    requires ref < |heap| && i < |heap[ref]|
    ensures |h| == |heap|
    ensures forall r :: 0 <= r < |heap| && r != ref ==> h[r] == heap[r]
    ensures |h[ref]| == |heap[ref]| && h[ref][i] == x
    ensures forall k :: 0 <= k < |heap[ref]| && k != i ==> h[ref][k] == heap[ref][k]
  {
    heap[ref := heap[ref][i := x]]
  }

  /** `add_item`: `[*fake_items_db, {"item": item_name}]` builds a new list
      holding the stored entries and then the new one. Returns the heap and
      the reference of the list it answers. */
  function AddItem(heap: Heap, itemName: string): (out: (Heap, nat))
    requires Stored < |heap|
    ensures out.1 == |heap| && |out.0| == |heap| + 1 && out.0[..|heap|] == heap
    ensures |out.0[out.1]| == |heap[Stored]| + 1
    ensures out.0[out.1][..|heap[Stored]|] == heap[Stored] && out.0[out.1][|heap[Stored]|] == Item(itemName)
  {
    NewList(heap, heap[Stored] + [Item(itemName)])
  }

  /** `edit_item`: copy the stored list with `[*fake_items_db]`, walk the
      copy and overwrite its first entry called `editedItem`; if none is,
      fail with 404. Every write goes to the copy, so the stored list and
      every other existing list keep their contents. */
  method EditItem(heap: Heap, editedItem: string, newItem: string) returns (after: Heap, r: Result<nat>)
    requires Stored < |heap|
    ensures |after| == |heap| + 1 && after[..|heap|] == heap
    ensures r.Ok? <==> Holds(heap[Stored], editedItem)
    ensures r.Ok? ==> r.value == |heap|
    ensures r.Ok? ==> exists j :: FirstMatchAt(heap[Stored], editedItem, j) && after[r.value] == heap[Stored][j := Item(newItem)]
    ensures r.Ok? ==> ReplaceFirst(heap[Stored], editedItem, newItem) == Some(after[r.value])
    ensures r.Err? ==> r.status == 404 && r.detail == NotFound
  {
    var alloc := NewList(heap, heap[Stored]);
    after := alloc.0;
    var copy := alloc.1;
    var i := 0;
    while i < |after[copy]|
      invariant copy == |heap| && after == heap + [heap[Stored]]
      invariant 0 <= i <= |heap[Stored]|
      invariant forall k :: 0 <= k < i ==> heap[Stored][k].item != editedItem
    {
      if after[copy][i].item == editedItem {
        after := SetItem(after, copy, i, Item(newItem));
        assert after[..|heap|] == heap;
        assert after[copy] == heap[Stored][i := Item(newItem)];
        assert FirstMatchAt(heap[Stored], editedItem, i);
        ReplaceFirstAt(heap[Stored], editedItem, newItem, i);
        return after, Ok(copy);
      }
      i := i + 1;
    }
    return after, Err(404, NotFound);
  }

  /** Without the copy, a write through the edit loop's list would land in
      the stored list itself, and every later request would see it. */
  lemma AliasedWriteWouldPersist()
    ensures SetItem(InitialHeap, Stored, 1, Item("M4A1"))[Stored] != FakeItemsDb
  {
    var h := SetItem(InitialHeap, Stored, 1, Item("M4A1"));
    assert h[Stored][1] != FakeItemsDb[1];
  }

  // ---------------------------------------------------------------------
  // Requests against the stored list
  // ---------------------------------------------------------------------

  datatype Request =
    | GetAll
    | GetOne(itemName: string)
    | Create(itemName: string)
    | Edit(edited: string, newItem: string)

  datatype Response =
    | ItemList(items: seq<Item>)
    | Single(entry: Item)
    | Failure(status: int, detail: string)

  /** What a request is answered when the stored list holds `db`, stated on
      list values alone. */
  function Answer(db: seq<Item>, req: Request): Response {
    match req
    case GetAll => ItemList(db)
    case GetOne(name) => Single(ReadItem(name))
    case Create(name) => ItemList(db + [Item(name)])
    case Edit(edited, newItem) =>
      match ReplaceFirst(db, edited, newItem)
      case Some(items) => ItemList(items)
      case None => Failure(404, NotFound)
  }

  /** One request run against the heap: the handler's answer, and the heap
      afterwards. Lists allocated before the request keep their contents. */
  method Respond(heap: Heap, req: Request) returns (resp: Response, after: Heap)
    requires Stored < |heap|
    ensures |after| >= |heap| && after[..|heap|] == heap
    ensures resp == Answer(heap[Stored], req)
  {
    match req
    case GetAll =>
      resp, after := ItemList(heap[Stored]), heap;
    case GetOne(name) =>
      resp, after := Single(ReadItem(name)), heap;
    case Create(name) =>
      var out := AddItem(heap, name);
      after := out.0;
      assert after[out.1] == heap[Stored] + [Item(name)];
      resp := ItemList(after[out.1]);
    case Edit(edited, newItem) =>
      var r;
      after, r := EditItem(heap, edited, newItem);
      if r.Ok? {
        resp := ItemList(after[r.value]);
      } else {
        resp := Failure(r.status, r.detail);
      }
  }

  /** Requests served one after another on the same process. The stored
      list is the same at the end, and every response is the one its
      request would get alone: a second create does not see the first. */
  method Serve(heap: Heap, reqs: seq<Request>) returns (resps: seq<Response>, after: Heap)
    requires Stored < |heap|
    ensures |resps| == |reqs|
    ensures |after| >= |heap| && after[Stored] == heap[Stored]
    ensures forall i :: 0 <= i < |reqs| ==> resps[i] == Answer(heap[Stored], reqs[i])
  {
    resps := [];
    after := heap;
    var i := 0;
    while i < |reqs|
      invariant 0 <= i <= |reqs| && |resps| == i
      invariant |after| >= |heap| && after[Stored] == heap[Stored]
      invariant forall k :: 0 <= k < i ==> resps[k] == Answer(heap[Stored], reqs[k])
    {
      var resp, next := Respond(after, reqs[i]);
      assert next[Stored] == next[..|after|][Stored];
      resps := resps + [resp];
      after := next;
      i := i + 1;
    }
  }

  /** Editing "PA-15" replaces the second entry; editing a name that is
      not stored fails with 404. */
  lemma EditExamples(newItem: string)
    ensures Answer(FakeItemsDb, Edit("PA-15", newItem)) == ItemList([Item("HK416"), Item(newItem)])
    ensures Answer(FakeItemsDb, Edit("M4A1", newItem)) == Failure(404, NotFound)
  {
    assert FirstMatchAt(FakeItemsDb, "PA-15", 1);
    ReplaceFirstAt(FakeItemsDb, "PA-15", newItem, 1);
    assert !Holds(FakeItemsDb, "M4A1") by {
      forall k | 0 <= k < |FakeItemsDb| ensures FakeItemsDb[k].item != "M4A1" {
      }
    }
  }
}
