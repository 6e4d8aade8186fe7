/**
  The catalog collection (`/catalog`): entries holding an item or a header,
  how the list renders them, their drag-and-drop reorder and `onDragEnd`,
  and the list updates the catalog drawers apply to the cache after an
  edit, a delete or an image change.
*/
module Catalog {
  import opened Wrappers
  import opened Positions
  import opened ErrorHandling
  import opened Swr
  import opened DragAndDrop

  datatype Image = Image(id: Id, path: string, color: string)

  datatype Item = Item(id: Id, name: string, price: int, isVisible: bool, image: Option<Image>)

  datatype Header = Header(id: Id, title: string, isVisible: bool)

  /**
    What a catalog entry carries: its `item` and `header` fields. A
    well-formed entry has exactly one; the client tells them apart by which
    one is present.
  */
  datatype Slot = Slot(item: Option<Item>, header: Option<Header>)

  type CatalogEntry = Entry<Slot>

  const Key := "/catalog"
  const GuardMessage := "need selectedCatalog, sourcePosition, destinationPosition"
  const NeitherMessage := "only accept item or header"

  // ---------------------------------------------------------------------
  // Rendering

  /** A rendered draggable, carrying the entry's id and, as its drag index, its position. */
  datatype CatalogRow =
    | ItemRow(catalogId: Id, index: int, item: Item)
    | HeaderRow(catalogId: Id, index: int, header: Header)

  /** The render of one entry: the item if there is one, else the header, else it throws. */
  function RenderEntry(e: CatalogEntry): (r: Result<CatalogRow, string>)
    ensures r.Ok? <==> e.payload.item.Some? || e.payload.header.Some?
    ensures e.payload.item.Some? ==> r == Ok(ItemRow(e.id, e.position, e.payload.item.value))
    ensures e.payload.item.None? && e.payload.header.Some? ==> r == Ok(HeaderRow(e.id, e.position, e.payload.header.value))
    ensures r.Err? ==> r.error == NeitherMessage
  {
    match e.payload
    case Slot(Some(item), _) => Ok(ItemRow(e.id, e.position, item))
    case Slot(None, Some(header)) => Ok(HeaderRow(e.id, e.position, header))
    case Slot(None, None) => Err(NeitherMessage)
  }

  /** `catalog.map(...)`: every entry rendered in order, or the throw of the first malformed one. */
  function RenderEntries(c: seq<CatalogEntry>): (r: Result<seq<CatalogRow>, string>)
    ensures r.Ok? <==> forall i :: 0 <= i < |c| ==> RenderEntry(c[i]).Ok?
    ensures r.Ok? ==> |r.value| == |c| && forall i :: 0 <= i < |c| ==> r.value[i] == RenderEntry(c[i]).value
    ensures r.Err? ==> r.error == NeitherMessage
  {
    if c == [] then Ok([])
    else
      match RenderEntry(c[0])
      case Err(e) => Err(e)
      case Ok(row) =>
        match RenderEntries(c[1..])
        case Err(e) => Err(e)
        case Ok(rows) =>
          assert forall i :: 1 <= i < |c| ==> c[i] == c[1..][i - 1];
          Ok([row] + rows)
  }

  /** The catalog view: rows only when the list is loaded and non-empty. */
  function RenderCatalog(data: Option<seq<CatalogEntry>>): (r: Result<seq<CatalogRow>, string>)
    ensures data.None? || data.value == [] ==> r == Ok([])
    ensures data.Some? ==> r == RenderEntries(data.value)
  {
    if data.Some? && |data.value| > 0 then RenderEntries(data.value) else Ok([])
  }

  /** The rows of an ordered catalog are indexed 0..N-1 in order, an item winning over a header. */
  lemma RenderedRowIndexes(c: seq<CatalogEntry>)
    requires Ordered(c) && RenderCatalog(Some(c)).Ok?
    ensures var rows := RenderCatalog(Some(c)).value;
      |rows| == |c| && forall i :: 0 <= i < |c| ==>
        && rows[i].index == i && rows[i].catalogId == c[i].id
        && (rows[i].ItemRow? <==> c[i].payload.item.Some?)
  {
  }

  // ---------------------------------------------------------------------
  // Drag and drop

  /** reorderCatalog. */
  method ReorderCatalog(catalog: Resource<Slot>, selectedCatalogId: Id, sourcePosition: int,
                        destinationPosition: int, put: Outcome<JsError>)
    returns (r: Outcome<JsError>)
    requires catalog.key == Key
    modifies catalog
    ensures r == Attempt(old(catalog.data), GuardMessage, selectedCatalogId, sourcePosition, destinationPosition, put)
    ensures catalog.data == AttemptData(old(catalog.data), selectedCatalogId, sourcePosition, destinationPosition)
    ensures catalog.log ==
      old(catalog.log) + AttemptLog(old(catalog.data), Key, selectedCatalogId, sourcePosition, destinationPosition)
  {
    r := ReorderStored(catalog, GuardMessage, selectedCatalogId, sourcePosition, destinationPosition, put);
  }

  /** Catalog.onDragEnd. */
  method OnDragEnd(catalog: Resource<Slot>, drop: DropResult, put: Outcome<JsError>,
                   refetched: Option<seq<CatalogEntry>>)
    returns (toast: Option<Result<Notification, string>>)
    requires catalog.key == Key
    modifies catalog
    ensures toast == DragToast(old(catalog.data), GuardMessage, drop, put)
    ensures catalog.data == DragData(old(catalog.data), GuardMessage, drop, put, refetched)
    ensures catalog.log == old(catalog.log) + DragLog(old(catalog.data), Key, GuardMessage, drop, put, refetched)
  {
    toast := DragEnd(catalog, GuardMessage, drop, put, refetched);
  }

  // ---------------------------------------------------------------------
  // Edits

  /** The item a `PUT /items/{id}` returns: the fields it carries replace the cached ones. */
  datatype ItemPatch = ItemPatch(
    id: Id, name: Option<string>, price: Option<int>, isVisible: Option<bool>, image: Option<Option<Image>>)

  /** `{...item, ...patch}` */
  function OverlayItem(item: Item, patch: ItemPatch): (r: Item)
    ensures r.id == patch.id
    ensures r.name == OrElse(patch.name, item.name)
    ensures r.price == OrElse(patch.price, item.price)
    ensures r.isVisible == OrElse(patch.isVisible, item.isVisible)
    ensures r.image == OrElse(patch.image, item.image)
    ensures patch.image.None? ==> r.image == item.image
  {
    Item(patch.id, OrElse(patch.name, item.name), OrElse(patch.price, item.price),
         OrElse(patch.isVisible, item.isVisible), OrElse(patch.image, item.image))
  }

  /** `entry.item?.id === itemId`: header entries never hold an item. */
  function HoldsItem(itemId: Id): (Id, Slot) -> bool
  {
    (id: Id, s: Slot) => s.item.Some? && s.item.value.id == itemId
  }

  /** `entry.header?.id === headerId`: item entries never hold a header. */
  function HoldsHeader(headerId: Id): (Id, Slot) -> bool
  {
    (id: Id, s: Slot) => s.header.Some? && s.header.value.id == headerId
  }

  /** The item edit updater: the patch is spread over the item of every entry holding its id. */
  function EditItems(c: seq<CatalogEntry>, patch: ItemPatch): (r: seq<CatalogEntry>)
    ensures |r| == |c|
    ensures forall i :: 0 <= i < |c| ==> r[i].id == c[i].id && r[i].position == c[i].position
    ensures forall i :: 0 <= i < |c| && !HoldsItem(patch.id)(c[i].id, c[i].payload) ==> r[i] == c[i]
    ensures forall i :: 0 <= i < |c| && HoldsItem(patch.id)(c[i].id, c[i].payload) ==>
      r[i].payload == Slot(Some(OverlayItem(c[i].payload.item.value, patch)), c[i].payload.header)
    ensures Ordered(c) ==> Ordered(r)
  {
    Rewrite(c, (id: Id, s: Slot) =>
      if HoldsItem(patch.id)(id, s) then s.(item := Some(OverlayItem(s.item.value, patch))) else s)
  }

  /** Applying the same item edit twice is applying it once. */
  lemma EditItemsIdempotent(c: seq<CatalogEntry>, patch: ItemPatch)
    ensures EditItems(EditItems(c, patch), patch) == EditItems(c, patch)
  {
  }

  /** The header a `PUT /header/{id}` returns. */
  datatype HeaderPatch = HeaderPatch(id: Id, title: Option<string>, isVisible: Option<bool>)

  /** `{...header, ...patch}` */
  function OverlayHeader(header: Header, patch: HeaderPatch): (r: Header)
    ensures r.id == patch.id
    ensures r.title == OrElse(patch.title, header.title)
    ensures r.isVisible == OrElse(patch.isVisible, header.isVisible)
  {
    Header(patch.id, OrElse(patch.title, header.title), OrElse(patch.isVisible, header.isVisible))
  }

  /** The header edit updater: the patch is spread over the header of every entry holding its id. */
  function EditHeaders(c: seq<CatalogEntry>, patch: HeaderPatch): (r: seq<CatalogEntry>)
    ensures |r| == |c|
    ensures forall i :: 0 <= i < |c| ==> r[i].id == c[i].id && r[i].position == c[i].position
    ensures forall i :: 0 <= i < |c| && !HoldsHeader(patch.id)(c[i].id, c[i].payload) ==> r[i] == c[i]
    ensures forall i :: 0 <= i < |c| && HoldsHeader(patch.id)(c[i].id, c[i].payload) ==>
      r[i].payload == Slot(c[i].payload.item, Some(OverlayHeader(c[i].payload.header.value, patch)))
    ensures Ordered(c) ==> Ordered(r)
  {
    Rewrite(c, (id: Id, s: Slot) =>
      if HoldsHeader(patch.id)(id, s) then s.(header := Some(OverlayHeader(s.header.value, patch))) else s)
  }

  /** Applying the same header edit twice is applying it once. */
  lemma EditHeadersIdempotent(c: seq<CatalogEntry>, patch: HeaderPatch)
    ensures EditHeaders(EditHeaders(c, patch), patch) == EditHeaders(c, patch)
  {
  }

  // ---------------------------------------------------------------------
  // Deletes

  /** What reading `.position` of the entry `find` did not find throws. */
  const NotFound := "Cannot read properties of undefined (reading 'position')"

  /**
    The delete updater of items and headers: find the first entry the
    filter hits, close the gap behind its position, and filter out every
    entry it hits. With nothing found the shift throws, unless the list is
    empty and the shift never runs.
  */
  function DeleteWhere(c: seq<CatalogEntry>, hit: (Id, Slot) -> bool): (r: Result<seq<CatalogEntry>, string>)
    ensures r.Err? <==> c != [] && forall i :: 0 <= i < |c| ==> !hit(c[i].id, c[i].payload)
    ensures r.Err? ==> r.error == NotFound
    ensures r.Ok? ==> |r.value| < |c| || c == []
    ensures r.Ok? ==> forall i :: 0 <= i < |r.value| ==> !hit(r.value[i].id, r.value[i].payload)
    ensures r.Ok? && c != [] ==>
      FindFirst(c, hit).Some? && DeletedFrom(r.value, c, c[FindFirst(c, hit).value].position, hit)
  {
    match FindFirst(c, hit)
    case None => if c == [] then Ok([]) else Err(NotFound)
    case Some(k) =>
      DropShrinks(CloseGapAfter(c, c[k].position), hit, k);
      Ok(Removed(c, c[k].position, hit))
  }

  /** Filtering out an entry the filter hits shortens the list. */
  lemma {:induction false} DropShrinks(c: seq<CatalogEntry>, hit: (Id, Slot) -> bool, k: int)
    requires 0 <= k < |c| && hit(c[k].id, c[k].payload)
    ensures |Drop(c, hit)| < |c|
    decreases |c|
  {
    if k > 0 {
      DropShrinks(c[1..], hit, k - 1);
    }
  }

  /** handleDeleteItem's updater, by the id of the deleted item. */
  function DeleteItem(c: seq<CatalogEntry>, itemId: Id): (r: Result<seq<CatalogEntry>, string>)
    ensures r.Err? <==> c != [] && forall i :: 0 <= i < |c| ==> !HoldsItem(itemId)(c[i].id, c[i].payload)
    ensures r.Ok? ==> forall i :: 0 <= i < |r.value| ==> !HoldsItem(itemId)(r.value[i].id, r.value[i].payload)
    ensures r.Ok? && c != [] ==>
      FindFirst(c, HoldsItem(itemId)).Some? && DeletedFrom(r.value, c, c[FindFirst(c, HoldsItem(itemId)).value].position, HoldsItem(itemId))
  {
    DeleteWhere(c, HoldsItem(itemId))
  }

  /** handleDeleteHeader's updater, by the id of the deleted header. */
  function DeleteHeader(c: seq<CatalogEntry>, headerId: Id): (r: Result<seq<CatalogEntry>, string>)
    ensures r.Err? <==> c != [] && forall i :: 0 <= i < |c| ==> !HoldsHeader(headerId)(c[i].id, c[i].payload)
    ensures r.Ok? ==> forall i :: 0 <= i < |r.value| ==> !HoldsHeader(headerId)(r.value[i].id, r.value[i].payload)
    ensures r.Ok? && c != [] ==>
      FindFirst(c, HoldsHeader(headerId)).Some? && DeletedFrom(r.value, c, c[FindFirst(c, HoldsHeader(headerId)).value].position, HoldsHeader(headerId))
  {
    DeleteWhere(c, HoldsHeader(headerId))
  }

  /**
    Deleting from an ordered catalog the one entry at k the filter hits
    leaves every other entry, items and headers alike, in order and
    renumbered 0..N-2.
  */
  lemma DeleteWhereKeepsOrdered(c: seq<CatalogEntry>, hit: (Id, Slot) -> bool, k: int)
    requires Ordered(c) && 0 <= k < |c|
    requires forall i :: 0 <= i < |c| ==> (hit(c[i].id, c[i].payload) <==> i == k)
    ensures DeleteWhere(c, hit) == Ok(Placed(c[..k] + c[k + 1..]))
  {
    var f := FindFirst(c, hit);
    assert hit(c[k].id, c[k].payload);
    assert f.Some? && hit(c[f.value].id, c[f.value].payload);
    RemovedKeepsOrdered(c, k, hit);
  }

  // ---------------------------------------------------------------------
  // Images

  /** `entry.item?.image?.id === imageId` */
  function HoldsImage(imageId: Id): (Id, Slot) -> bool
  {
    (id: Id, s: Slot) => s.item.Some? && s.item.value.image.Some? && s.item.value.image.value.id == imageId
  }

  /** handleRemove's updater: every item showing the deleted image loses it. */
  function RemoveImage(c: seq<CatalogEntry>, imageId: Id): (r: seq<CatalogEntry>)
    ensures |r| == |c|
    ensures forall i :: 0 <= i < |c| ==> r[i].id == c[i].id && r[i].position == c[i].position
    ensures forall i :: 0 <= i < |c| && !HoldsImage(imageId)(c[i].id, c[i].payload) ==> r[i] == c[i]
    ensures forall i :: 0 <= i < |c| && HoldsImage(imageId)(c[i].id, c[i].payload) ==>
      r[i].payload == Slot(Some(c[i].payload.item.value.(image := None)), c[i].payload.header)
    ensures forall i :: 0 <= i < |r| ==> !HoldsImage(imageId)(r[i].id, r[i].payload)
    ensures Ordered(c) ==> Ordered(r)
  {
    Rewrite(c, (id: Id, s: Slot) =>
      if HoldsImage(imageId)(id, s) then s.(item := Some(s.item.value.(image := None))) else s)
  }

  /** handleSave's updater: the item with the returned id shows the uploaded image. */
  function SaveImage(c: seq<CatalogEntry>, itemId: Id, image: Image): (r: seq<CatalogEntry>)
    ensures |r| == |c|
    ensures forall i :: 0 <= i < |c| ==> r[i].id == c[i].id && r[i].position == c[i].position
    ensures forall i :: 0 <= i < |c| && !HoldsItem(itemId)(c[i].id, c[i].payload) ==> r[i] == c[i]
    ensures forall i :: 0 <= i < |c| && HoldsItem(itemId)(c[i].id, c[i].payload) ==>
      r[i].payload == Slot(Some(c[i].payload.item.value.(image := Some(image))), c[i].payload.header)
    ensures Ordered(c) ==> Ordered(r)
  {
    Rewrite(c, (id: Id, s: Slot) =>
      if HoldsItem(itemId)(id, s) then s.(item := Some(s.item.value.(image := Some(image)))) else s)
  }

  /** Saving an image and then removing it leaves the item without an image, as before it had one. */
  lemma SaveThenRemoveImage(c: seq<CatalogEntry>, itemId: Id, image: Image)
    requires forall i :: 0 <= i < |c| ==> !HoldsImage(image.id)(c[i].id, c[i].payload)
    requires forall i :: 0 <= i < |c| && HoldsItem(itemId)(c[i].id, c[i].payload) ==> c[i].payload.item.value.image.None?
    ensures RemoveImage(SaveImage(c, itemId, image), image.id) == c
  {
  }
}
