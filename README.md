# goodz-frontend: dense positions of links and catalog entries

goodz-frontend is the dashboard of a link-in-bio and catalog service. A
user owns two ordered lists: links (`/links`) and catalog entries
(`/catalog`). Each catalog entry holds either an item or a header. Every
entry has a `position`, and the lists are kept with positions 0..N-1 in
list order. The client edits its cached copy of a list (the SWR cache)
before or after each request:

- a drag-and-drop reorder rewrites the positions in three passes and sorts;
- a create prepends the new entry and moves every other entry down one;
- a delete moves up everything behind the removed entry and filters it out;
- an edit or an image change merges the server's answer into one entry.

This project models those list transforms and the handlers around them:

- the reorder guard;
- the optimistic cache write before the `PUT`;
- `onDragEnd`, which skips no-op drops and re-fetches on failure;
- the drawers' async updaters and their form state;
- the render dispatch of catalog entries;
- `handleError`, which turns an error into a toast.

It proves what the transforms promise. The main results:

- On an ordered list (the entry at index i has position i), the reorder
  pipeline is exactly "remove the entry at s, insert it at d, renumber".
  See `Positions.ReorderMatchesMove`. Density, sortedness, relative order,
  the round trip and the no-op all follow from it.
- A create of an entry at position 0 and a delete of the entry at k keep
  the list ordered. See `Positions.PrependKeepsOrdered`,
  `Positions.RemovedKeepsOrdered` and the per-collection delete lemmas.

Modules:

- `Wrappers`: `Option`, `Result`, `Outcome`.
- `Positions`: entries, the position passes, the stable sort, create and
  delete, and the reorder theorems. It is generic in what an entry carries.
- `ErrorHandling`: `handleError`.
- `Forms`: the drawers' form state and change handlers.
- `Swr`: the cache of one collection, as a class with a mutable `data`
  field and a log of writes and requests.
- `DragAndDrop`: `reorderLinks`/`reorderCatalog` and `onDragEnd`, generic
  over both lists.
- `Links` and `Catalog`: the two collections and their list updaters.
- `LinkDrawers` and `CatalogDrawers`: the drawers, as classes over their
  form and open state.

Requests are not executed. The server's answer to each request is a
parameter of the handler that sends it: the created, updated or deleted
record, or the error. A re-fetch result is a parameter too. The cache's
`log` records every request sent and every value written, in order.

## Model

| member | source | states |
|---|---|---|
| DragAndDrop.ArgsTruthy | src/utils/swr/useLinks.js:13-17 | The reorder guard as written: the id must be non-empty and both positions non-zero. |
| DragAndDrop.Attempt | src/utils/swr/useLinks.js:13-47 | A reorder throws the guard's message when the guard fails. It throws the null-list TypeError when no list is cached. Otherwise it ends as the `PUT` does. |
| DragAndDrop.AttemptLog | src/utils/swr/useLinks.js:40-46 | The cache write and the request happen together or not at all. The reordered list is written first, then the `PUT` is sent. |
| DragAndDrop.AttemptData | src/utils/swr/useLinks.js:40-42 | The cache holds the reordered list exactly when the guard passed and a list was cached; otherwise it is unchanged. |
| DragAndDrop.PositionRequest | src/utils/swr/useLinks.js:44-46 | The persisting request is `PUT {key}/{id}/position`, and its body carries only `position: destinationPosition`. |
| DragAndDrop.ReorderStored | src/utils/swr/useLinks.js:8-47 | reorderLinks and reorderCatalog: the result, the new cache value and the writes and requests, as in `Attempt`, `AttemptData` and `AttemptLog`. |
| Links.ReorderLinks | src/utils/swr/useLinks.js:8-47 | reorderLinks, with the `/links` key and its guard message. |
| Catalog.ReorderCatalog | src/utils/swr/useCatalog.js:8-47 | reorderCatalog, with the `/catalog` key and its guard message. |
| Positions.CloseGapAfter | src/utils/swr/useLinks.js:20-25 | Pass 1 lowers by one every position above the source position and leaves the rest. It keeps the length, and every id and payload in place. |
| Positions.OpenGapAt | src/utils/swr/useLinks.js:26-31 | Pass 2 raises by one every position at or above the destination and leaves the rest. It keeps the length, and every id and payload in place. |
| Positions.PinAt | src/utils/swr/useLinks.js:32-37 | Pass 3 sets the destination position on every entry carrying the selected id and leaves the rest. It keeps the length, and every id and payload in place. |
| Positions.Insert | src/utils/swr/useLinks.js:38 | Inserting into a sorted list gives a sorted list with the entry added, counted with multiplicity. |
| Positions.SortByPosition | src/utils/swr/useLinks.js:38 | The sort returns a sorted permutation of its input. |
| Positions.Reorder | src/utils/swr/useLinks.js:19-38 | The pipeline keeps the length, is sorted by position, and is a permutation of the three passes' output. |
| Positions.Pinned | src/utils/swr/useLinks.js:19-37 | The three passes change positions only. The selected entry gets the destination; any other is first lowered if above the source, then raised if at or above the destination. |
| Positions.ReorderKeepsFields | src/utils/swr/useLinks.js:19-38 | The reorder keeps every id with its payload (title, href, isVisible, item or header), counted with multiplicity. |
| Positions.ReorderPinsMoved | src/utils/swr/useLinks.js:32-38 | Every entry carrying the selected id ends at the destination position. |
| Positions.SortedPermutationUnique | src/utils/swr/useLinks.js:38 | A list with strictly increasing positions is the only sorted arrangement of its entries, so the sort's output is determined. |
| Positions.ReorderMatchesMove | src/utils/swr/useLinks.js:19-38 | For an ordered list whose selected id sits only at s, the reorder equals removing the entry at s, inserting it at d and renumbering 0..N-1. So positions stay dense and sorted, and the other entries keep their relative order. |
| Positions.Moved | src/utils/swr/useLinks.js:19-38 | The reference move: the entry from s lands at d, and the others keep their order. |
| Positions.Placed | src/utils/swr/useLinks.js:19-38 | Renumbering gives an ordered list with the same ids and payloads. |
| Positions.MovedBack | src/utils/swr/useLinks.js:19-38 | Moving from s to d and back restores the list. |
| Positions.MovedInPlace | src/utils/swr/useLinks.js:19-38 | Moving from p to p changes nothing. |
| Positions.FieldsMoved | src/utils/swr/useLinks.js:19-38 | Moving entries moves their ids and payloads the same way. |
| Positions.PlacedByFields | src/utils/swr/useLinks.js:19-38 | Renumbering depends on ids and payloads only, and leaves an ordered list as it is. |
| Positions.MovedIdentifies | src/utils/swr/useLinks.js:32-37 | After the move, the selected id names only the entry at d. |
| Positions.ReorderInPlace | src/utils/swr/useLinks.js:19-38 | Reordering an entry onto its own position leaves an ordered list unchanged. |
| Positions.ReorderRoundTrip | src/utils/swr/useLinks.js:19-38 | Reordering from s to d and then from d to s restores an ordered list. |
| Positions.CheckedReorder | src/utils/swr/useLinks.js:13-17 | Corrected guard: a move is refused exactly when a position is out of range or no entry with the id sits at s. |
| Positions.CheckedReorderAcceptsEveryMove | src/utils/swr/useLinks.js:13-38 | With the corrected guard, every move of an ordered list with distinct ids is accepted, including moves from and to position 0, and it yields the moved list. |
| DragAndDrop.DropAttempt | src/components/Links.js:95-112 | A no-op drop (`IsNoOp`: no destination, or dropped where it started) starts no reorder. Any other drop is the reorder of `draggableId` from `source.index` to `destination.index`. |
| DragAndDrop.DragToast | src/components/Links.js:113-116 | A toast appears exactly when the reorder threw, and it is `handleError` of that error. |
| DragAndDrop.DragData | src/components/Links.js:95-117 | A no-op drop leaves the cache alone. A failed reorder leaves the re-fetched list in the cache. Otherwise the cache ends as the reorder leaves it. |
| DragAndDrop.DragLog | src/components/Links.js:113-116 | The collection is re-fetched exactly when the reorder threw, and the fetched list is the last thing written. A no-op drop sends nothing. Any other drop first writes and sends what the reorder does. |
| DragAndDrop.DragEnd | src/components/Links.js:95-117 | onDragEnd: the toast, the new cache value and the writes and requests, as in `DragToast`, `DragData` and `DragLog`. |
| Links.OnDragEnd | src/components/Links.js:95-117 | Links.onDragEnd over the `/links` cache. |
| Catalog.OnDragEnd | src/components/Catalog.js:245-267 | Catalog.onDragEnd over the `/catalog` cache. |
| DragAndDrop.Rows | src/components/Links.js:130-148 | One draggable per link, shown only when not loading and non-empty. Each has the link's id, and its index is the link's position. |
| DragAndDrop.RowIndexIsRowNumber | src/components/Links.js:27 | On an ordered list, each row's drag index is its row number. |
| DragAndDrop.RowDrop | src/components/Links.js:97-106 | The drop for dragging row i onto row j reports row i's position as the source index and row j's as the destination index. It is a no-op exactly when the two positions are equal. |
| DragAndDrop.DragBetweenRows | src/components/Links.js:95-117 | Dragging between two rows other than the top one installs the moved and renumbered list, then sends the `PUT`. On failure it re-fetches and shows the error. |
| DragAndDrop.RefusedDrop | src/components/Links.js:108-116 | A drop the reorder guard refuses writes nothing to the cache. It re-fetches the list, which replaces the cache when the fetch succeeds, and shows the guard's message as a "Message" toast. |
| DragAndDrop.TopRowDragRefused | src/utils/swr/useLinks.js:13-17 | As written, a drag from or onto the top row is refused: no cache write, a re-fetch, and the guard's message as a toast. The corrected guard accepts it. |
| Catalog.RenderEntry | src/components/Catalog.js:309-328 | An entry with an item renders as an item, even if it also has a header. One with only a header renders as a header. One with neither throws "only accept item or header". |
| Catalog.RenderEntries | src/components/Catalog.js:309-329 | The map renders every entry in order, or throws when any entry has neither field. |
| Catalog.RenderCatalog | src/components/Catalog.js:298 | Nothing is rendered while loading or when the catalog is empty. |
| Catalog.RenderedRowIndexes | src/components/Catalog.js:47 | On an ordered catalog, row i has drag index i and the entry's id. It is an item row exactly when the entry holds an item. |
| Positions.Prepend | src/components/AddLinkDrawer.js:49-53 | The created entry comes first, the length grows by one, the prior entries keep their order and fields, and each prior position grows by one. |
| Positions.ShiftAll | src/components/AddLinkDrawer.js:49-52 | The map raises every position by one and keeps the length and every id and payload in place. |
| Positions.PrependKeepsOrdered | src/components/AddLinkDrawer.js:49-53 | Prepending an entry at position 0 to an ordered list gives the ordered list `[created] + prior`. |
| Swr.Mutated | src/components/AddLinkDrawer.js:46-54 | The async updater yields the updated list only if the request succeeded, a list is cached and the update did not throw. Otherwise it yields the error. |
| Swr.Settled | src/components/AddLinkDrawer.js:56-65 | A settled request shows the success toast, or `handleError` of the error. |
| Swr.Resource.Write | src/utils/swr/useLinks.js:40-42 | A local `mutate` replaces the cached value and logs the write. |
| Swr.Resource.Revalidate | src/components/Links.js:114 | `mutate()` re-fetches. A failed re-fetch keeps the cached value. |
| Swr.Resource.MutateAsync | src/components/AddLinkDrawer.js:46-54 | The request goes out first. The cache takes the updater's value only when `Mutated` succeeds. |
| LinkDrawers.AddLinkDrawer.HandleChange | src/components/AddLinkDrawer.js:71-73 | Only the named field takes the input's value. |
| LinkDrawers.AddLinkDrawer.HandleAddLink | src/components/AddLinkDrawer.js:40-69 | It posts title and href. On success it prepends the created link, closes the drawer, shows "Link created!" and resets the form. On failure it only shows the error. |
| Forms.ChangeText | src/components/AddLinkDrawer.js:71-73 | The named field takes the value; every other field is kept. |
| Forms.Pick | src/components/AddLinkDrawer.js:43-47 | A request body holds exactly the named fields that are set in the form. |
| Forms.OrZero | src/components/AddItemDrawer.js:59 | `v \|\| 0` is the value when that is truthy, and 0 when it is falsy. |
| CatalogDrawers.NewItemBody | src/components/AddItemDrawer.js:55-59 | The create body carries the name and `price \|\| 0`. |
| Forms.ChangePrice | src/components/AddItemDrawer.js:84-88 | A number input stores `price \|\| 0`, so NaN and 0 become 0, and touches no other field. |
| CatalogDrawers.ItemChange | src/components/AddItemDrawer.js:84-90 | A numeric second argument goes to `price`; any other change goes to the field handler. |
| CatalogDrawers.AddItemDrawer.HandleChange | src/components/AddItemDrawer.js:84-90 | handleChange of the add-item form. |
| CatalogDrawers.AddItemDrawer.HandleAddItem | src/components/AddItemDrawer.js:52-82 | On success it prepends the created entry, closes the drawer, shows "Item created!" and resets the form to an empty name and price 0. On failure it only shows the error. |
| CatalogDrawers.AddHeaderDrawer.HandleChange | src/components/AddHeaderDrawer.js:73-75 | Only the named field takes the input's value. |
| CatalogDrawers.AddHeaderDrawer.HandleAddHeader | src/components/AddHeaderDrawer.js:41-71 | On success it prepends the created header entry, closes the drawer, shows "Header created!" and resets the title. On failure it only shows the error. |
| LinkDrawers.LinkForm | src/components/EditLinkDrawer.js:33-37 | The edit form starts with the link's title and href, and with `isHide` as the negation of `isVisible`. |
| Forms.Visible | src/components/EditLinkDrawer.js:54 | `isVisible: !isHide`. |
| Forms.VisibleBody | src/components/EditLinkDrawer.js:51-55 | An edit body holds the named fields as they are, plus `isVisible`. |
| Forms.ChangeField | src/components/EditLinkDrawer.js:122-126 | The `isHide` switch stores `checked`; every other field stores `value`; the rest of the form is kept. |
| Links.Overlay | src/components/EditLinkDrawer.js:59-64 | The spread keeps the server's id. Each of position, title, href and isVisible is the server's value when it returns one, and the cached value otherwise. |
| Links.EditLinks | src/components/EditLinkDrawer.js:58-67 | Exactly the links with the returned id take the overlay. Every other link is unchanged. Length and ids are kept. |
| Links.EditLinksIdempotent | src/components/EditLinkDrawer.js:58-67 | Applying an edit twice is applying it once. |
| Links.EditLinksKeepsOrdered | src/components/EditLinkDrawer.js:58-68 | An edit that does not move the link keeps the list ordered. |
| Links.DeleteLinks | src/components/EditLinkDrawer.js:93-105 | The result is no longer, and no link with the deleted id remains. Its links are exactly those the shift by the server-reported position produced, minus the deleted id. |
| Links.DeleteLinksKeepsOrdered | src/components/EditLinkDrawer.js:93-105 | On an ordered list with distinct ids, when the server reports the link's own position, the delete gives the other links in order, renumbered 0..N-2. |
| Positions.Drop | src/components/EditLinkDrawer.js:104 | The filter never lengthens the list (what it keeps: `DropMembers`; in order: `DropAppend`). |
| Positions.DropMembers | src/components/EditLinkDrawer.js:104 | The filter keeps exactly the entries it is not told to drop. |
| Positions.DropAppend | src/components/EditLinkDrawer.js:104 | Filtering a concatenation is concatenating the filtered parts, so the filter keeps the order. |
| Positions.Removed | src/components/EditLinkDrawer.js:93-104 | Shift-then-filter is no longer. Its entries are exactly those of the shifted list that are not dropped. |
| Positions.DropOnly | src/components/EditLinkDrawer.js:104 | Filtering out exactly the entry at k leaves the rest in order. |
| Positions.RemovedKeepsOrdered | src/components/EditLinkDrawer.js:93-105 | Closing the gap behind k and filtering out exactly the entry at k gives the others renumbered 0..N-2. |
| LinkDrawers.EditLinkDrawer.HandleChange | src/components/EditLinkDrawer.js:122-126 | handleChange of the edit form. |
| LinkDrawers.EditLinkDrawer.Rerender | src/components/Links.js:85 | A re-render (the row is keyed by link id, Links.js:147) replaces the `link` prop with the cached link and keeps the form and the open state. Every handler keeps the prop. |
| LinkDrawers.EditLinkDrawer.HandleEditLink | src/components/EditLinkDrawer.js:44-83 | It sends `PUT /links/{id}` with title, href and `!isHide`. On success it merges the returned link, closes the drawer and shows "Link updated!". |
| LinkDrawers.EditLinkDrawer.HandleDeleteLink | src/components/EditLinkDrawer.js:85-120 | It sends `DELETE /links/{id}`. On success it applies the delete updater, closes the drawer and shows "Link deleted!". |
| Catalog.OverlayItem | src/components/EditItemDrawer.js:75-78 | The spread keeps the returned id. Each of name, price, isVisible and image is the returned value when there is one, and the cached value otherwise. |
| Catalog.EditItems | src/components/EditItemDrawer.js:71-84 | Only entries whose item has the returned id change, and only in their item. Headers and other items are untouched. Ids, positions, length and order are kept. |
| Catalog.EditItemsIdempotent | src/components/EditItemDrawer.js:71-84 | Applying an item edit twice is applying it once. |
| Positions.Rewrite | src/components/EditItemDrawer.js:71-84 | A merge replaces each payload by the merge of its id and payload. It keeps ids, positions and length, and keeps an ordered list ordered. |
| Positions.FindFirst | src/components/EditItemDrawer.js:109-111 | `find` returns the first hit, or nothing when no entry matches. |
| Catalog.DeleteWhere | src/components/EditItemDrawer.js:109-125 | It throws reading `.position` exactly when the list is non-empty and nothing matches. Otherwise nothing that matches is left. The rest are exactly the shifted entries that do not match, shifted behind the first match's position. |
| Catalog.DeleteItem | src/components/EditItemDrawer.js:109-125 | It deletes by `item?.id`: it throws exactly when a non-empty list holds no such item. Otherwise no entry holds it, and the others remain, shifted behind the found position. |
| Catalog.DeleteWhereKeepsOrdered | src/components/EditItemDrawer.js:109-125 | When exactly one entry matches, at k, every other entry (items and headers alike) is kept in order and renumbered 0..N-2. |
| CatalogDrawers.ItemForm | src/components/EditItemDrawer.js:44-48 | The edit form starts with the item's name and price, and with `isHide` as the negation of `isVisible`. |
| CatalogDrawers.EditItemDrawer.HandleChange | src/components/EditItemDrawer.js:143-152 | A number input stores `price \|\| 0`, `isHide` stores `checked`, and any other field stores `value`. |
| CatalogDrawers.EditItemDrawer.Rerender | src/components/Catalog.js:155 | A re-render (the row is keyed by entry id, Catalog.js:313) replaces the `item` prop and keeps the form and the open state, so a later close resets to the updated item. Every handler keeps the prop. |
| CatalogDrawers.EditItemDrawer.HandleClose | src/components/EditItemDrawer.js:159-162 | Closing resets the form to the item's initial values. |
| CatalogDrawers.EditItemDrawer.HandleEditItem | src/components/EditItemDrawer.js:57-99 | It sends name, price and `!isHide`. On success it merges the returned item, closes the drawer and shows "Item updated!". |
| CatalogDrawers.EditItemDrawer.HandleDeleteItem | src/components/EditItemDrawer.js:101-141 | It sends `DELETE /items/{id}`. On success it applies the find, shift and filter delete; a missing entry fails with its TypeError. |
| Catalog.OverlayHeader | src/components/EditHeaderDrawer.js:63-66 | The spread keeps the returned header id. Title and isVisible are the returned values when present, and the cached ones otherwise. |
| Catalog.EditHeaders | src/components/EditHeaderDrawer.js:59-72 | Only entries whose header has the returned id change, and only in their header. Items are untouched. Ids, positions, length and order are kept. |
| Catalog.EditHeadersIdempotent | src/components/EditHeaderDrawer.js:59-72 | Applying a header edit twice is applying it once. |
| Catalog.DeleteHeader | src/components/EditHeaderDrawer.js:97-113 | It deletes by `header?.id`: it throws exactly when a non-empty list holds no such header. Otherwise no entry holds it, and the others remain, shifted behind the found position. |
| CatalogDrawers.HeaderForm | src/components/EditHeaderDrawer.js:35-38 | The edit form starts with the header's title, and with `isHide` as the negation of `isVisible`. |
| CatalogDrawers.EditHeaderDrawer.HandleChange | src/components/EditHeaderDrawer.js:131-135 | `isHide` stores `checked`, and any other field stores `value`. |
| CatalogDrawers.EditHeaderDrawer.Rerender | src/components/Catalog.js:230 | A re-render (the row is keyed by entry id, Catalog.js:322) replaces the `header` prop and keeps the form and the open state. Every handler keeps the prop. |
| CatalogDrawers.EditHeaderDrawer.HandleClose | src/components/EditHeaderDrawer.js:142-145 | Closing resets the form to the header's initial values. |
| CatalogDrawers.EditHeaderDrawer.HandleEditHeader | src/components/EditHeaderDrawer.js:46-87 | It sends title and `!isHide`. On success it merges the returned header, closes the drawer and shows "Header updated!". |
| CatalogDrawers.EditHeaderDrawer.HandleDeleteHeader | src/components/EditHeaderDrawer.js:89-129 | It sends `DELETE /header/{id}`. On success it applies the find, shift and filter delete. |
| Catalog.RemoveImage | src/components/EditItemImageDrawer.js:83-96 | Every item showing the deleted image loses it, and nothing else changes. Afterwards no entry shows that image. |
| Catalog.SaveImage | src/components/EditItemImageDrawer.js:127-140 | The item with the returned id shows the returned image. Headers and other items are untouched. |
| Catalog.SaveThenRemoveImage | src/components/EditItemImageDrawer.js:83-140 | Saving a fresh image on an item without one, then removing it, restores the list. |
| CatalogDrawers.EditItemImageDrawer.SelectFile | src/components/EditItemImageDrawer.js:46-62 | The first accepted file is selected. With no accepted file, the "Maximum file size is 5 MB" toast is shown. |
| CatalogDrawers.EditItemImageDrawer.HandleClose | src/components/EditItemImageDrawer.js:69-72 | Closing clears the selected file. |
| CatalogDrawers.EditItemImageDrawer.Rerender | src/components/Catalog.js:156-160 | A re-render replaces the `item` prop, so a remove after a save sees the saved image. The selected file and the open state are kept, and every handler keeps the prop. |
| CatalogDrawers.EditItemImageDrawer.HandleRemove | src/components/EditItemImageDrawer.js:74-113 | An item without an image sends nothing, leaves the cache alone and only clears the file. Otherwise `DELETE /images/{id}` removes it from the cache on success. |
| CatalogDrawers.EditItemImageDrawer.HandleSave | src/components/EditItemImageDrawer.js:115-155 | It posts the file. On success it merges the image, clears the file, closes the drawer and shows "Image updated!". |
| ErrorHandling.HandleError | src/utils/handleError.js:1-34 | Every toast has status 'error', position 'top', duration 3000 and a title. Without a client error (4xx), the toast is "Message" with `err.message`. |
| ErrorHandling.ClientErrorToast | src/utils/handleError.js:9-25 | For a 4xx whose payload's first value is a string, the title is the first key and the description that value, both capitalised. A 401 saying "unauthenticated" overrides the description. |
| ErrorHandling.HandleErrorThrows | src/utils/handleError.js:9-22 | The function itself throws exactly for a 4xx whose payload has no key or a non-string first value, or for a 401 without a payload. |
| ErrorHandling.Capitalize | src/utils/handleError.js:15-17 | Capitalising keeps the length and all but the first character. The first character is upper-cased when it is an ASCII lower-case letter, and kept otherwise. |
| ErrorHandling.Unauthenticated | src/utils/handleError.js:20-25 | A 401 without a payload throws reading `.message`. A 401 whose message is "unauthenticated" gets the login description. Every other toast field is kept. |
| ErrorHandling.CapitalizeIdempotent | src/utils/handleError.js:15-17 | Capitalising twice is capitalising once. |

## Left out

- Network, SWR and axios internals. Each request's answer, and each
  re-fetch's result, is a parameter. Deduplication, focus re-validation
  and the promise machinery of `mutate` are not modelled.
- Concurrency. Overlapping drags, or a drawer request racing a reorder's
  `PUT`, are not modelled. Each handler runs to completion as one step.
- The `isLoading`/`isDeleting` spinners. They are true only while a request
  is awaited, and each handler is one step here, so they are not state.
- React rendering, Chakra layout and the JSX itself. Only the render
  decisions are modelled: which rows, which draggable index, and item
  versus header.
- The multipart body of the image upload, and the dropzone's own filtering
  by type and size. The accepted files are a parameter. The upload request
  is logged with an empty body.
- Positions.SortByPosition: stable for entries with equal positions, as
  `Array.prototype.sort` is since ES2019. Only sortedness and permutation
  are stated, and equal positions never occur on the ordered lists the
  theorems are about.
- Catalog.SaveImage: the upload's answer is taken to carry a complete
  image. The source's `{...prev.image, ...updated.image}` would also merge
  a partial or missing one.
- ErrorHandling.Capitalize: upper-cases ASCII letters only, not the full
  Unicode case mapping of `toUpperCase`.
- ErrorHandling.HandleError: every non-string first value raises the same
  TypeError message. A response without `data` is not modelled. The
  payload object is a list of key/value pairs in key order, so duplicate
  keys and numeric-key ordering are not modelled.
- Forms.FormValue: prices are integers. A fractional price from the number
  input is not modelled.
- Stale closures. The drawers read the form and the prop as of their last
  render; here each handler reads the current form and the prop of the
  last `Rerender`.
- The prop checks that throw when a drawer is rendered without `isOpen` or
  `onClose`. They are rendering-time errors outside these handlers.

## Findings

| source | as written | input that shows it | evidently intended | confidence | as-written member | corrected member |
|---|---|---|---|---|---|---|
| src/utils/swr/useLinks.js:13-17 (and src/utils/swr/useCatalog.js:13-17) | The guard tests `!sourcePosition \|\| !destinationPosition`, so position 0 counts as missing. | An ordered list of two links, dragging row 0 onto row 1. `sourcePosition` is 0 and the guard throws "need selectedLinkId, sourcePosition, destinationPosition". Nothing is reordered, the list is re-fetched, and the error toast is shown. | Any in-range move of an existing entry is carried out, including moves from and to the top row. | high; not executed | DragAndDrop.TopRowDragRefused | Positions.CheckedReorderAcceptsEveryMove |
