/**
  The links collection (`/links`): what a link is, its drag-and-drop
  reorder and `onDragEnd`, the rows the list renders, and the list updates
  the link drawers apply to the cache after an edit or a delete.
*/
module Links {
  import opened Wrappers
  import opened Positions
  import opened ErrorHandling
  import opened Swr
  import opened DragAndDrop

  /** What a link carries besides its id and position. */
  datatype LinkInfo = LinkInfo(title: string, href: string, isVisible: bool)

  type Link = Entry<LinkInfo>

  const Key := "/links"
  const GuardMessage := "need selectedLinkId, sourcePosition, destinationPosition"

  /** reorderLinks. */
  method ReorderLinks(links: Resource<LinkInfo>, selectedLinkId: Id, sourcePosition: int,
                      destinationPosition: int, put: Outcome<JsError>)
    returns (r: Outcome<JsError>)
    requires links.key == Key
    modifies links
    ensures r == Attempt(old(links.data), GuardMessage, selectedLinkId, sourcePosition, destinationPosition, put)
    ensures links.data == AttemptData(old(links.data), selectedLinkId, sourcePosition, destinationPosition)
    ensures links.log ==
      old(links.log) + AttemptLog(old(links.data), Key, selectedLinkId, sourcePosition, destinationPosition)
  {
    r := ReorderStored(links, GuardMessage, selectedLinkId, sourcePosition, destinationPosition, put);
  }

  /** Links.onDragEnd. */
  method OnDragEnd(links: Resource<LinkInfo>, drop: DropResult, put: Outcome<JsError>,
                   refetched: Option<seq<Link>>)
    returns (toast: Option<Result<Notification, string>>)
    requires links.key == Key
    modifies links
    ensures toast == DragToast(old(links.data), GuardMessage, drop, put)
    ensures links.data == DragData(old(links.data), GuardMessage, drop, put, refetched)
    ensures links.log == old(links.log) + DragLog(old(links.data), Key, GuardMessage, drop, put, refetched)
  {
    toast := DragEnd(links, GuardMessage, drop, put, refetched);
  }

  /**
    The link a `PUT /links/{id}` returns, spread over the cached one: the
    fields it carries replace the cached ones, the others stay.
  */
  datatype LinkPatch = LinkPatch(
    id: Id, position: Option<int>, title: Option<string>, href: Option<string>, isVisible: Option<bool>)

  /** `{...link, ...patch}` */
  function Overlay(link: Link, patch: LinkPatch): (r: Link)
    ensures r.id == patch.id
    ensures r.position == OrElse(patch.position, link.position)
    ensures r.payload.title == OrElse(patch.title, link.payload.title)
    ensures r.payload.href == OrElse(patch.href, link.payload.href)
    ensures r.payload.isVisible == OrElse(patch.isVisible, link.payload.isVisible)
    ensures patch.title.None? && patch.href.None? && patch.isVisible.None? ==> r.payload == link.payload
  {
    Entry(patch.id, OrElse(patch.position, link.position),
          LinkInfo(OrElse(patch.title, link.payload.title), OrElse(patch.href, link.payload.href),
                   OrElse(patch.isVisible, link.payload.isVisible)))
  }

  /** The edit updater: every link with the patch's id takes the patch, the others stay as they are. */
  function EditLinks(c: seq<Link>, patch: LinkPatch): (r: seq<Link>)
    ensures |r| == |c|
    ensures forall i :: 0 <= i < |c| ==> r[i].id == c[i].id
    ensures forall i :: 0 <= i < |c| && c[i].id != patch.id ==> r[i] == c[i]
    ensures forall i :: 0 <= i < |c| && c[i].id == patch.id ==> r[i] == Overlay(c[i], patch)
  {
    seq(|c|, i requires 0 <= i < |c| => if c[i].id == patch.id then Overlay(c[i], patch) else c[i])
  }

  /** Applying the same edit twice is applying it once. */
  lemma EditLinksIdempotent(c: seq<Link>, patch: LinkPatch)
    ensures EditLinks(EditLinks(c, patch), patch) == EditLinks(c, patch)
  {
  }

  /** An edit that does not move the link keeps the list ordered. */
  lemma EditLinksKeepsOrdered(c: seq<Link>, patch: LinkPatch)
    requires Ordered(c)
    requires patch.position.Some? ==> forall i :: 0 <= i < |c| && c[i].id == patch.id ==> i == patch.position.value
    ensures Ordered(EditLinks(c, patch))
  {
  }

  /** The filter of the delete updater: the link with the deleted link's id. */
  function IsDeleted(deleted: Link): (Id, LinkInfo) -> bool
  {
    (id: Id, info: LinkInfo) => id == deleted.id
  }

  /**
    The delete updater: every link behind the deleted link's position, as
    the server reports it, moves up one, and the link with its id goes.
  */
  function DeleteLinks(c: seq<Link>, deleted: Link): (r: seq<Link>)
    ensures |r| <= |c|
    ensures forall i :: 0 <= i < |r| ==> r[i].id != deleted.id
    ensures DeletedFrom(r, c, deleted.position, IsDeleted(deleted))
  {
    Removed(c, deleted.position, IsDeleted(deleted))
  }

  /**
    Deleting the link at k of an ordered list with distinct ids, the server
    reporting position k, leaves the other links in order, renumbered 0..N-2.
  */
  lemma DeleteLinksKeepsOrdered(c: seq<Link>, deleted: Link)
    requires Ordered(c) && UniqueIds(c) && 0 <= deleted.position < |c| && c[deleted.position].id == deleted.id
    ensures var k := deleted.position;
      DeleteLinks(c, deleted) == Placed(c[..k] + c[k + 1..])
  {
    var k := deleted.position;
    forall i | 0 <= i < |c| ensures IsDeleted(deleted)(c[i].id, c[i].payload) <==> i == k {
      if i != k {
        assert c[i].id != c[k].id;
      }
    }
    RemovedKeepsOrdered(c, k, IsDeleted(deleted));
  }
}
