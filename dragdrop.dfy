/**
  What a drag-and-drop reorder does to a cached collection, shared by the
  links list and the catalog: the truthiness guard, the optimistic cache
  write of the reordered list, the `PUT` of the new position, and the
  `onDragEnd` dispatcher that skips no-op drops and, when the reorder
  throws, re-fetches the collection and shows an error toast.
*/
module DragAndDrop {
  import opened Wrappers
  import opened Positions
  import opened Forms
  import opened ErrorHandling
  import opened Swr

  /** What `links.map` throws when the cache holds no list (`links` is null). */
  const NullList := "Cannot read properties of null (reading 'map')"

  /** `selectedId && sourcePosition && destinationPosition` under JavaScript truthiness. */
  predicate ArgsTruthy(id: Id, s: int, d: int)
  {
    id != "" && s != 0 && d != 0
  }

  /** The `PUT` that persists a move: only the destination goes in the body. */
  function PositionRequest(key: string, id: Id, d: int): (r: Request)
    ensures r.verb == PUT && r.path == key + "/" + id + "/position"
    ensures r.body.Keys == {"position"} && r.body["position"] == Number(d)
  {
    Request(PUT, key + "/" + id + "/position", map["position" := Number(d)])
  }

  /**
    How a reorder ends: the guard's error, the error of reading a missing
    list, or (once the cache has been written) the outcome of the `PUT`.
  */
  function Attempt<P>(data: Option<seq<Entry<P>>>, guardMessage: string, id: Id, s: int, d: int,
                      put: Outcome<JsError>): (r: Outcome<JsError>)
    ensures !ArgsTruthy(id, s, d) ==> r == Fail(JsError(guardMessage, None))
    ensures ArgsTruthy(id, s, d) && data.None? ==> r == Fail(JsError(NullList, None))
    ensures ArgsTruthy(id, s, d) && data.Some? ==> r == put
  {
    if !ArgsTruthy(id, s, d) then Fail(JsError(guardMessage, None))
    else if data.None? then Fail(JsError(NullList, None))
    else put
  }

  /** The cache writes and requests a reorder makes: none unless the guard passes and a list is cached. */
  function AttemptLog<P>(data: Option<seq<Entry<P>>>, key: string, id: Id, s: int, d: int): (r: seq<Event<P>>)
    ensures r == [] <==> !ArgsTruthy(id, s, d) || data.None?
    ensures r != [] ==> r == [Wrote(Reorder(data.value, id, s, d)), Sent(PositionRequest(key, id, d))]
  {
    if ArgsTruthy(id, s, d) && data.Some? then
      [Wrote(Reorder(data.value, id, s, d)), Sent(PositionRequest(key, id, d))]
    else []
  }

  /** The cached list after a reorder: reordered if the guard passed and a list was cached. */
  function AttemptData<P>(data: Option<seq<Entry<P>>>, id: Id, s: int, d: int): (r: Option<seq<Entry<P>>>)
    ensures r.Some? <==> data.Some?
    ensures !ArgsTruthy(id, s, d) ==> r == data
    ensures ArgsTruthy(id, s, d) && data.Some? ==> r == Some(Reorder(data.value, id, s, d))
  {
    if ArgsTruthy(id, s, d) && data.Some? then Some(Reorder(data.value, id, s, d)) else data
  }

  /**
    reorderLinks / reorderCatalog: guard, reorder the cached list, write it
    into the cache, then send the `PUT` whose result is `put`.
  */
  method ReorderStored<P>(store: Resource<P>, guardMessage: string, id: Id, s: int, d: int,
                          put: Outcome<JsError>)
    returns (r: Outcome<JsError>)
    modifies store
    ensures r == Attempt(old(store.data), guardMessage, id, s, d, put)
    ensures store.data == AttemptData(old(store.data), id, s, d)
    ensures store.log == old(store.log) + AttemptLog(old(store.data), store.key, id, s, d)
  {
    if !ArgsTruthy(id, s, d) {
      return Fail(JsError(guardMessage, None));
    }
    if store.data.None? {
      return Fail(JsError(NullList, None));
    }
    var reordered := Reorder(store.data.value, id, s, d);
    store.Write(reordered);
    store.Send(PositionRequest(store.key, id, d));
    r := put;
  }

  /** A place in a droppable list, as react-beautiful-dnd reports it. */
  datatype Location = Location(droppableId: string, index: int)

  /** The argument of `onDragEnd`. */
  datatype DropResult = DropResult(source: Location, destination: Option<Location>, draggableId: Id)

  /** Dropped outside any list, or back where it started. */
  predicate IsNoOp(drop: DropResult)
  {
    || drop.destination.None?
    || (drop.destination.value.droppableId == drop.source.droppableId
        && drop.destination.value.index == drop.source.index)
  }

  /** How the reorder a drop starts ends; a no-op drop starts none and so passes. */
  function DropAttempt<P>(data: Option<seq<Entry<P>>>, guardMessage: string, drop: DropResult,
                          put: Outcome<JsError>): (r: Outcome<JsError>)
    ensures IsNoOp(drop) ==> r.Pass?
    ensures !IsNoOp(drop) ==>
      r == Attempt(data, guardMessage, drop.draggableId, drop.source.index, drop.destination.value.index, put)
  {
    if IsNoOp(drop) then Pass
    else Attempt(data, guardMessage, drop.draggableId, drop.source.index, drop.destination.value.index, put)
  }

  /** The toast onDragEnd shows: one exactly when the reorder it started threw. */
  function DragToast<P>(data: Option<seq<Entry<P>>>, guardMessage: string, drop: DropResult,
                        put: Outcome<JsError>): (r: Option<Result<Notification, string>>)
    ensures r.Some? <==> !IsNoOp(drop) && DropAttempt(data, guardMessage, drop, put).Fail?
    ensures r.Some? ==> r.value == HandleError(DropAttempt(data, guardMessage, drop, put).error)
  {
    match DropAttempt(data, guardMessage, drop, put)
    case Pass => None
    case Fail(e) => Some(HandleError(e))
  }

  /**
    The cached list after onDragEnd: untouched by a no-op drop, the reorder's
    list when it succeeded, the re-fetched list (or what the failed reorder
    left, if the re-fetch fails too) when it threw.
  */
  function DragData<P>(data: Option<seq<Entry<P>>>, guardMessage: string, drop: DropResult,
                       put: Outcome<JsError>, refetched: Option<seq<Entry<P>>>): (r: Option<seq<Entry<P>>>)
    ensures IsNoOp(drop) ==> r == data
    ensures DropAttempt(data, guardMessage, drop, put).Fail? && refetched.Some? ==> r == refetched
    ensures !IsNoOp(drop) && (DropAttempt(data, guardMessage, drop, put).Pass? || refetched.None?) ==>
      r == AttemptData(data, drop.draggableId, drop.source.index, drop.destination.value.index)
  {
    if IsNoOp(drop) then data
    else
      var left := AttemptData(data, drop.draggableId, drop.source.index, drop.destination.value.index);
      if Attempt(data, guardMessage, drop.draggableId, drop.source.index, drop.destination.value.index, put).Fail?
         && refetched.Some?
      then refetched
      else left
  }

  /** The cache writes and requests of onDragEnd: the reorder's, then a re-fetch if it threw. */
  function DragLog<P>(data: Option<seq<Entry<P>>>, key: string, guardMessage: string, drop: DropResult,
                      put: Outcome<JsError>, refetched: Option<seq<Entry<P>>>): (r: seq<Event<P>>)
    ensures IsNoOp(drop) ==> r == []
    ensures Sent(Request(GET, key, map[])) in r <==> DropAttempt(data, guardMessage, drop, put).Fail?
    ensures DropAttempt(data, guardMessage, drop, put).Fail? && refetched.Some? ==>
      r[|r| - 1] == Fetched(refetched.value)
    ensures !IsNoOp(drop) ==>
      AttemptLog(data, key, drop.draggableId, drop.source.index, drop.destination.value.index) <= r
  {
    if IsNoOp(drop) then []
    else
      var id, s, d := drop.draggableId, drop.source.index, drop.destination.value.index;
      var written := AttemptLog(data, key, id, s, d);
      if Attempt(data, guardMessage, id, s, d, put).Fail? then
        written + [Sent(Request(GET, key, map[]))]
          + (if refetched.Some? then [Fetched(refetched.value)] else [])
      else written
  }

  /**
    onDragEnd: a no-op drop does nothing; any other drop reorders from
    `source.index` to `destination.index`, and if that throws, the
    collection is re-fetched (`refetched`) and the error becomes a toast.
    `toast` is the notification shown, `Err` when building it throws.
  */
  method DragEnd<P>(store: Resource<P>, guardMessage: string, drop: DropResult,
                    put: Outcome<JsError>, refetched: Option<seq<Entry<P>>>)
    returns (toast: Option<Result<Notification, string>>)
    modifies store
    ensures toast == DragToast(old(store.data), guardMessage, drop, put)
    ensures store.data == DragData(old(store.data), guardMessage, drop, put, refetched)
    ensures store.log == old(store.log) + DragLog(old(store.data), store.key, guardMessage, drop, put, refetched)
  {
    if drop.destination.None? {
      return None;
    }
    if drop.destination.value.droppableId == drop.source.droppableId
       && drop.destination.value.index == drop.source.index {
      return None;
    }
    ghost var log0 := store.log;
    var r := ReorderStored(store, guardMessage, drop.draggableId, drop.source.index,
                           drop.destination.value.index, put);
    ghost var written := store.log[|log0|..];
    assert store.log == log0 + written;
    if r.Fail? {
      store.Revalidate(refetched);
      assert store.log == log0 + (written + [Sent(Request(GET, store.key, map[]))]
        + (if refetched.Some? then [Fetched(refetched.value)] else []));
      return Some(HandleError(r.error));
    }
    toast := None;
  }

  /** A rendered draggable: its id and its drag index, which is the entry's position. */
  datatype Row = Row(draggableId: Id, index: int)

  /**
    The draggables of a list view, shown when not loading and the list is
    non-empty. Loading means no data and no error, so the rows depend on
    the cached list alone: none when it is missing or empty, otherwise one
    per entry, indexed by its position.
  */
  function Rows<P>(data: Option<seq<Entry<P>>>): (r: seq<Row>)
    ensures data.None? || data.value == [] ==> r == []
    ensures data.Some? ==> |r| == |data.value|
    ensures data.Some? ==> forall i :: 0 <= i < |r| ==>
      r[i].draggableId == data.value[i].id && r[i].index == data.value[i].position
  {
    if data.Some? && |data.value| > 0 then
      var c := data.value;
      seq(|c|, i requires 0 <= i < |c| => Row(c[i].id, c[i].position))
    else []
  }

  /** On an ordered list the drag index of every row is its row number. */
  lemma RowIndexIsRowNumber<P>(c: seq<Entry<P>>)
    requires Ordered(c)
    ensures forall i :: 0 <= i < |Rows(Some(c))| ==> Rows(Some(c))[i].index == i
  {
  }

  /** The drop react-beautiful-dnd reports for dragging row i onto row j of one rendered list. */
  function RowDrop<P>(c: seq<Entry<P>>, list: string, i: int, j: int): (r: DropResult)
    requires 0 <= i < |c| && 0 <= j < |c|
    ensures r.draggableId == c[i].id && r.destination.Some?
    ensures r.source.index == c[i].position && r.destination.value.index == c[j].position
    ensures IsNoOp(r) <==> c[i].position == c[j].position
  {
    var rows := Rows(Some(c));
    DropResult(Location(list, rows[i].index), Some(Location(list, rows[j].index)), rows[i].draggableId)
  }

  /**
    Dragging row i onto another row j of a rendered ordered list with
    distinct ids, neither being the top row and the dragged id non-empty,
    installs the list with the dragged entry moved from i to j and the
    positions renumbered 0..N-1, then sends its new position; if that `PUT`
    fails, the list is re-fetched and the error shown.
  */
  lemma DragBetweenRows<P>(c: seq<Entry<P>>, key: string, guardMessage: string, list: string,
                           i: int, j: int, put: Outcome<JsError>, refetched: Option<seq<Entry<P>>>)
    requires Ordered(c) && UniqueIds(c) && 0 < i < |c| && 0 < j < |c| && i != j && c[i].id != ""
    ensures var drop := RowDrop(c, list, i, j);
      var moved := Placed(Moved(c, i, j));
      && DragToast(Some(c), guardMessage, drop, put) == (if put.Pass? then None else Some(HandleError(put.error)))
      && DragData(Some(c), guardMessage, drop, put, refetched) ==
           (if put.Fail? && refetched.Some? then refetched else Some(moved))
      && DragLog(Some(c), key, guardMessage, drop, put, refetched)[..2] ==
           [Wrote(moved), Sent(PositionRequest(key, c[i].id, j))]
  {
    var rows := Rows(Some(c));
    assert rows[i].draggableId == c[i].id && rows[i].index == i && rows[j].index == j;
    assert IdentifiesOnly(c, c[i].id, i);
    ReorderMatchesMove(c, c[i].id, i, j);
  }

  /**
    As written, the truthiness guard refuses every drag that starts or ends
    on the top row (position 0): the reorder throws before touching the
    cache, the list is re-fetched and the guard's message is shown, although
    the move is valid and the corrected guard carries it out.
  */
  lemma TopRowDragRefused<P>(c: seq<Entry<P>>, key: string, guardMessage: string, list: string,
                             i: int, j: int, put: Outcome<JsError>, refetched: Option<seq<Entry<P>>>)
    requires Ordered(c) && UniqueIds(c) && 0 <= i < |c| && 0 <= j < |c| && i != j && (i == 0 || j == 0)
    ensures var drop := RowDrop(c, list, i, j);
      && DragToast(Some(c), guardMessage, drop, put) == Some(Ok(ErrorToast(DefaultTitle, guardMessage)))
      && DragData(Some(c), guardMessage, drop, put, refetched) == (if refetched.Some? then refetched else Some(c))
      && DragLog(Some(c), key, guardMessage, drop, put, refetched) ==
           [Sent(Request(GET, key, map[]))] + (if refetched.Some? then [Fetched(refetched.value)] else [])
    ensures CheckedReorder(c, c[i].id, i, j) == Ok(Placed(Moved(c, i, j)))
  {
    var drop := RowDrop(c, list, i, j);
    var rows := Rows(Some(c));
    assert rows[i].index == i && rows[j].index == j;
    assert drop.source.index == i && drop.destination.value.index == j;
    RefusedDrop(Some(c), key, guardMessage, drop, put, refetched);
    CheckedReorderAcceptsEveryMove(c, i, j);
  }

  /** A drop the guard refuses: no cache write, a re-fetch, and the guard's message as a toast. */
  lemma RefusedDrop<P>(data: Option<seq<Entry<P>>>, key: string, guardMessage: string, drop: DropResult,
                       put: Outcome<JsError>, refetched: Option<seq<Entry<P>>>)
    requires !IsNoOp(drop) && !ArgsTruthy(drop.draggableId, drop.source.index, drop.destination.value.index)
    ensures DragToast(data, guardMessage, drop, put) == Some(Ok(ErrorToast(DefaultTitle, guardMessage)))
    ensures DragData(data, guardMessage, drop, put, refetched) == (if refetched.Some? then refetched else data)
    ensures DragLog(data, key, guardMessage, drop, put, refetched) ==
      [Sent(Request(GET, key, map[]))] + (if refetched.Some? then [Fetched(refetched.value)] else [])
  {
    assert DropAttempt(data, guardMessage, drop, put) == Fail(JsError(guardMessage, None));
    assert HandleError(JsError(guardMessage, None)) == Ok(ErrorToast(DefaultTitle, guardMessage));
  }
}
