/**
  The drawers that create, edit and delete catalog items and headers, and
  the one that uploads or removes an item's image. Like the link drawers,
  each writes the catalog cache through an async updater: the cache, the
  drawer and the form change only once the request has succeeded.
*/
module CatalogDrawers {
  import opened Wrappers
  import opened Positions
  import opened Forms
  import opened ErrorHandling
  import opened Swr
  import opened Catalog

  const EmptyItemForm: Form := map["name" := Text(""), "price" := Number(0)]
  const EmptyHeaderForm: Form := map["title" := Text("")]

  /** The body of `POST /items`: the name, and `price || 0`. */
  function NewItemBody(form: Form): (r: Form)
    ensures r.Keys == (form.Keys * {"name"}) + {"price"}
    ensures "name" in form ==> r["name"] == form["name"]
    ensures r["price"] == if Truthy(Get(form, "price")) then form["price"] else Number(0)
  {
    Pick(form, {"name"})["price" := OrZero(Get(form, "price"))]
  }

  /** handleChange of the item drawers: a number input's change goes to `price`, any other to `other`. */
  function ItemChange(form: Form, e: InputEvent, price: Option<FormValue>,
                      other: (Form, InputEvent) -> Form): (r: Form)
    ensures price.Some? && IsNumber(price.value) ==> r == ChangePrice(form, price.value)
    ensures !(price.Some? && IsNumber(price.value)) ==> r == other(form, e)
  {
    if price.Some? && IsNumber(price.value) then ChangePrice(form, price.value) else other(form, e)
  }

  class AddItemDrawer {
    const catalog: Resource<Slot>
    var form: Form
    var open: bool

    constructor (catalog: Resource<Slot>, open: bool)
      ensures this.catalog == catalog && form == EmptyItemForm && this.open == open
    {
      this.catalog := catalog;
      form := EmptyItemForm;
      this.open := open;
    }

    /** handleChange(e, price): `price || 0` for the number input, the input's value otherwise. */
    method HandleChange(e: InputEvent, price: Option<FormValue>)
      modifies this
      ensures form == ItemChange(old(form), e, price, ChangeText) && open == old(open)
    {
      form := ItemChange(form, e, price, ChangeText);
    }

    /** handleAddItem: `response` is the created catalog entry, or the request's error. */
    method HandleAddItem(response: Result<CatalogEntry, JsError>) returns (toast: Result<Notification, string>)
      modifies this, catalog
      ensures var m := Mutated(old(catalog.data), response, Prepending());
        && catalog.data == (if m.Ok? then Some(m.value) else old(catalog.data))
        && catalog.log == old(catalog.log) + [Sent(Request(POST, "/items", NewItemBody(old(form))))]
                            + (if m.Ok? then [Wrote(m.value)] else [])
        && form == (if m.Ok? then EmptyItemForm else old(form))
        && open == (if m.Ok? then false else old(open))
        && toast == Settled(m, "Item created!")
    {
      var request := Request(POST, "/items", NewItemBody(form));
      var r := catalog.MutateAsync(request, response, Prepending());
      if r.Fail? {
        return HandleError(r.error);
      }
      open := false;
      toast := Ok(SuccessToast("Item created!"));
      form := EmptyItemForm;
    }
  }

  class AddHeaderDrawer {
    const catalog: Resource<Slot>
    var form: Form
    var open: bool

    constructor (catalog: Resource<Slot>, open: bool)
      ensures this.catalog == catalog && form == EmptyHeaderForm && this.open == open
    {
      this.catalog := catalog;
      form := EmptyHeaderForm;
      this.open := open;
    }

    method HandleChange(e: InputEvent)
      modifies this
      ensures form == ChangeText(old(form), e) && open == old(open)
    {
      form := ChangeText(form, e);
    }

    /** handleAddHeader: `response` is the created catalog entry, or the request's error. */
    method HandleAddHeader(response: Result<CatalogEntry, JsError>) returns (toast: Result<Notification, string>)
      modifies this, catalog
      ensures var m := Mutated(old(catalog.data), response, Prepending());
        && catalog.data == (if m.Ok? then Some(m.value) else old(catalog.data))
        && catalog.log == old(catalog.log) + [Sent(Request(POST, "/header", Pick(old(form), {"title"})))]
                            + (if m.Ok? then [Wrote(m.value)] else [])
        && form == (if m.Ok? then EmptyHeaderForm else old(form))
        && open == (if m.Ok? then false else old(open))
        && toast == Settled(m, "Header created!")
    {
      var request := Request(POST, "/header", Pick(form, {"title"}));
      var r := catalog.MutateAsync(request, response, Prepending());
      if r.Fail? {
        return HandleError(r.error);
      }
      open := false;
      toast := Ok(SuccessToast("Header created!"));
      form := EmptyHeaderForm;
    }
  }

  /** The item edit updater. */
  function EditingItem(): (seq<CatalogEntry>, ItemPatch) -> Result<seq<CatalogEntry>, string>
  {
    (prev: seq<CatalogEntry>, patch: ItemPatch) => Ok(EditItems(prev, patch))
  }

  /** The item delete updater, by the id of the item the server deleted. */
  function DeletingItem(): (seq<CatalogEntry>, Item) -> Result<seq<CatalogEntry>, string>
  {
    (prev: seq<CatalogEntry>, deleted: Item) => DeleteItem(prev, deleted.id)
  }

  /** The form an item edit starts from, and returns to when the drawer closes. */
  function ItemForm(item: Item): (r: Form)
    ensures r.Keys == {"name", "price", "isHide"}
    ensures r["name"] == Text(item.name) && r["price"] == Number(item.price)
    ensures Visible(r) == Flag(item.isVisible)
  {
    map["name" := Text(item.name), "price" := Number(item.price), "isHide" := Flag(!item.isVisible)]
  }

  class EditItemDrawer {
    const catalog: Resource<Slot>
    var item: Item
    var form: Form
    var open: bool

    constructor (catalog: Resource<Slot>, item: Item, open: bool)
      ensures this.catalog == catalog && this.item == item && form == ItemForm(item) && this.open == open
    {
      this.catalog := catalog;
      this.item := item;
      form := ItemForm(item);
      this.open := open;
    }

    /**
      A re-render with the cached item as the new prop: the row is keyed by
      its id, so the drawer and its state persist and only the prop changes.
    */
    method Rerender(item: Item)
      modifies this
      ensures this.item == item && form == old(form) && open == old(open)
    {
      this.item := item;
    }

    /** handleChange(e, price): `price || 0` for the number input, `checked` for `isHide`, `value` otherwise. */
    method HandleChange(e: InputEvent, price: Option<FormValue>)
      modifies this
      ensures item == old(item)
      ensures form == ItemChange(old(form), e, price, ChangeField) && open == old(open)
    {
      form := ItemChange(form, e, price, ChangeField);
    }

    /** Closing the drawer discards the edits. */
    method HandleClose()
      modifies this
      ensures item == old(item)
      ensures form == ItemForm(item) && !open
    {
      open := false;
      form := ItemForm(item);
    }

    /** handleEditItem: `response` is the updated item, or the request's error. */
    method HandleEditItem(response: Result<ItemPatch, JsError>) returns (toast: Result<Notification, string>)
      modifies this, catalog
      ensures item == old(item)
      ensures var m := Mutated(old(catalog.data), response, EditingItem());
        && catalog.data == (if m.Ok? then Some(m.value) else old(catalog.data))
        && catalog.log == old(catalog.log)
             + [Sent(Request(PUT, "/items/" + item.id, VisibleBody(old(form), {"name", "price"})))]
             + (if m.Ok? then [Wrote(m.value)] else [])
        && form == old(form)
        && open == (if m.Ok? then false else old(open))
        && toast == Settled(m, "Item updated!")
    {
      var request := Request(PUT, "/items/" + item.id, VisibleBody(form, {"name", "price"}));
      var r := catalog.MutateAsync(request, response, EditingItem());
      if r.Fail? {
        return HandleError(r.error);
      }
      open := false;
      toast := Ok(SuccessToast("Item updated!"));
    }

    /** handleDeleteItem: `response` is the deleted item, or the request's error. */
    method HandleDeleteItem(response: Result<Item, JsError>) returns (toast: Result<Notification, string>)
      modifies this, catalog
      ensures item == old(item)
      ensures var m := Mutated(old(catalog.data), response, DeletingItem());
        && catalog.data == (if m.Ok? then Some(m.value) else old(catalog.data))
        && catalog.log == old(catalog.log) + [Sent(Request(DELETE, "/items/" + item.id, map[]))]
                            + (if m.Ok? then [Wrote(m.value)] else [])
        && form == old(form)
        && open == (if m.Ok? then false else old(open))
        && toast == Settled(m, "Item deleted!")
    {
      var request := Request(DELETE, "/items/" + item.id, map[]);
      var r := catalog.MutateAsync(request, response, DeletingItem());
      if r.Fail? {
        return HandleError(r.error);
      }
      open := false;
      toast := Ok(SuccessToast("Item deleted!"));
    }
  }

  /** The header edit updater. */
  function EditingHeader(): (seq<CatalogEntry>, HeaderPatch) -> Result<seq<CatalogEntry>, string>
  {
    (prev: seq<CatalogEntry>, patch: HeaderPatch) => Ok(EditHeaders(prev, patch))
  }

  /** The header delete updater, by the id of the header the server deleted. */
  function DeletingHeader(): (seq<CatalogEntry>, Header) -> Result<seq<CatalogEntry>, string>
  {
    (prev: seq<CatalogEntry>, deleted: Header) => DeleteHeader(prev, deleted.id)
  }

  /** The form a header edit starts from, and returns to when the drawer closes. */
  function HeaderForm(header: Header): (r: Form)
    ensures r.Keys == {"title", "isHide"}
    ensures r["title"] == Text(header.title)
    ensures Visible(r) == Flag(header.isVisible)
  {
    map["title" := Text(header.title), "isHide" := Flag(!header.isVisible)]
  }

  class EditHeaderDrawer {
    const catalog: Resource<Slot>
    var header: Header
    var form: Form
    var open: bool

    constructor (catalog: Resource<Slot>, header: Header, open: bool)
      ensures this.catalog == catalog && this.header == header && form == HeaderForm(header) && this.open == open
    {
      this.catalog := catalog;
      this.header := header;
      form := HeaderForm(header);
      this.open := open;
    }

    /**
      A re-render with the cached header as the new prop: the row is keyed by
      its id, so the drawer and its state persist and only the prop changes.
    */
    method Rerender(header: Header)
      modifies this
      ensures this.header == header && form == old(form) && open == old(open)
    {
      this.header := header;
    }

    method HandleChange(e: InputEvent)
      modifies this
      ensures header == old(header)
      ensures form == ChangeField(old(form), e) && open == old(open)
    {
      form := ChangeField(form, e);
    }

    /** Closing the drawer discards the edits. */
    method HandleClose()
      modifies this
      ensures header == old(header)
      ensures form == HeaderForm(header) && !open
    {
      open := false;
      form := HeaderForm(header);
    }

    /** handleEditHeader: `response` is the updated header, or the request's error. */
    method HandleEditHeader(response: Result<HeaderPatch, JsError>) returns (toast: Result<Notification, string>)
      modifies this, catalog
      ensures header == old(header)
      ensures var m := Mutated(old(catalog.data), response, EditingHeader());
        && catalog.data == (if m.Ok? then Some(m.value) else old(catalog.data))
        && catalog.log == old(catalog.log)
             + [Sent(Request(PUT, "/header/" + header.id, VisibleBody(old(form), {"title"})))]
             + (if m.Ok? then [Wrote(m.value)] else [])
        && form == old(form)
        && open == (if m.Ok? then false else old(open))
        && toast == Settled(m, "Header updated!")
    {
      var request := Request(PUT, "/header/" + header.id, VisibleBody(form, {"title"}));
      var r := catalog.MutateAsync(request, response, EditingHeader());
      if r.Fail? {
        return HandleError(r.error);
      }
      open := false;
      toast := Ok(SuccessToast("Header updated!"));
    }

    /** handleDeleteHeader: `response` is the deleted header, or the request's error. */
    method HandleDeleteHeader(response: Result<Header, JsError>) returns (toast: Result<Notification, string>)
      modifies this, catalog
      ensures header == old(header)
      ensures var m := Mutated(old(catalog.data), response, DeletingHeader());
        && catalog.data == (if m.Ok? then Some(m.value) else old(catalog.data))
        && catalog.log == old(catalog.log) + [Sent(Request(DELETE, "/header/" + header.id, map[]))]
                            + (if m.Ok? then [Wrote(m.value)] else [])
        && form == old(form)
        && open == (if m.Ok? then false else old(open))
        && toast == Settled(m, "Header deleted!")
    {
      var request := Request(DELETE, "/header/" + header.id, map[]);
      var r := catalog.MutateAsync(request, response, DeletingHeader());
      if r.Fail? {
        return HandleError(r.error);
      }
      open := false;
      toast := Ok(SuccessToast("Header deleted!"));
    }
  }

  /** A file the dropzone accepted. */
  datatype File = File(name: string, size: int)

  const TooLarge := "Maximum file size is 5 MB"

  /** The image remove updater, by the id of the image the server deleted. */
  function RemovingImage(): (seq<CatalogEntry>, Image) -> Result<seq<CatalogEntry>, string>
  {
    (prev: seq<CatalogEntry>, deleted: Image) => Ok(RemoveImage(prev, deleted.id))
  }

  /** The image save updater: the item with the returned id shows the returned image. */
  function SavingImage(): (seq<CatalogEntry>, (Id, Image)) -> Result<seq<CatalogEntry>, string>
  {
    (prev: seq<CatalogEntry>, saved: (Id, Image)) => Ok(SaveImage(prev, saved.0, saved.1))
  }

  class EditItemImageDrawer {
    const catalog: Resource<Slot>
    var item: Item
    var file: Option<File>
    var open: bool

    constructor (catalog: Resource<Slot>, item: Item, open: bool)
      ensures this.catalog == catalog && this.item == item && file.None? && this.open == open
    {
      this.catalog := catalog;
      this.item := item;
      file := None;
      this.open := open;
    }

    /**
      A re-render with the cached item as the new prop: the row is keyed by
      its id, so the drawer and its state persist and only the prop changes.
    */
    method Rerender(item: Item)
      modifies this
      ensures this.item == item && file == old(file) && open == old(open)
    {
      this.item := item;
    }

    /**
      onDrop: the first accepted file is selected; with none accepted (the
      one dropped was too large or not an image) an error toast is shown.
    */
    method SelectFile(accepted: seq<File>) returns (toast: Option<Notification>)
      modifies this
      ensures item == old(item)
      ensures accepted != [] ==> file == Some(accepted[0]) && toast.None?
      ensures accepted == [] ==> file == old(file) && toast == Some(ErrorToast("Image", TooLarge))
      ensures open == old(open)
    {
      if accepted != [] {
        file := Some(accepted[0]);
        return None;
      }
      toast := Some(ErrorToast("Image", TooLarge));
    }

    method HandleClose()
      modifies this
      ensures item == old(item)
      ensures file.None? && !open
    {
      file := None;
      open := false;
    }

    /**
      handleRemove: an item without an image sends nothing and only clears
      the selected file; otherwise `DELETE /images/{id}`, whose `response`
      is the deleted image or the error. The drawer stays open.
    */
    method HandleRemove(response: Result<Image, JsError>) returns (toast: Option<Result<Notification, string>>)
      modifies this, catalog
      ensures item == old(item)
      ensures item.image.None? ==>
        && catalog.data == old(catalog.data) && catalog.log == old(catalog.log)
        && file.None? && toast.None?
      ensures item.image.Some? ==>
        var m := Mutated(old(catalog.data), response, RemovingImage());
        && catalog.data == (if m.Ok? then Some(m.value) else old(catalog.data))
        && catalog.log == old(catalog.log) + [Sent(Request(DELETE, "/images/" + item.image.value.id, map[]))]
                            + (if m.Ok? then [Wrote(m.value)] else [])
        && file == (if m.Ok? then None else old(file))
        && toast == Some(Settled(m, "Image removed!"))
      ensures open == old(open)
    {
      if item.image.Some? {
        var request := Request(DELETE, "/images/" + item.image.value.id, map[]);
        var r := catalog.MutateAsync(request, response, RemovingImage());
        if r.Fail? {
          return Some(HandleError(r.error));
        }
        toast := Some(Ok(SuccessToast("Image removed!")));
      } else {
        toast := None;
      }
      file := None;
    }

    /**
      handleSave: `POST /items/{id}/image` with the selected file; `response`
      is the id of the item and its new image, or the error. On success the
      drawer closes and the selection is cleared.
    */
    method HandleSave(response: Result<(Id, Image), JsError>) returns (toast: Result<Notification, string>)
      modifies this, catalog
      ensures item == old(item)
      ensures var m := Mutated(old(catalog.data), response, SavingImage());
        && catalog.data == (if m.Ok? then Some(m.value) else old(catalog.data))
        && catalog.log == old(catalog.log) + [Sent(Request(POST, "/items/" + item.id + "/image", map[]))]
                            + (if m.Ok? then [Wrote(m.value)] else [])
        && file == (if m.Ok? then None else old(file))
        && open == (if m.Ok? then false else old(open))
        && toast == Settled(m, "Image updated!")
    {
      var request := Request(POST, "/items/" + item.id + "/image", map[]);
      var r := catalog.MutateAsync(request, response, SavingImage());
      if r.Fail? {
        return HandleError(r.error);
      }
      HandleClose();
      toast := Ok(SuccessToast("Image updated!"));
    }
  }
}
