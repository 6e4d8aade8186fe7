/**
  The drawers that create, edit and delete a link. Each holds the React
  state of its form and whether it is open, and writes the links cache
  through an async updater: the request goes out, and only if it succeeds
  is the cached list updated, the drawer closed and a success toast shown;
  otherwise the error becomes a toast and the form is kept.
*/
module LinkDrawers {
  import opened Wrappers
  import opened Positions
  import opened Forms
  import opened ErrorHandling
  import opened Swr
  import opened Links

  const EmptyLinkForm: Form := map["title" := Text(""), "href" := Text("")]

  /** The edit updater. */
  function Editing(): (seq<Link>, LinkPatch) -> Result<seq<Link>, string>
  {
    (prev: seq<Link>, patch: LinkPatch) => Ok(EditLinks(prev, patch))
  }

  /** The delete updater. */
  function Deleting(): (seq<Link>, Link) -> Result<seq<Link>, string>
  {
    (prev: seq<Link>, deleted: Link) => Ok(DeleteLinks(prev, deleted))
  }

  class AddLinkDrawer {
    const links: Resource<LinkInfo>
    var form: Form
    var open: bool

    constructor (links: Resource<LinkInfo>, open: bool)
      ensures this.links == links && form == EmptyLinkForm && this.open == open
    {
      this.links := links;
      form := EmptyLinkForm;
      this.open := open;
    }

    /** handleChange: the named field takes the input's value. */
    method HandleChange(e: InputEvent)
      modifies this
      ensures form == ChangeText(old(form), e) && open == old(open)
    {
      form := ChangeText(form, e);
    }

    /**
      handleAddLink: `POST /links` with the title and href; `response` is the
      created link or the request's error.
    */
    method HandleAddLink(response: Result<Link, JsError>) returns (toast: Result<Notification, string>)
      modifies this, links
      ensures var m := Mutated(old(links.data), response, Prepending());
        && links.data == (if m.Ok? then Some(m.value) else old(links.data))
        && links.log == old(links.log) + [Sent(Request(POST, "/links", Pick(old(form), {"title", "href"})))]
                          + (if m.Ok? then [Wrote(m.value)] else [])
        && form == (if m.Ok? then EmptyLinkForm else old(form))
        && open == (if m.Ok? then false else old(open))
        && toast == Settled(m, "Link created!")
    {
      var request := Request(POST, "/links", Pick(form, {"title", "href"}));
      var r := links.MutateAsync(request, response, Prepending());
      if r.Fail? {
        return HandleError(r.error);
      }
      open := false;
      toast := Ok(SuccessToast("Link created!"));
      form := EmptyLinkForm;
    }
  }

  /** The form an edit drawer starts from: the link's fields, `isHide` the negation of `isVisible`. */
  function LinkForm(link: Link): (r: Form)
    ensures r.Keys == {"title", "href", "isHide"}
    ensures r["title"] == Text(link.payload.title) && r["href"] == Text(link.payload.href)
    ensures Visible(r) == Flag(link.payload.isVisible)
  {
    map["title" := Text(link.payload.title), "href" := Text(link.payload.href),
        "isHide" := Flag(!link.payload.isVisible)]
  }

  class EditLinkDrawer {
    const links: Resource<LinkInfo>
    var link: Link
    var form: Form
    var open: bool

    constructor (links: Resource<LinkInfo>, link: Link, open: bool)
      ensures this.links == links && this.link == link && form == LinkForm(link) && this.open == open
    {
      this.links := links;
      this.link := link;
      form := LinkForm(link);
      this.open := open;
    }

    /**
      A re-render with the cached link as the new prop: the row is keyed by
      its id, so the drawer and its state persist and only the prop changes.
    */
    method Rerender(link: Link)
      modifies this
      ensures this.link == link && form == old(form) && open == old(open)
    {
      this.link := link;
    }

    /** handleChange: the `isHide` switch stores `checked`, any other field `value`. */
    method HandleChange(e: InputEvent)
      modifies this
      ensures link == old(link)
      ensures form == ChangeField(old(form), e) && open == old(open)
    {
      form := ChangeField(form, e);
    }

    /** handleEditLink: `response` is the updated link the server returns, or the error. */
    method HandleEditLink(response: Result<LinkPatch, JsError>) returns (toast: Result<Notification, string>)
      modifies this, links
      ensures link == old(link)
      ensures var m := Mutated(old(links.data), response, Editing());
        && links.data == (if m.Ok? then Some(m.value) else old(links.data))
        && links.log == old(links.log) + [Sent(Request(PUT, "/links/" + link.id, VisibleBody(old(form), {"title", "href"})))]
                          + (if m.Ok? then [Wrote(m.value)] else [])
        && form == old(form)
        && open == (if m.Ok? then false else old(open))
        && toast == Settled(m, "Link updated!")
    {
      var request := Request(PUT, "/links/" + link.id, VisibleBody(form, {"title", "href"}));
      var r := links.MutateAsync(request, response, Editing());
      if r.Fail? {
        return HandleError(r.error);
      }
      open := false;
      toast := Ok(SuccessToast("Link updated!"));
    }

    /** handleDeleteLink: `response` is the deleted link the server returns, or the error. */
    method HandleDeleteLink(response: Result<Link, JsError>) returns (toast: Result<Notification, string>)
      modifies this, links
      ensures link == old(link)
      ensures var m := Mutated(old(links.data), response, Deleting());
        && links.data == (if m.Ok? then Some(m.value) else old(links.data))
        && links.log == old(links.log) + [Sent(Request(DELETE, "/links/" + link.id, map[]))]
                          + (if m.Ok? then [Wrote(m.value)] else [])
        && form == old(form)
        && open == (if m.Ok? then false else old(open))
        && toast == Settled(m, "Link deleted!")
    {
      var request := Request(DELETE, "/links/" + link.id, map[]);
      var r := links.MutateAsync(request, response, Deleting());
      if r.Fail? {
        return HandleError(r.error);
      }
      open := false;
      toast := Ok(SuccessToast("Link deleted!"));
    }
  }
}
