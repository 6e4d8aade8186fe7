/**
  The SWR cache entry of one collection (`/links` or `/catalog`), shared by
  every component that reads that key, and the requests sent on its behalf.
  `log` records, in order, each request sent, each value written into the
  cache and each re-fetched value, so that "written before sent" can be
  stated. Server responses are parameters: the network is not modelled.
*/
module Swr {
  import opened Wrappers
  import opened Positions
  import opened Forms
  import opened ErrorHandling

  datatype Verb = GET | POST | PUT | DELETE

  datatype Request = Request(verb: Verb, path: string, body: Form)

  datatype Event<P> = Sent(request: Request) | Wrote(value: seq<Entry<P>>) | Fetched(value: seq<Entry<P>>)

  /** What an async updater throws when the cache holds nothing yet (`prev.data` of undefined). */
  const NoPrevious := "Cannot read properties of undefined (reading 'data')"

  /**
    What an async updater yields for the cached value `data`: the updated
    list, or the error that the request's failure, a missing value or the
    update itself throws.
  */
  function Mutated<P, R>(data: Option<seq<Entry<P>>>, response: Result<R, JsError>,
                         update: (seq<Entry<P>>, R) -> Result<seq<Entry<P>>, string>): (r: Result<seq<Entry<P>>, JsError>)
    ensures r.Ok? <==> response.Ok? && data.Some? && update(data.value, response.value).Ok?
    ensures r.Ok? ==> r.value == update(data.value, response.value).value
    ensures response.Err? ==> r == Err(response.error)
    ensures response.Ok? && data.None? ==> r == Err(JsError(NoPrevious, None))
    ensures response.Ok? && data.Some? && r.Err? ==> r.error == JsError(update(data.value, response.value).error, None)
  {
    if response.Err? then Err(response.error)
    else if data.None? then Err(JsError(NoPrevious, None))
    else match update(data.value, response.value)
      case Ok(v) => Ok(v)
      case Err(e) => Err(JsError(e, None))
  }

  /** The create updater: the created entry first, every prior entry one position down. */
  function Prepending<P>(): (seq<Entry<P>>, Entry<P>) -> Result<seq<Entry<P>>, string>
  {
    (prev: seq<Entry<P>>, created: Entry<P>) => Ok(Prepend(prev, created))
  }

  /** The toast a drawer shows once its request has settled: success, or the error's. */
  function Settled<T>(m: Result<T, JsError>, success: string): (r: Result<Notification, string>)
    ensures m.Ok? ==> r == Ok(SuccessToast(success))
    ensures m.Err? ==> r == HandleError(m.error)
  {
    if m.Ok? then Ok(SuccessToast(success)) else HandleError(m.error)
  }

  class Resource<P> {
    const key: string
    var data: Option<seq<Entry<P>>>
    var log: seq<Event<P>>

    constructor (key: string, data: Option<seq<Entry<P>>>)
      ensures this.key == key && this.data == data && log == []
    {
      this.key := key;
      this.data := data;
      log := [];
    }

    /** `mutate(prev => ({...prev, data: value}), false)`: a local write, no request. */
    method Write(value: seq<Entry<P>>)
      modifies this
      ensures data == Some(value) && log == old(log) + [Wrote(value)]
    {
      data := Some(value);
      log := log + [Wrote(value)];
    }

    /** A request sent on behalf of this collection. */
    method Send(request: Request)
      modifies this
      ensures data == old(data) && log == old(log) + [Sent(request)]
    {
      log := log + [Sent(request)];
    }

    /**
      `mutate()`: re-fetch the key. `fetched` is the server's list, or None
      when the re-fetch fails, which leaves the cached value in place.
    */
    method Revalidate(fetched: Option<seq<Entry<P>>>)
      modifies this
      ensures data == (if fetched.Some? then fetched else old(data))
      ensures log == old(log) + [Sent(Request(GET, key, map[]))]
                    + (if fetched.Some? then [Fetched(fetched.value)] else [])
    {
      log := log + [Sent(Request(GET, key, map[]))];
      if fetched.Some? {
        data := fetched;
        log := log + [Fetched(fetched.value)];
      }
    }

    /**
      `mutate(async prev => { res = await request; return update(prev, res) }, false)`:
      the request goes out first; the cache takes the updater's value only
      if the request succeeds, the cache holds a value and the update does
      not throw; otherwise the error is rethrown and the cache is untouched.
    */
    method MutateAsync<R>(request: Request, response: Result<R, JsError>,
                          update: (seq<Entry<P>>, R) -> Result<seq<Entry<P>>, string>)
      returns (r: Outcome<JsError>)
      modifies this
      ensures var m := Mutated(old(data), response, update);
        && r == (if m.Ok? then Pass else Fail(m.error))
        && data == (if m.Ok? then Some(m.value) else old(data))
        && log == old(log) + [Sent(request)] + (if m.Ok? then [Wrote(m.value)] else [])
    {
      Send(request);
      if response.Err? {
        return Fail(response.error);
      }
      if data.None? {
        return Fail(JsError(NoPrevious, None));
      }
      var next := update(data.value, response.value);
      if next.Err? {
        return Fail(JsError(next.error, None));
      }
      Write(next.value);
      r := Pass;
    }
  }
}
