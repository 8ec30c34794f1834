/** `URLReader` and the `_NSURLSessionBackgroundReader` state machine behind it.
    The network is replaced by the events it sends (data chunks and completion), and the
    `callAfter` dispatch to the main thread by appending to the `delivered` queue. */
module UrlReader {
  import opened Common
  import opened Urls

  /** `DEFAULT_TIMEOUT`, in seconds. */
  const DefaultTimeout: int := 10

  /** `timeoutIntervalForResource` of a default session configuration: seven days. */
  const DefaultResourceTimeout: int := 604800

  /** The identity of the Python callable handed to `fetch`. */
  type CallbackId = nat

  /** The data task, by the string of its `currentRequest().URL()`: the requested URL, or where
      a redirect led. */
  datatype Task = Task(url: string)

  /** The session, created from the configuration as it was at that moment. */
  datatype Session = Session(timeout: int, waitsForConnectivity: bool)

  /** One `callAfter(callback, str(url), data, error)`. */
  datatype Delivery = Delivery(callback: CallbackId, url: string, data: seq<byte>, error: Option<string>)

  /** The concatenation of the received chunks, in order. */
  function Concat(chunks: seq<seq<byte>>): seq<byte>
  {
    if chunks == [] then [] else chunks[0] + Concat(chunks[1..])
  }

  lemma {:induction false} ConcatAppend(chunks: seq<seq<byte>>, chunk: seq<byte>)
    ensures Concat(chunks + [chunk]) == Concat(chunks) + chunk
  {
    if chunks == [] {
      assert [] + [chunk] == [chunk];
      assert Concat([chunk]) == chunk + Concat([]);
    } else {
      assert (chunks + [chunk])[1..] == chunks[1..] + [chunk];
      ConcatAppend(chunks[1..], chunk);
    }
  }

  class BackgroundReader {
    var session: Option<Session>
    var task: Option<Task>
    /** The callback of the running fetch; `None` when the fetch was given none. */
    var callback: Option<CallbackId>
    var done: bool
    var data: seq<byte>
    // the session configuration
    var timeout: int
    var waitsForConnectivity: bool
    /** The callbacks dispatched to the main thread, oldest first. */
    var delivered: seq<Delivery>
    /** The chunks received since the last fetch. */
    ghost var chunks: seq<seq<byte>>

    /** A busy reader has a task; a stored callback belongs to a task; the buffer is the
        concatenation of the chunks received since the last fetch. */
    ghost predicate Valid()
      reads this
    {
      && (!done ==> task.Some?)
      && (callback.Some? ==> task.Some?)
      && data == Concat(chunks)
    }

    /** `init`: idle, no session, no task, no callback, an empty buffer. */
    constructor ()
      ensures Valid()
      ensures done && session == None && task == None && callback == None && data == []
      ensures timeout == DefaultResourceTimeout && waitsForConnectivity
      ensures delivered == []
    {
      session, task, callback := None, None, None;
      done := true;
      data := [];
      chunks := [];
      timeout := DefaultResourceTimeout;
      waitsForConnectivity := true;
      delivered := [];
    }

    method SetTimeout(t: int)
      modifies this`timeout
      ensures timeout == t
    {
      timeout := t;
    }

    /** `makeSessionWithTimeout_`: the timeout is always updated, a session is created only if
        there is none yet. */
    method MakeSessionWithTimeout(t: int)
      requires Valid()
      modifies this`timeout, this`session
      ensures Valid()
      ensures timeout == t
      ensures session == if old(session) == None then Some(Session(t, waitsForConnectivity)) else old(session)
    {
      SetTimeout(t);
      if session == None {
        session := Some(Session(timeout, waitsForConnectivity));
      }
    }

    /** `fetchURLOnBackgroundThread_withCallback_`. An idle reader takes the fetch: it stores the
        task and the callback (which may be `None`), empties the buffer and becomes busy. A busy reader raises
        RuntimeError whatever the URL and changes nothing; so does an idle reader without a
        session (the missing session has no `dataTaskWithURL_`). */
    method FetchURL(url: string, cb: Option<CallbackId>) returns (r: Outcome)
      requires Valid()
      modifies this`task, this`callback, this`done, this`data, this`chunks
      ensures Valid()
      ensures r.Pass? <==> old(done) && session.Some?
      ensures !old(done) ==> r == Fail(RuntimeError("Cannot fetch " + url + ", busy downloading: " + old(task).value.url))
      ensures old(done) && session == None ==> r == Fail(AttributeError("dataTaskWithURL_"))
      ensures r.Pass? ==> task == Some(Task(url)) && callback == cb && !done && data == [] && chunks == []
      ensures r.Fail? ==> (task == old(task) && callback == old(callback) && done == old(done) && data == old(data)
                           && chunks == old(chunks))
    {
      if done {
        if session == None {
          return Fail(AttributeError("dataTaskWithURL_"));
        }
        task := Some(Task(url));
        callback := cb;
        done := false;
        data := [];
        chunks := [];
        r := Pass;
      } else {
        r := Fail(RuntimeError("Cannot fetch " + url + ", busy downloading: " + task.value.url));
      }
    }

    /** `URLSession_dataTask_didReceiveData_`: the chunk is appended to the buffer. */
    method ReceiveData(chunk: seq<byte>)
      requires Valid()
      modifies this`data, this`chunks
      ensures Valid()
      ensures data == old(data) + chunk
      ensures chunks == old(chunks) + [chunk]
    {
      data := data + chunk;
      chunks := chunks + [chunk];
      ConcatAppend(old(chunks), chunk);
    }

    /** The session following an HTTP redirect of the running task: its current request, and
        so `currentRequest().URL()`, becomes the new location. */
    method Redirect(location: string)
      requires Valid()
      modifies this`task
      ensures Valid()
      ensures task == if old(task).Some? then Some(Task(location)) else None
    {
      if task.Some? {
        task := Some(Task(location));
      }
    }

    /** `URLSession_task_didCompleteWithError_`: with a callback stored, one
        `(current request URL, buffer, error)` triple is dispatched and the reader is idle again.
        The error is passed on as given; nothing is retried. Without a callback nothing is
        dispatched and the reader stays busy: only the branch with a callback sets `done`. */
    method CompleteWithError(error: Option<string>)
      requires Valid()
      modifies this`delivered, this`done
      ensures Valid()
      ensures old(callback).Some? ==>
                && done
                && delivered == old(delivered) + [Delivery(callback.value, task.value.url, data, error)]
      ensures old(callback) == None ==> done == old(done) && delivered == old(delivered)
    {
      if callback.Some? {
        delivered := delivered + [Delivery(callback.value, task.value.url, data, error)];
        done := true;
      }
    }

    method Done() returns (d: bool)
      ensures d == done
    {
      d := done;
    }
  }

  class URLReader {
    const reader: BackgroundReader
    const quoteUrlPath: bool
    const forceHttps: bool

    /** `URLReader.__init__`: a fresh idle reader whose session has the given timeout. */
    constructor (timeout: int, quoteUrlPath: bool, forceHttps: bool)
      ensures fresh(reader) && reader.Valid()
      ensures reader.done && reader.task == None && reader.callback == None && reader.data == []
      ensures reader.timeout == timeout && reader.session == Some(Session(timeout, true))
      ensures reader.delivered == []
      ensures this.quoteUrlPath == quoteUrlPath && this.forceHttps == forceHttps
    {
      var rd := new BackgroundReader();
      rd.MakeSessionWithTimeout(timeout);
      reader := rd;
      this.quoteUrlPath := quoteUrlPath;
      this.forceHttps := forceHttps;
    }

    /** The `done` property. */
    function Done(): bool
      reads reader
    {
      reader.done
    }

    /** `URLReader.fetch`: when its flag is set the path is quoted, then, when its flag is set,
        the scheme upgraded; each step parses the string the previous one produced. The
        resulting string goes to the background reader. A URL that `urlparse` rejects in one of
        these steps raises its ValueError and changes nothing; with both flags off the URL is
        passed on as it is and never parsed. */
    method Fetch(url: string, cb: Option<CallbackId>) returns (r: Outcome)
      requires reader.Valid()
      modifies reader`task, reader`callback, reader`done, reader`data, reader`chunks
      ensures reader.Valid()
      ensures var t := Target(url, quoteUrlPath, forceHttps);
              && (t.Err? ==> r == Fail(t.error) && unchanged(reader))
              && (t.Ok? ==>
                    && (r.Pass? <==> old(reader.done) && reader.session.Some?)
                    && (!old(reader.done) ==>
                          r == Fail(RuntimeError("Cannot fetch " + t.value + ", busy downloading: " + old(reader.task).value.url)))
                    && (r.Pass? ==> reader.task == Some(Task(t.value)) && reader.callback == cb && !reader.done
                                    && reader.data == [])
                    && (r.Fail? ==> reader.task == old(reader.task) && reader.callback == old(reader.callback)
                                    && reader.done == old(reader.done) && reader.data == old(reader.data)))
    {
      var target := url;
      if quoteUrlPath {
        var quoted := QuoteUrlPathText(target);
        if quoted.Err? {
          return Fail(quoted.error);
        }
        target := quoted.value;
      }
      if forceHttps {
        var upgraded := HttpsUrlSchemeText(target);
        if upgraded.Err? {
          return Fail(upgraded.error);
        }
        target := upgraded.value;
      }
      r := reader.FetchURL(target, cb);
    }
  }

  /** `URLReader.quote_url_path`: the URL parsed, its path quoted, and written back. Only a URL
      that `urlparse` rejects fails, with that error; the scheme stays in front and the fragment
      at the end. */
  function QuoteUrlPathText(url: string): (r: Result<string>)
    ensures r.Err? <==> Parse(url).Err?
    ensures r.Err? ==> r == Err(Parse(url).error)
    ensures r.Ok? ==> var u := Parse(url).value;
                      && (u.scheme != "" ==> |u.scheme| < |r.value| && r.value[..|u.scheme| + 1] == u.scheme + ":")
                      && (u.fragment != "" ==> |u.fragment| < |r.value|
                                               && r.value[|r.value| - |u.fragment| - 1..] == "#" + u.fragment)
  {
    match Parse(url)
    case Err(e) => Err(e)
    case Ok(u) => Ok(Unparse(QuoteUrlPath(u)))
  }

  /** `URLReader.https_url_scheme`: a URL parsed with scheme `http` is written back with scheme
      `https`; any other URL is returned as the same string. Only a URL that `urlparse` rejects
      fails. What comes out is never read back as `http`. */
  function HttpsUrlSchemeText(url: string): (r: Result<string>)
    ensures r.Err? <==> Parse(url).Err?
    ensures r.Err? ==> r == Err(Parse(url).error)
    ensures r.Ok? && Parse(url).value.scheme != "http" ==> r.value == url
    ensures r.Ok? && Parse(r.value).Ok? ==> Parse(r.value).value.scheme != "http"
  {
    match Parse(url)
    case Err(e) => Err(e)
    case Ok(u) =>
      if u.scheme == "http" then
        UpgradedParsesAsHttps(u);
        Ok(Unparse(HttpsUrlScheme(u)))
      else Ok(url)
  }

  /** The string `URLReader.fetch` hands to the background reader: quoted when `quotePath`,
      then upgraded when `forceHttps`. With both flags off the URL passes as it is; it can
      only fail when a flag is set, with the ValueError of `urlparse`; a URL `urlparse` rejects
      fails whichever flag is set; and with `forceHttps` the result is never read back as
      `http`. */
  function Target(url: string, quotePath: bool, forceHttps: bool): (r: Result<string>)
    ensures !quotePath && !forceHttps ==> r == Ok(url)
    ensures r.Err? ==> (quotePath || forceHttps) && r.error == ValueError("Invalid IPv6 URL")
    ensures (quotePath || forceHttps) && Parse(url).Err? ==> r == Err(Parse(url).error)
    ensures forceHttps && r.Ok? && Parse(r.value).Ok? ==> Parse(r.value).value.scheme != "http"
  {
    var quoted := if quotePath then QuoteUrlPathText(url) else Ok(url);
    if quoted.Err? || !forceHttps then quoted else HttpsUrlSchemeText(quoted.value)
  }

  /** One fetch from start to finish, with a second fetch rejected while the first runs: the one
      delivery carries the first callback, URL and every chunk in order. */
  method SingleFlightScenario(a: seq<byte>, b: seq<byte>)
    returns (second: Outcome, deliveries: seq<Delivery>, idle: bool)
    ensures second == Fail(RuntimeError("Cannot fetch " + "https://example.com/b.json" + ", busy downloading: "
                                        + "https://example.com/a%20b.json"))
    ensures deliveries == [Delivery(1, "https://example.com/a%20b.json", a + b, None)]
    ensures idle
  {
    var rd := new URLReader(DefaultTimeout, true, true);
    var r1 := rd.reader.FetchURL("https://example.com/a%20b.json", Some(1));
    second := rd.reader.FetchURL("https://example.com/b.json", Some(2));
    rd.reader.ReceiveData(a);
    rd.reader.ReceiveData(b);
    assert rd.reader.data == [] + a + b == a + b;
    rd.reader.CompleteWithError(None);
    deliveries := rd.reader.delivered;
    idle := rd.Done();
  }

  /** A fetch given no callback is never finished: its completion dispatches nothing, the reader
      stays busy, and every later fetch is refused with RuntimeError naming the first URL. */
  method FetchWithoutCallback(u: string, v: string, chunk: seq<byte>, error: Option<string>, cb: CallbackId)
    returns (busy: bool, delivered: nat, later: Outcome)
    ensures busy && delivered == 0
    ensures later == Fail(RuntimeError("Cannot fetch " + v + ", busy downloading: " + u))
  {
    var rd := new URLReader(DefaultTimeout, true, true);
    var first := rd.reader.FetchURL(u, None);
    rd.reader.ReceiveData(chunk);
    rd.reader.CompleteWithError(error);
    busy := !rd.Done();
    delivered := |rd.reader.delivered|;
    later := rd.reader.FetchURL(v, Some(cb));
  }

  /** After a redirect, the completion reports where the download ended, not what was asked. */
  method RedirectedDelivery(u: string, location: string, chunk: seq<byte>) returns (d: Delivery)
    ensures d == Delivery(7, location, chunk, None)
  {
    var rd := new URLReader(DefaultTimeout, false, false);
    var r := rd.reader.FetchURL(u, Some(7));
    rd.reader.Redirect(location);
    rd.reader.ReceiveData(chunk);
    assert rd.reader.data == [] + chunk == chunk;
    rd.reader.CompleteWithError(None);
    d := rd.reader.delivered[0];
  }
}
