/** The request handlers of the modular router (upload, fetch, next,
    previous) reduced to their effect on the registry and to the filename or
    error kind they answer with, and runs of many requests from a state. */
module Routes {
  import opened Wrappers
  import opened Registry

  /** The four registry-facing endpoints; an upload carries its file part, if any. */
  datatype Request = PostUpload(file: Option<string>) | GetFetch | GetNext | GetPrevious

  /** A request that puts a new image into the registry. */
  predicate AddsImage(r: Request) {
    r.PostUpload? && r.file.Some?
  }

  /** One request: an upload without a file is refused (400), fetch is gated
      by `canFetchImage` (204 when closed), next and previous go straight to
      the registry. */
  function Handle(s: State, r: Request): (o: Step)
    ensures Valid(s) ==> Valid(o.state)
    ensures r == PostUpload(None) ==> o == Step(s, Err(NoFile))
    ensures AddsImage(r) ==> o == Step(Add(s, r.file.value), Ok(r.file.value))
    ensures r == GetFetch && !CanFetch(s) ==> o == Step(s, Err(NotAvailable))
    ensures r == GetFetch && CanFetch(s) ==>
      o.reply == Ok(s.images[|s.images| - 1]) && !CanFetch(o.state)
      && o.state == FetchLatest(s).state
    ensures !AddsImage(r) ==> o.state.images == s.images && (s.fetched ==> o.state.fetched)
  {
    match r
    case PostUpload(None) => Step(s, Err(NoFile))
    case PostUpload(Some(f)) => Step(Add(s, f), Ok(f))
    case GetFetch => if CanFetch(s) then FetchLatest(s) else Step(s, Err(NotAvailable))
    case GetNext => Next(s)
    case GetPrevious => Previous(s)
  }

  /** The final state of a run and the reply to each request, in order. */
  datatype Trace = Trace(state: State, replies: seq<Result<string, Error>>)

  /** Feed `requests` one after the other through `handle`, starting at `s`. */
  function Replay(handle: (State, Request) -> Step, s: State, requests: seq<Request>): (t: Trace)
    ensures |t.replies| == |requests|
    ensures |requests| > 0 ==> t.replies[0] == handle(s, requests[0]).reply
    decreases |requests|
  {
    if |requests| == 0 then Trace(s, [])
    else
      var o := handle(s, requests[0]);
      var rest := Replay(handle, o.state, requests[1..]);
      Trace(rest.state, [o.reply] + rest.replies)
  }

  /** A run of the modular server. */
  function Run(s: State, requests: seq<Request>): (t: Trace)
    ensures |t.replies| == |requests|
  {
    Replay(Handle, s, requests)
  }

  /** Uploads of the given files, one request per file. */
  function Uploads(files: seq<string>): (rs: seq<Request>)
    ensures |rs| == |files|
    ensures forall i :: 0 <= i < |files| ==> rs[i] == PostUpload(Some(files[i]))
  {
    seq(|files|, i requires 0 <= i < |files| => PostUpload(Some(files[i])))
  }

  /** Every request keeps the cursor invariant, so a run does too. */
  lemma {:induction false} RunKeepsValid(s: State, requests: seq<Request>)
    requires Valid(s)
    ensures Valid(Run(s, requests).state)
    decreases |requests|
  {
    if |requests| > 0 {
      RunKeepsValid(Handle(s, requests[0]).state, requests[1..]);
    }
  }

  /** Every state the server can reach from process start satisfies the invariant. */
  lemma ReachableValid(requests: seq<Request>)
    ensures Valid(Run(Init(), requests).state)
  {
    RunKeepsValid(Init(), requests);
  }

  /** Fetching twice with no upload in between: the second fetch answers 204. */
  lemma FetchTwice(s: State)
    ensures Handle(Handle(s, GetFetch).state, GetFetch).reply == Err(NotAvailable)
  {
  }

  /** Once the gate is closed it stays closed, and every fetch answers 204,
      until a request adds an image. */
  lemma {:induction false} GateStaysClosed(s: State, requests: seq<Request>)
    requires s.fetched
    requires forall i :: 0 <= i < |requests| ==> !AddsImage(requests[i])
    ensures Run(s, requests).state.fetched
    ensures forall i :: 0 <= i < |requests| && requests[i] == GetFetch ==>
      Run(s, requests).replies[i] == Err(NotAvailable)
    decreases |requests|
  {
    if |requests| > 0 {
      var o := Handle(s, requests[0]);
      var rest := requests[1..];
      assert forall i :: 0 <= i < |rest| ==> rest[i] == requests[i + 1];
      GateStaysClosed(o.state, rest);
      var t := Run(s, requests);
      assert t.replies == [o.reply] + Run(o.state, rest).replies;
      forall i | 0 <= i < |requests| && requests[i] == GetFetch
        ensures t.replies[i] == Err(NotAvailable)
      {
        if i > 0 {
          assert t.replies[i] == Run(o.state, rest).replies[i - 1];
        }
      }
    }
  }

  /** Uploads append their files in order, each answered with its filename,
      and a fetch right after serves the last one. */
  lemma {:induction false} UploadsAreListed(s: State, files: seq<string>)
    ensures List(Run(s, Uploads(files)).state) == s.images + files
    ensures Run(s, Uploads(files)).replies == seq(|files|, i requires 0 <= i < |files| => Ok(files[i]))
    ensures |files| > 0 ==> Handle(Run(s, Uploads(files)).state, GetFetch).reply == Ok(files[|files| - 1])
    decreases |files|
  {
    var t := Run(s, Uploads(files));
    if |files| > 0 {
      var s1 := Add(s, files[0]);
      assert Uploads(files)[1..] == Uploads(files[1..]);
      UploadsAreListed(s1, files[1..]);
      assert s1.images + files[1..] == s.images + files;
      assert t.state == Run(s1, Uploads(files[1..])).state;
      if |files| > 1 {
        assert files[1..][|files| - 2] == files[|files| - 1];
      } else {
        assert t.state == s1;
      }
    }
  }

  /** Add, fetch, add, fetch: both fetches serve the image added just before. */
  lemma AddResetsGate(s: State, a: string, b: string)
    ensures Run(s, [PostUpload(Some(a)), GetFetch, PostUpload(Some(b)), GetFetch]).replies
      == [Ok(a), Ok(a), Ok(b), Ok(b)]
  {
    var rs := [PostUpload(Some(a)), GetFetch, PostUpload(Some(b)), GetFetch];
    var s1 := Add(s, a);
    var s2 := FetchLatest(s1).state;
    var s3 := Add(s2, b);
    assert rs[1..] == [GetFetch, PostUpload(Some(b)), GetFetch];
    assert rs[2..] == [PostUpload(Some(b)), GetFetch];
    assert rs[3..] == [GetFetch];
    assert Run(s3, rs[3..]).replies == [Ok(b)];
    assert Run(s2, rs[2..]).replies == [Ok(b), Ok(b)];
    assert Run(s1, rs[1..]).replies == [Ok(a), Ok(b), Ok(b)];
  }

  /** Before any upload, next and previous answer "no images" and fetch answers 204. */
  lemma EmptyRegistry()
    ensures Run(Init(), [GetNext, GetPrevious, GetFetch]).replies
      == [Err(NoImages), Err(NoImages), Err(NotAvailable)]
  {
    var rs := [GetNext, GetPrevious, GetFetch];
    assert rs[1..] == [GetPrevious, GetFetch];
    assert rs[2..] == [GetFetch];
  }

  /** Upload x then y, fetch the latest, then step forward and back: the
      cursor moves on its own, independent of the fetch gate. */
  lemma TwoUploadsWalk()
    ensures Run(Init(), [PostUpload(Some("x.jpg")), PostUpload(Some("y.jpg")), GetFetch, GetNext, GetPrevious]).replies
      == [Ok("x.jpg"), Ok("y.jpg"), Ok("y.jpg"), Ok("x.jpg"), Ok("y.jpg")]
  {
    var rs := [PostUpload(Some("x.jpg")), PostUpload(Some("y.jpg")), GetFetch, GetNext, GetPrevious];
    var s1 := Add(Init(), "x.jpg");
    var s2 := Add(s1, "y.jpg");
    var s3 := FetchLatest(s2).state;
    var s4 := Next(s3).state;
    assert rs[1..] == [PostUpload(Some("y.jpg")), GetFetch, GetNext, GetPrevious];
    assert rs[2..] == [GetFetch, GetNext, GetPrevious];
    assert rs[3..] == [GetNext, GetPrevious];
    assert rs[4..] == [GetPrevious];
    assert Run(s4, rs[4..]).replies == [Ok("y.jpg")];
    assert Run(s3, rs[3..]).replies == [Ok("x.jpg"), Ok("y.jpg")];
    assert Run(s2, rs[2..]).replies == [Ok("y.jpg"), Ok("x.jpg"), Ok("y.jpg")];
    assert Run(s1, rs[1..]).replies == [Ok("y.jpg"), Ok("y.jpg"), Ok("x.jpg"), Ok("y.jpg")];
  }

  /** The `/fetch` handler of the modular router as written. Once
      `canFetchImage` admits the request, `fetchLastImagePath` closes the
      gate; the handler then calls `imageService.getImageOrientation`, which
      the service object does not have, so a TypeError ends the request with
      a 500 before the file is sent. It leaves the registry exactly as the
      corrected handler does, but never serves a file. */
  function FetchAsWritten(s: State): (o: Step)
    ensures o.state == Handle(s, GetFetch).state
    ensures o.reply.Err?
    ensures !CanFetch(s) ==> o.reply == Err(NotAvailable)
    ensures CanFetch(s) ==> o.reply == Err(NoOrientation) && !CanFetch(o.state)
  {
    if !CanFetch(s) then Step(s, Err(NotAvailable))
    else
      var fetched := FetchLatest(s);
      Step(fetched.state, Err(NoOrientation))
  }

  /** As written, a fresh upload is never delivered by `/fetch`: the first
      fetch fails with a 500 after closing the gate, and the second is told
      there is nothing to fetch. The corrected handler serves it. */
  lemma FetchAsWrittenLosesUpload(f: string)
    ensures FetchAsWritten(Add(Init(), f)).reply == Err(NoOrientation)
    ensures FetchAsWritten(FetchAsWritten(Add(Init(), f)).state).reply == Err(NotAvailable)
    ensures Handle(Add(Init(), f), GetFetch).reply == Ok(f)
  {
  }
}
