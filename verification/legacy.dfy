/** The two earlier single-file servers keep the same registry in module
    variables, but wrap the cursor with an explicit comparison instead of
    `%`, read positions with `Array.prototype.at`, and reject an empty list
    with their own `isValidImageList` check before touching the cursor.
    Their registry logic is the same in both files, so one model covers
    both; it is proved to behave exactly like the registry logic of the
    modular router on every state that satisfies the cursor invariant. */
module Legacy {
  import opened Wrappers
  import Js
  import opened Registry
  import Routes

  /** The cursor after `/next`: the last index wraps to 0, any other advances by one. */
  function NextIndex(i: int, n: int): int {
    if i == n - 1 then 0 else i + 1
  }

  /** The cursor after `/previous`: index 0 wraps to the last index, any other steps back. */
  function PreviousIndex(i: int, n: int): int {
    if i == 0 then n - 1 else i - 1
  }

  /** On a position of a non-empty list the conditional wrap is the modular
      wrap `(i + 1) % n`, and stays a position of the list. */
  lemma NextWrapAgrees(i: int, n: int)
    requires 0 <= i < n
    ensures NextIndex(i, n) == Js.Rem(i + 1, n)
    ensures 0 <= NextIndex(i, n) < n
  {
  }

  /** On a position of a non-empty list the conditional wrap is the modular
      wrap `(i - 1 + n) % n`, and stays a position of the list. */
  lemma PreviousWrapAgrees(i: int, n: int)
    requires 0 <= i < n
    ensures PreviousIndex(i, n) == Js.Rem(i - 1 + n, n)
    ensures 0 <= PreviousIndex(i, n) < n
  {
  }

  /** Off the invariant the index formulations part ways: from the sentinel
      -1 the conditional previous moves the cursor to -2, outside [0, n),
      though `at(-2)` still reads the element the modular wrap reads; from
      one past the end the conditional next runs further out, while the
      modular one comes back into range. */
  lemma WrapsDisagreeOffInvariant(n: int)
    requires n >= 2
    ensures PreviousIndex(-1, n) < 0 <= Js.Rem(-1 - 1 + n, n)
    ensures Js.Rem(n + 1, n) < n < NextIndex(n, n)
  {
  }

  /** `addNewImage` (and `newImage`): the same three assignments as the modular service. */
  function AddNewImage(s: State, filename: string): (s': State)
    ensures s' == Add(s, filename)
  {
    State(s.images + [filename], |s.images|, false)
  }

  /** `fetchLastImage`: set the flag and hand back `imageList.at(-1)`; one
      copy takes a filename argument that it never reads. */
  function FetchLastImage(s: State, ignored: Option<string>): (o: Step)
    ensures o == FetchLatest(s)
  {
    Step(s.(fetched := true), Js.At(s.images, -1).ToResult(MissingName))
  }

  /** `isValidImageList`: the list is an array (always, here) and not empty.
      Under the invariant that means the cursor points into the list, and
      `at(-1)` names a file, which `fetchLastImage` relies on. */
  function IsValidImageList(s: State): (b: bool)
    ensures Valid(s) ==> (b <==> s.cursor >= 0)
    ensures b <==> Js.At(s.images, -1).Some?
  {
    |s.images| > 0
  }

  /** `canFetchImage`: the flag is clear and the list is valid. */
  function CanFetchImage(s: State): (b: bool)
    ensures b == CanFetch(s)
  {
    !s.fetched && IsValidImageList(s)
  }

  /** The `/next` handler's registry part. */
  function Next(s: State): (o: Step)
    ensures !IsValidImageList(s) ==> o == Step(s, Err(NoImages))
    ensures Valid(s) && IsValidImageList(s) ==>
      && Valid(o.state)
      && o.state.images == s.images
      && o.state.fetched == s.fetched
      && o.reply == Ok(s.images[o.state.cursor])
  {
    if !IsValidImageList(s) then Step(s, Err(NoImages))
    else
      var i := NextIndex(s.cursor, |s.images|);
      Step(s.(cursor := i), Js.At(s.images, i).ToResult(MissingName))
  }

  /** The `/previous` handler's registry part. */
  function Previous(s: State): (o: Step)
    ensures !IsValidImageList(s) ==> o == Step(s, Err(NoImages))
    ensures Valid(s) && IsValidImageList(s) ==>
      && Valid(o.state)
      && o.state.images == s.images
      && o.state.fetched == s.fetched
      && o.reply == Ok(s.images[o.state.cursor])
  {
    if !IsValidImageList(s) then Step(s, Err(NoImages))
    else
      var i := PreviousIndex(s.cursor, |s.images|);
      Step(s.(cursor := i), Js.At(s.images, i).ToResult(MissingName))
  }

  /** Under the invariant the conditional `/next` is the modular next. */
  lemma NextAgrees(s: State)
    requires Valid(s)
    ensures Next(s) == Registry.Next(s)
  {
  }

  /** Under the invariant the conditional `/previous` is the modular previous. */
  lemma PreviousAgrees(s: State)
    requires Valid(s)
    ensures Previous(s) == Registry.Previous(s)
  {
  }

  /** One request to a legacy server, reduced to its guard and registry call. */
  function Handle(s: State, r: Routes.Request): (o: Step)
    ensures Valid(s) ==> o == Routes.Handle(s, r)
  {
    match r
    case PostUpload(None) => Step(s, Err(NoFile))
    case PostUpload(Some(f)) => Step(AddNewImage(s, f), Ok(f))
    case GetFetch => if CanFetchImage(s) then FetchLastImage(s, None) else Step(s, Err(NotAvailable))
    case GetNext => Next(s)
    case GetPrevious => Previous(s)
  }

  /** A run of a legacy server. */
  function Run(s: State, requests: seq<Routes.Request>): Routes.Trace {
    Routes.Replay(Handle, s, requests)
  }

  /** From any state that satisfies the invariant, the registry logic of a
      legacy server and that of the modular one answer every sequence of
      requests identically and end in the same state. */
  lemma {:induction false} RunAgrees(s: State, requests: seq<Routes.Request>)
    requires Valid(s)
    ensures Run(s, requests) == Routes.Run(s, requests)
    decreases |requests|
  {
    if |requests| > 0 {
      RunAgrees(Routes.Handle(s, requests[0]).state, requests[1..]);
    }
  }

  /** In particular, from process start the registry logic of the copies
      cannot be told apart. */
  lemma SameFromStart(requests: seq<Routes.Request>)
    ensures Run(Init(), requests) == Routes.Run(Init(), requests)
  {
    RunAgrees(Init(), requests);
  }
}
