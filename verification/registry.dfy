/** The image registry of the modular service: an insertion-ordered list of
    uploaded filenames (duplicates allowed), a navigation cursor, and a
    one-shot flag recording that the newest upload has been served by
    fetch-latest. Paths are modelled as bare filenames: joining them onto the
    upload directory is left out, except that joining `undefined` fails. */
module Registry {
  import opened Wrappers
  import Js

  /** Why a request produced no filename. */
  datatype Error =
    | NoFile        // an upload request without a file part (400)
    | NotAvailable  // fetch-latest with nothing new to serve (204)
    | NoImages      // next or previous on an empty list (500)
    | MissingName   // `undefined` reached `path.join`, which throws a TypeError
    | NoOrientation // `getImageOrientation` is not a function of the service: a TypeError (500)

  /** `imageList`, `currentIndex` and `hasBeenFetched`. */
  datatype State = State(images: seq<string>, cursor: int, fetched: bool)

  /** What an operation leaves behind and what it hands back. */
  datatype Step = Step(state: State, reply: Result<string, Error>)

  /** The cursor invariant: -1 exactly while the list is empty, otherwise a
      position of the list. */
  predicate Valid(s: State) {
    if |s.images| == 0 then s.cursor == -1 else 0 <= s.cursor < |s.images|
  }

  /** The state at process start. */
  function Init(): (s: State)
    ensures Valid(s)
    ensures |List(s)| == 0 && !CanFetch(s)
  {
    State([], -1, false)
  }

  /** `addNewImage`: append the filename, point the cursor at it, re-open the gate. */
  function Add(s: State, filename: string): (s': State)
    ensures Valid(s')
    ensures |s'.images| == |s.images| + 1
    ensures s'.images[..|s.images|] == s.images
    ensures s'.images[|s.images|] == filename
    ensures s'.cursor == |s'.images| - 1
    ensures CanFetch(s')
  {
    State(s.images + [filename], |s.images|, false)
  }

  /** `fetchLastImagePath`: close the gate and hand back the newest upload,
      wherever the cursor is. On an empty list `imageList.at(-1)` is
      `undefined` and the flag has already been set when `path.join` throws. */
  function FetchLatest(s: State): (o: Step)
    ensures o.state.images == s.images && o.state.cursor == s.cursor
    ensures o.state.fetched
    ensures |s.images| > 0 ==> o.reply == Ok(s.images[|s.images| - 1])
    ensures |s.images| == 0 ==> o.reply == Err(MissingName)
  {
    Step(s.(fetched := true), Js.At(s.images, -1).ToResult(MissingName))
  }

  /** `canFetchImage`: the gate is open and fetch-latest would find a file. */
  function CanFetch(s: State): (b: bool)
    ensures b <==> !s.fetched && FetchLatest(s).reply.Ok?
  {
    !s.fetched && |s.images| > 0
  }

  /** `getNextImagePath`: advance the cursor with `(i + 1) % n`. */
  function Next(s: State): (o: Step)
    ensures |s.images| == 0 ==> o == Step(s, Err(NoImages))
    ensures Valid(s) && |s.images| > 0 ==>
      && Valid(o.state)
      && o.state.images == s.images
      && o.state.fetched == s.fetched
      && o.state.cursor == (if s.cursor == |s.images| - 1 then 0 else s.cursor + 1)
      && o.reply == Ok(s.images[o.state.cursor])
  {
    if |s.images| == 0 then Step(s, Err(NoImages))
    else
      var i := Js.Rem(s.cursor + 1, |s.images|);
      Js.RemBelowTwice(s.cursor + 1, |s.images|);
      Step(s.(cursor := i), Js.Index(s.images, i).ToResult(MissingName))
  }

  /** `getPreviousImagePath`: step the cursor back with `(i - 1 + n) % n`. */
  function Previous(s: State): (o: Step)
    ensures |s.images| == 0 ==> o == Step(s, Err(NoImages))
    ensures Valid(s) && |s.images| > 0 ==>
      && Valid(o.state)
      && o.state.images == s.images
      && o.state.fetched == s.fetched
      && o.state.cursor == (if s.cursor == 0 then |s.images| - 1 else s.cursor - 1)
      && o.reply == Ok(s.images[o.state.cursor])
  {
    if |s.images| == 0 then Step(s, Err(NoImages))
    else
      var i := Js.Rem(s.cursor - 1 + |s.images|, |s.images|);
      Js.RemBelowTwice(s.cursor - 1 + |s.images|, |s.images|);
      Step(s.(cursor := i), Js.Index(s.images, i).ToResult(MissingName))
  }

  /** `getImageList`. Dafny sequences are values, so the caller cannot alter
      the registry through the returned list. The list it shows is the one
      the other operations read: its last entry is what fetch-latest serves,
      and under the invariant it is empty exactly while the cursor is unset. */
  function List(s: State): (l: seq<string>)
    ensures |l| > 0 ==> FetchLatest(s).reply == Ok(l[|l| - 1])
    ensures Valid(s) ==> (|l| == 0 <==> s.cursor == -1)
  {
    s.images
  }

  /** Moving the cursor one way and then the other puts it back. */
  lemma NextPreviousInverse(s: State)
    requires Valid(s)
    ensures Previous(Next(s).state).state == s
    ensures Next(Previous(s).state).state == s
  {
  }

  /** On a one-element list next and previous keep serving that element. */
  lemma SingleImage(s: State)
    requires Valid(s) && |s.images| == 1
    ensures Next(s) == Step(s, Ok(s.images[0]))
    ensures Previous(s) == Step(s, Ok(s.images[0]))
  {
  }

  /** Neither cursor move touches the fetch gate, on any state. */
  lemma MovesKeepGate(s: State)
    ensures Next(s).state.fetched == s.fetched && Next(s).state.images == s.images
    ensures Previous(s).state.fetched == s.fetched && Previous(s).state.images == s.images
  {
  }

  /** With images a, b, c and the cursor on c, next wraps to a and previous gives b. */
  lemma WrapOnThree()
    ensures Next(State(["a", "b", "c"], 2, false)).reply == Ok("a")
    ensures Previous(State(["a", "b", "c"], 2, false)).reply == Ok("b")
  {
  }
}
