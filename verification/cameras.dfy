/**
 * The camera wall: the latest status snapshot, the error banner, and the
 * three viewing slots (`main` and two thumbnails). The slots are seeded once,
 * from the first successful poll that lists at least three cameras. When polls
 * are applied one after another against the current `initialized` flag, the
 * slots then change only when the operator swaps the main feed with a
 * thumbnail. A poll in flight at seeding time, which reads a stale flag, is
 * not modelled.
 */
module Cameras {
  import opened Optional
  import opened Strings
  import opened Api
  import MixedContent

  /** Camera ids shown in the three slots; the empty string means no camera. */
  datatype Slots = Slots(main: string, t1: string, t2: string)

  /** A thumbnail slot, the only thing a swap names. */
  datatype Thumb = T1 | T2

  const EmptySlots: Slots := Slots("", "", "")

  /** Message shown when the thrown value is not an `Error`. */
  const FallbackErrorMessage: string := "Failed to fetch cameras"

  datatype CamerasState = CamerasState(
    cameras: seq<CameraStatus>,
    error: Option<string>,
    initialized: bool,
    slots: Slots,
    mixedContentWarning: bool)

  function Thumbnail(slots: Slots, thumb: Thumb): string {
    match thumb
    case T1 => slots.t1
    case T2 => slots.t2
  }

  function Other(thumb: Thumb): Thumb {
    match thumb
    case T1 => T2
    case T2 => T1
  }

  /** The slot values as a multiset. */
  function Occupants(slots: Slots): multiset<string> {
    multiset{slots.main, slots.t1, slots.t2}
  }

  /** No camera id sits in two slots at once (empty slots may repeat). */
  predicate NoDuplicates(slots: Slots) {
    && (slots.main != "" ==> slots.main != slots.t1 && slots.main != slots.t2)
    && (slots.t1 != "" ==> slots.t1 != slots.t2)
  }

  /** State on mount: nothing polled yet, empty slots, and the mixed-content check evaluated once. */
  function Mount(pageProtocol: string, base: string): (s: CamerasState)
    ensures s.cameras == [] && s.error == None && !s.initialized && s.slots == EmptySlots
    ensures s.mixedContentWarning <==>
              && pageProtocol == "https:"
              && StartsWith(base, "http://")
              && !ContainsSpec(base, "localhost")
              && !ContainsSpec(base, "127.0.0.1")
  {
    MixedContent.MixedContentWarningSpec(pageProtocol, base);
    CamerasState([], None, false, EmptySlots, MixedContent.MixedContentWarning(pageProtocol, base))
  }

  /** The banner text for a thrown value: an `Error`'s own message, otherwise a fixed fallback. */
  function ErrorMessage(thrown: Thrown): (m: string)
    ensures thrown.ErrorObject? ==> m == thrown.message
    ensures thrown.OtherValue? ==> m == FallbackErrorMessage
  {
    match thrown
    case ErrorObject(message) => message
    case OtherValue => FallbackErrorMessage
  }

  /** One-shot slot seeding from a status list: positional, and only while not yet initialized. */
  function Seed(s: CamerasState, data: seq<CameraStatus>): (r: CamerasState)
    ensures !s.initialized && |data| >= 3 ==>
              r.initialized && r.slots == Slots(data[0].cameraId, data[1].cameraId, data[2].cameraId)
    ensures s.initialized || |data| < 3 ==> r == s
    ensures r.cameras == s.cameras && r.error == s.error && r.mixedContentWarning == s.mixedContentWarning
  {
    if !s.initialized && |data| >= 3 then
      s.(slots := Slots(data[0].cameraId, data[1].cameraId, data[2].cameraId), initialized := true)
    else
      s
  }

  /** Seeding twice is seeding once: once seeded, later lists never reseed. */
  lemma SeedIdempotent(s: CamerasState, first: seq<CameraStatus>, later: seq<CameraStatus>)
    requires |first| >= 3
    ensures Seed(Seed(s, first), later) == Seed(s, first)
  {
  }

  /** Applies one settled status poll: success replaces the list and may seed; failure only sets the banner. */
  function ApplyPoll(s: CamerasState, poll: Poll): (r: CamerasState)
    ensures poll.Success? ==> r.cameras == poll.cameras && r.error == s.error
    ensures poll.Success? && (s.initialized || |poll.cameras| < 3) ==>
              r.slots == s.slots && r.initialized == s.initialized
    ensures poll.Success? && !s.initialized && |poll.cameras| >= 3 ==>
              && r.initialized
              && r.slots == Slots(poll.cameras[0].cameraId, poll.cameras[1].cameraId, poll.cameras[2].cameraId)
    ensures poll.Failure? ==> r == s.(error := Some(ErrorMessage(poll.thrown)))
    ensures r.mixedContentWarning == s.mixedContentWarning
  {
    match poll
    case Success(data) => Seed(s.(cameras := data), data)
    case Failure(thrown) => s.(error := Some(ErrorMessage(thrown)))
  }

  /** Exchanges the main feed with one thumbnail; the other thumbnail is untouched. */
  function SwapMainWith(slots: Slots, thumb: Thumb): (r: Slots)
    ensures r.main == Thumbnail(slots, thumb)
    ensures Thumbnail(r, thumb) == slots.main
    ensures Thumbnail(r, Other(thumb)) == Thumbnail(slots, Other(thumb))
  {
    match thumb
    case T1 => slots.(main := slots.t1, t1 := slots.main)
    case T2 => slots.(main := slots.t2, t2 := slots.main)
  }

  /** Swapping the same thumbnail twice restores the original slots. */
  lemma SwapInvolution(slots: Slots, thumb: Thumb)
    ensures SwapMainWith(SwapMainWith(slots, thumb), thumb) == slots
  {
  }

  /** A swap permutes the three slot values, so it neither loses nor duplicates a camera. */
  lemma SwapPermutes(slots: Slots, thumb: Thumb)
    ensures Occupants(SwapMainWith(slots, thumb)) == Occupants(slots)
    ensures NoDuplicates(slots) ==> NoDuplicates(SwapMainWith(slots, thumb))
  {
    match thumb
    case T1 =>
      assert multiset{slots.t1, slots.main, slots.t2} == multiset{slots.main, slots.t1, slots.t2};
    case T2 =>
      assert multiset{slots.t2, slots.t1, slots.main} == multiset{slots.main, slots.t1, slots.t2};
  }

  /** Swapping empty slots leaves them empty. */
  lemma SwapEmpty(thumb: Thumb)
    ensures SwapMainWith(EmptySlots, thumb) == EmptySlots
  {
  }

  /** An input to the page: a status poll settling, or a click on a thumbnail. */
  datatype Input = Settled(poll: Poll) | Clicked(thumb: Thumb)

  function Step(s: CamerasState, x: Input): CamerasState {
    match x
    case Settled(poll) => ApplyPoll(s, poll)
    case Clicked(thumb) => s.(slots := SwapMainWith(s.slots, thumb))
  }

  /** The state after a sequence of inputs, in arrival order. */
  function Run(s: CamerasState, xs: seq<Input>): CamerasState
    decreases |xs|
  {
    if |xs| == 0 then s else Step(Run(s, xs[..|xs| - 1]), xs[|xs| - 1])
  }

  lemma {:induction false} RunConcat(s: CamerasState, xs: seq<Input>, ys: seq<Input>)
    ensures Run(s, xs + ys) == Run(Run(s, xs), ys)
    decreases |ys|
  {
    if |ys| == 0 {
      assert xs + ys == xs;
    } else {
      assert (xs + ys)[..|xs + ys| - 1] == xs + ys[..|ys| - 1];
      RunConcat(s, xs, ys[..|ys| - 1]);
    }
  }

  /** The thumbnails clicked, in order. */
  function Clicks(xs: seq<Input>): seq<Thumb>
    decreases |xs|
  {
    if |xs| == 0 then []
    else Clicks(xs[..|xs| - 1]) + (if xs[|xs| - 1].Clicked? then [xs[|xs| - 1].thumb] else [])
  }

  function SwapAll(slots: Slots, thumbs: seq<Thumb>): Slots
    decreases |thumbs|
  {
    if |thumbs| == 0 then slots else SwapMainWith(SwapAll(slots, thumbs[..|thumbs| - 1]), thumbs[|thumbs| - 1])
  }

  /**
   * Once seeded, the slots are exactly the seeded slots with the clicks applied:
   * no later poll reassigns them, even one that reorders, drops or replaces cameras.
   */
  lemma {:induction false} SlotsStableAfterSeeding(s: CamerasState, xs: seq<Input>)
    requires s.initialized
    ensures Run(s, xs).initialized
    ensures Run(s, xs).slots == SwapAll(s.slots, Clicks(xs))
    decreases |xs|
  {
    if |xs| > 0 {
      var init := xs[..|xs| - 1];
      SlotsStableAfterSeeding(s, init);
      var clicks := Clicks(init);
      if xs[|xs| - 1].Clicked? {
        var t := xs[|xs| - 1].thumb;
        assert Clicks(xs) == clicks + [t];
        assert (clicks + [t])[..|clicks|] == clicks;
      } else {
        assert Clicks(xs) == clicks + [];
        assert clicks + [] == clicks;
      }
    }
  }

  /** A successful poll that lists at least three cameras. */
  predicate SeedsSlots(x: Input) {
    x.Settled? && x.poll.Success? && |x.poll.cameras| >= 3
  }

  /** Until a poll lists at least three cameras, the page stays unseeded with empty slots, clicks notwithstanding. */
  lemma {:induction false} UnseededUntilAdequatePoll(s: CamerasState, xs: seq<Input>)
    requires !s.initialized && s.slots == EmptySlots
    requires forall i :: 0 <= i < |xs| ==> !SeedsSlots(xs[i])
    ensures !Run(s, xs).initialized && Run(s, xs).slots == EmptySlots
    decreases |xs|
  {
    if |xs| > 0 {
      UnseededUntilAdequatePoll(s, xs[..|xs| - 1]);
      if xs[|xs| - 1].Clicked? {
        SwapEmpty(xs[|xs| - 1].thumb);
      }
    }
  }

  /**
   * The slots come from the first poll listing at least three cameras, in its
   * positional order, followed by every click after it.
   */
  lemma SeededByFirstAdequatePoll(s: CamerasState, before: seq<Input>, data: seq<CameraStatus>, after: seq<Input>)
    requires !s.initialized && s.slots == EmptySlots
    requires forall i :: 0 <= i < |before| ==> !SeedsSlots(before[i])
    requires |data| >= 3
    ensures Run(s, before + [Settled(Success(data))] + after).initialized
    ensures Run(s, before + [Settled(Success(data))] + after).slots
         == SwapAll(Slots(data[0].cameraId, data[1].cameraId, data[2].cameraId), Clicks(after))
  {
    UnseededUntilAdequatePoll(s, before);
    RunConcat(s, before + [Settled(Success(data))], after);
    assert Run(s, before + [Settled(Success(data))]) == Step(Run(s, before), Settled(Success(data)));
    SlotsStableAfterSeeding(Run(s, before + [Settled(Success(data))]), after);
  }

  /** The list of the latest successful poll, if any. */
  function LatestSuccess(xs: seq<Input>): Option<seq<CameraStatus>>
    decreases |xs|
  {
    if |xs| == 0 then None
    else if xs[|xs| - 1].Settled? && xs[|xs| - 1].poll.Success? then Some(xs[|xs| - 1].poll.cameras)
    else LatestSuccess(xs[..|xs| - 1])
  }

  /** The value thrown by the latest failed poll, if any. */
  function LatestFailure(xs: seq<Input>): Option<Thrown>
    decreases |xs|
  {
    if |xs| == 0 then None
    else if xs[|xs| - 1].Settled? && xs[|xs| - 1].poll.Failure? then Some(xs[|xs| - 1].poll.thrown)
    else LatestFailure(xs[..|xs| - 1])
  }

  /**
   * The camera list is the latest successful poll's, untouched by failures;
   * the banner shows the latest failure and a later success does not clear it.
   */
  lemma {:induction false} LatestPollsWin(s: CamerasState, xs: seq<Input>)
    ensures Run(s, xs).cameras == LatestSuccess(xs).GetOr(s.cameras)
    ensures LatestFailure(xs).None? ==> Run(s, xs).error == s.error
    ensures LatestFailure(xs).Some? ==> Run(s, xs).error == Some(ErrorMessage(LatestFailure(xs).value))
    ensures Run(s, xs).mixedContentWarning == s.mixedContentWarning
    decreases |xs|
  {
    if |xs| > 0 {
      LatestPollsWin(s, xs[..|xs| - 1]);
    }
  }

  /** A poll listing A, B, C seeds main=A, t1=B, t2=C; a reordered list C, A, B changes nothing; swapping t1 gives B, A, C. */
  lemma ReorderedPollDoesNotReseed(s: CamerasState, a: CameraStatus, b: CameraStatus, c: CameraStatus)
    requires !s.initialized
    ensures Run(s, [Settled(Success([a, b, c])), Settled(Success([c, a, b]))]).slots == Slots(a.cameraId, b.cameraId, c.cameraId)
    ensures Run(s, [Settled(Success([a, b, c])), Settled(Success([c, a, b])), Clicked(T1)]).slots
         == Slots(b.cameraId, a.cameraId, c.cameraId)
  {
    var first := [Settled(Success([a, b, c]))];
    var two := [Settled(Success([a, b, c])), Settled(Success([c, a, b]))];
    var xs := [Settled(Success([a, b, c])), Settled(Success([c, a, b])), Clicked(T1)];
    assert first[..0] == [];
    assert two[..1] == first;
    assert xs[..2] == two;
    assert Run(s, first).slots == Slots(a.cameraId, b.cameraId, c.cameraId) && Run(s, first).initialized;
  }
}
