/**
 * The event page: a push-stream connection whose open and error callbacks
 * drive a three-valued status, and whose message callback parses each frame
 * and appends it to the bounded log. Parsing is a parameter; whatever it
 * accepts is appended without any check of its shape, and a frame it rejects
 * is dropped.
 */
module Events {
  import opened Optional
  import opened Strings
  import opened BoundedLog
  import MixedContent

  datatype ConnectionStatus = Connecting | Connected | Error

  /**
   * A decoded frame: a detection event (`seqNo` is the server's sequence
   * number) or an informational `{msg}` frame; every field is optional
   * because nothing checks the shape.
   */
  datatype EventMessage = EventMessage(
    seqNo: Option<int>,
    tsMs: Option<int>,
    cameraId: Option<string>,
    kind: Option<string>,
    subjectId: Option<string>,
    msg: Option<string>)

  datatype EventsState = EventsState(status: ConnectionStatus, events: seq<EventMessage>, mixedContentWarning: bool)

  /** State on mount: connecting, nothing received, the mixed-content check evaluated once. */
  function Mount(pageProtocol: string, base: string): (s: EventsState)
    ensures s.status == Connecting && s.events == []
    ensures s.mixedContentWarning <==>
              && pageProtocol == "https:"
              && StartsWith(base, "http://")
              && !ContainsSpec(base, "localhost")
              && !ContainsSpec(base, "127.0.0.1")
  {
    MixedContent.MixedContentWarningSpec(pageProtocol, base);
    EventsState(Connecting, [], MixedContent.MixedContentWarning(pageProtocol, base))
  }

  /** The stream opened (or reopened): connected, from any status; the log is untouched. */
  function OnOpen(s: EventsState): (r: EventsState)
    ensures r.status == Connected
    ensures r.events == s.events && r.mixedContentWarning == s.mixedContentWarning
  {
    s.(status := Connected)
  }

  /** The stream failed: error, from any status; the log is untouched. */
  function OnError(s: EventsState): (r: EventsState)
    ensures r.status == Error
    ensures r.events == s.events && r.mixedContentWarning == s.mixedContentWarning
  {
    s.(status := Error)
  }

  /** A frame arrived: appended to the bounded log when it parses, dropped otherwise. */
  function OnMessage(s: EventsState, parse: string -> Option<EventMessage>, data: string): (r: EventsState)
    ensures parse(data).None? ==> r == s
    ensures parse(data).Some? ==>
              && r.status == s.status
              && r.mixedContentWarning == s.mixedContentWarning
              && r.events == Append(s.events, parse(data).value)
  {
    match parse(data)
    case None => s
    case Some(m) => s.(events := Append(s.events, m))
  }

  /** What the stream can deliver to the page's callbacks. */
  datatype Signal = Opened | Failed | Frame(data: string)

  function Step(s: EventsState, parse: string -> Option<EventMessage>, x: Signal): EventsState {
    match x
    case Opened => OnOpen(s)
    case Failed => OnError(s)
    case Frame(data) => OnMessage(s, parse, data)
  }

  /** The state after a sequence of signals, in arrival order. */
  function Run(s: EventsState, parse: string -> Option<EventMessage>, xs: seq<Signal>): EventsState
    decreases |xs|
  {
    if |xs| == 0 then s else Step(Run(s, parse, xs[..|xs| - 1]), parse, xs[|xs| - 1])
  }

  /** What one signal contributes to the log: its decoded frame, or nothing. */
  function Decoded(parse: string -> Option<EventMessage>, x: Signal): seq<EventMessage> {
    if x.Frame? && parse(x.data).Some? then [parse(x.data).value] else []
  }

  /** The frames that parse, decoded, in arrival order. */
  function Parsed(parse: string -> Option<EventMessage>, xs: seq<Signal>): seq<EventMessage>
    decreases |xs|
  {
    if |xs| == 0 then [] else Parsed(parse, xs[..|xs| - 1]) + Decoded(parse, xs[|xs| - 1])
  }

  /** The status named by the latest open or error signal, or `initial` when there was none. */
  function LatestStatus(initial: ConnectionStatus, xs: seq<Signal>): ConnectionStatus
    decreases |xs|
  {
    if |xs| == 0 then initial
    else if xs[|xs| - 1].Opened? then Connected
    else if xs[|xs| - 1].Failed? then Error
    else LatestStatus(initial, xs[..|xs| - 1])
  }

  /** One signal after a history whose newest entries form the log: the log becomes the newest entries of the longer history. */
  lemma StepExtendsHistory(t: EventsState, parse: string -> Option<EventMessage>, x: Signal, prior: seq<EventMessage>)
    requires t.events == Newest(prior)
    ensures Step(t, parse, x).events == Newest(prior + Decoded(parse, x))
  {
    if x.Frame? && parse(x.data).Some? {
      AppendIsNewest(t.events, parse(x.data).value);
      NewestOfConcat(prior, [parse(x.data).value]);
    } else {
      assert prior + [] == prior;
    }
  }

  /**
   * After any sequence of signals, the log is the most recent 500 parsed frames
   * of the whole history in arrival order, never reordered or deduplicated.
   */
  lemma {:induction false} LogIsNewestParsed(s: EventsState, parse: string -> Option<EventMessage>, xs: seq<Signal>)
    requires |s.events| <= LogCap
    ensures Run(s, parse, xs).events == Newest(s.events + Parsed(parse, xs))
    decreases |xs|
  {
    if |xs| == 0 {
      assert s.events + [] == s.events;
    } else {
      var init := xs[..|xs| - 1];
      var last := xs[|xs| - 1];
      LogIsNewestParsed(s, parse, init);
      StepExtendsHistory(Run(s, parse, init), parse, last, s.events + Parsed(parse, init));
      assert s.events + Parsed(parse, init) + Decoded(parse, last) == s.events + Parsed(parse, xs);
    }
  }

  /** The status is the one named by the latest open or error signal; frames never change it. */
  lemma {:induction false} StatusIsLatest(s: EventsState, parse: string -> Option<EventMessage>, xs: seq<Signal>)
    ensures Run(s, parse, xs).status == LatestStatus(s.status, xs)
    ensures Run(s, parse, xs).mixedContentWarning == s.mixedContentWarning
    decreases |xs|
  {
    if |xs| > 0 {
      var init := xs[..|xs| - 1];
      StatusIsLatest(s, parse, init);
      var before := Run(s, parse, init);
      assert Run(s, parse, xs) == Step(before, parse, xs[|xs| - 1]);
      match xs[|xs| - 1]
      case Opened =>
      case Failed =>
      case Frame(data) =>
        assert LatestStatus(s.status, xs) == LatestStatus(s.status, init);
    }
  }

  /** The log never exceeds 500 entries, whatever the stream delivers. */
  lemma LogBounded(s: EventsState, parse: string -> Option<EventMessage>, xs: seq<Signal>)
    requires |s.events| <= LogCap
    ensures |Run(s, parse, xs).events| <= LogCap
  {
    LogIsNewestParsed(s, parse, xs);
  }

  /** Unparsable frames change nothing: dropping them from the stream gives the same state. */
  lemma {:induction false} MalformedFramesIgnored(s: EventsState, parse: string -> Option<EventMessage>, xs: seq<Signal>, data: string)
    requires parse(data).None?
    ensures Run(s, parse, xs + [Frame(data)]) == Run(s, parse, xs)
  {
  }
}
