/** The application of main/Source/App/App.swift: `setup` and the per-tick
    `loop`, as the ordered trace of the calls they make. The UART, the u8g2
    buffer calls and the router are collaborators; each call is one event.

    The input of one tick is the sequence of values uart_read_char returns
    while uart_has_data reports pending data: a byte 0..255, or -1 when the
    read found nothing after all. */
module App {
  import opened Pages

  datatype AppEvent =
    | UartInit
    | InitDisplay
    | SetPowerSave(mode: int)
    | ClearBuffer
    | SetBitmapMode(mode: int)
    | SetFontMode(mode: int)
    | SetRoot(page: PageKind)
    | HandleInput(key: int)   // router.handleInput
    | RouterDraw              // router.draw
    | SendBuffer

  /** What uart_read_char can return. */
  predicate UartReads(input: seq<int>)
  {
    forall i :: 0 <= i < |input| ==> -1 <= input[i] <= 255
  }

  /** The keys a tick forwards to the router, in read order. */
  function Forwarded(input: seq<int>): seq<int>
  {
    if input == [] then []
    else Forwarded(input[..|input| - 1]) + (if input[|input| - 1] >= 0 then [input[|input| - 1]] else [])
  }

  function HandleInputs(keys: seq<int>): (t: seq<AppEvent>)
    ensures |t| == |keys| && forall i :: 0 <= i < |t| ==> t[i] == HandleInput(keys[i])
  {
    seq(|keys|, i requires 0 <= i < |keys| => HandleInput(keys[i]))
  }

  /** The frame of one tick: clear, set the modes, draw, send once. */
  const FrameEvents: seq<AppEvent> := [ClearBuffer, SetBitmapMode(1), SetFontMode(1), RouterDraw, SendBuffer]

  /** One tick: all pending input first, then one whole frame. */
  function TickEvents(input: seq<int>): seq<AppEvent>
  {
    HandleInputs(Forwarded(input)) + FrameEvents
  }

  const SetupEvents: seq<AppEvent> :=
    [UartInit, InitDisplay, SetPowerSave(0), ClearBuffer, SetRoot(HomePage)]

  // ---------------------------------------------------------------------
  // Input draining

  /** Reads split anywhere forward their keys in the same order: keys read
      earlier reach the router earlier. */
  lemma {:induction false} ForwardedAppend(a: seq<int>, b: seq<int>)
    ensures Forwarded(a + b) == Forwarded(a) + Forwarded(b)
    decreases |b|
  {
    if b == [] {
      assert a + b == a;
    } else {
      assert (a + b)[..|a + b| - 1] == a + b[..|b| - 1];
      ForwardedAppend(a, b[..|b| - 1]);
    }
  }

  /** Each key >= 0 is forwarded as often as it was read, and nothing
      else is forwarded: negative results are dropped. */
  lemma {:induction false} ForwardedCounts(input: seq<int>, x: int)
    ensures multiset(Forwarded(input))[x] == if x >= 0 then multiset(input)[x] else 0
  {
    if input != [] {
      var init := input[..|input| - 1];
      ForwardedCounts(init, x);
      assert input == init + [input[|input| - 1]];
    }
  }

  /** Every forwarded key is a byte. */
  lemma {:induction false} ForwardedAreBytes(input: seq<int>)
    requires UartReads(input)
    ensures forall i :: 0 <= i < |Forwarded(input)| ==> 0 <= Forwarded(input)[i] <= 255
  {
    if input != [] {
      ForwardedAreBytes(input[..|input| - 1]);
    }
  }

  // ---------------------------------------------------------------------
  // Frames

  /** No partial frame: every SendBuffer comes right after a clear, the
      mode settings and a whole router.draw. */
  ghost predicate WholeFrames(t: seq<AppEvent>)
  {
    forall i :: 0 <= i < |t| && t[i] == SendBuffer ==> 4 <= i && t[i - 4..i] == FrameEvents[..4]
  }

  /** A tick sends exactly one buffer, as its last event, and every input of
      the tick is handled before its buffer is cleared. */
  lemma TickShape(input: seq<int>)
    ensures var t := TickEvents(input);
      && multiset(t)[SendBuffer] == 1 && t[|t| - 1] == SendBuffer
      && forall i, j :: 0 <= i < |t| && 0 <= j < |t| && t[i].HandleInput? && t[j] == ClearBuffer ==> i < j
  {
    var h := HandleInputs(Forwarded(input));
    var t := h + FrameEvents;
    assert SendBuffer !in multiset(h);
    assert multiset(t) == multiset(h) + multiset(FrameEvents);
    assert forall j :: 0 <= j < |t| && t[j] == ClearBuffer ==> j == |h|;
  }

  /** Appending a tick to a trace of whole frames leaves a trace of whole frames. */
  lemma TickKeepsWholeFrames(t: seq<AppEvent>, input: seq<int>)
    requires WholeFrames(t)
    ensures WholeFrames(t + TickEvents(input))
  {
  }

  /** The events of setup followed by a run of ticks. */
  function Session(ticks: seq<seq<int>>): seq<AppEvent>
  {
    if ticks == [] then SetupEvents else Session(ticks[..|ticks| - 1]) + TickEvents(ticks[|ticks| - 1])
  }

  /** Over a whole session the panel only ever receives whole frames, and the
      root page is set before any key reaches the router. */
  lemma {:induction false} SessionWellOrdered(ticks: seq<seq<int>>)
    ensures Session(ticks)[..|SetupEvents|] == SetupEvents
    ensures WholeFrames(Session(ticks))
    ensures forall i :: 0 <= i < |Session(ticks)| && Session(ticks)[i].HandleInput? ==> i >= |SetupEvents|
  {
    if ticks != [] {
      var prev := Session(ticks[..|ticks| - 1]);
      SessionWellOrdered(ticks[..|ticks| - 1]);
      TickKeepsWholeFrames(prev, ticks[|ticks| - 1]);
      assert Session(ticks)[..|prev|] == prev;
    }
  }

  /** The application object; `trace` records the calls it makes. */
  class ESP32C6App {
    var trace: seq<AppEvent>

    ghost predicate Valid()
      reads this
    {
      WholeFrames(trace)
    }

    constructor ()
      ensures Valid() && trace == []
    {
      trace := [];
    }

    /** uart init, display init / power-save off / clear, then the root page. */
    method Setup()
      requires Valid()
      modifies this
      ensures Valid() && trace == old(trace) + SetupEvents
    {
      trace := trace + [UartInit];
      trace := trace + [InitDisplay, SetPowerSave(0), ClearBuffer];
      trace := trace + [SetRoot(HomePage)];
      assert forall i :: |old(trace)| <= i < |trace| ==> trace[i] != SendBuffer;
    }

    /** One tick: drain the UART, forwarding every key >= 0, then redraw
        the whole frame and send it once. */
    method Loop(input: seq<int>)
      requires Valid()
      modifies this
      ensures Valid() && trace == old(trace) + TickEvents(input)
    {
      var n := 0;
      while n < |input|
        invariant 0 <= n <= |input|
        invariant trace == old(trace) + HandleInputs(Forwarded(input[..n]))
      {
        var key := input[n];
        if key >= 0 {
          trace := trace + [HandleInput(key)];
        }
        assert input[..n + 1][..n] == input[..n];
        n := n + 1;
      }
      assert input[..n] == input;

      trace := trace + [ClearBuffer];
      trace := trace + [SetBitmapMode(1)];
      trace := trace + [SetFontMode(1)];
      trace := trace + [RouterDraw];
      trace := trace + [SendBuffer];
      assert trace == old(trace) + TickEvents(input);
      TickKeepsWholeFrames(old(trace), input);
    }
  }
}
