/** The window's input handling: the two consumed-once flags the renderer
    reads (framebuffer resized, swap chain rebuild requested), the held
    movement keys, and the mouse-movement gate.

    The callbacks are first given as functions on an `InputState` value, so
    that what a whole batch of events does can be stated and proved; the
    `WindowHandler` class then performs the same updates on its fields, one
    event at a time. `earlier` selects the callbacks of the earlier renderer
    revision (main.cpp), which only sets the two flags and registers no
    cursor callback. */
module WindowHandling {
  import opened VkTypes

  const INITIAL_WINDOW_WIDTH: int := 800
  const INITIAL_WINDOW_HEIGHT: int := 600

  const GLFW_RELEASE: int := 0
  const GLFW_PRESS: int := 1
  const GLFW_REPEAT: int := 2

  const GLFW_KEY_A: int := 65
  const GLFW_KEY_D: int := 68
  const GLFW_KEY_E: int := 69
  const GLFW_KEY_Q: int := 81
  const GLFW_KEY_R: int := 82
  const GLFW_KEY_S: int := 83
  const GLFW_KEY_W: int := 87

  datatype KeyStates = KeyStates(forward: bool, reverse: bool, left: bool, right: bool, rise: bool, fall: bool)

  const NoKeysHeld: KeyStates := KeyStates(false, false, false, false, false, false)

  /** The six movement directions, one per field of KeyStates. */
  datatype Movement = Forward | Reverse | Left | Right | Rise | Fall

  function MovementKey(m: Movement): int {
    match m
    case Forward => GLFW_KEY_W
    case Reverse => GLFW_KEY_S
    case Left => GLFW_KEY_A
    case Right => GLFW_KEY_D
    case Rise => GLFW_KEY_Q
    case Fall => GLFW_KEY_E
  }

  function Held(ks: KeyStates, m: Movement): bool {
    match m
    case Forward => ks.forward
    case Reverse => ks.reverse
    case Left => ks.left
    case Right => ks.right
    case Rise => ks.rise
    case Fall => ks.fall
  }

  /** The key-state switch of keyPressCallback: the field of a movement key
      becomes "pressed" (any action but RELEASE); any other key changes
      nothing. */
  function KeyStatesAfter(ks: KeyStates, key: int, action: int): (r: KeyStates)
    ensures forall m :: Held(r, m) == if key == MovementKey(m) then action != GLFW_RELEASE else Held(ks, m)
    ensures key !in {GLFW_KEY_W, GLFW_KEY_S, GLFW_KEY_A, GLFW_KEY_D, GLFW_KEY_Q, GLFW_KEY_E} ==> r == ks
  {
    var pressed := action != GLFW_RELEASE;
    if key == GLFW_KEY_W then ks.(forward := pressed)
    else if key == GLFW_KEY_S then ks.(reverse := pressed)
    else if key == GLFW_KEY_A then ks.(left := pressed)
    else if key == GLFW_KEY_D then ks.(right := pressed)
    else if key == GLFW_KEY_Q then ks.(rise := pressed)
    else if key == GLFW_KEY_E then ks.(fall := pressed)
    else ks
  }

  /** Euclidean division of a non-negative number by a positive one: the
      quotient times the divisor lies at most one divisor below it. */
  lemma DivBounds(a: int, b: int)
    requires a >= 0 && b > 0
    ensures 0 <= (a / b) * b <= a < (a / b) * b + b
  {
    var q, m := a / b, a % b;
    assert a == b * q + m;
    assert q * b == b * q;
    assert 0 <= m < b;
    assert q >= 0;
    assert q * b >= 0;
  }

  /** C++ `int` division, which truncates toward zero: the quotient times
      the divisor lies between zero and the dividend, less than one divisor
      away from it. */
  function CppDiv(a: int, b: int): (r: int)
    requires b > 0
    ensures a >= 0 ==> 0 <= r * b <= a < r * b + b
    ensures a < 0 ==> r * b - b < a <= r * b <= 0
  {
    if a >= 0 then
      DivBounds(a, b);
      a / b
    else
      DivBounds(-a, b);
      assert (-((-a) / b)) * b == -(((-a) / b) * b);
      -((-a) / b)
  }

  /** Everything the input callbacks read or write: the handler's flags,
      key states and mouse offsets, the globals holding the last cursor
      position and the first-movement gate, and the framebuffer size the
      window reports. Doubles are modelled as reals. */
  datatype InputState = InputState(
    framebufferResized: bool,
    shouldRecreateSwapChain: bool,
    keyStates: KeyStates,
    xOffset: real,
    yOffset: real,
    lastX: real,
    lastY: real,
    firstMouseMovement: bool,
    framebufferWidth: int,
    framebufferHeight: int)

  /** The framebuffer size in pixels the window reports in state `s`. */
  function FramebufferSize(s: InputState): (int, int) {
    (s.framebufferWidth, s.framebufferHeight)
  }

  /** The state right after the window is created with the given
      framebuffer size. */
  function InitialInput(framebufferWidth: int, framebufferHeight: int): (r: InputState)
    ensures !r.framebufferResized && !r.shouldRecreateSwapChain
    ensures forall m :: !Held(r.keyStates, m)
    ensures r.firstMouseMovement
    ensures r.lastX == 400.0 && r.lastY == 300.0
  {
    InputState(false, false, NoKeysHeld, 0.0, 0.0,
               CppDiv(INITIAL_WINDOW_WIDTH, 2) as real, CppDiv(INITIAL_WINDOW_HEIGHT, 2) as real,
               true, framebufferWidth, framebufferHeight)
  }

  /** framebufferResizeCallback of window_handler.h: raises the resize flag
      whatever the size, and re-centres the last cursor position. */
  function OnFramebufferResize(s: InputState, width: int, height: int): (r: InputState)
    ensures r.framebufferResized
    ensures r.lastX == CppDiv(width, 2) as real && r.lastY == CppDiv(height, 2) as real
    ensures r.(framebufferResized := s.framebufferResized, lastX := s.lastX, lastY := s.lastY) == s
  {
    s.(framebufferResized := true, lastX := CppDiv(width, 2) as real, lastY := CppDiv(height, 2) as real)
  }

  /** keyPressCallback of window_handler.h. */
  function OnKey(s: InputState, key: int, action: int): (r: InputState)
    ensures r.shouldRecreateSwapChain <==> s.shouldRecreateSwapChain || (key == GLFW_KEY_R && action == GLFW_PRESS)
    ensures forall m :: Held(r.keyStates, m) == if key == MovementKey(m) then action != GLFW_RELEASE else Held(s.keyStates, m)
    ensures key == GLFW_KEY_R ==> r.keyStates == s.keyStates
    ensures r.(keyStates := s.keyStates, shouldRecreateSwapChain := s.shouldRecreateSwapChain) == s
  {
    var s' := s.(keyStates := KeyStatesAfter(s.keyStates, key, action));
    if key == GLFW_KEY_R && action == GLFW_PRESS then s'.(shouldRecreateSwapChain := true) else s'
  }

  /** mousePositionCallback: the first movement only records the position
      and closes the gate; later movements set the offsets to a tenth of
      the distance moved. */
  function OnCursorPos(s: InputState, x: real, y: real): (r: InputState)
    ensures !r.firstMouseMovement
    ensures r.lastX == x && r.lastY == y
    ensures s.firstMouseMovement ==> r.xOffset == s.xOffset && r.yOffset == s.yOffset
    ensures !s.firstMouseMovement ==> r.xOffset == (x - s.lastX) / 10.0 && r.yOffset == (y - s.lastY) / 10.0
    ensures r.(xOffset := s.xOffset, yOffset := s.yOffset, lastX := s.lastX, lastY := s.lastY,
               firstMouseMovement := s.firstMouseMovement) == s
  {
    if s.firstMouseMovement then
      s.(lastX := x, lastY := y, firstMouseMovement := false)
    else
      s.(xOffset := (x - s.lastX) / 10.0, yOffset := (y - s.lastY) / 10.0, lastX := x, lastY := y)
  }

  /** framebufferResizeCallback of main.cpp: the flag only. */
  function EarlierOnFramebufferResize(s: InputState): (r: InputState)
    ensures r.framebufferResized
    ensures r.(framebufferResized := s.framebufferResized) == s
  {
    s.(framebufferResized := true)
  }

  /** keyPressCallback of main.cpp: the R key pressed requests a rebuild;
      nothing else happens. */
  function EarlierOnKey(s: InputState, key: int, action: int): (r: InputState)
    ensures r.shouldRecreateSwapChain <==> s.shouldRecreateSwapChain || (key == GLFW_KEY_R && action == GLFW_PRESS)
    ensures r.(shouldRecreateSwapChain := s.shouldRecreateSwapChain) == s
  {
    if key == GLFW_KEY_R && action == GLFW_PRESS then s.(shouldRecreateSwapChain := true) else s
  }

  /** An event the windowing system delivers while polling or waiting. */
  datatype WindowEvent =
    | FramebufferResize(width: int, height: int)
    | Key(key: int, action: int)
    | CursorPos(x: real, y: real)

  /** What one event does: a resize changes the reported framebuffer size,
      then the registered callback runs. */
  function Dispatch(earlier: bool, s: InputState, e: WindowEvent): (r: InputState)
    ensures FramebufferSize(r) == if e.FramebufferResize? then (e.width, e.height) else FramebufferSize(s)
    ensures r.framebufferResized <==> s.framebufferResized || e.FramebufferResize?
    ensures r.shouldRecreateSwapChain <==> s.shouldRecreateSwapChain || e == Key(GLFW_KEY_R, GLFW_PRESS)
    ensures earlier && e.CursorPos? ==> r == s
  {
    match e
    case FramebufferResize(width, height) =>
      var resized := s.(framebufferWidth := width, framebufferHeight := height);
      if earlier then EarlierOnFramebufferResize(resized) else OnFramebufferResize(resized, width, height)
    case Key(key, action) =>
      if earlier then EarlierOnKey(s, key, action) else OnKey(s, key, action)
    case CursorPos(x, y) =>
      if earlier then s else OnCursorPos(s, x, y)
  }

  /** The events of `events`, dispatched in order. */
  function DispatchAll(earlier: bool, s: InputState, events: seq<WindowEvent>): InputState
    decreases |events|
  {
    if events == [] then s
    else Dispatch(earlier, DispatchAll(earlier, s, events[..|events| - 1]), events[|events| - 1])
  }

  // ---------------------------------------------------------------------
  // What a batch of events does
  // ---------------------------------------------------------------------

  /** The resize flag ends up raised exactly when it was raised before or a
      resize event arrived: no event clears it. */
  lemma {:induction false} ResizedFlagAfterEvents(earlier: bool, s: InputState, events: seq<WindowEvent>)
    ensures DispatchAll(earlier, s, events).framebufferResized <==>
      s.framebufferResized || exists k :: 0 <= k < |events| && events[k].FramebufferResize?
    decreases |events|
  {
    if events != [] {
      var init := events[..|events| - 1];
      ResizedFlagAfterEvents(earlier, s, init);
      if exists k :: 0 <= k < |init| && init[k].FramebufferResize? {
        var k :| 0 <= k < |init| && init[k].FramebufferResize?;
        assert events[k].FramebufferResize?;
      }
      if exists k :: 0 <= k < |events| && events[k].FramebufferResize? {
        var k :| 0 <= k < |events| && events[k].FramebufferResize?;
        if k < |init| { assert init[k].FramebufferResize?; }
      }
    }
  }

  /** Some event of `events` is a press of the R key. */
  ghost predicate RecreateKeyIn(events: seq<WindowEvent>) {
    exists k :: 0 <= k < |events| && events[k] == Key(GLFW_KEY_R, GLFW_PRESS)
  }

  /** The rebuild flag ends up raised exactly when it was raised before or
      the R key was pressed (PRESS, not REPEAT or RELEASE); no event clears
      it. This holds for both revisions. */
  lemma {:induction false} RecreateFlagAfterEvents(earlier: bool, s: InputState, events: seq<WindowEvent>)
    ensures DispatchAll(earlier, s, events).shouldRecreateSwapChain <==>
      s.shouldRecreateSwapChain || exists k :: 0 <= k < |events| && events[k] == Key(GLFW_KEY_R, GLFW_PRESS)
    decreases |events|
  {
    if events != [] {
      var init := events[..|events| - 1];
      RecreateFlagAfterEvents(earlier, s, init);
      if exists k :: 0 <= k < |init| && init[k] == Key(GLFW_KEY_R, GLFW_PRESS) {
        var k :| 0 <= k < |init| && init[k] == Key(GLFW_KEY_R, GLFW_PRESS);
        assert events[k] == Key(GLFW_KEY_R, GLFW_PRESS);
      }
      if exists k :: 0 <= k < |events| && events[k] == Key(GLFW_KEY_R, GLFW_PRESS) {
        var k :| 0 <= k < |events| && events[k] == Key(GLFW_KEY_R, GLFW_PRESS);
        if k < |init| { assert init[k] == Key(GLFW_KEY_R, GLFW_PRESS); }
      }
    }
  }

  /** The action of the last event for `key` in `events`, if any: an
      independent description of which key event decides a key's state. */
  function LastKeyAction(events: seq<WindowEvent>, key: int): (r: Option<int>)
    ensures r.Some? <==> exists k :: 0 <= k < |events| && events[k].Key? && events[k].key == key
    decreases |events|
  {
    if events == [] then None
    else
      var last := events[|events| - 1];
      var init := events[..|events| - 1];
      if last.Key? && last.key == key then Some(last.action)
      else
        var r := LastKeyAction(init, key);
        assert forall k :: 0 <= k < |init| ==> init[k] == events[k];
        r
  }

  /** In window_handler.h each movement key is held exactly when its last
      event in the batch was not a RELEASE, and keeps its previous state
      when the batch has no event for it. */
  lemma {:induction false} KeyStatesAfterEvents(s: InputState, events: seq<WindowEvent>, m: Movement)
    ensures Held(DispatchAll(false, s, events).keyStates, m) ==
      match LastKeyAction(events, MovementKey(m))
      case Some(action) => action != GLFW_RELEASE
      case None => Held(s.keyStates, m)
    decreases |events|
  {
    if events != [] {
      KeyStatesAfterEvents(s, events[..|events| - 1], m);
    }
  }

  /** The earlier revision tracks no keys at all. */
  lemma {:induction false} EarlierKeepsKeyStates(s: InputState, events: seq<WindowEvent>)
    ensures DispatchAll(true, s, events).keyStates == s.keyStates
    decreases |events|
  {
    if events != [] {
      EarlierKeepsKeyStates(s, events[..|events| - 1]);
    }
  }

  /** The first-movement gate only closes: it is open after a batch exactly
      when it was open and no cursor event was handled. */
  lemma {:induction false} FirstMovementGateAfterEvents(s: InputState, events: seq<WindowEvent>)
    ensures DispatchAll(false, s, events).firstMouseMovement <==>
      s.firstMouseMovement && forall k :: 0 <= k < |events| ==> !events[k].CursorPos?
    decreases |events|
  {
    if events != [] {
      var init := events[..|events| - 1];
      FirstMovementGateAfterEvents(s, init);
      assert forall k :: 0 <= k < |init| ==> init[k] == events[k];
    }
  }

  /** The reported framebuffer size is that of the last resize event of
      the batch, wherever it comes in the batch, or the previous size when
      there was none. */
  lemma {:induction false} FramebufferSizeAfterEvents(earlier: bool, s: InputState, events: seq<WindowEvent>)
    ensures (forall k :: 0 <= k < |events| ==> !events[k].FramebufferResize?) ==>
      FramebufferSize(DispatchAll(earlier, s, events)) == FramebufferSize(s)
    ensures forall k :: 0 <= k < |events| && events[k].FramebufferResize? &&
                        (forall j :: k < j < |events| ==> !events[j].FramebufferResize?) ==>
      FramebufferSize(DispatchAll(earlier, s, events)) == (events[k].width, events[k].height)
    decreases |events|
  {
    if events != [] {
      var init := events[..|events| - 1];
      FramebufferSizeAfterEvents(earlier, s, init);
      assert forall k :: 0 <= k < |init| ==> init[k] == events[k];
      var last := |events| - 1;
      forall k | 0 <= k < |events| && events[k].FramebufferResize? &&
                 (forall j :: k < j < |events| ==> !events[j].FramebufferResize?)
        ensures FramebufferSize(DispatchAll(earlier, s, events)) == (events[k].width, events[k].height)
      {
        if k < last {
          assert !events[last].FramebufferResize?;
          assert init[k].FramebufferResize? && forall j :: k < j < |init| ==> !init[j].FramebufferResize?;
        }
      }
    }
  }

  // ---------------------------------------------------------------------
  // Successive batches
  // ---------------------------------------------------------------------

  /** The state after `batches`, each handled in order, as successive polls
      or waits for events handle them. */
  function AfterBatches(earlier: bool, s: InputState, batches: seq<seq<WindowEvent>>): InputState
    decreases |batches|
  {
    if batches == [] then s
    else DispatchAll(earlier, AfterBatches(earlier, s, batches[..|batches| - 1]), batches[|batches| - 1])
  }

  /** Handling one more batch. */
  lemma AfterBatchesSnoc(earlier: bool, s: InputState, batches: seq<seq<WindowEvent>>, n: nat)
    requires n < |batches|
    ensures AfterBatches(earlier, s, batches[..n + 1]) == DispatchAll(earlier, AfterBatches(earlier, s, batches[..n]), batches[n])
  {
    assert batches[..n + 1][..n] == batches[..n];
  }

  /** Handling `a` and then `b` is handling `a + b`. */
  lemma {:induction false} AfterBatchesConcat(earlier: bool, s: InputState, a: seq<seq<WindowEvent>>,
                                              b: seq<seq<WindowEvent>>)
    ensures AfterBatches(earlier, s, a + b) == AfterBatches(earlier, AfterBatches(earlier, s, a), b)
    decreases |b|
  {
    if b == [] {
      assert a + b == a;
    } else {
      assert (a + b)[..|a + b| - 1] == a + b[..|b| - 1];
      AfterBatchesConcat(earlier, s, a, b[..|b| - 1]);
    }
  }

  /** Over any number of batches, neither flag is ever cleared by an event:
      the resize flag is raised exactly when it was raised before or some
      batch had a resize event, and the rebuild flag exactly when it was
      raised before or some batch pressed R. */
  lemma {:induction false} FlagsAfterBatches(earlier: bool, s: InputState, batches: seq<seq<WindowEvent>>)
    ensures AfterBatches(earlier, s, batches).framebufferResized <==>
      s.framebufferResized ||
      exists i, k :: 0 <= i < |batches| && 0 <= k < |batches[i]| && batches[i][k].FramebufferResize?
    ensures AfterBatches(earlier, s, batches).shouldRecreateSwapChain <==>
      s.shouldRecreateSwapChain ||
      exists i, k :: 0 <= i < |batches| && 0 <= k < |batches[i]| && batches[i][k] == Key(GLFW_KEY_R, GLFW_PRESS)
    decreases |batches|
  {
    if batches != [] {
      var init := batches[..|batches| - 1];
      var last := batches[|batches| - 1];
      FlagsAfterBatches(earlier, s, init);
      var before := AfterBatches(earlier, s, init);
      ResizedFlagAfterEvents(earlier, before, last);
      RecreateFlagAfterEvents(earlier, before, last);
      assert forall i :: 0 <= i < |init| ==> init[i] == batches[i];
      if exists i, k :: 0 <= i < |batches| && 0 <= k < |batches[i]| && batches[i][k].FramebufferResize? {
        var i, k :| 0 <= i < |batches| && 0 <= k < |batches[i]| && batches[i][k].FramebufferResize?;
        if i < |init| { assert init[i][k].FramebufferResize?; } else { assert last[k].FramebufferResize?; }
      }
      if exists i, k :: 0 <= i < |batches| && 0 <= k < |batches[i]| && batches[i][k] == Key(GLFW_KEY_R, GLFW_PRESS) {
        var i, k :| 0 <= i < |batches| && 0 <= k < |batches[i]| && batches[i][k] == Key(GLFW_KEY_R, GLFW_PRESS);
        if i < |init| { assert init[i][k] == Key(GLFW_KEY_R, GLFW_PRESS); } else { assert last[k] == Key(GLFW_KEY_R, GLFW_PRESS); }
      }
    }
  }

  /** Some event of the first `n` of `batches` is a framebuffer resize. */
  ghost predicate ResizeWithin(batches: seq<seq<WindowEvent>>, n: nat)
    requires n <= |batches|
  {
    exists i, k :: 0 <= i < n && 0 <= k < |batches[i]| && batches[i][k].FramebufferResize?
  }

  /** The resize flag after the first `n` of `batches`: raised exactly when
      it was raised before or one of those batches had a resize event. */
  lemma ResizedFlagAfterPrefix(earlier: bool, s: InputState, batches: seq<seq<WindowEvent>>, n: nat)
    requires n <= |batches|
    ensures AfterBatches(earlier, s, batches[..n]).framebufferResized <==>
      s.framebufferResized || ResizeWithin(batches, n)
  {
    var prefix := batches[..n];
    FlagsAfterBatches(earlier, s, prefix);
    assert forall i :: 0 <= i < n ==> prefix[i] == batches[i];
  }

  // ---------------------------------------------------------------------
  // The handler object
  // ---------------------------------------------------------------------

  /** WindowHandler. `pendingBatches` stands for the windowing system: each
      poll or wait delivers the next batch of events. A wait with no batch
      left never returns. */
  class WindowHandler {
    const earlier: bool
    var framebufferResized: bool
    var shouldRecreateSwapChain: bool
    var keyStates: KeyStates
    var xOffset: real
    var yOffset: real
    var lastX: real
    var lastY: real
    var firstMouseMovement: bool
    var framebufferWidth: int
    var framebufferHeight: int
    var pendingBatches: seq<seq<WindowEvent>>

    function Input(): InputState
      reads this
    {
      InputState(framebufferResized, shouldRecreateSwapChain, keyStates, xOffset, yOffset,
                 lastX, lastY, firstMouseMovement, framebufferWidth, framebufferHeight)
    }

    /** Creates the window and registers the callbacks. */
    constructor (earlier: bool, framebufferWidth: int, framebufferHeight: int, batches: seq<seq<WindowEvent>>)
      ensures this.earlier == earlier
      ensures Input() == InitialInput(framebufferWidth, framebufferHeight)
      ensures pendingBatches == batches
    {
      this.earlier := earlier;
      framebufferResized := false;
      shouldRecreateSwapChain := false;
      keyStates := NoKeysHeld;
      xOffset, yOffset := 0.0, 0.0;
      lastX := CppDiv(INITIAL_WINDOW_WIDTH, 2) as real;
      lastY := CppDiv(INITIAL_WINDOW_HEIGHT, 2) as real;
      firstMouseMovement := true;
      this.framebufferWidth, this.framebufferHeight := framebufferWidth, framebufferHeight;
      pendingBatches := batches;
    }

    method FramebufferResizeCallback(width: int, height: int)
      modifies this`framebufferResized, this`lastX, this`lastY
      ensures Input() == if earlier then EarlierOnFramebufferResize(old(Input()))
                         else OnFramebufferResize(old(Input()), width, height)
    {
      framebufferResized := true;
      if !earlier {
        lastX := CppDiv(width, 2) as real;
        lastY := CppDiv(height, 2) as real;
      }
    }

    method KeyPressCallback(key: int, action: int)
      modifies this`keyStates, this`shouldRecreateSwapChain
      ensures Input() == if earlier then EarlierOnKey(old(Input()), key, action) else OnKey(old(Input()), key, action)
    {
      if !earlier {
        var pressed := action != GLFW_RELEASE;
        if key == GLFW_KEY_W {
          keyStates := keyStates.(forward := pressed);
        } else if key == GLFW_KEY_S {
          keyStates := keyStates.(reverse := pressed);
        } else if key == GLFW_KEY_A {
          keyStates := keyStates.(left := pressed);
        } else if key == GLFW_KEY_D {
          keyStates := keyStates.(right := pressed);
        } else if key == GLFW_KEY_Q {
          keyStates := keyStates.(rise := pressed);
        } else if key == GLFW_KEY_E {
          keyStates := keyStates.(fall := pressed);
        }
      }
      if key == GLFW_KEY_R && action == GLFW_PRESS {
        shouldRecreateSwapChain := true;
      }
    }

    /** Only registered in window_handler.h. */
    method MousePositionCallback(x: real, y: real)
      requires !earlier
      modifies this`xOffset, this`yOffset, this`lastX, this`lastY, this`firstMouseMovement
      ensures Input() == OnCursorPos(old(Input()), x, y)
    {
      if firstMouseMovement {
        lastX, lastY := x, y;
        firstMouseMovement := false;
        return;
      }
      xOffset := (x - lastX) / 10.0;
      yOffset := (y - lastY) / 10.0;
      lastX, lastY := x, y;
    }

    /** The windowing system handling one event. */
    method HandleEvent(e: WindowEvent)
      modifies this
      ensures Input() == Dispatch(earlier, old(Input()), e)
      ensures pendingBatches == old(pendingBatches)
    {
      match e
      case FramebufferResize(width, height) =>
        framebufferWidth, framebufferHeight := width, height;
        FramebufferResizeCallback(width, height);
      case Key(key, action) =>
        KeyPressCallback(key, action);
      case CursorPos(x, y) =>
        if !earlier {
          MousePositionCallback(x, y);
        }
    }

    /** Handles a batch of events in order. */
    method HandleEvents(events: seq<WindowEvent>)
      modifies this
      ensures Input() == DispatchAll(earlier, old(Input()), events)
      ensures pendingBatches == old(pendingBatches)
    {
      var i := 0;
      while i < |events|
        invariant 0 <= i <= |events|
        invariant Input() == DispatchAll(earlier, old(Input()), events[..i])
        invariant pendingBatches == old(pendingBatches)
      {
        assert events[..i + 1][..i] == events[..i];
        HandleEvent(events[i]);
        i := i + 1;
      }
      assert events[..i] == events;
    }

    function FramebufferWasResized(): (r: bool)
      reads this
      ensures r == Input().framebufferResized
    {
      framebufferResized
    }

    method ResetFramebufferResized()
      modifies this`framebufferResized
      ensures !framebufferResized
    {
      framebufferResized := false;
    }

    function ShouldRecreateSwapchain(): (r: bool)
      reads this
      ensures r == Input().shouldRecreateSwapChain
    {
      shouldRecreateSwapChain
    }

    method ResetShouldRecreateSwapchain()
      modifies this`shouldRecreateSwapChain
      ensures !shouldRecreateSwapChain
    {
      shouldRecreateSwapChain := false;
    }

    function GetKeyStates(): (r: KeyStates)
      reads this
      ensures r == Input().keyStates
    {
      keyStates
    }

    /** getFramebufferWidthHeight: the size in pixels the window reports. */
    function GetFramebufferWidthHeight(): (r: (int, int))
      reads this
      ensures r == FramebufferSize(Input())
    {
      (framebufferWidth, framebufferHeight)
    }

    /** pollEvents: clears the mouse offsets (window_handler.h only), then
        handles the next batch of events, if there is one, without
        blocking. */
    method PollEvents()
      modifies this
      ensures var start := if earlier then old(Input()) else old(Input()).(xOffset := 0.0, yOffset := 0.0);
        if old(pendingBatches) == [] then Input() == start && pendingBatches == []
        else Input() == DispatchAll(earlier, start, old(pendingBatches)[0]) && pendingBatches == old(pendingBatches)[1..]
    {
      if !earlier {
        xOffset, yOffset := 0.0, 0.0;
      }
      if pendingBatches != [] {
        var batch := pendingBatches[0];
        pendingBatches := pendingBatches[1..];
        HandleEvents(batch);
      }
    }

    /** waitEvents: handles the next batch of events. `woke` is false when
        there is none left: the call then never returns. */
    method WaitEvents() returns (woke: bool)
      modifies this
      ensures woke <==> old(pendingBatches) != []
      ensures woke ==> Input() == DispatchAll(earlier, old(Input()), old(pendingBatches)[0])
                       && pendingBatches == old(pendingBatches)[1..]
      ensures !woke ==> Input() == old(Input()) && pendingBatches == old(pendingBatches)
    {
      if pendingBatches == [] {
        return false;
      }
      var batch := pendingBatches[0];
      pendingBatches := pendingBatches[1..];
      HandleEvents(batch);
      return true;
    }
  }
}
