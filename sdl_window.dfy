/** The SDL window: its placement constants, its reaction to window and keyboard events,
    the guarded update and draw steps, and the fixed-timestep game loop. Native calls and
    the user's overridable callbacks are recorded as actions; the clock is an input. */
module Windows {
  import opened Basics
  import opened Canvases
  import opened SpriteOrder
  import opened Scheduler

  // ---------------------------------------------------------------------------
  // Window placement values

  const WindowPosUndefined: int32 := 0x1FFF_0000
  const WindowPosCentered: int32 := 0x2FFF_0000

  function Pow2(k: nat): (r: nat)
    ensures 0 < r
  {
    if k == 0 then 1 else 2 * Pow2(k - 1)
  }

  lemma Pow2Of16()
    ensures Pow2(16) == 0x10000
  {
    assert Pow2(4) == 16;
    assert Pow2(8) == 256;
    assert Pow2(12) == 4096;
  }

  /** C#'s `|` on non-negative integers, one bit at a time from the lowest. */
  function BitOr(a: nat, b: nat): nat
    decreases a + b
  {
    if a == 0 then b
    else if b == 0 then a
    else 2 * BitOr(a / 2, b / 2) + (if a % 2 == 1 || b % 2 == 1 then 1 else 0)
  }

  /** OR-ing a value whose low k bits are clear with a value below 2^k is addition:
      no bit is set in both. */
  lemma {:induction false} BitOrDisjoint(m: nat, k: nat, b: nat)
    requires b < Pow2(k)
    ensures BitOr(m * Pow2(k), b) == m * Pow2(k) + b
    decreases k
  {
    var a := m * Pow2(k);
    if a != 0 && b != 0 {
      assert k >= 1;
      var half := m * Pow2(k - 1);
      assert a == 2 * half;
      assert a / 2 == half && a % 2 == 0;
      BitOrDisjoint(m, k - 1, b / 2);
    }
  }

  /** Places the window on display `display`, at a position chosen by the window manager. */
  function WindowPosUndefinedDisplay(display: uint32): (r: int32)
    ensures display < 0x10000 ==> r == WindowPosUndefined + display
  {
    if display < 0x10000 then
      Pow2Of16();
      BitOrDisjoint(0x1FFF, 16, display);
      Wrap32(BitOr(WindowPosUndefined, display))
    else
      Wrap32(BitOr(WindowPosUndefined, display))
  }

  /** Centres the window on display `display`. */
  function WindowPosCenteredDisplay(display: uint32): (r: int32)
    ensures display < 0x10000 ==> r == WindowPosCentered + display
  {
    if display < 0x10000 then
      Pow2Of16();
      BitOrDisjoint(0x2FFF, 16, display);
      Wrap32(BitOr(WindowPosCentered, display))
    else
      Wrap32(BitOr(WindowPosCentered, display))
  }

  /** Both placement values keep the marker in the high 16 bits and the display in the low
      16 bits, so the display can be read back from them. */
  lemma WindowPosDisplayRoundTrip(display: uint32)
    requires display < 0x10000
    ensures WindowPosUndefinedDisplay(display) / 0x10000 == 0x1FFF
    ensures WindowPosUndefinedDisplay(display) % 0x10000 == display
    ensures WindowPosCenteredDisplay(display) / 0x10000 == 0x2FFF
    ensures WindowPosCenteredDisplay(display) % 0x10000 == display
  {
  }

  // ---------------------------------------------------------------------------
  // Events

  /** The C# events a user can subscribe to. */
  datatype Hook = ClosedHook | KeyPressedHook | KeyReleasedHook | MinimizedHook | RestoredHook

  /** What the window does, in order: native calls and invocations of user code. */
  datatype Action =
    | InitVideo
    | CreateWindow(title: string, x: int32, y: int32, width: int32, height: int32, hidden: bool)
    | CreateRenderer
    | ScaleHint(quality: ScalingQuality)
    | CreateWindowTexture(width: int32, height: int32)
    | ShowWindow
    | DestroyWindow
    | UserLoad          // OnLoad
    | UserUpdate        // OnUpdate
    | UserDraw          // OnDraw, called while the canvas pointer is fetched
    | Raised(hook: Hook, ev: Event)
    | UploadCanvas(pitch: int32)
    | CopyCanvas
    | CopySprite(sprite: Sprite)
    | Present
    | Sleep(ms: uint32)

  /** `_running`, `IsDestroyed` and `IsMinimized`. */
  datatype WindowFlags = WindowFlags(running: bool, destroyed: bool, minimized: bool)

  /** The flags after the window handles one event. A close with no `Closed` subscriber
      stops the loop and destroys the window; with one, only the subscriber is invoked. */
  function AfterEvent(f: WindowFlags, ev: Event, hooks: set<Hook>): WindowFlags
  {
    match ev
    case KeyboardEvent(_, _) => f
    case WindowEvent(kind) =>
      match kind
      case Close => if ClosedHook in hooks then f else f.(running := false, destroyed := true)
      case Minimized => f.(minimized := true)
      case Restored => f.(minimized := false)
      case OtherWindowEvent(_) => f
  }

  /** The actions of handling one event. */
  function EventActions(ev: Event, hooks: set<Hook>): seq<Action>
  {
    match ev
    case KeyboardEvent(state, _) =>
      var hook := if state == Pressed then KeyPressedHook else KeyReleasedHook;
      if hook in hooks then [Raised(hook, ev)] else []
    case WindowEvent(kind) =>
      match kind
      case Close => if ClosedHook in hooks then [Raised(ClosedHook, ev)] else [DestroyWindow]
      case Minimized => if MinimizedHook in hooks then [Raised(MinimizedHook, ev)] else []
      case Restored => if RestoredHook in hooks then [Raised(RestoredHook, ev)] else []
      case OtherWindowEvent(_) => []
  }

  function AfterEvents(f: WindowFlags, evs: seq<Event>, hooks: set<Hook>): WindowFlags
  {
    if evs == [] then f else AfterEvent(AfterEvents(f, DropLast(evs), hooks), Last(evs), hooks)
  }

  function EventsActions(evs: seq<Event>, hooks: set<Hook>): seq<Action>
  {
    if evs == [] then [] else EventsActions(DropLast(evs), hooks) + EventActions(Last(evs), hooks)
  }

  predicate IsVisibilityEvent(e: Event)
  {
    e == WindowEvent(Minimized) || e == WindowEvent(Restored)
  }

  /** A window stopped only by being destroyed stays so: handling events never restarts
      the loop or revives the window. */
  lemma {:induction false} StopImpliesDestroyed(f: WindowFlags, evs: seq<Event>, hooks: set<Hook>)
    requires !f.running ==> f.destroyed
    ensures var g := AfterEvents(f, evs, hooks); (!g.running ==> g.destroyed) && (f.destroyed ==> g.destroyed)
    ensures f.running || !AfterEvents(f, evs, hooks).running
  {
    if evs != [] {
      StopImpliesDestroyed(f, DropLast(evs), hooks);
    }
  }

  /** Without a `Closed` subscriber, a Close event among those handled stops the loop and
      destroys the window. */
  lemma {:induction false} CloseWithoutSubscriberStops(f: WindowFlags, evs: seq<Event>, hooks: set<Hook>)
    requires ClosedHook !in hooks
    requires WindowEvent(Close) in evs
    ensures !AfterEvents(f, evs, hooks).running && AfterEvents(f, evs, hooks).destroyed
  {
    var prefix := DropLast(evs);
    if Last(evs) != WindowEvent(Close) {
      assert evs == prefix + [Last(evs)];
      assert WindowEvent(Close) in prefix;
      CloseWithoutSubscriberStops(f, prefix, hooks);
    }
  }

  /** With a `Closed` subscriber, no event changes `_running` or `IsDestroyed`. */
  lemma {:induction false} CloseWithSubscriberKeepsRunning(f: WindowFlags, evs: seq<Event>, hooks: set<Hook>)
    requires ClosedHook in hooks
    ensures AfterEvents(f, evs, hooks).running == f.running
    ensures AfterEvents(f, evs, hooks).destroyed == f.destroyed
  {
    if evs != [] {
      CloseWithSubscriberKeepsRunning(f, DropLast(evs), hooks);
    }
  }

  /** `IsMinimized` is what the last Minimized or Restored event said. */
  lemma {:induction false} LastVisibilityEventWins(f: WindowFlags, evs: seq<Event>, hooks: set<Hook>, i: nat)
    requires i < |evs| && IsVisibilityEvent(evs[i])
    requires forall j | i < j < |evs| :: !IsVisibilityEvent(evs[j])
    ensures AfterEvents(f, evs, hooks).minimized == (evs[i] == WindowEvent(Minimized))
  {
    var prefix := DropLast(evs);
    if i < |prefix| {
      assert !IsVisibilityEvent(evs[|evs| - 1]);
      LastVisibilityEventWins(f, prefix, hooks, i);
    }
  }

  /** Events other than Minimized and Restored leave `IsMinimized` as it was. */
  lemma {:induction false} NoVisibilityEventKeepsMinimized(f: WindowFlags, evs: seq<Event>, hooks: set<Hook>)
    requires forall j | 0 <= j < |evs| :: !IsVisibilityEvent(evs[j])
    ensures AfterEvents(f, evs, hooks).minimized == f.minimized
  {
    if evs != [] {
      var prefix := DropLast(evs);
      assert !IsVisibilityEvent(evs[|evs| - 1]);
      NoVisibilityEventKeepsMinimized(f, prefix, hooks);
    }
  }

  // ---------------------------------------------------------------------------
  // Update and draw steps

  /** The flags after `BaseUpdate`: a destroyed window processes no events. */
  function UpdatedFlags(f: WindowFlags, queue: seq<Event>, hooks: set<Hook>): WindowFlags
  {
    if f.destroyed then f else AfterEvents(f, queue, hooks)
  }

  /** The actions of `BaseUpdate`: nothing when destroyed, otherwise the queued events are
      handled and then the user's update runs. */
  function UpdateActions(f: WindowFlags, queue: seq<Event>, hooks: set<Hook>): seq<Action>
  {
    if f.destroyed then [] else EventsActions(queue, hooks) + [UserUpdate]
  }

  /** The actions of drawing the given sprites in order: the scaling hint, then the copy. */
  function SpriteCopies(order: seq<Sprite>): seq<Action>
  {
    if order == [] then []
    else SpriteCopies(DropLast(order)) + [ScaleHint(Last(order).quality), CopySprite(Last(order))]
  }

  /** The row pitch the canvas is uploaded with: four bytes per texel of a texture row,
      in unchecked `int` arithmetic. */
  function Pitch(textureWidth: int32): (r: int32)
    ensures 0 <= textureWidth < 0x2000_0000 ==> r == 4 * textureWidth
    ensures textureWidth == 0x2000_0000 ==> r == INT32_MIN
  {
    Wrap32(textureWidth * 4)
  }

  /** The actions of `BaseDraw`: nothing when destroyed or minimized, otherwise the user
      draws, the canvas is uploaded and copied, the sprites are drawn if there are any, and
      the frame is presented. */
  function DrawActions(f: WindowFlags, textureWidth: int32, sprites: seq<Sprite>): seq<Action>
  {
    if f.destroyed || f.minimized then []
    else
      [UserDraw, UploadCanvas(Pitch(textureWidth)), CopyCanvas] + SpriteCopies(DrawOrder(sprites)) + [Present]
  }

  function SleepActions(delay: Option<uint32>): seq<Action>
  {
    if delay.Some? then [Sleep(delay.value)] else []
  }

  /** A destroyed window neither updates nor draws: an iteration can only sleep. */
  lemma DestroyedWindowIsIdle(f: WindowFlags, queue: seq<Event>, hooks: set<Hook>, textureWidth: int32, sprites: seq<Sprite>)
    requires f.destroyed
    ensures UpdateActions(f, queue, hooks) == [] && DrawActions(f, textureWidth, sprites) == []
    ensures UpdatedFlags(f, queue, hooks) == f
  {
  }

  /** The sprite copies are exactly the shown sprites, once each, in draw order. */
  lemma {:induction false} SpriteCopiesDrawEachOnce(order: seq<Sprite>, k: nat)
    requires k < |order|
    ensures |SpriteCopies(order)| == 2 * |order|
    ensures SpriteCopies(order)[2 * k] == ScaleHint(order[k].quality)
    ensures SpriteCopies(order)[2 * k + 1] == CopySprite(order[k])
  {
    var prefix := DropLast(order);
    if k < |prefix| {
      SpriteCopiesDrawEachOnce(prefix, k);
    } else if prefix != [] {
      SpriteCopiesDrawEachOnce(prefix, 0);
    }
  }

  /** What the loop reads from the outside world in one iteration: the events that
      arrived in the native queue, the tick count read at the top of the iteration, and
      the tick count read again before sleeping. */
  datatype Frame = Frame(arrivals: seq<Event>, ticks: uint32, now: uint32)

  function TicksOf(frames: seq<Frame>): (r: seq<uint32>)
    ensures |r| == |frames| && forall i | 0 <= i < |frames| :: r[i] == frames[i].ticks
  {
    seq(|frames|, i requires 0 <= i < |frames| => frames[i].ticks)
  }

  // ---------------------------------------------------------------------------
  // The window

  class SdlWindow {
    var canvas: Canvas
    var running: bool
    var isDestroyed: bool
    var isMinimized: bool
    var nextVideoUpdate: uint32
    var nextGameUpdate: uint32
    var videoUpdateTicks: uint32
    var gameUpdateTicks: uint32
    var windowWidth: int32
    var windowHeight: int32
    var textureWidth: int32
    var textureHeight: int32
    var sprites: seq<Sprite>
    /** The events with at least one subscriber. */
    var hooks: set<Hook>
    /** The native event queue: events that arrived and are not processed yet. */
    var queue: seq<Event>
    var actions: seq<Action>

    function Flags(): WindowFlags
      reads this
    {
      WindowFlags(running, isDestroyed, isMinimized)
    }

    /** Everything the loop does not change. */
    twostate predicate SetupUnchanged()
      reads this
    {
      && canvas == old(canvas) && sprites == old(sprites) && hooks == old(hooks)
      && windowWidth == old(windowWidth) && windowHeight == old(windowHeight)
      && textureWidth == old(textureWidth) && textureHeight == old(textureHeight)
    }

    twostate predicate SettingsUnchanged()
      reads this
    {
      && SetupUnchanged()
      && videoUpdateTicks == old(videoUpdateTicks) && gameUpdateTicks == old(gameUpdateTicks)
    }

    constructor (title: string, position: Point, windowWidth: int32, windowHeight: int32,
                 textureWidth: int32, textureHeight: int32, quality: ScalingQuality)
      requires 0 < textureWidth && 0 < textureHeight && textureWidth * textureHeight <= INT32_MAX
      ensures fresh(canvas) && fresh(canvas.pixels) && canvas.Valid() && canvas.Cleared()
      ensures canvas.width == textureWidth && canvas.height == textureHeight
      ensures !canvas.hasTexture && canvas.renderer.None?
      ensures actions == [InitVideo, CreateWindow(title, position.x, position.y, windowWidth, windowHeight, true),
                          CreateRenderer, ScaleHint(quality), CreateWindowTexture(textureWidth, textureHeight),
                          ScaleHint(Nearest)]
      ensures this.windowWidth == windowWidth && this.windowHeight == windowHeight
      ensures this.textureWidth == textureWidth && this.textureHeight == textureHeight
      ensures sprites == [] && hooks == {} && queue == []
      ensures !running && !isDestroyed && !isMinimized
      ensures nextVideoUpdate == 0 && nextGameUpdate == 0 && videoUpdateTicks == 0 && gameUpdateTicks == 0
    {
      actions := [InitVideo, CreateWindow(title, position.x, position.y, windowWidth, windowHeight, true),
                  CreateRenderer, ScaleHint(quality), CreateWindowTexture(textureWidth, textureHeight),
                  ScaleHint(Nearest)];
      canvas := new Canvas(textureWidth, textureHeight);
      this.windowWidth, this.windowHeight := windowWidth, windowHeight;
      this.textureWidth, this.textureHeight := textureWidth, textureHeight;
      sprites, hooks, queue := [], {}, [];
      running, isDestroyed, isMinimized := false, false, false;
      nextVideoUpdate, nextGameUpdate, videoUpdateTicks, gameUpdateTicks := 0, 0, 0, 0;
    }

    method DestroyObject()
      modifies this`isDestroyed, this`actions
      ensures isDestroyed && actions == old(actions) + [DestroyWindow]
    {
      actions := actions + [DestroyWindow];
      isDestroyed := true;
    }

    /** Stops the game loop and destroys the window. */
    method Stop()
      modifies this`running, this`isDestroyed, this`actions
      ensures !running && isDestroyed && actions == old(actions) + [DestroyWindow]
    {
      running := false;
      DestroyObject();
    }

    method OnClose(ev: Event)
      requires ev == WindowEvent(Close)
      modifies this`running, this`isDestroyed, this`actions
      ensures Flags() == AfterEvent(old(Flags()), ev, hooks)
      ensures actions == old(actions) + EventActions(ev, hooks)
    {
      if ClosedHook !in hooks {
        Stop();
      } else {
        actions := actions + [Raised(ClosedHook, ev)];
      }
    }

    method OnMinimize(ev: Event)
      requires ev == WindowEvent(Minimized)
      modifies this`isMinimized, this`actions
      ensures isMinimized
      ensures actions == old(actions) + EventActions(ev, hooks)
    {
      isMinimized := true;
      if MinimizedHook in hooks {
        actions := actions + [Raised(MinimizedHook, ev)];
      }
    }

    method OnRestore(ev: Event)
      requires ev == WindowEvent(Restored)
      modifies this`isMinimized, this`actions
      ensures !isMinimized
      ensures actions == old(actions) + EventActions(ev, hooks)
    {
      isMinimized := false;
      if RestoredHook in hooks {
        actions := actions + [Raised(RestoredHook, ev)];
      }
    }

    /** `HandleEvent(KeyboardEvent)`: raises KeyPressed or KeyReleased. */
    method HandleKeyboardEvent(ev: Event)
      requires ev.KeyboardEvent?
      modifies this`actions
      ensures actions == old(actions) + EventActions(ev, hooks)
    {
      match ev.state
      case Pressed =>
        if KeyPressedHook in hooks {
          actions := actions + [Raised(KeyPressedHook, ev)];
        }
      case Released =>
        if KeyReleasedHook in hooks {
          actions := actions + [Raised(KeyReleasedHook, ev)];
        }
    }

    /** `HandleEvent(WindowEvent)`: Close, Minimized and Restored; the rest is ignored. */
    method HandleWindowEvent(ev: Event)
      requires ev.WindowEvent?
      modifies this`running, this`isDestroyed, this`isMinimized, this`actions
      ensures Flags() == AfterEvent(old(Flags()), ev, hooks)
      ensures actions == old(actions) + EventActions(ev, hooks)
    {
      match ev.kind
      case Close => OnClose(ev);
      case Minimized => OnMinimize(ev);
      case Restored => OnRestore(ev);
      case OtherWindowEvent(_) =>
    }

    /** Hands one queued event to the handler for its kind. */
    method Dispatch(ev: Event)
      modifies this`running, this`isDestroyed, this`isMinimized, this`actions
      ensures Flags() == AfterEvent(old(Flags()), ev, hooks)
      ensures actions == old(actions) + EventActions(ev, hooks)
    {
      if ev.KeyboardEvent? {
        HandleKeyboardEvent(ev);
      } else {
        HandleWindowEvent(ev);
      }
    }

    /** Handles the queued events, then runs the user's update; nothing once destroyed. */
    method BaseUpdate()
      modifies this`running, this`isDestroyed, this`isMinimized, this`actions, this`queue
      ensures Flags() == UpdatedFlags(old(Flags()), old(queue), hooks)
      ensures actions == old(actions) + UpdateActions(old(Flags()), old(queue), hooks)
      ensures queue == if old(isDestroyed) then old(queue) else []
    {
      if isDestroyed {
        return;
      }
      var events := queue;
      queue := [];
      for i := 0 to |events|
        invariant Flags() == AfterEvents(old(Flags()), events[..i], hooks)
        invariant actions == old(actions) + EventsActions(events[..i], hooks)
        invariant queue == []
      {
        Dispatch(events[i]);
        assert DropLast(events[..i + 1]) == events[..i] && Last(events[..i + 1]) == events[i];
      }
      assert events[..|events|] == events;
      actions := actions + [UserUpdate];
    }

    /** Draws the given sprites, in the given order. */
    method CopySprites(order: seq<Sprite>)
      modifies this`actions
      ensures actions == old(actions) + SpriteCopies(order)
    {
      for i := 0 to |order|
        invariant actions == old(actions) + SpriteCopies(order[..i])
      {
        actions := actions + [ScaleHint(order[i].quality), CopySprite(order[i])];
        assert DropLast(order[..i + 1]) == order[..i] && Last(order[..i + 1]) == order[i];
      }
      assert order[..|order|] == order;
    }

    /** Draws the shown sprites in ascending z-order. */
    method DrawSprites()
      modifies this`actions
      ensures actions == old(actions) + SpriteCopies(DrawOrder(sprites))
    {
      CopySprites(DrawOrder(sprites));
    }

    /** Draws a frame; nothing when destroyed or minimized. */
    method BaseDraw()
      modifies this`actions
      ensures actions == old(actions) + DrawActions(Flags(), textureWidth, sprites)
    {
      if isDestroyed || isMinimized {
        return;
      }
      actions := actions + [UserDraw, UploadCanvas(Pitch(textureWidth)), CopyCanvas];
      if |sprites| > 0 {
        DrawSprites();
      } else {
        assert SpriteCopies(DrawOrder(sprites)) == [];
      }
      actions := actions + [Present];
    }

    /** The update half of a loop iteration: when due, move the deadline and update. */
    method UpdateIfDue(ticks: uint32)
      modifies this`nextGameUpdate, this`running, this`isDestroyed, this`isMinimized, this`actions, this`queue
      ensures nextGameUpdate == NextDeadline(ticks, old(nextGameUpdate), gameUpdateTicks)
      ensures var updating := Due(ticks, old(nextGameUpdate), gameUpdateTicks);
              && Flags() == (if updating then UpdatedFlags(old(Flags()), old(queue), hooks) else old(Flags()))
              && queue == (if updating && !old(isDestroyed) then [] else old(queue))
              && actions == old(actions) + (if updating then UpdateActions(old(Flags()), old(queue), hooks) else [])
      ensures old(!running ==> isDestroyed) ==> (!running ==> isDestroyed)
      ensures old(isDestroyed) ==> isDestroyed
    {
      if Due(ticks, nextGameUpdate, gameUpdateTicks) {
        ghost var f0, pending := Flags(), queue;
        nextGameUpdate := WrapU32(ticks + gameUpdateTicks);
        BaseUpdate();
        if f0.running && !f0.destroyed {
          StopImpliesDestroyed(f0, pending, hooks);
        }
      }
    }

    /** The draw half of a loop iteration: when due, move the deadline and draw. */
    method DrawIfDue(ticks: uint32)
      modifies this`nextVideoUpdate, this`actions
      ensures nextVideoUpdate == NextDeadline(ticks, old(nextVideoUpdate), videoUpdateTicks)
      ensures actions == old(actions)
                         + (if Due(ticks, old(nextVideoUpdate), videoUpdateTicks) then DrawActions(Flags(), textureWidth, sprites) else [])
    {
      if Due(ticks, nextVideoUpdate, videoUpdateTicks) {
        nextVideoUpdate := WrapU32(ticks + videoUpdateTicks);
        BaseDraw();
      }
    }

    /** The end of a loop iteration: sleep until the earlier deadline, if it is ahead. */
    method SleepUntilDeadline(now: uint32) returns (delay: Option<uint32>)
      modifies this`actions
      ensures delay == SleepTime(nextGameUpdate, nextVideoUpdate, gameUpdateTicks, videoUpdateTicks, now)
      ensures actions == old(actions) + SleepActions(delay)
    {
      if videoUpdateTicks <= 0 && gameUpdateTicks <= 0 {
        return None;
      }
      var updateTicks := Min(nextGameUpdate, nextVideoUpdate) - now;
      if updateTicks > 0 {
        actions := actions + [Sleep(updateTicks)];
        delay := Some(updateTicks);
      } else {
        delay := None;
      }
    }

    /** One iteration of the game loop, after the events in `arrivals` reached the queue. */
    method LoopStep(arrivals: seq<Event>, ticks: uint32, now: uint32) returns (delay: Option<uint32>)
      modifies this
      ensures SettingsUnchanged()
      ensures nextGameUpdate == NextDeadline(ticks, old(nextGameUpdate), gameUpdateTicks)
      ensures nextVideoUpdate == NextDeadline(ticks, old(nextVideoUpdate), videoUpdateTicks)
      ensures delay == SleepTime(nextGameUpdate, nextVideoUpdate, gameUpdateTicks, videoUpdateTicks, now)
      ensures var updating := Due(ticks, old(nextGameUpdate), gameUpdateTicks);
              var drawing := Due(ticks, old(nextVideoUpdate), videoUpdateTicks);
              var pending := old(queue) + arrivals;
              var mid := if updating then UpdatedFlags(old(Flags()), pending, hooks) else old(Flags());
              && Flags() == mid
              && queue == (if updating && !old(isDestroyed) then [] else pending)
              && actions == old(actions)
                            + (if updating then UpdateActions(old(Flags()), pending, hooks) else [])
                            + (if drawing then DrawActions(mid, textureWidth, sprites) else [])
                            + SleepActions(delay)
      ensures old(!running ==> isDestroyed) ==> (!running ==> isDestroyed)
      ensures old(isDestroyed) ==> isDestroyed
    {
      ghost var updateActions := if Due(ticks, nextGameUpdate, gameUpdateTicks)
                                 then UpdateActions(Flags(), queue + arrivals, hooks) else [];
      queue := queue + arrivals;
      UpdateIfDue(ticks);
      ghost var updated := actions;
      assert updated == old(actions) + updateActions;
      DrawIfDue(ticks);
      ghost var drawn := actions;
      delay := SleepUntilDeadline(now);
      assert actions == drawn + SleepActions(delay);
    }

    /** The game loop, run over a finite sequence of iterations: it stops when the window
        stops or when the iterations run out. Returns the number of iterations run. */
    method Loop(frames: seq<Frame>) returns (steps: nat)
      modifies this
      ensures SettingsUnchanged()
      ensures steps <= |frames|
      ensures steps < |frames| ==> !running
      ensures !running ==> isDestroyed
      ensures nextGameUpdate == DeadlineAfter(old(nextGameUpdate), gameUpdateTicks, TicksOf(frames[..steps]))
      ensures nextVideoUpdate == DeadlineAfter(old(nextVideoUpdate), videoUpdateTicks, TicksOf(frames[..steps]))
      ensures old(actions) <= actions
    {
      running := true;
      steps := 0;
      while running && steps < |frames|
        invariant steps <= |frames|
        invariant !running ==> isDestroyed
        invariant SettingsUnchanged()
        invariant nextGameUpdate == DeadlineAfter(old(nextGameUpdate), gameUpdateTicks, TicksOf(frames[..steps]))
        invariant nextVideoUpdate == DeadlineAfter(old(nextVideoUpdate), videoUpdateTicks, TicksOf(frames[..steps]))
        invariant old(actions) <= actions
        decreases |frames| - steps
      {
        var frame := frames[steps];
        var _ := LoopStep(frame.arrivals, frame.ticks, frame.now);
        assert DropLast(TicksOf(frames[..steps + 1])) == TicksOf(frames[..steps]);
        steps := steps + 1;
      }
    }

    /** `Start(drawRate, updateRate)`: set the rates, load, show the window, run the loop. */
    method StartAtRates(drawRate: uint32, updateRate: uint32, frames: seq<Frame>) returns (steps: nat)
      modifies this
      ensures videoUpdateTicks == drawRate && gameUpdateTicks == updateRate
      ensures old(actions) + [UserLoad, ShowWindow] <= actions
      ensures steps <= |frames| && (steps < |frames| ==> !running) && (!running ==> isDestroyed)
      ensures nextGameUpdate == DeadlineAfter(old(nextGameUpdate), updateRate, TicksOf(frames[..steps]))
      ensures nextVideoUpdate == DeadlineAfter(old(nextVideoUpdate), drawRate, TicksOf(frames[..steps]))
      ensures SetupUnchanged()
    {
      videoUpdateTicks := drawRate;
      gameUpdateTicks := updateRate;
      actions := actions + [UserLoad];
      actions := actions + [ShowWindow];
      steps := Loop(frames);
    }

    /** `Start(updateRate)`: the same rate for drawing and updating. */
    method StartAtRate(updateRate: uint32, frames: seq<Frame>) returns (steps: nat)
      modifies this
      ensures videoUpdateTicks == updateRate && gameUpdateTicks == updateRate
      ensures old(actions) + [UserLoad, ShowWindow] <= actions
      ensures steps <= |frames| && (steps < |frames| ==> !running) && (!running ==> isDestroyed)
      ensures nextGameUpdate == DeadlineAfter(old(nextGameUpdate), updateRate, TicksOf(frames[..steps]))
      ensures nextVideoUpdate == DeadlineAfter(old(nextVideoUpdate), updateRate, TicksOf(frames[..steps]))
      ensures SetupUnchanged()
    {
      steps := StartAtRates(updateRate, updateRate, frames);
    }

    /** `Start()`: both rates 0, so every iteration updates and draws and never sleeps. */
    method Start(frames: seq<Frame>) returns (steps: nat)
      modifies this
      ensures videoUpdateTicks == 0 && gameUpdateTicks == 0
      ensures old(actions) + [UserLoad, ShowWindow] <= actions
      ensures steps <= |frames| && (steps < |frames| ==> !running) && (!running ==> isDestroyed)
      ensures nextGameUpdate == DeadlineAfter(old(nextGameUpdate), 0, TicksOf(frames[..steps]))
      ensures nextVideoUpdate == DeadlineAfter(old(nextVideoUpdate), 0, TicksOf(frames[..steps]))
      ensures SetupUnchanged()
    {
      steps := StartAtRates(0, 0, frames);
    }
  }
}
