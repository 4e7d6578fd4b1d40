/** The sprites sample: a window whose background is generated once, with two players
    steered by the keyboard (W/A/S/D for the first, the arrow keys for the second). */
module SpritesSample {
  import opened Basics
  import opened Canvases
  import opened SpriteOrder
  import opened Windows
  import opened SpritesBackground

  /** The direction each player moves in, one step per update, per axis. */
  datatype Deltas = Deltas(player1: Point, player2: Point)

  datatype Player = Player1 | Player2
  datatype Axis = XAxis | YAxis

  /** A movement key: the player and axis it steers, and the direction it pushes. */
  datatype Binding = Binding(player: Player, axis: Axis, direction: int32)

  /** The key map of the sample. */
  function BindingOf(key: Keycode): Option<Binding>
  {
    match key
    case W => Some(Binding(Player1, YAxis, -1))
    case S => Some(Binding(Player1, YAxis, 1))
    case A => Some(Binding(Player1, XAxis, -1))
    case D => Some(Binding(Player1, XAxis, 1))
    case Up => Some(Binding(Player2, YAxis, -1))
    case Down => Some(Binding(Player2, YAxis, 1))
    case Left => Some(Binding(Player2, XAxis, -1))
    case Right => Some(Binding(Player2, XAxis, 1))
    case _ => None
  }

  function Component(d: Deltas, player: Player, axis: Axis): int32
  {
    var p := if player == Player1 then d.player1 else d.player2;
    if axis == XAxis then p.x else p.y
  }

  function WithComponent(d: Deltas, player: Player, axis: Axis, v: int32): (r: Deltas)
    ensures Component(r, player, axis) == v
    ensures forall q, a | q != player || a != axis :: Component(r, q, a) == Component(d, q, a)
  {
    var p := if player == Player1 then d.player1 else d.player2;
    var p' := if axis == XAxis then p.(x := v) else p.(y := v);
    if player == Player1 then d.(player1 := p') else d.(player2 := p')
  }

  /** The deltas after a key press; Escape (which stops the window) and unbound keys
      leave them alone. */
  function AfterPress(d: Deltas, key: Keycode): Deltas
  {
    match key
    case W => d.(player1 := d.player1.(y := -1))
    case S => d.(player1 := d.player1.(y := 1))
    case A => d.(player1 := d.player1.(x := -1))
    case D => d.(player1 := d.player1.(x := 1))
    case Up => d.(player2 := d.player2.(y := -1))
    case Down => d.(player2 := d.player2.(y := 1))
    case Left => d.(player2 := d.player2.(x := -1))
    case Right => d.(player2 := d.player2.(x := 1))
    case _ => d
  }

  /** The deltas after a key release: either key of an axis stops movement on that axis. */
  function AfterRelease(d: Deltas, key: Keycode): Deltas
  {
    match key
    case W => d.(player1 := d.player1.(y := 0))
    case S => d.(player1 := d.player1.(y := 0))
    case A => d.(player1 := d.player1.(x := 0))
    case D => d.(player1 := d.player1.(x := 0))
    case Up => d.(player2 := d.player2.(y := 0))
    case Down => d.(player2 := d.player2.(y := 0))
    case Left => d.(player2 := d.player2.(x := 0))
    case Right => d.(player2 := d.player2.(x := 0))
    case _ => d
  }

  /** Pressing a bound key sets its component to its direction and touches nothing else. */
  lemma PressFollowsBinding(d: Deltas, key: Keycode)
    ensures AfterPress(d, key) ==
      match BindingOf(key)
      case Some(b) => WithComponent(d, b.player, b.axis, b.direction)
      case None => d
  {
  }

  /** Releasing a bound key zeroes its component and touches nothing else. */
  lemma ReleaseFollowsBinding(d: Deltas, key: Keycode)
    ensures AfterRelease(d, key) ==
      match BindingOf(key)
      case Some(b) => WithComponent(d, b.player, b.axis, 0)
      case None => d
  {
  }

  /** A release undoes whatever the press of the same key did. */
  lemma ReleaseAfterPress(d: Deltas, key: Keycode)
    ensures AfterRelease(AfterPress(d, key), key) == AfterRelease(d, key)
  {
  }

  /** The deltas after the handlers of one keyboard event; other events do not reach them. */
  function AfterKey(d: Deltas, ev: Event): Deltas
  {
    match ev
    case KeyboardEvent(Pressed, key) => AfterPress(d, key)
    case KeyboardEvent(Released, key) => AfterRelease(d, key)
    case WindowEvent(_) => d
  }

  function AfterKeys(d: Deltas, evs: seq<Event>): Deltas
  {
    if evs == [] then d else AfterKey(AfterKeys(d, DropLast(evs)), Last(evs))
  }

  predicate IsUnit(v: int)
  {
    -1 <= v <= 1
  }

  predicate UnitDeltas(d: Deltas)
  {
    IsUnit(d.player1.x) && IsUnit(d.player1.y) && IsUnit(d.player2.x) && IsUnit(d.player2.y)
  }

  /** Starting from rest, every component stays -1, 0 or 1 whatever keys are pressed and
      released: a player moves at most one pixel per axis per update. */
  lemma {:induction false} DeltasStayUnit(d: Deltas, evs: seq<Event>)
    requires UnitDeltas(d)
    ensures UnitDeltas(AfterKeys(d, evs))
  {
    if evs != [] {
      DeltasStayUnit(d, DropLast(evs));
    }
  }

  /** The keys that steer `player`. */
  predicate Steers(player: Player, ev: Event)
  {
    ev.KeyboardEvent? && BindingOf(ev.keycode).Some? && BindingOf(ev.keycode).value.player == player
  }

  /** Keys that do not steer a player leave that player's deltas alone. */
  lemma {:induction false} OtherPlayerUntouched(d: Deltas, evs: seq<Event>, player: Player, axis: Axis)
    requires forall i | 0 <= i < |evs| :: !Steers(player, evs[i])
    ensures Component(AfterKeys(d, evs), player, axis) == Component(d, player, axis)
  {
    if evs != [] {
      var e := Last(evs);
      assert !Steers(player, e);
      OtherPlayerUntouched(d, DropLast(evs), player, axis);
      var before := AfterKeys(d, DropLast(evs));
      if e.KeyboardEvent? {
        PressFollowsBinding(before, e.keycode);
        ReleaseFollowsBinding(before, e.keycode);
      }
    }
  }

  /** After a press of a movement key with no later event for the same player and axis,
      the player moves in the key's direction on that axis. */
  lemma {:induction false} LastPressWins(d: Deltas, evs: seq<Event>, i: nat)
    requires i < |evs| && evs[i].KeyboardEvent? && evs[i].state == Pressed
    requires BindingOf(evs[i].keycode).Some?
    requires var b := BindingOf(evs[i].keycode).value;
      forall j | i < j < |evs| :: !(Steers(b.player, evs[j]) && BindingOf(evs[j].keycode).value.axis == b.axis)
    ensures var b := BindingOf(evs[i].keycode).value;
      Component(AfterKeys(d, evs), b.player, b.axis) == b.direction
  {
    var b := BindingOf(evs[i].keycode).value;
    var prefix := DropLast(evs);
    var before := AfterKeys(d, prefix);
    var e := Last(evs);
    if e.KeyboardEvent? {
      PressFollowsBinding(before, e.keycode);
      ReleaseFollowsBinding(before, e.keycode);
    }
    if i < |prefix| {
      assert forall j | i < j < |prefix| :: prefix[j] == evs[j];
      LastPressWins(d, prefix, i);
    }
  }

  // ---------------------------------------------------------------------------
  // The sample's window

  class SpritesWindow {
    var window: SdlWindow
    var player1Delta: Point
    var player2Delta: Point

    function CurrentDeltas(): Deltas
      reads this
    {
      Deltas(player1Delta, player2Delta)
    }

    /** Opens a 256 x 196 canvas in a window `scale` times that size, subscribes to the
        keyboard, enlarges the canvas to 1024 x 1024, paints the background and adds the
        two players. `blue` is the strip's blue channel; `player1` and `player2` are the
        players' sprites. */
    constructor (scale: int32, blue: nat -> byte, player1: Sprite, player2: Sprite)
      ensures fresh(window) && fresh(window.canvas) && fresh(window.canvas.pixels)
      ensures window.windowWidth == Wrap32(256 * scale) && window.windowHeight == Wrap32(196 * scale)
      ensures window.textureWidth == 256 && window.textureHeight == 196
      ensures window.hooks == {KeyPressedHook, KeyReleasedHook}
      ensures window.canvas.Valid() && window.canvas.width == 1024 && window.canvas.height == 1024
      ensures forall i | 0 <= i < window.canvas.pixels.Length ::
        window.canvas.pixels[i] == BackgroundAt(1024, 1024, blue, i)
      ensures window.sprites == [player1, player2.(quality := Linear)]
      ensures CurrentDeltas() == Deltas(Point(0, 0), Point(0, 0))
      ensures !window.running && !window.isDestroyed
    {
      window := new SdlWindow("Sprites Test", Point(WindowPosUndefined, WindowPosUndefined),
                              Wrap32(256 * scale), Wrap32(196 * scale), 256, 196, Nearest);
      player1Delta, player2Delta := Point(0, 0), Point(0, 0);
      new;
      window.hooks := window.hooks + {KeyPressedHook};
      window.hooks := window.hooks + {KeyReleasedHook};
      var widthSet := window.canvas.SetWidth(1024, Handle(0));
      var heightSet := window.canvas.SetHeight(1024, Handle(0));
      GenerateBackground(blue);
      GeneratePlayers(player1, player2);
    }

    /** Paints the background canvas. */
    method GenerateBackground(blue: nat -> byte)
      requires window.canvas.Valid()
      requires window.canvas.width <= 2 * Margin || window.canvas.width <= window.canvas.height + Margin
      modifies window.canvas.pixels
      ensures forall i | 0 <= i < window.canvas.pixels.Length ::
        window.canvas.pixels[i] == BackgroundAt(window.canvas.width, window.canvas.height, blue, i)
    {
      var pixels, width, height := window.canvas.pixels, window.canvas.width, window.canvas.height;
      var strip := BuildStrip(width, blue);
      PaintStrips(pixels, width, height, strip);
      ghost var painted := pixels[..];
      DarkenRows(pixels, width, height);
      ghost var darkened := pixels[..];
      DrawBorder(pixels, width, height);
      BackgroundPhases(width, height, blue, strip[..], painted, darkened, pixels[..]);
    }

    /** Adds the two players to the window's sprites, the second scaled with linear
        filtering; both start at rest. */
    method GeneratePlayers(player1: Sprite, player2: Sprite)
      modifies this`player1Delta, this`player2Delta, window`sprites
      ensures window.sprites == old(window.sprites) + [player1, player2.(quality := Linear)]
      ensures CurrentDeltas() == Deltas(Point(0, 0), Point(0, 0))
    {
      player1Delta := Point(0, 0);
      player2Delta := Point(0, 0);
      window.sprites := window.sprites + [player1];
      window.sprites := window.sprites + [player2.(quality := Linear)];
    }

    /** The `KeyPressed` handler: Escape stops the window, the movement keys steer. */
    method OnKeyPressed(ev: Event)
      requires ev.KeyboardEvent?
      modifies this`player1Delta, this`player2Delta, window`running, window`isDestroyed, window`actions
      ensures window == old(window)
      ensures CurrentDeltas() == AfterPress(old(CurrentDeltas()), ev.keycode)
      ensures ev.keycode == Escape ==> !window.running && window.isDestroyed &&
                                       window.actions == old(window.actions) + [DestroyWindow]
      ensures ev.keycode != Escape ==> unchanged(window)
    {
      match ev.keycode {
        case Escape => window.Stop();
        case W => player1Delta := player1Delta.(y := -1);
        case S => player1Delta := player1Delta.(y := 1);
        case A => player1Delta := player1Delta.(x := -1);
        case D => player1Delta := player1Delta.(x := 1);
        case Up => player2Delta := player2Delta.(y := -1);
        case Down => player2Delta := player2Delta.(y := 1);
        case Left => player2Delta := player2Delta.(x := -1);
        case Right => player2Delta := player2Delta.(x := 1);
        case OtherKey(_) =>
      }
    }

    /** The `KeyReleased` handler. */
    method OnKeyReleased(ev: Event)
      requires ev.KeyboardEvent?
      modifies this`player1Delta, this`player2Delta
      ensures window == old(window)
      ensures CurrentDeltas() == AfterRelease(old(CurrentDeltas()), ev.keycode)
    {
      match ev.keycode {
        case W => player1Delta := player1Delta.(y := 0);
        case S => player1Delta := player1Delta.(y := 0);
        case A => player1Delta := player1Delta.(x := 0);
        case D => player1Delta := player1Delta.(x := 0);
        case Up => player2Delta := player2Delta.(y := 0);
        case Down => player2Delta := player2Delta.(y := 0);
        case Left => player2Delta := player2Delta.(x := 0);
        case Right => player2Delta := player2Delta.(x := 0);
        case _ =>
      }
    }
  }
}
