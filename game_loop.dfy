/**
 * One pass of the event-loop closure: exit on a close request, hand the
 * space key to the bird, measure the elapsed time (frozen once the game
 * has ended), draw and then update each layer in a fixed order with that
 * one duration, present the frame, run the collision and scoring checks,
 * and ask to be woken 20 ms later.
 *
 * Instants and durations are whole nanoseconds.  The bird and the pipe
 * system are opaque: what the loop does to them is recorded as a ghost
 * trace of calls, and the one answer the loop reads from them, whether
 * the bird collides, is an input of the tick.
 */
module GameLoop {
  import opened Render
  import Background

  datatype Option<T> = None | Some(value: T)

  /** The key codes the loop tells apart. */
  datatype KeyCode = Space | OtherKey

  datatype ElementState = Pressed | Released

  /** The events the closure is called with, grouped by the branch each takes. */
  datatype Event =
    | CloseRequested                                        // a window event: the user closes the window
    | OtherWindowEvent                                      // any other window event
    | Key(state: ElementState, keycode: Option<KeyCode>)    // a device key event, pressed or released
    | OtherDeviceEvent                                      // any other device event
    | OtherEvent                                            // wake-ups, redraw requests and the rest

  /** What the closure asks of the event loop. */
  datatype ControlFlow = Poll | WaitUntil(deadline: nat) | Exit

  /** The five layers the loop draws. */
  datatype LayerId = BackgroundId | PipeSystemId | BaseId | BirdId | GameOverId

  /** The calls the loop makes on its collaborators, as recorded in the trace. */
  datatype Call =
    | SpaceHit                        // the bird's reaction to the space key
    | Draw(layer: LayerId)
    | Update(layer: LayerId, dt: nat)
    | Finish                          // the frame is presented
    | CheckCollision                  // the pipe system is asked whether the bird collides
    | SetEnd                          // the game-over layer is told the game has ended
    | CheckPoints                     // the pipe system scores the bird's progress

  /** Back to front: background, pipes, ground, bird, game-over overlay. */
  const Layers: seq<LayerId> := [BackgroundId, PipeSystemId, BaseId, BirdId, GameOverId]

  /** 20 ms between the end of one tick and the next wake-up. */
  const WakeInterval: nat := 20_000_000

  /** Every frame is first cleared to opaque red. */
  const ClearColor: DrawCall := Clear(1.0, 0.0, 0.0, 1.0)

  predicate IsSpace(e: Event)
  {
    e.Key? && e.keycode == Some(Space)
  }

  /** The calls caused by the event itself. */
  function InputCalls(e: Event): seq<Call>
  {
    if IsSpace(e) then [SpaceHit] else []
  }

  /** `Instant - Instant`: the difference, or zero when the clock reads earlier. */
  function Elapsed(now: nat, last: nat): nat
  {
    if now >= last then now - last else 0
  }

  /** The duration a tick hands to every layer. */
  function TickDt(ended: bool, last: nat, now: nat): nat
  {
    if ended then 0 else Elapsed(now, last)
  }

  /** Draw then update, layer by layer, all with the same `dt`. */
  function LayerPass(ls: seq<LayerId>, dt: nat): seq<Call>
  {
    if ls == [] then []
    else LayerPass(ls[..|ls| - 1], dt) + [Draw(ls[|ls| - 1]), Update(ls[|ls| - 1], dt)]
  }

  /** All calls of one tick that does not exit, in order. */
  function TickCalls(e: Event, dt: nat, collision: bool): seq<Call>
  {
    InputCalls(e) + LayerPass(Layers, dt) + [Finish, CheckCollision]
      + (if collision then [SetEnd] else []) + [CheckPoints]
  }

  /** Appending a tick's calls piece by piece, as the loop does, appends `TickCalls`. */
  lemma TickCallsAppend(t0: seq<Call>, e: Event, dt: nat, collision: bool, t: seq<Call>)
    requires t == t0 + InputCalls(e) + LayerPass(Layers, dt) + [Finish] + [CheckCollision]
      + (if collision then [SetEnd] else []) + [CheckPoints]
    ensures t == t0 + TickCalls(e, dt, collision)
  {
  }

  /** Position `2k` of a layer pass draws layer `k` and position `2k + 1` updates it. */
  lemma {:induction false} LayerPassAt(ls: seq<LayerId>, dt: nat)
    ensures |LayerPass(ls, dt)| == 2 * |ls|
    ensures forall k :: 0 <= k < |ls| ==>
      LayerPass(ls, dt)[2 * k] == Draw(ls[k]) && LayerPass(ls, dt)[2 * k + 1] == Update(ls[k], dt)
  {
    if ls != [] {
      var init := ls[..|ls| - 1];
      LayerPassAt(init, dt);
      forall k | 0 <= k < |ls|
        ensures LayerPass(ls, dt)[2 * k] == Draw(ls[k]) && LayerPass(ls, dt)[2 * k + 1] == Update(ls[k], dt)
      {
        if k < |init| {
          assert ls[k] == init[k];
        }
      }
    }
  }

  /** A layer pass holds only draws and updates, and every update carries `dt`. */
  lemma {:induction false} LayerPassCalls(ls: seq<LayerId>, dt: nat)
    ensures forall c :: c in LayerPass(ls, dt) ==> (c.Draw? || c.Update?) && (c.Update? ==> c.dt == dt)
  {
    if ls != [] {
      LayerPassCalls(ls[..|ls| - 1], dt);
    }
  }

  /**
   * The order of one tick: the bird's reaction to the key first, then the
   * layers in order, each drawn and then updated with `dt`, then the frame
   * is finished, then the collision check, `set_end` exactly when there is
   * a collision, and the scoring check last.  No draw or update comes after
   * the frame is finished.
   */
  lemma TickOrder(e: Event, dt: nat, collision: bool)
    ensures var t := TickCalls(e, dt, collision);
      var s := |InputCalls(e)|;
      var p := s + 2 * |Layers|;
      && |t| == p + (if collision then 4 else 3)
      && (forall k :: 0 <= k < |Layers| ==> t[s + 2 * k] == Draw(Layers[k]) && t[s + 2 * k + 1] == Update(Layers[k], dt))
      && t[p] == Finish && t[p + 1] == CheckCollision
      && (t[p + 2] == SetEnd <==> collision)
      && t[|t| - 1] == CheckPoints
      && (forall i :: 0 <= i < |t| && (t[i].Draw? || t[i].Update?) ==> s <= i < p)
  {
    var t := TickCalls(e, dt, collision);
    var s := |InputCalls(e)|;
    var pass := LayerPass(Layers, dt);
    LayerPassAt(Layers, dt);
    assert t == InputCalls(e) + pass + ([Finish, CheckCollision] + (if collision then [SetEnd] else []) + [CheckPoints]);
    forall k | 0 <= k < |Layers|
      ensures t[s + 2 * k] == Draw(Layers[k]) && t[s + 2 * k + 1] == Update(Layers[k], dt)
    {
      assert t[s + 2 * k] == pass[2 * k];
      assert t[s + 2 * k + 1] == pass[2 * k + 1];
    }
  }

  /** The bird's `space_hit` is called once in a tick with a space key event, and never otherwise. */
  lemma SpaceHitOnce(e: Event, dt: nat, collision: bool)
    ensures multiset(TickCalls(e, dt, collision))[SpaceHit] == if IsSpace(e) then 1 else 0
  {
    LayerPassCalls(Layers, dt);
    var pass := LayerPass(Layers, dt);
    assert SpaceHit !in pass;
    assert multiset(pass)[SpaceHit] == 0;
  }

  /** The game-over overlay: the one collaborator whose state the loop reads. */
  class GameOverLayer {
    var ended: bool

    /** Created in the rolling state. */
    constructor ()
      ensures !ended
    {
      ended := false;
    }

    function GameEnded(): bool
      reads this
    {
      ended
    }

    method SetEnd()
      modifies this
      ensures ended
    {
      ended := true;
    }
  }

  /** The state the closure captures. */
  class Game {
    const background: Background.Background
    const base: Background.Background
    const gameOverLayer: GameOverLayer
    var lastTime: nat
    var controlFlow: ControlFlow
    /** The frames presented so far, oldest first. */
    var presented: seq<Frame>
    /** The calls made on the collaborators so far. */
    ghost var trace: seq<Call>

    /** Two distinct scrolling layers, each owning its own texture. */
    predicate Valid()
    {
      background.Valid() && base.Valid() && background != base && background.texture != base.texture
    }

    /**
     * Both scrolling layers move forward from a non-positive offset, the
     * condition under which each of their draws covers the whole viewport
     * (`Background.NoGap`).
     */
    ghost predicate Scrolling()
      reads background, base
    {
      background.speed >= 0.0 && base.speed >= 0.0 && background.offset <= 0.0 && base.offset <= 0.0
    }

    /** The level set-up: sky at speed 0.05, ground at speed 0.2, both 1.4 wide; the game rolling. */
    constructor (start: nat, backgroundHeight: real, baseHeight: real)
      ensures Valid() && Scrolling()
      ensures background.blockWidth == 1.4 && background.speed == 0.05 && background.offset == 0.0
      ensures base.blockWidth == 1.4 && base.speed == 0.2 && base.offset == 0.0
      ensures fresh(background) && fresh(base) && fresh(gameOverLayer) && !gameOverLayer.ended
      ensures fresh(background.texture) && fresh(base.texture)
      ensures lastTime == start && controlFlow == Poll && presented == [] && trace == []
    {
      gameOverLayer := new GameOverLayer();
      background := new Background.Background(1.4, 0.05, backgroundHeight);
      base := new Background.Background(1.4, 0.2, baseHeight);
      lastTime := start;
      controlFlow := Poll;
      presented := [];
      trace := [];
    }

    /** What layer `l` draws, given the two scrolling offsets. */
    function Drawn(l: LayerId, backgroundOffset: real, baseOffset: real): seq<DrawCall>
      requires Valid()
    {
      match l
      case BackgroundId => Background.Tiles(background.blockWidth, backgroundOffset, background.texture.height)
      case PipeSystemId => [Layer("pipe_system")]
      case BaseId => Background.Tiles(base.blockWidth, baseOffset, base.texture.height)
      case BirdId => [Layer("bird")]
      case GameOverId => [Layer("game_over_layer")]
    }

    /** What the layers `ls` draw, in order. */
    function Scene(ls: seq<LayerId>, backgroundOffset: real, baseOffset: real): seq<DrawCall>
      requires Valid()
    {
      if ls == [] then []
      else Scene(ls[..|ls| - 1], backgroundOffset, baseOffset) + Drawn(ls[|ls| - 1], backgroundOffset, baseOffset)
    }

    /** `layer.draw(frame, ..)`: the layer's draw calls are appended to the frame. */
    method DrawLayer(l: LayerId, frame: Frame) returns (f: Frame)
      requires Valid()
      modifies this`trace, background.texture, base.texture
      ensures f == frame + Drawn(l, background.offset, base.offset)
      ensures trace == old(trace) + [Draw(l)]
    {
      match l {
        case BackgroundId => f := background.Draw(frame);
        case PipeSystemId => f := frame + [Layer("pipe_system")];
        case BaseId => f := base.Draw(frame);
        case BirdId => f := frame + [Layer("bird")];
        case GameOverId => f := frame + [Layer("game_over_layer")];
      }
      trace := trace + [Draw(l)];
    }

    /** `layer.update(dt)`: only a scrolling layer's offset is modelled state. */
    method UpdateLayer(l: LayerId, dt: nat)
      requires Valid()
      modifies this`trace, background`offset, base`offset
      ensures background.offset ==
        if l == BackgroundId then Background.Advance(old(background.offset), background.speed, dt) else old(background.offset)
      ensures base.offset ==
        if l == BaseId then Background.Advance(old(base.offset), base.speed, dt) else old(base.offset)
      ensures trace == old(trace) + [Update(l, dt)]
    {
      if l == BackgroundId {
        background.Update(dt);
      } else if l == BaseId {
        base.Update(dt);
      }
      trace := trace + [Update(l, dt)];
    }

    /**
     * The layer loop: a fresh frame cleared to `ClearColor`, then each layer
     * in order draws into it and is updated by `dt`.
     */
    method ComposeLayers(dt: nat) returns (frame: Frame)
      requires Valid()
      modifies this`trace, background`offset, base`offset, background.texture, base.texture
      ensures frame == [ClearColor] + Scene(Layers, old(background.offset), old(base.offset))
      ensures trace == old(trace) + LayerPass(Layers, dt)
      ensures background.offset == Background.Advance(old(background.offset), background.speed, dt)
      ensures base.offset == Background.Advance(old(base.offset), base.speed, dt)
    {
      frame := [ClearColor];
      ghost var trace0, background0, base0 := trace, background.offset, base.offset;
      for k := 0 to |Layers|
        invariant trace == trace0 + LayerPass(Layers[..k], dt)
        invariant frame == [ClearColor] + Scene(Layers[..k], background0, base0)
        invariant background.offset == if k >= 1 then Background.Advance(background0, background.speed, dt) else background0
        invariant base.offset == if k >= 3 then Background.Advance(base0, base.speed, dt) else base0
      {
        var l := Layers[k];
        assert Drawn(l, background.offset, base.offset) == Drawn(l, background0, base0);
        frame := DrawLayer(l, frame);
        UpdateLayer(l, dt);
        assert Layers[..k + 1][..k] == Layers[..k];
      }
      assert Layers[..|Layers|] == Layers;
    }

    /**
     * One call of the closure.  `now` is the clock read after the event is
     * handled, `later` the clock read when the next wake-up is computed, and
     * `collision` the pipe system's answer to the collision check.
     */
    method Tick(event: Event, now: nat, collision: bool, later: nat)
      requires Valid()
      modifies this, background`offset, base`offset, background.texture, base.texture, gameOverLayer
      ensures Valid()
      ensures old(Scrolling()) ==> Scrolling()
      ensures event.CloseRequested? ==>
        && controlFlow == Exit
        && lastTime == old(lastTime) && presented == old(presented) && trace == old(trace)
        && background.offset == old(background.offset) && base.offset == old(base.offset)
        && gameOverLayer.ended == old(gameOverLayer.ended)
        && unchanged(background.texture, base.texture)
      ensures !event.CloseRequested? ==>
        var dt := TickDt(old(gameOverLayer.ended), old(lastTime), now);
        && lastTime == now
        && trace == old(trace) + TickCalls(event, dt, collision)
        && presented == old(presented) + [[ClearColor] + Scene(Layers, old(background.offset), old(base.offset))]
        && background.offset == Background.Advance(old(background.offset), background.speed, dt)
        && base.offset == Background.Advance(old(base.offset), base.speed, dt)
        && gameOverLayer.ended == (old(gameOverLayer.ended) || collision)
        && controlFlow == WaitUntil(later + WakeInterval)
    {
      match event {
        case CloseRequested =>
          controlFlow := Exit;
          return;
        case Key(_, keycode) =>
          if keycode == Some(Space) {
            trace := trace + [SpaceHit];
          }
        case _ =>
      }
      assert trace == old(trace) + InputCalls(event);
      var dt := Elapsed(now, lastTime);
      lastTime := now;
      if gameOverLayer.GameEnded() {
        dt := 0;
      }
      assert dt == TickDt(old(gameOverLayer.ended), old(lastTime), now);
      var frame := ComposeLayers(dt);
      presented := presented + [frame];
      trace := trace + [Finish];
      trace := trace + [CheckCollision];
      if collision {
        gameOverLayer.SetEnd();
        trace := trace + [SetEnd];
      }
      trace := trace + [CheckPoints];
      controlFlow := WaitUntil(later + WakeInterval);
      TickCallsAppend(old(trace), event, dt, collision, trace);
      if old(Scrolling()) {
        Background.AdvanceNonIncreasing(old(background.offset), background.speed, dt);
        Background.AdvanceNonIncreasing(old(base.offset), base.speed, dt);
      }
    }
  }

  /**
   * A collision on one tick freezes the next: the second tick hands every
   * layer a zero duration, so the scrolling layers stay where the first
   * tick left them, however much time has passed.
   */
  method CollisionFreezesNextTick(g: Game, first: Event, second: Event, t1: nat, t2: nat, later1: nat, later2: nat, collision2: bool)
    requires g.Valid() && !first.CloseRequested? && !second.CloseRequested?
    modifies g, g.background`offset, g.base`offset, g.background.texture, g.base.texture, g.gameOverLayer
    ensures g.gameOverLayer.ended
    ensures var dt1 := TickDt(old(g.gameOverLayer.ended), old(g.lastTime), t1);
      && g.trace == old(g.trace) + TickCalls(first, dt1, true) + TickCalls(second, 0, collision2)
      && g.background.offset == Background.Advance(old(g.background.offset), g.background.speed, dt1)
      && g.base.offset == Background.Advance(old(g.base.offset), g.base.speed, dt1)
  {
    ghost var dt1 := TickDt(g.gameOverLayer.ended, g.lastTime, t1);
    g.Tick(first, t1, true, later1);
    ghost var background1, base1 := g.background.offset, g.base.offset;
    g.Tick(second, t2, collision2, later2);
    Background.AdvanceAdditive(background1, g.background.speed, 0, 0);
    Background.AdvanceAdditive(base1, g.base.speed, 0, 0);
  }
}
