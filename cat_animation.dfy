/**
 * The ASCII-cat sketch of `src/components/CatAnimation.jsx`: a cat with a five-state
 * behaviour machine (idle, walk, hunt, sit, sleep) that reacts to the pointer, and bouncing
 * "toys" spawned by clicks that fall under gravity and expire.
 *
 * Coordinates are `real`. What the sketch reads from p5 each tick (pointer position, the
 * distances and unit directions that need a square root, random numbers, `frameCount`) is
 * passed in by the caller.
 */
module CatAnimation {

  datatype Vec = Vec(x: real, y: real)

  function Plus(a: Vec, b: Vec): Vec { Vec(a.x + b.x, a.y + b.y) }

  function Times(k: real, a: Vec): Vec { Vec(k * a.x, k * a.y) }

  datatype CatState = Idle | Walk | Hunt | Sit | Sleep

  const WalkSpeed: real := 2.0
  const HuntSpeed: real := 3.5
  /** The pointer is noticed from idle within this distance. */
  const NoticeRadius: real := 150.0
  /** A walking cat starts hunting within this distance. */
  const ChaseRadius: real := 80.0
  /** A hunting cat gives up beyond this distance. */
  const ReleaseRadius: real := 200.0
  /** A sitting cat is roused within this distance. */
  const WakeRadius: real := 100.0
  /** A walking cat has arrived below this distance to its target. */
  const ArriveRadius: real := 10.0
  const WanderChance: real := 0.01
  const SitChance: real := 0.3
  const SpeechTicks: int := 90
  const HeartTicks: int := 30
  const Gravity: real := 0.05
  const Restitution: real := -0.6
  const ToyLife: int := 300
  const Glyphs: seq<char> := ['*', 'o', '+', '@']
  const Phrases: seq<string> := ["meow!", "purrr", "^_^", "murP?"]
  const PhraseChance: real := 0.3

  /**
   * What one tick senses: the pointer, its distance to the cat, the distance from the cat to
   * its target, the two unit directions (cat to target, cat to pointer) and `frameCount`.
   */
  datatype Senses = Senses(
    mouse: Vec,
    distToMouse: real,
    distToTarget: real,
    towardTarget: Vec,
    towardMouse: Vec,
    frameCount: nat)

  /**
   * The random numbers a tick may draw: `p.random(1)` in idle, `p.random(50, width - 100)`
   * for a wander target, `p.random(1)` and `p.random(60, 120)` on arrival.
   */
  datatype Draws = Draws(wanderRoll: real, wanderX: real, sitRoll: real, restTicks: real)

  /**
   * `v` is a value `p.random(a, b)` can return: p5 swaps the bounds when `a > b`, and returns
   * the lower bound when they are equal.
   */
  predicate DrawableBetween(v: real, a: real, b: real)
  {
    var lo, hi := if a <= b then a else b, if a <= b then b else a;
    lo <= v && (v < hi || v == lo)
  }

  /** The ranges p5 draws these numbers from, for a canvas of any width. */
  predicate DrawsInRange(d: Draws, width: real)
  {
    && 0.0 <= d.wanderRoll < 1.0 && DrawableBetween(d.wanderX, 50.0, width - 100.0)
    && 0.0 <= d.sitRoll < 1.0 && DrawableBetween(d.restTicks, 60.0, 120.0)
  }

  /** The cat's fields, as a value. */
  datatype Cat = Cat(
    pos: Vec,
    target: Vec,
    state: CatState,
    frame: int,
    facingRight: bool,
    timer: real,
    emoji: string,
    emojiTimer: int)

  /** The invariant every update keeps: never asleep, a two-frame counter, a non-negative speech timer. */
  predicate Wellformed(c: Cat)
  {
    c.state != Sleep && (c.frame == 0 || c.frame == 1) && c.emojiTimer >= 0
  }

  /** The cat the sketch's setup creates: idle at the middle of the floor. */
  function Spawn(width: real, height: real): (c: Cat)
    ensures Wellformed(c)
    ensures c.state == Idle && c.target == c.pos && c.emojiTimer == 0
    ensures c.pos == Vec(width / 2.0, height - 50.0)
    ensures c.frame == 0 && c.facingRight && c.timer == 0.0 && c.emoji == ""
  {
    var pos := Vec(width / 2.0, height - 50.0);
    Cat(pos, pos, Idle, 0, true, 0.0, "", 0)
  }

  /** The idle rule: notice the pointer, or with a small chance wander to a floor point. */
  function IdleRule(c: Cat, s: Senses, d: Draws, height: real): (r: Cat)
    requires c.state == Idle
    ensures r.pos == c.pos && r.frame == c.frame && r.facingRight == c.facingRight && r.timer == c.timer
    ensures s.distToMouse < NoticeRadius ==> r.state == Walk && r.target == s.mouse
    ensures s.distToMouse >= NoticeRadius && d.wanderRoll < WanderChance ==>
              r.state == Walk && r.target == Vec(d.wanderX, height - 50.0)
    ensures s.distToMouse >= NoticeRadius && d.wanderRoll >= WanderChance ==> r == c
  {
    if s.distToMouse < NoticeRadius then c.(state := Walk, target := s.mouse)
    else if d.wanderRoll < WanderChance then c.(state := Walk, target := Vec(d.wanderX, height - 50.0))
    else c
  }

  /** Advance the two-frame walk cycle on ticks that are multiples of `every`. */
  function Animate(frame: int, frameCount: nat, every: nat): (r: int)
    requires every > 0
    ensures (frame == 0 || frame == 1) ==> (r == 0 || r == 1)
    ensures frameCount % every != 0 ==> r == frame
    ensures frameCount % every == 0 && (frame == 0 || frame == 1) ==> r == 1 - frame
  {
    if frameCount % every == 0 then (frame + 1) % 2 else frame
  }

  /**
   * The walk rule. On arrival the cat stops and picks sit or idle with a rest timer; otherwise
   * it steps `WalkSpeed` along the direction and faces that way. Either way, a pointer inside
   * the chase radius ends the tick in hunt, overriding the arrival choice.
   */
  function WalkRule(c: Cat, s: Senses, d: Draws): (r: Cat)
    requires c.state == Walk
    ensures r.target == c.target
    ensures s.distToMouse < ChaseRadius ==> r.state == Hunt
    ensures s.distToTarget < ArriveRadius ==>
              r.pos == c.pos && r.frame == c.frame && r.facingRight == c.facingRight && r.timer == d.restTicks
    ensures s.distToTarget < ArriveRadius && s.distToMouse >= ChaseRadius ==>
              r.state == (if d.sitRoll < SitChance then Sit else Idle)
    ensures s.distToTarget >= ArriveRadius ==>
              && r.pos == Plus(c.pos, Times(WalkSpeed, s.towardTarget))
              && r.facingRight == (s.towardTarget.x > 0.0)
              && r.frame == Animate(c.frame, s.frameCount, 8)
              && r.timer == c.timer
              && r.state == (if s.distToMouse < ChaseRadius then Hunt else Walk)
  {
    var moved :=
      if s.distToTarget < ArriveRadius then
        c.(state := if d.sitRoll < SitChance then Sit else Idle, timer := d.restTicks)
      else
        var step := Times(WalkSpeed, s.towardTarget);
        c.(pos := Plus(c.pos, step),
           facingRight := step.x > 0.0,
           frame := Animate(c.frame, s.frameCount, 8));
    if s.distToMouse < ChaseRadius then moved.(state := Hunt) else moved
  }

  /**
   * With draws from p5's ranges, an arriving cat rests for a time in [60, 120), and an idle
   * cat that wanders picks a floor point with x in [50, width - 100) on a canvas wider than
   * 150, in [width - 100, 50) on a narrower one, and exactly 50 at width 150.
   */
  lemma DrawnRanges(c: Cat, s: Senses, d: Draws, width: real, height: real)
    requires DrawsInRange(d, width)
    ensures c.state == Walk && s.distToTarget < ArriveRadius ==> 60.0 <= WalkRule(c, s, d).timer < 120.0
    ensures c.state == Idle && s.distToMouse >= NoticeRadius && d.wanderRoll < WanderChance ==>
              var x := IdleRule(c, s, d, height).target.x;
              && (width > 150.0 ==> 50.0 <= x < width - 100.0)
              && (width < 150.0 ==> width - 100.0 <= x < 50.0)
              && (width == 150.0 ==> x == 50.0)
  {
  }

  /** Every canvas width admits draws in range, so `DrawnRanges` applies to every sketch. */
  lemma DrawsExist(width: real)
    ensures DrawsInRange(Draws(0.0, if width - 100.0 < 50.0 then width - 100.0 else 50.0, 0.0, 60.0), width)
  {
  }

  /** The hunt rule: give up beyond the release radius, else chase the pointer at `HuntSpeed`. */
  function HuntRule(c: Cat, s: Senses): (r: Cat)
    requires c.state == Hunt
    ensures s.distToMouse > ReleaseRadius ==> r == c.(state := Idle)
    ensures s.distToMouse <= ReleaseRadius ==>
              && r.state == Hunt && r.target == s.mouse
              && r.pos == Plus(c.pos, Times(HuntSpeed, s.towardMouse))
              && r.facingRight == (s.towardMouse.x > 0.0)
              && r.frame == Animate(c.frame, s.frameCount, 5)
    ensures r.timer == c.timer
  {
    if s.distToMouse > ReleaseRadius then c.(state := Idle)
    else
      var step := Times(HuntSpeed, s.towardMouse);
      c.(target := s.mouse,
         pos := Plus(c.pos, step),
         facingRight := step.x > 0.0,
         frame := Animate(c.frame, s.frameCount, 5))
  }

  /** The sit/sleep rule: count the rest timer down; wake on expiry or a nearby pointer. */
  function RestRule(c: Cat, s: Senses): (r: Cat)
    requires c.state == Sit || c.state == Sleep
    ensures r.timer == c.timer - 1.0
    ensures r.pos == c.pos && r.target == c.target && r.frame == c.frame
    ensures r.facingRight == c.facingRight && r.emoji == c.emoji && r.emojiTimer == c.emojiTimer
    ensures r.state == Idle <==> (c.timer - 1.0 <= 0.0 || s.distToMouse < WakeRadius)
    ensures r.state != Idle ==> r.state == c.state
  {
    var rested := c.(timer := c.timer - 1.0);
    if rested.timer <= 0.0 || s.distToMouse < WakeRadius then rested.(state := Idle) else rested
  }

  /** The state-machine part of one update: exactly one rule runs, picked by the current state. */
  function Behave(c: Cat, s: Senses, d: Draws, height: real): (r: Cat)
    ensures r.emoji == c.emoji && r.emojiTimer == c.emojiTimer
    ensures c.state != Sleep ==> r.state != Sleep
    ensures (c.frame == 0 || c.frame == 1) ==> (r.frame == 0 || r.frame == 1)
  {
    match c.state
    case Idle => IdleRule(c, s, d, height)
    case Walk => WalkRule(c, s, d)
    case Hunt => HuntRule(c, s)
    case Sit => RestRule(c, s)
    case Sleep => RestRule(c, s)
  }

  /** p5's `constrain`: `max(min(v, hi), lo)`. */
  function Constrain(v: real, lo: real, hi: real): (r: real)
    ensures lo <= hi ==> lo <= r <= hi
    ensures lo <= v <= hi ==> r == v
    ensures lo <= hi && v > hi ==> r == hi
    ensures v < lo ==> r == lo
    ensures lo > hi ==> r == lo
  {
    var m := if v < hi then v else hi;
    if m > lo then m else lo
  }

  /**
   * One `update()`: the state machine, the speech countdown, then clamping of the position
   * into [0, width - 100] x [10, height - 40].
   */
  function Step(c: Cat, s: Senses, d: Draws, width: real, height: real): (r: Cat)
    ensures width >= 100.0 ==> 0.0 <= r.pos.x <= width - 100.0
    ensures height >= 50.0 ==> 10.0 <= r.pos.y <= height - 40.0
    ensures c.emojiTimer > 0 ==> r.emojiTimer == c.emojiTimer - 1
    ensures c.emojiTimer <= 0 ==> r.emojiTimer == c.emojiTimer
    ensures r.emoji == c.emoji
    ensures Wellformed(c) ==> Wellformed(r)
  {
    var b := Behave(c, s, d, height);
    var t := if b.emojiTimer > 0 then b.(emojiTimer := b.emojiTimer - 1) else b;
    t.(pos := Vec(Constrain(t.pos.x, 0.0, width - 100.0), Constrain(t.pos.y, 10.0, height - 40.0)))
  }

  /** `say(text)`: show `text` for `SpeechTicks` ticks. */
  function Speak(c: Cat, text: string): (r: Cat)
    ensures r.emoji == text && r.emojiTimer == SpeechTicks
    ensures r.state == c.state && r.pos == c.pos && r.frame == c.frame
    ensures r.target == c.target && r.facingRight == c.facingRight && r.timer == c.timer
    ensures Wellformed(c) ==> Wellformed(r)
  {
    c.(emoji := text, emojiTimer := SpeechTicks)
  }

  /** An input the cat sees between frames: one update, or a speech request from a click. */
  datatype Event =
    | Tick(senses: Senses, draws: Draws, width: real, height: real)
    | Speech(text: string)

  function Run(c: Cat, events: seq<Event>): Cat
    decreases |events|
  {
    if events == [] then c
    else
      var next := match events[0]
        case Tick(s, d, w, h) => Step(c, s, d, w, h)
        case Speech(t) => Speak(c, t);
      Run(next, events[1..])
  }

  /** Every sequence of updates and speech requests keeps the invariant. */
  lemma {:induction false} RunWellformed(c: Cat, events: seq<Event>)
    requires Wellformed(c)
    ensures Wellformed(Run(c, events))
    decreases |events|
  {
    if events != [] {
      var next := match events[0]
        case Tick(s, d, w, h) => Step(c, s, d, w, h)
        case Speech(t) => Speak(c, t);
      RunWellformed(next, events[1..]);
    }
  }

  /** No transition assigns sleep: from the spawned cat, `sleep` is never reached. */
  lemma SleepUnreachable(width: real, height: real, events: seq<Event>)
    ensures Run(Spawn(width, height), events).state != Sleep
  {
    RunWellformed(Spawn(width, height), events);
  }

  /** The sprite sets of `CAT_FRAMES`. */
  datatype Sprite = WalkSprite | SitSprite | SleepSprite | PounceSprite | HeartSprite

  /** How many frames each sprite set has. */
  function FrameCount(sp: Sprite): nat
  {
    if sp == WalkSprite then 2 else 1
  }

  /** The sprite `display()` picks; the heart replaces the sitting sprite while speech is fresh. */
  function SpriteOf(c: Cat): (r: Sprite)
    ensures r == HeartSprite <==> c.state == Sit && c.emojiTimer > HeartTicks
    ensures r == SitSprite <==> c.state == Sit && c.emojiTimer <= HeartTicks
    ensures r == SleepSprite <==> c.state == Sleep
    ensures r == PounceSprite <==> c.state == Hunt
    ensures r == WalkSprite <==> c.state == Idle || c.state == Walk
  {
    assert c.state.Idle? || c.state.Walk? || c.state.Hunt? || c.state.Sit? || c.state.Sleep?;
    var f0 := WalkSprite;
    var f1 := if c.state == Sit then SitSprite else f0;
    var f2 := if c.state == Sleep then SleepSprite else f1;
    var f3 := if c.state == Hunt then PounceSprite else f2;
    if c.emojiTimer > HeartTicks && c.state == Sit then HeartSprite else f3
  }

  /** The index of the drawn frame within the chosen sprite set: `frame % frames.length`. */
  function PoseIndex(c: Cat): (r: nat)
    requires c.frame >= 0
    ensures r < FrameCount(SpriteOf(c))
    ensures SpriteOf(c) != WalkSprite ==> r == 0
  {
    c.frame % FrameCount(SpriteOf(c))
  }

  /** The sprite is mirrored exactly when the cat faces left while walking or hunting. */
  predicate Mirrored(c: Cat)
  {
    !c.facingRight && (c.state == Walk || c.state == Hunt)
  }

  /** The speech text is drawn while its timer runs, except when sitting. */
  predicate ShowsSpeech(c: Cat)
  {
    c.emojiTimer > 0 && c.state != Sit
  }

  /** While the heart shows, the speech text is not drawn; a mirrored cat is never sitting. */
  lemma DisplayExclusions(c: Cat)
    ensures SpriteOf(c) == HeartSprite ==> !ShowsSpeech(c) && !Mirrored(c)
    ensures Mirrored(c) ==> SpriteOf(c) == WalkSprite || SpriteOf(c) == PounceSprite
  {
  }

  // ----- toys -----

  /** A toy's fields, as a value. */
  datatype ToyState = ToyState(x: real, y: real, vx: real, vy: real, glyph: char, life: int)

  /** The floor line toys bounce on. */
  function ToyFloor(height: real): real { height - 25.0 }

  /**
   * One `Toy.update()`: move by the velocity, add gravity, bounce on the floor (pinned there,
   * vertical velocity reversed and damped), reflect off the side walls, lose one tick of life.
   */
  function ToyStep(t: ToyState, width: real, height: real): (r: ToyState)
    ensures r.life == t.life - 1 && r.glyph == t.glyph
  {
    var x := t.x + t.vx;
    var y := t.y + t.vy;
    var vy := t.vy + Gravity;
    var floor := ToyFloor(height);
    var y', vy' := if y > floor then floor else y, if y > floor then vy * Restitution else vy;
    var vx' := if x < 0.0 || x > width then t.vx * -1.0 else t.vx;
    ToyState(x, y', vx', vy', t.glyph, t.life - 1)
  }

  /**
   * The motion rules of one update: the toy never ends below the floor line; it lands on it
   * exactly when its move would cross it; gravity is added before the bounce; the horizontal
   * velocity is negated exactly when the new position is outside the side walls.
   */
  lemma ToyStepSpec(t: ToyState, width: real, height: real)
    ensures var r := ToyStep(t, width, height);
      && r.x == t.x + t.vx
      && r.y <= ToyFloor(height)
      && (t.y + t.vy > ToyFloor(height) ==> r.y == ToyFloor(height) && r.vy == Restitution * (t.vy + Gravity))
      && (t.y + t.vy <= ToyFloor(height) ==> r.y == t.y + t.vy && r.vy == t.vy + Gravity)
      && (r.x < 0.0 || r.x > width ==> r.vx == -t.vx)
      && (0.0 <= r.x <= width ==> r.vx == t.vx)
  {
  }

  /** A floor hit reverses the vertical velocity and keeps at most 60% of its magnitude. */
  lemma FloorBounceDamps(t: ToyState, width: real, height: real)
    requires t.y + t.vy > ToyFloor(height)
    ensures var v, r := t.vy + Gravity, ToyStep(t, width, height).vy;
      && (v > 0.0 ==> r < 0.0 && -r < v)
      && (v < 0.0 ==> r > 0.0 && r < -v)
  {
  }

  /** A toy after `k` updates. */
  function ToyAfter(t: ToyState, k: nat, width: real, height: real): ToyState
    decreases k
  {
    if k == 0 then t else ToyStep(ToyAfter(t, k - 1, width, height), width, height)
  }

  lemma {:induction false} ToyLifeAfter(t: ToyState, k: nat, width: real, height: real)
    ensures ToyAfter(t, k, width, height).life == t.life - k
    ensures ToyAfter(t, k, width, height).glyph == t.glyph
    decreases k
  {
    if k > 0 {
      ToyLifeAfter(t, k - 1, width, height);
    }
  }

  /** The toy survives draws 1 to `k`: after each of them it still has life left. */
  predicate SurvivesDraws(t: ToyState, k: nat, width: real, height: real)
  {
    forall j :: 1 <= j <= k ==> ToyAfter(t, j, width, height).life > 0
  }

  /**
   * A toy with `life` ticks left is kept by exactly the next `life - 1` draws and removed by
   * the following one: a freshly spawned toy is updated and drawn in exactly 300 frames.
   */
  lemma ToyLifetime(t: ToyState, width: real, height: real)
    requires t.life >= 1
    ensures SurvivesDraws(t, (t.life - 1) as nat, width, height)
    ensures ToyAfter(t, t.life as nat, width, height).life == 0
    ensures forall k: nat :: SurvivesDraws(t, k, width, height) <==> k < t.life
  {
    forall j: nat ensures ToyAfter(t, j, width, height).life == t.life - j {
      ToyLifeAfter(t, j, width, height);
    }
    forall k: nat | k >= t.life ensures !SurvivesDraws(t, k, width, height) {
      assert ToyAfter(t, t.life as nat, width, height).life <= 0;
    }
  }

  /** A bouncing toy. */
  class Toy {
    var x: real
    var y: real
    var vx: real
    var vy: real
    const glyph: char
    var life: int

    function State(): ToyState
      reads this
    {
      ToyState(x, y, vx, vy, glyph, life)
    }

    /** A toy at the click point with a drawn velocity in [-2, 2) x [-2, 2) and a drawn glyph. */
    constructor (x0: real, y0: real, vx0: real, vy0: real, glyph0: char)
      requires -2.0 <= vx0 < 2.0 && -2.0 <= vy0 < 2.0 && glyph0 in Glyphs
      ensures State() == ToyState(x0, y0, vx0, vy0, glyph0, ToyLife)
    {
      x, y := x0, y0;
      vx, vy := vx0, vy0;
      glyph := glyph0;
      life := ToyLife;
    }

    method Update(width: real, height: real)
      modifies this
      ensures State() == ToyStep(old(State()), width, height)
    {
      x := x + vx;
      y := y + vy;
      vy := vy + Gravity;
      if y > height - 25.0 {
        y := height - 25.0;
        vy := vy * Restitution;
      }
      if x < 0.0 || x > width {
        vx := vx * -1.0;
      }
      life := life - 1;
    }
  }

  /** The cat object. */
  class ASCIICat {
    var pos: Vec
    var target: Vec
    var state: CatState
    var frame: int
    var facingRight: bool
    var timer: real
    const speed: real
    var emoji: string
    var emojiTimer: int

    function View(): Cat
      reads this
    {
      Cat(pos, target, state, frame, facingRight, timer, emoji, emojiTimer)
    }

    predicate Valid()
      reads this
    {
      speed == WalkSpeed && Wellformed(View())
    }

    constructor (width: real, height: real)
      ensures Valid() && View() == Spawn(width, height)
    {
      pos := Vec(width / 2.0, height - 50.0);
      target := Vec(width / 2.0, height - 50.0);
      state := Idle;
      frame := 0;
      facingRight := true;
      timer := 0.0;
      speed := 2.0;
      emoji := "";
      emojiTimer := 0;
    }

    method Update(width: real, height: real, s: Senses, d: Draws)
      requires Valid()
      modifies this
      ensures View() == Step(old(View()), s, d, width, height)
      ensures Valid()
    {
      RunRule(height, s, d);
      if emojiTimer > 0 {
        emojiTimer := emojiTimer - 1;
      }

      pos := Vec(Constrain(pos.x, 0.0, width - 100.0), Constrain(pos.y, 10.0, height - 40.0));
    }

    /** The state-machine part of `update()`. */
    method RunRule(height: real, s: Senses, d: Draws)
      requires Valid()
      modifies this
      ensures View() == Behave(old(View()), s, d, height)
    {
      if state == Idle {
        if s.distToMouse < 150.0 {
          state := Walk;
          target := s.mouse;
        } else if d.wanderRoll < 0.01 {
          state := Walk;
          target := Vec(d.wanderX, height - 50.0);
        }
      } else if state == Walk {
        if s.distToTarget < 10.0 {
          state := if d.sitRoll < 0.3 then Sit else Idle;
          timer := d.restTicks;
        } else {
          var step := Times(speed, s.towardTarget);
          pos := Plus(pos, step);
          facingRight := step.x > 0.0;
          if s.frameCount % 8 == 0 {
            frame := (frame + 1) % 2;
          }
        }
        if s.distToMouse < 80.0 {
          state := Hunt;
        }
      } else if state == Hunt {
        if s.distToMouse > 200.0 {
          state := Idle;
        } else {
          target := s.mouse;
          var step := Times(3.5, s.towardMouse);
          pos := Plus(pos, step);
          facingRight := step.x > 0.0;
          if s.frameCount % 5 == 0 {
            frame := (frame + 1) % 2;
          }
        }
      } else if state == Sit || state == Sleep {
        timer := timer - 1.0;
        if timer <= 0.0 || s.distToMouse < 100.0 {
          state := Idle;
        }
      }
    }

    method Say(text: string)
      requires Valid()
      modifies this
      ensures Valid()
      ensures View() == Speak(old(View()), text)
    {
      emoji := text;
      emojiTimer := 90;
    }
  }

  /** No toy occurs twice in the list. */
  predicate Distinct(ts: seq<Toy>)
  {
    forall i, j :: 0 <= i < j < |ts| ==> ts[i] != ts[j]
  }

  /** The toys whose matching state has life left, in their order. */
  function Survivors(ts: seq<Toy>, states: seq<ToyState>): seq<Toy>
    requires |ts| == |states|
  {
    if ts == [] then [] else (if states[0].life > 0 then [ts[0]] else []) + Survivors(ts[1..], states[1..])
  }

  /** Every survivor is one of the toys, and every toy whose state has life left survives. */
  lemma {:induction false} SurvivorsMembers(ts: seq<Toy>, states: seq<ToyState>)
    requires |ts| == |states|
    ensures forall k :: 0 <= k < |Survivors(ts, states)| ==> Survivors(ts, states)[k] in ts
    ensures forall k :: 0 <= k < |ts| && states[k].life > 0 ==> ts[k] in Survivors(ts, states)
  {
    if ts != [] {
      SurvivorsMembers(ts[1..], states[1..]);
      assert forall t :: t in ts[1..] ==> t in ts;
      forall k | 1 <= k < |ts| ensures ts[k] == ts[1..][k - 1] && states[k] == states[1..][k - 1] { }
    }
  }

  /**
   * The survivors of distinct toys are distinct, and a toy survives only when its state has
   * life left.
   */
  lemma {:induction false} SurvivorsDistinct(ts: seq<Toy>, states: seq<ToyState>)
    requires |ts| == |states| && Distinct(ts)
    ensures Distinct(Survivors(ts, states))
    ensures forall k :: 0 <= k < |ts| && ts[k] in Survivors(ts, states) ==> states[k].life > 0
  {
    if ts != [] {
      var rest := Survivors(ts[1..], states[1..]);
      assert Distinct(ts[1..]);
      SurvivorsMembers(ts[1..], states[1..]);
      SurvivorsDistinct(ts[1..], states[1..]);
      assert ts[0] !in ts[1..];
      assert ts[0] !in rest;
      forall k | 1 <= k < |ts| && ts[k] in Survivors(ts, states) ensures states[k].life > 0 {
        assert ts[k] == ts[1..][k - 1] && states[k] == states[1..][k - 1];
        assert ts[k] != ts[0];
        assert ts[k] in rest;
      }
    }
  }

  /** Unfolding the survivors of a suffix by one toy. */
  lemma SurvivorsAt(ts: seq<Toy>, states: seq<ToyState>, i: nat)
    requires |ts| == |states| && i < |ts|
    ensures Survivors(ts[i..], states[i..]) ==
              (if states[i].life > 0 then [ts[i]] else []) + Survivors(ts[i + 1..], states[i + 1..])
  {
    assert ts[i..][1..] == ts[i + 1..];
    assert states[i..][1..] == states[i + 1..];
  }

  /**
   * One step of the pruning loop, on values: if the first `i + 1` toys are still in place
   * before the survivors of the rest, then removing toy `i` exactly when its new state has no
   * life left puts the first `i` toys before the survivors from `i` on.
   */
  lemma PruneStep(ts: seq<Toy>, states: seq<ToyState>, live: seq<Toy>, i: nat)
    requires |ts| == |states| && i < |ts|
    requires live == ts[..i + 1] + Survivors(ts[i + 1..], states[i + 1..])
    ensures i < |live| && live[i] == ts[i]
    ensures states[i].life <= 0 ==> live[..i] + live[i + 1..] == ts[..i] + Survivors(ts[i..], states[i..])
    ensures states[i].life > 0 ==> live == ts[..i] + Survivors(ts[i..], states[i..])
  {
    SurvivorsAt(ts, states, i);
    assert ts[..i + 1] == ts[..i] + [ts[i]];
    assert live[..i] == ts[..i];
    assert live[i + 1..] == Survivors(ts[i + 1..], states[i + 1..]);
  }

  /** One update of every state. */
  function Stepped(states: seq<ToyState>, width: real, height: real): (r: seq<ToyState>)
    ensures |r| == |states| && forall k :: 0 <= k < |states| ==> r[k] == ToyStep(states[k], width, height)
  {
    seq(|states|, k requires 0 <= k < |states| => ToyStep(states[k], width, height))
  }

  /** Update the `i`-th of a list of distinct toys: no other toy of the list changes. */
  method UpdateAt(ts: seq<Toy>, i: nat, width: real, height: real)
    requires i < |ts| && Distinct(ts)
    modifies ts[i]
    ensures ts[i].State() == ToyStep(old(ts[i].State()), width, height)
    ensures forall k :: 0 <= k < |ts| && k != i ==> ts[k].State() == old(ts[k].State())
  {
    ts[i].Update(width, height);
  }

  /** The states of the toys, in order. */
  ghost function StatesOf(ts: seq<Toy>): (r: seq<ToyState>)
    reads ts
    ensures |r| == |ts| && forall k :: 0 <= k < |ts| ==> r[k] == ts[k].State()
  {
    seq(|ts|, k reads ts requires 0 <= k < |ts| => ts[k].State())
  }

  /**
   * The toy loop of `draw()`: walk the toys from last to first, updating each and splicing
   * out the ones left without life.
   */
  method UpdateToys(toys: seq<Toy>, width: real, height: real) returns (live: seq<Toy>)
    requires Distinct(toys)
    modifies toys
    ensures forall k :: 0 <= k < |toys| ==> toys[k].State() == ToyStep(old(toys[k].State()), width, height)
    ensures live == Survivors(toys, Stepped(old(StatesOf(toys)), width, height))
    ensures Distinct(live)
  {
    ghost var start := StatesOf(toys);
    ghost var after := Stepped(start, width, height);
    live := toys;
    var i := |live|;
    while i > 0
      invariant 0 <= i <= |toys| && |start| == |toys| == |after|
      invariant live == toys[..i] + Survivors(toys[i..], after[i..])
      invariant forall k :: i <= k < |toys| ==> toys[k].State() == after[k]
      invariant forall k :: 0 <= k < i ==> toys[k].State() == start[k]
    {
      i := i - 1;
      var toy := live[i];
      PruneStep(toys, after, live, i);
      UpdateAt(toys, i, width, height);
      if toy.life <= 0 {
        live := live[..i] + live[i + 1..];
      }
    }
    assert toys[0..] == toys && after[0..] == after;
    SurvivorsDistinct(toys, after);
  }

  /** A click inside the canvas, strictly within (0, width) x (0, height). */
  predicate Inside(mx: real, my: real, width: real, height: real)
  {
    mx > 0.0 && mx < width && my > 0.0 && my < height
  }

  /** The p5 sketch: the cat and the live toys. */
  class Sketch {
    const cat: ASCIICat
    var toys: seq<Toy>

    ghost predicate Valid()
      reads this, cat
    {
      cat.Valid() && Distinct(toys)
    }

    /** `setup()`: create the cat; no toys yet. */
    constructor (width: real, height: real)
      ensures Valid() && fresh(cat) && cat.View() == Spawn(width, height) && toys == []
    {
      cat := new ASCIICat(width, height);
      toys := [];
    }

    /**
     * `draw()`: update the cat, then the toys. Every toy that was live is updated once, and
     * the ones whose life has run out are gone; the survivors keep their order.
     */
    method Draw(width: real, height: real, s: Senses, d: Draws)
      requires Valid()
      modifies this, cat, toys
      ensures Valid()
      ensures cat.View() == Step(old(cat.View()), s, d, width, height)
      ensures forall k :: 0 <= k < |old(toys)| ==>
                old(toys)[k].State() == ToyStep(old(toys[k].State()), width, height)
      ensures toys == Survivors(old(toys), Stepped(old(StatesOf(toys)), width, height))
    {
      cat.Update(width, height, s, d);
      toys := UpdateToys(toys, width, height);
    }

    /**
     * `mousePressed()`: a click strictly inside the canvas appends one toy at the pointer and,
     * with chance 0.3, makes the cat say a phrase; any other click changes nothing.
     */
    method MousePressed(mx: real, my: real, width: real, height: real,
                        vx: real, vy: real, glyphPick: nat, sayRoll: real, phrasePick: nat)
      requires Valid()
      requires -2.0 <= vx < 2.0 && -2.0 <= vy < 2.0
      requires glyphPick < |Glyphs| && phrasePick < |Phrases|
      modifies this, cat
      ensures Valid()
      ensures !Inside(mx, my, width, height) ==> toys == old(toys) && cat.View() == old(cat.View())
      ensures Inside(mx, my, width, height) ==>
                && |toys| == |old(toys)| + 1 && toys[..|old(toys)|] == old(toys)
                && fresh(toys[|old(toys)|])
                && toys[|old(toys)|].State() == ToyState(mx, my, vx, vy, Glyphs[glyphPick], ToyLife)
                && cat.View() == (if sayRoll < PhraseChance then Speak(old(cat.View()), Phrases[phrasePick])
                                  else old(cat.View()))
    {
      if mx > 0.0 && mx < width && my > 0.0 && my < height {
        var toy := new Toy(mx, my, vx, vy, Glyphs[glyphPick]);
        toys := toys + [toy];
        if sayRoll < 0.3 {
          cat.Say(Phrases[phrasePick]);
        }
      }
    }
  }
}
