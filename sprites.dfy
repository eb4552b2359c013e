/**
 * The sprite hierarchy: a drawable with a position and a texture, which an
 * animated sprite extends with a strip of frame rectangles and masks, a
 * moving sprite with speed and direction, and the player with both and a
 * turn-dependent frame cycle.
 */
module Sprites {
  import opened Results
  import opened Geometry
  import opened CppInt
  import FlagSystem

  /**
   * Which classes of the hierarchy a sprite object belongs to:
   * `Static`/`NonAnimated` are plain sprites, `Obstacle` and `Bullet` are
   * moving animated sprites, `Player` is a moving animated sprite with its
   * own frame cycle.
   */
  datatype Kind = Plain | NonStatic | Animated | MovingAnimated | Player {
    predicate IsAnimated() { this == Animated || this == MovingAnimated || this == Player }
    predicate IsMoving() { this == NonStatic || this == MovingAnimated || this == Player }
  }

  /** What `texture.lock()` sees: an expired texture, or a live one of this size. */
  datatype TextureSize = TextureSize(sizeX: nat, sizeY: nat)

  /** Whether the constructor accepts the texture: it is alive and neither side is zero. */
  predicate Usable(texture: Option<TextureSize>) {
    texture.Some? && texture.value.sizeX != 0 && texture.value.sizeY != 0
  }

  /** The scale of a fresh `sf::Sprite`. */
  const UnitScale := Vec2(1.0, 1.0)

  /** A frame index one step on, wrapping to 0 when it reaches `indexMax`. */
  function NextFrame(i: int, indexMax: int): (f: int)
    ensures 0 <= i < indexMax ==> 0 <= f < indexMax && f == (i + 1) % indexMax
    ensures f == 0 || f == i + 1
  {
    if i + 1 >= indexMax then 0 else i + 1
  }

  /** The frame index after `n` frame changes. */
  function FrameAfter(i: int, indexMax: int, n: nat): int {
    if n == 0 then i else NextFrame(FrameAfter(i, indexMax, n - 1), indexMax)
  }

  /** The frames cycle with period `indexMax`: after `n` changes the index is `(i + n) % indexMax`. */
  lemma {:induction false} FrameCycle(i: int, indexMax: int, n: nat)
    requires 0 <= i < indexMax
    ensures FrameAfter(i, indexMax, n) == (i + n) % indexMax
  {
    if n > 0 {
      FrameCycle(i, indexMax, n - 1);
      var j := (i + n - 1) % indexMax;
      ModSuccessor(i + n - 1, indexMax);
      assert NextFrame(j, indexMax) == (j + 1) % indexMax;
    }
  }

  lemma ModSuccessor(a: nat, m: nat)
    requires m > 0
    ensures (a % m + 1) % m == (a + 1) % m
  {
    var q, r := a / m, a % m;
    assert a == q * m + r;
    if r + 1 < m {
      RowMajorSplit(q, r + 1, m);
      RowMajorSplit(0, r + 1, m);
    } else {
      assert a + 1 == (q + 1) * m + 0;
      RowMajorSplit(q + 1, 0, m);
      RowMajorSplit(1, 0, m);
    }
  }

  lemma ModShift(x: nat, m: nat)
    requires m > 0
    ensures (x + m) % m == x % m
  {
    var q, r := x / m, x % m;
    assert x == q * m + r;
    assert (q + 1) * m == q * m + m;
    RowMajorSplit(q + 1, r, m);
  }

  /**
   * The player's next frame under C++ truncated `%`: frames 6 to 11 while
   * A is held, frames 0 to 5 otherwise.
   */
  function PlayerNextIndex(i: int, aPressed: bool): (j: int) {
    if aPressed then 6 + TRem(i - 6 + 1, 6) else TRem(i + 1, 6)
  }

  /** Without A the index lands in 0..5 and cycles there; with A held an index in 6..11 cycles in 6..11. */
  lemma PlayerNextIndexRanges(i: int)
    ensures i >= -1 ==> 0 <= PlayerNextIndex(i, false) <= 5 && PlayerNextIndex(i, false) == (i + 1) % 6
    ensures 6 <= i <= 11 ==> 6 <= PlayerNextIndex(i, true) <= 11 && PlayerNextIndex(i, true) == 6 + (i - 5) % 6
  {
    TRemRange(i + 1, 6);
    TRemRange(i - 5, 6);
  }

  /**
   * Truncated `%` on a negative operand: pressing A on frames 0 to 4 moves
   * one frame on inside 1..5 instead of jumping to the 6..11 range.
   */
  lemma PlayerTurnLingers(i: int)
    requires 0 <= i <= 4
    ensures PlayerNextIndex(i, true) == i + 1
  {
    TRemRange(i - 5, 6);
  }

  /** The player's index after `n` frame changes with A held or released throughout. */
  function PlayerIndexAfter(i: int, aPressed: bool, n: nat): int {
    if n == 0 then i else PlayerNextIndex(PlayerIndexAfter(i, aPressed, n - 1), aPressed)
  }

  /** Holding A from any frame in 0..11 reaches the 6..11 range within six frame changes and stays there. */
  lemma {:induction false} PlayerLeftRunSettles(i: int, n: nat)
    requires 0 <= i <= 11 && n >= 6
    ensures 6 <= PlayerIndexAfter(i, true, n) <= 11
  {
    if n == 6 {
      PlayerApproach(i, 6);
    } else {
      PlayerLeftRunSettles(i, n - 1);
      PlayerNextIndexRanges(PlayerIndexAfter(i, true, n - 1));
    }
  }

  /** After `n` steps with A held from 0..11, the index has climbed at least `n` frames or reached 6..11. */
  lemma {:induction false} PlayerApproach(i: int, n: nat)
    requires 0 <= i <= 11
    ensures var j := PlayerIndexAfter(i, true, n);
            (6 <= j <= 11) || (i + n <= j <= 5)
  {
    if n > 0 {
      PlayerApproach(i, n - 1);
      var j := PlayerIndexAfter(i, true, n - 1);
      PlayerNextIndexRanges(j);
      if j <= 4 {
        PlayerTurnLingers(j);
      } else if j == 5 {
        assert PlayerNextIndex(j, true) == 6;
      }
    }
  }

  /** Releasing A moves a non-negative index into the 0..5 range at the next frame change. */
  lemma PlayerRightRunAtOnce(i: int, n: nat)
    requires i >= 0 && n >= 1
    ensures 0 <= PlayerIndexAfter(i, false, n) <= 5
  {
    if n == 1 {
      PlayerNextIndexRanges(i);
    } else {
      PlayerRightRunAtOnce(i, n - 1);
      PlayerNextIndexRanges(PlayerIndexAfter(i, false, n - 1));
    }
  }

  /** The bounds test of `setRects` as written: it admits `animNum == indexMax`. */
  predicate SetRectsGuardAsWritten(animNum: int, indexMax: int) {
    !(animNum < 0 || animNum > indexMax)
  }

  /**
   * With twelve frames and `indexMax` 12, the guard admits 12, one past the
   * last frame rectangle.
   */
  lemma SetRectsGuardAdmitsIndexMax()
    ensures var frames := seq(12, k => IntRect(32 * k, 0, 32, 32));
            SetRectsGuardAsWritten(12, 12) && !(12 < |frames|)
  {
  }

  /** The corrected bounds test: a frame below `indexMax` that the rectangle list actually holds. */
  predicate SetRectsAccepts(animNum: int, indexMax: int, frameCount: nat) {
    0 <= animNum < indexMax && animNum < frameCount
  }

  /** The corrected test admits only valid indices of the rectangle list, and only below `indexMax`. */
  lemma SetRectsAcceptsOnlyFrames(animNum: int, indexMax: int, frameCount: nat)
    ensures SetRectsAccepts(animNum, indexMax, frameCount) ==>
            SetRectsGuardAsWritten(animNum, indexMax) && 0 <= animNum < frameCount
    ensures indexMax <= frameCount ==>
            (SetRectsAccepts(animNum, indexMax, frameCount) <==>
             SetRectsGuardAsWritten(animNum, indexMax) && animNum != indexMax)
  {
  }

  /** Whether the position lies outside the world grown by `offset` on every side. */
  predicate OutOfWorld(p: Vec2, worldWidth: nat, worldHeight: nat, offset: nat) {
    p.y > (worldHeight + offset) as real || p.x > (worldWidth + offset) as real ||
    p.y < (0 - offset) as real || p.x < (0 - offset) as real
  }

  /** `OutOfWorld` is the complement of the closed box `[-offset, world + offset]` on both axes. */
  lemma OutOfWorldIsOutsideBox(p: Vec2, worldWidth: nat, worldHeight: nat, offset: nat)
    ensures !OutOfWorld(p, worldWidth, worldHeight, offset) <==>
            -(offset as real) <= p.x <= (worldWidth + offset) as real &&
            -(offset as real) <= p.y <= (worldHeight + offset) as real
  {
  }

  class Sprite {
    const kind: Kind

    // Sprite
    var position: Vec2
    var scale: Vec2
    var visibleState: bool
    var screenPosition: Vec2
    // the `sf::Sprite` the object draws with
    var drawablePosition: Vec2
    var drawableScale: Vec2
    var drawableOrigin: Vec2
    var textureRect: IntRect

    // Animated
    var animationRects: seq<IntRect>
    var currentIndex: int
    var indexMax: int
    var elapsedTime: real
    var animChangeState: bool
    /** One mask per frame; `None` where the shared mask has expired. */
    var bitMask: seq<Option<seq<bv8>>>

    // NonStatic
    var moveState: bool
    var directionVector: Vec2
    var speed: real
    var acceleration: Vec2

    // Player
    var firstTurnInstance: bool
    var prevTurnBool: bool
    var isJumping: bool
    var isFalling: bool
    var headingAngle: real

    /**
     * The constructors of the hierarchy. Every sprite starts visible unless
     * its texture has expired or has a zero side, in which case the drawable
     * is left untextured. Animated sprites start at frame 0 with no time
     * accumulated and frame changes enabled; moving sprites start with
     * `moveState` set. The player turns its heading to the drawable's
     * rotation (0, so the direction is (1, 0)) and centres its origin on its
     * first frame, which `getRects` would fail to find without frames.
     */
    constructor(kind: Kind, position: Vec2, scale: Vec2, texture: Option<TextureSize>,
                speed: real, acceleration: Vec2,
                animationRects: seq<IntRect>, indexMax: nat, bitMask: seq<Option<seq<bv8>>>)
      requires kind == Player ==> |animationRects| > 0
      ensures this.kind == kind && this.position == position && this.scale == scale
      ensures visibleState <==> Usable(texture)
      ensures screenPosition == Zero
      ensures Usable(texture) ==>
              drawablePosition == position && drawableScale == scale &&
              textureRect == IntRect(0, 0, texture.value.sizeX, texture.value.sizeY)
      ensures !Usable(texture) ==>
              drawablePosition == Zero && drawableScale == UnitScale && textureRect == EmptyIntRect
      ensures kind.IsAnimated() ==>
              this.animationRects == animationRects && this.indexMax == indexMax &&
              this.bitMask == bitMask && currentIndex == 0 && elapsedTime == 0.0 && animChangeState
      ensures kind.IsMoving() ==>
              this.speed == speed && this.acceleration == acceleration && moveState
      ensures !kind.IsMoving() ==> this.speed == 0.0 && this.acceleration == Zero && directionVector == Zero
      ensures kind == Player ==>
              headingAngle == 0.0 && directionVector == Vec2(1.0, 0.0) &&
              drawableOrigin == Vec2(TDiv(animationRects[0].width, 2) as real, TDiv(animationRects[0].height, 2) as real) &&
              firstTurnInstance && !prevTurnBool && !isJumping && !isFalling
      ensures kind != Player ==> drawableOrigin == Zero && directionVector == Zero
    {
      this.kind := kind;
      this.position := position;
      this.scale := scale;
      screenPosition := Zero;
      drawableOrigin := Zero;
      if Usable(texture) {
        visibleState := true;
        drawablePosition := position;
        drawableScale := scale;
        textureRect := IntRect(0, 0, texture.value.sizeX, texture.value.sizeY);
      } else {
        visibleState := false;
        drawablePosition := Zero;
        drawableScale := UnitScale;
        textureRect := EmptyIntRect;
      }
      if kind.IsAnimated() {
        this.animationRects := animationRects;
        this.indexMax := indexMax;
        this.bitMask := bitMask;
      } else {
        this.animationRects := [];
        this.indexMax := 0;
        this.bitMask := [];
      }
      currentIndex := 0;
      elapsedTime := 0.0;
      animChangeState := true;
      moveState := true;
      directionVector := Zero;
      if kind.IsMoving() {
        this.speed := speed;
        this.acceleration := acceleration;
      } else {
        this.speed := 0.0;
        this.acceleration := Zero;
      }
      firstTurnInstance := true;
      prevTurnBool := false;
      isJumping := false;
      isFalling := false;
      headingAngle := 0.0;
      if kind == Player {
        directionVector := Vec2(1.0, 0.0);
        var first := animationRects[0];
        drawableOrigin := Vec2(TDiv(first.width, 2) as real, TDiv(first.height, 2) as real);
      }
    }

    /** `updateVisibility`: hides the sprite once it leaves the world grown by `offset`; it never shows it again. */
    method UpdateVisibility(worldWidth: nat, worldHeight: nat, offset: nat)
      modifies this`visibleState
      ensures visibleState == (old(visibleState) && !OutOfWorld(position, worldWidth, worldHeight, offset))
    {
      if OutOfWorld(position, worldWidth, worldHeight, offset) {
        visibleState := false;
      }
    }

    /** `isAnimated`: false in the base class, overridden to true by `Animated` and the classes built on it. */
    predicate IsAnimated(): (b: bool)
      reads this
      ensures b <==> kind != Plain && kind != NonStatic
    {
      kind.IsAnimated()
    }

    /** `getCurrIndex`: the frame index of an animated sprite, 0 for any other. */
    function GetCurrIndex(): (i: int)
      reads this
      ensures !kind.IsAnimated() ==> i == 0
      ensures kind.IsAnimated() ==> i == currentIndex
    {
      if kind.IsAnimated() then currentIndex else 0
    }

    /**
     * `getRects`: a plain sprite answers the empty rectangle; an animated one
     * fails without frames and otherwise answers the frame at
     * `currentIndex % size`, the index converted to `size_t` first.
     */
    function GetRects(): (r: Result<IntRect, string>)
      reads this
      ensures !kind.IsAnimated() ==> r == Ok(EmptyIntRect)
      ensures kind.IsAnimated() ==> (r.Err? <==> |animationRects| == 0)
      ensures kind.IsAnimated() && r.Ok? ==> r.value in animationRects
      ensures kind.IsAnimated() && 0 <= currentIndex < |animationRects| && currentIndex < TwoTo64 ==>
              r == Ok(animationRects[currentIndex])
      ensures kind.IsAnimated() && |animationRects| > 0 && 0 <= currentIndex < TwoTo64 ==>
              r == Ok(animationRects[currentIndex % |animationRects|])
    {
      if !kind.IsAnimated() then Ok(EmptyIntRect)
      else if |animationRects| == 0 then Err("Animation rects are empty.")
      else
        var i := ToSizeT(currentIndex);
        ModOfSmall(i, |animationRects|);
        Ok(animationRects[i % |animationRects|])
    }

    /**
     * `getBitmask(index)`: a plain sprite answers null; an animated one fails
     * exactly when `index` is past the mask list and otherwise answers that
     * mask, null if it has expired.
     */
    function GetBitmask(index: nat): (r: Result<Option<seq<bv8>>, string>)
      reads this
      ensures !kind.IsAnimated() ==> r == Ok(None)
      ensures kind.IsAnimated() ==> (r.Err? <==> index >= |bitMask|)
      ensures kind.IsAnimated() && r.Ok? ==> r.value == bitMask[index]
    {
      if !kind.IsAnimated() then Ok(None)
      else if index >= |bitMask| then Err("Index out of range.")
      else Ok(bitMask[index])
    }

    /** `getDirectionVector`: zero for a sprite that does not move. */
    function GetDirectionVector(): (v: Vec2)
      reads this
      ensures !kind.IsMoving() ==> v == Zero
      ensures kind.IsMoving() ==> v == directionVector
    {
      if kind.IsMoving() then directionVector else Zero
    }

    /** `getSpeed`: zero for a sprite that does not move. */
    function GetSpeed(): (v: real)
      reads this
      ensures !kind.IsMoving() ==> v == 0.0
      ensures kind.IsMoving() ==> v == speed
    {
      if kind.IsMoving() then speed else 0.0
    }

    /** `getAcceleration`: zero for a sprite that does not move. */
    function GetAcceleration(): (v: Vec2)
      reads this
      ensures !kind.IsMoving() ==> v == Zero
      ensures kind.IsMoving() ==> v == acceleration
    {
      if kind.IsMoving() then acceleration else Zero
    }

    /** `getMoveState`: false for a sprite that does not move. */
    function GetMoveState(): (b: bool)
      reads this
      ensures !kind.IsMoving() ==> !b
      ensures kind.IsMoving() ==> b == moveState
    {
      kind.IsMoving() && moveState
    }

    /** The frame rectangle `setRects(animNum)` leaves on the drawable. */
    function RectAfterSetRects(animNum: int): IntRect
      reads this
    {
      if SetRectsAccepts(animNum, indexMax, |animationRects|) then animationRects[animNum] else textureRect
    }

    /**
     * `setRects(animNum)`: shows frame `animNum` when it is a valid frame
     * below `indexMax`; otherwise the drawable keeps its rectangle.
     */
    method SetRects(animNum: int)
      modifies this`textureRect
      ensures SetRectsAccepts(animNum, indexMax, |animationRects|) ==> textureRect == animationRects[animNum]
      ensures !SetRectsAccepts(animNum, indexMax, |animationRects|) ==> textureRect == old(textureRect)
    {
      if animNum < 0 || animNum >= indexMax || animNum >= |animationRects| {
        return;
      }
      textureRect := animationRects[animNum];
    }

    /** Whether a frame change is due: changes enabled and the accumulated time past the change time. */
    predicate FrameDue(deltaTime: real, changeTime: real)
      reads this
    {
      animChangeState && elapsedTime + deltaTime > changeTime
    }

    /**
     * `Animated::changeAnimation`: with frame changes enabled, adds the
     * frame time; once the total exceeds the change time the index moves one
     * frame on (wrapping at `indexMax`), that frame is shown and the time
     * restarts from 0. With frame changes disabled nothing changes.
     */
    method ChangeAnimation(deltaTime: real, changeTime: real)
      requires kind.IsAnimated()
      modifies this`currentIndex, this`elapsedTime, this`textureRect
      ensures !old(animChangeState) ==>
              currentIndex == old(currentIndex) && elapsedTime == old(elapsedTime) && textureRect == old(textureRect)
      ensures old(animChangeState) && !old(FrameDue(deltaTime, changeTime)) ==>
              currentIndex == old(currentIndex) && elapsedTime == old(elapsedTime) + deltaTime &&
              textureRect == old(textureRect)
      ensures old(FrameDue(deltaTime, changeTime)) ==>
              currentIndex == NextFrame(old(currentIndex), indexMax) && elapsedTime == 0.0 &&
              textureRect == old(RectAfterSetRects(NextFrame(currentIndex, indexMax)))
    {
      if animChangeState {
        elapsedTime := elapsedTime + deltaTime;
        if elapsedTime > changeTime {
          currentIndex := currentIndex + 1;
          if currentIndex >= indexMax {
            currentIndex := 0;
          }
          SetRects(currentIndex);
          elapsedTime := 0.0;
        }
      }
    }

    /**
     * `Player::changeAnimation`: first sets `firstTurnInstance` to whether it
     * differs from `prevTurnBool`; then, when a frame change is due, moves to the next frame of the
     * left-run range (A held) or the right-run range, records the turn in
     * `prevTurnBool`, shows the frame and restarts the time.
     */
    method PlayerChangeAnimation(deltaTime: real, changeTime: real, flags: FlagSystem.FlagEvents)
      requires kind == Player
      modifies this`currentIndex, this`elapsedTime, this`textureRect, this`firstTurnInstance, this`prevTurnBool
      ensures firstTurnInstance == (old(prevTurnBool) != old(firstTurnInstance))
      ensures !old(animChangeState) ==>
              currentIndex == old(currentIndex) && elapsedTime == old(elapsedTime) &&
              textureRect == old(textureRect) && prevTurnBool == old(prevTurnBool)
      ensures old(animChangeState) && !old(FrameDue(deltaTime, changeTime)) ==>
              currentIndex == old(currentIndex) && elapsedTime == old(elapsedTime) + deltaTime &&
              textureRect == old(textureRect) && prevTurnBool == old(prevTurnBool)
      ensures old(FrameDue(deltaTime, changeTime)) ==>
              currentIndex == PlayerNextIndex(old(currentIndex), flags.aPressed) && elapsedTime == 0.0 &&
              prevTurnBool == !flags.aPressed &&
              textureRect == old(RectAfterSetRects(PlayerNextIndex(currentIndex, flags.aPressed)))
    {
      firstTurnInstance := if prevTurnBool == firstTurnInstance then false else true;
      if animChangeState {
        elapsedTime := elapsedTime + deltaTime;
        if elapsedTime > changeTime {
          if flags.aPressed {
            prevTurnBool := false;
            currentIndex := 6 + TRem(currentIndex - 6 + 1, 6);
          } else {
            prevTurnBool := true;
            currentIndex := TRem(currentIndex + 1, 6);
          }
          SetRects(currentIndex);
          elapsedTime := 0.0;
        }
      }
    }

    /** `setVisibleState`. */
    method SetVisibleState(visible: bool)
      modifies this`visibleState
      ensures visibleState == visible
    {
      visibleState := visible;
    }

    /** `setScreenPosition`. */
    method SetScreenPosition(p: Vec2)
      modifies this`screenPosition
      ensures screenPosition == p
    {
      screenPosition := p;
    }

    /** `setAnimChangeState`. */
    method SetAnimChangeState(newState: bool)
      requires kind.IsAnimated()
      modifies this`animChangeState
      ensures animChangeState == newState
    {
      animChangeState := newState;
    }

    /** `setAnimation`: replaces the frame rectangles. */
    method SetAnimation(rects: seq<IntRect>)
      requires kind.IsAnimated()
      modifies this`animationRects
      ensures animationRects == rects
    {
      animationRects := rects;
    }

    /** `setMoveState`. */
    method SetMoveState(newState: bool)
      requires kind.IsMoving()
      modifies this`moveState
      ensures moveState == newState
    {
      moveState := newState;
    }

    /** `changePosition`: only the logical position changes, not the drawable. */
    method ChangePosition(newPos: Vec2)
      requires kind.IsMoving()
      modifies this`position
      ensures position == newPos
    {
      position := newPos;
    }

    /** `setSpeed`. */
    method SetSpeed(newSpeed: real)
      requires kind.IsMoving()
      modifies this`speed
      ensures speed == newSpeed
    {
      speed := newSpeed;
    }

    /** `setAcceleration`. */
    method SetAcceleration(newAcc: Vec2)
      requires kind.IsMoving()
      modifies this`acceleration
      ensures acceleration == newAcc
    {
      acceleration := newAcc;
    }

    /** `NonStatic::setDirectionVector`. */
    method SetDirectionVector(dir: Vec2)
      requires kind.IsMoving()
      modifies this`directionVector
      ensures directionVector == dir
    {
      directionVector := dir;
    }

    /** `updatePos`: the drawable takes the logical position. */
    method UpdatePos()
      requires kind.IsMoving()
      modifies this`drawablePosition
      ensures drawablePosition == position
    {
      drawablePosition := position;
    }

    /** `updatePlayer`: moves the player and its drawable to `newPos`. */
    method UpdatePlayer(newPos: Vec2)
      requires kind == Player
      modifies this`position, this`drawablePosition
      ensures position == newPos && drawablePosition == newPos
    {
      ChangePosition(newPos);
      UpdatePos();
    }

    /** `setJumpingState`. */
    method SetJumpingState(jumpState: bool)
      requires kind == Player
      modifies this`isJumping
      ensures isJumping == jumpState
    {
      isJumping := jumpState;
    }

    /** `setFallingState`. */
    method SetFallingState(fallState: bool)
      requires kind == Player
      modifies this`isFalling
      ensures isFalling == fallState
    {
      isFalling := fallState;
    }
  }

  /**
   * A sprite whose frame index is in range keeps it in range through any
   * number of frame changes, and the frames it shows cycle with period
   * `indexMax`.
   */
  lemma {:induction false} FrameIndexStaysInRange(i: int, indexMax: int, n: nat)
    requires 0 <= i < indexMax
    ensures 0 <= FrameAfter(i, indexMax, n) < indexMax
    ensures FrameAfter(i, indexMax, n + indexMax) == FrameAfter(i, indexMax, n)
  {
    FrameCycle(i, indexMax, n);
    FrameCycle(i, indexMax, n + indexMax);
    ModShift(i + n, indexMax);
  }
}
