/** The player side of the game: the starting balance and player, how held
    keys become the movement request handed to the character controller,
    and which of the player's contacts are walls. */
module Game {

  import opened Engine

  /** The `Money` resource the game starts with. */
  const INITIAL_MONEY: int := 100

  datatype Player = Player(speed: real)

  /** The player as spawned at start-up. */
  const INITIAL_PLAYER: Player := Player(100.0)

  /** Stands for `FRAC_1_SQRT_2`, the diagonal normalisation factor, in exact
      arithmetic: a positive number whose square is one half. */
  predicate IsDiagonalFactor(c: real) {
    c > 0.0 && c * c == 0.5
  }

  // ---------------------------------------------------------------------
  // Player movement

  /** Vertical amount: W is checked before S, so W wins when both are held. */
  function TargetY(input: Input, amount: real): (r: real)
    ensures W in input.pressed ==> r == amount
    ensures W !in input.pressed && S in input.pressed ==> r == -amount
    ensures !MovesVertically(input) ==> r == 0.0
  {
    if W in input.pressed then amount
    else if S in input.pressed then -amount
    else 0.0
  }

  /** Horizontal amount: D is checked before A, so D wins when both are held. */
  function TargetX(input: Input, amount: real): (r: real)
    ensures D in input.pressed ==> r == amount
    ensures D !in input.pressed && A in input.pressed ==> r == -amount
    ensures !MovesHorizontally(input) ==> r == 0.0
  {
    if D in input.pressed then amount
    else if A in input.pressed then -amount
    else 0.0
  }

  /** Both axes scaled by the factor when, and only when, both are non-zero. */
  function Normalized(v: Vec2, factor: real): (r: Vec2)
    ensures v.x == 0.0 || v.y == 0.0 ==> r == v
    ensures factor != 0.0 ==> (r.x == 0.0 <==> v.x == 0.0) && (r.y == 0.0 <==> v.y == 0.0)
  {
    if v.x != 0.0 && v.y != 0.0 then Vec2(v.x * factor, v.y * factor) else v
  }

  /** The translation the player's controller is asked for this frame. */
  function MovementRequest(input: Input, amount: real, factor: real): (r: Vec2)
    ensures !MovesVertically(input) ==> r == Vec2(TargetX(input, amount), 0.0)
    ensures !MovesHorizontally(input) ==> r == Vec2(0.0, TargetY(input, amount))
    ensures MovesVertically(input) && MovesHorizontally(input) ==>
      r == Vec2(TargetX(input, amount) * factor, TargetY(input, amount) * factor)
  {
    Normalized(Vec2(TargetX(input, amount), TargetY(input, amount)), factor)
  }

  function SquaredLength(v: Vec2): real {
    v.x * v.x + v.y * v.y
  }

  predicate MovesVertically(input: Input) {
    W in input.pressed || S in input.pressed
  }

  predicate MovesHorizontally(input: Input) {
    D in input.pressed || A in input.pressed
  }

  /** Takes its two amounts in the order (y, x), as the game's helper does,
      and updates them in place. */
  method NormalizeDiagonal(targetY: real, targetX: real, factor: real) returns (y: real, x: real)
    ensures Vec2(x, y) == Normalized(Vec2(targetX, targetY), factor)
  {
    y, x := targetY, targetX;
    if x != 0.0 && y != 0.0 {
      x := x * factor;
      y := y * factor;
    }
  }

  /** Rapier's kinematic character controller, as far as the player's
      movement system writes it. */
  class CharacterController {
    var translation: Option<Vec2>

    constructor ()
      ensures translation == None
    {
      translation := None;
    }
  }

  /** One frame of player movement: speed times the frame time per held axis,
      normalised on diagonals, submitted as (x, y). */
  method PlayerMovement(player: Player, input: Input, deltaSeconds: real, factor: real,
                        controller: CharacterController)
    modifies controller
    ensures controller.translation == Some(MovementRequest(input, player.speed * deltaSeconds, factor))
  {
    var movementAmount := player.speed * deltaSeconds;
    var targetY := TargetY(input, movementAmount);
    var targetX := TargetX(input, movementAmount);
    targetY, targetX := NormalizeDiagonal(targetY, targetX, factor);
    controller.translation := Some(Vec2(targetX, targetY));
  }

  /** Normalisation never flips an axis and never makes one zero or non-zero. */
  lemma NormalizedKeepsSigns(v: Vec2, factor: real)
    requires factor > 0.0
    ensures Normalized(v, factor).x > 0.0 <==> v.x > 0.0
    ensures Normalized(v, factor).x < 0.0 <==> v.x < 0.0
    ensures Normalized(v, factor).y > 0.0 <==> v.y > 0.0
    ensures Normalized(v, factor).y < 0.0 <==> v.y < 0.0
  {
  }

  /** The request's x comes from D and A and its y from W and S, with D over
      A and W over S: the helper's (y, x) argument order swaps nothing. */
  lemma MovementDirection(input: Input, amount: real, factor: real)
    requires amount > 0.0 && factor > 0.0
    ensures var r := MovementRequest(input, amount, factor);
      && (r.x > 0.0 <==> D in input.pressed)
      && (r.x < 0.0 <==> D !in input.pressed && A in input.pressed)
      && (r.y > 0.0 <==> W in input.pressed)
      && (r.y < 0.0 <==> W !in input.pressed && S in input.pressed)
  {
  }

  /** A diagonal move is exactly as long as a straight one: each component
      has squared size amount²/2, so the squared length is amount². */
  lemma MovementLength(input: Input, amount: real, factor: real)
    requires IsDiagonalFactor(factor)
    ensures var r := MovementRequest(input, amount, factor);
      && SquaredLength(r) == (if MovesVertically(input) || MovesHorizontally(input) then amount * amount else 0.0)
      && (MovesVertically(input) && MovesHorizontally(input) ==>
            r.x * r.x == amount * amount / 2.0 && r.y * r.y == amount * amount / 2.0)
  {
  }

  /** Holding W and D for one second at the start-up speed of 100 moves the
      player about 70.71 along each axis, 100 in all. */
  lemma UpRightForOneSecond(factor: real)
    requires IsDiagonalFactor(factor)
    ensures var r := MovementRequest(Input({W, D}, {}), INITIAL_PLAYER.speed * 1.0, factor);
      && r == Vec2(100.0 * factor, 100.0 * factor)
      && 70.71 < r.x < 70.72
      && SquaredLength(r) == 10000.0
  {
    MovementLength(Input({W, D}, {}), 100.0, factor);
    assert factor * factor == 0.5;
    assert (factor - 0.7071) * (factor + 0.7071) == 0.5 - 0.49999041;
    ProductSign(factor - 0.7071, factor + 0.7071);
    assert (0.7072 - factor) * (0.7072 + factor) == 0.50013184 - 0.5;
    ProductSign(0.7072 - factor, 0.7072 + factor);
  }

  /** A positive product with a positive second factor has a positive first one. */
  lemma ProductSign(a: real, b: real)
    requires b > 0.0 && a * b > 0.0
    ensures a > 0.0
  {
  }

  // ---------------------------------------------------------------------
  // Wall contacts

  /** One contact reported by the character controller after it moved. */
  datatype Collision = Collision(entity: Entity, toi: real)

  /** `KinematicCharacterControllerOutput`: what the controller realised and
      what it touched, in the order it touched them. */
  datatype ControllerOutput = ControllerOutput(effectiveTranslation: Vec2, collisions: seq<Collision>)

  function CollidedEntities(cs: seq<Collision>): seq<Entity> {
    seq(|cs|, i requires 0 <= i < |cs| => cs[i].entity)
  }

  /** The contacts that are walls, one report per contact. */
  function WallContacts(cs: seq<Collision>, walls: seq<Entity>): (hits: seq<Entity>)
    ensures |hits| <= |cs|
    ensures forall e :: e in hits ==> e in walls
  {
    if cs == [] then []
    else (if cs[0].entity in walls then [cs[0].entity] else []) + WallContacts(cs[1..], walls)
  }

  /** The "player hit wall" reports of one frame; none before the controller
      has produced an output. */
  function PlayerHitWall(output: Option<ControllerOutput>, walls: seq<Entity>): (hits: seq<Entity>)
    ensures output == None ==> hits == []
    ensures output != None ==> hits == WallContacts(output.value.collisions, walls)
  {
    match output
    case None => []
    case Some(o) => WallContacts(o.collisions, walls)
  }

  /** `a` is `b` with some elements left out, the rest kept in order. */
  predicate IsSubsequence(a: seq<Entity>, b: seq<Entity>)
    decreases |b|
  {
    if a == [] then true
    else if b == [] then false
    else if a[0] == b[0] then IsSubsequence(a[1..], b[1..])
    else IsSubsequence(a, b[1..])
  }

  /** A wall is reported as often as it was touched; anything else never. */
  lemma {:induction false} WallContactsCount(cs: seq<Collision>, walls: seq<Entity>, e: Entity)
    ensures multiset(WallContacts(cs, walls))[e]
            == if e in walls then multiset(CollidedEntities(cs))[e] else 0
  {
    if cs != [] {
      WallContactsCount(cs[1..], walls, e);
      assert CollidedEntities(cs) == [cs[0].entity] + CollidedEntities(cs[1..]);
    }
  }

  /** Reports come in the order of the contacts. */
  lemma {:induction false} WallContactsInOrder(cs: seq<Collision>, walls: seq<Entity>)
    ensures IsSubsequence(WallContacts(cs, walls), CollidedEntities(cs))
  {
    if cs != [] {
      var rest := WallContacts(cs[1..], walls);
      WallContactsInOrder(cs[1..], walls);
      assert CollidedEntities(cs)[1..] == CollidedEntities(cs[1..]);
      if cs[0].entity in walls {
        assert WallContacts(cs, walls) == [cs[0].entity] + rest;
        assert ([cs[0].entity] + rest)[1..] == rest;
      } else {
        assert WallContacts(cs, walls) == rest;
        assert rest != [] ==> rest[0] in walls && rest[0] != CollidedEntities(cs)[0];
      }
    }
  }
}
