/** `deplacer_noeud`: one tick of a node's movement, either waypoint pursuit or an inertial
    random walk over the compass codes 1..8 inside the grid [1, taille]². */
module Mobility {
  import opened Alea

  /** `gener_alea(100)` yields a percentage. */
  const PERCENT := 100
  /** A random-walk node keeps its direction when the second draw is below this. */
  const KEEP_DIRECTION := 67
  /** The number of compass codes. */
  const DIRECTIONS := 8

  /** The fields of a `noeud` that the mobility code reads or writes: its number, its position,
      its waypoint target and the compass code of its last direction. */
  datatype NodeState = NodeState(id: int, x: int, y: int, wx: int, wy: int, dir: int)

  /** A node after one tick, and the cursor of the next unread draw. */
  datatype Outcome = Outcome(node: NodeState, next: nat)

  /** One axis of a random-walk step: the new coordinate, and whether its bound check fired. */
  datatype Axis = Axis(value: int, clamped: bool)

  function Abs(v: int): nat { if v < 0 then -v else v }
  function Min(a: int, b: int): int { if a <= b then a else b }
  function Max(a: int, b: int): int { if a >= b then a else b }

  predicate InGrid(x: int, y: int, taille: int) {
    1 <= x <= taille && 1 <= y <= taille
  }

  /** The code written into `last_direction` when a clamp fires: the next code clockwise. */
  function Rotate(d: int): (r: int)
    requires 1 <= d <= DIRECTIONS
    ensures 1 <= r <= DIRECTIONS
    ensures r == if d == DIRECTIONS then 1 else d + 1
  {
    d % DIRECTIONS + 1
  }

  // ---------------------------------------------------------------------------------------
  // Waypoint pursuit

  /** One unit of pursuit on one axis: a step of at most one, strictly toward the target. */
  function Pursue(v: int, target: int): (r: int)
    ensures Abs(r - v) <= 1
    ensures Abs(target - r) == if v == target then 0 else Abs(target - v) - 1
    ensures Min(v, target) <= r <= Max(v, target)
  {
    if v < target then v + 1
    else if v > target then v - 1
    else v
  }

  /** The waypoint branch: a fresh target (two draws, x first) only when the node stands on its
      old one, then one unit of pursuit on each axis. */
  function WaypointMove(s: NodeState, taille: int, rng: Stream, at: nat): (r: Outcome)
    requires taille >= 1
    ensures r.node.id == s.id && r.node.dir == s.dir
    ensures r.next == if s.x == s.wx && s.y == s.wy then at + 2 else at
  {
    var t := if s.x == s.wx && s.y == s.wy
             then Outcome(s.(wx := Draw(rng(at), taille) + 1, wy := Draw(rng(at + 1), taille) + 1), at + 2)
             else Outcome(s, at);
    Outcome(t.node.(x := Pursue(t.node.x, t.node.wx), y := Pursue(t.node.y, t.node.wy)), t.next)
  }

  // ---------------------------------------------------------------------------------------
  // Random walk

  /** The `pos - dist < 1` check with `dist = 1`: a unit decrement that stops at 1. */
  function Decrease(v: int): (r: Axis)
    ensures r.clamped <==> v <= 1
    ensures r.value == Max(v - 1, 1)
  {
    if v - 1 < 1 then Axis(1, true) else Axis(v - 1, false)
  }

  /** The `pos + dist > taille` check: a unit increment that stops at `taille`. */
  function Increase(v: int, taille: int): (r: Axis)
    ensures r.clamped <==> v >= taille
    ensures r.value == Min(v + 1, taille)
  {
    if v + 1 > taille then Axis(taille, true) else Axis(v + 1, false)
  }

  /** The y check of direction 5 as written: the downward move is tested against the upper
      bound, so from any row up to `taille + 1` it never fires and the node always moves down. */
  function DecreaseSouthEast(v: int, taille: int): (r: Axis)
    ensures v <= taille + 1 ==> r == Axis(v - 1, false)
  {
    if v - 1 > taille then Axis(taille, true) else Axis(v - 1, false)
  }

  /** The x check of a case: the new x, and `code` in `dir` when the clamp fires. */
  function CheckX(s: NodeState, ax: Axis, code: int): (r: NodeState)
    ensures r.x == ax.value && r.(x := s.x, dir := s.dir) == s
    ensures ax.clamped ==> r.dir == code
    ensures r.dir != s.dir ==> ax.clamped
  {
    s.(x := ax.value, dir := if ax.clamped then code else s.dir)
  }

  /** The y check of a case: the new y, and `code` in `dir` when the clamp fires. */
  function CheckY(s: NodeState, ay: Axis, code: int): (r: NodeState)
    ensures r.y == ay.value && r.(y := s.y, dir := s.dir) == s
    ensures ay.clamped ==> r.dir == code
    ensures r.dir != s.dir ==> ay.clamped
  {
    s.(y := ay.value, dir := if ay.clamped then code else s.dir)
  }

  /** One case of the switch: the x check, then the y check, as the source orders them. */
  function Turn(s: NodeState, ax: Axis, ay: Axis, code: int): (r: NodeState)
    ensures r.x == ax.value && r.y == ay.value
    ensures r.dir == (if ax.clamped || ay.clamped then code else s.dir)
    ensures r.(x := s.x, y := s.y, dir := s.dir) == s
  {
    CheckY(CheckX(s, ax, code), ay, code)
  }

  /** The random-walk switch on the direction code `s.dir`, as written. A code outside 1..8
      reaches `default` and changes nothing. */
  function Walk(s: NodeState, taille: int): (r: NodeState)
    ensures r.id == s.id && r.wx == s.wx && r.wy == s.wy
    ensures 1 <= s.x <= taille ==> 1 <= r.x <= taille
    ensures 1 <= s.y <= taille && s.dir != 5 ==> 1 <= r.y <= taille
    ensures s.y <= taille && 1 <= taille ==> r.y <= taille
    ensures 1 <= s.dir <= DIRECTIONS ==> r.dir == s.dir || r.dir == Rotate(s.dir)
    ensures !(1 <= s.dir <= DIRECTIONS) ==> r == s
  {
    match s.dir
    case 1 => Turn(s, Decrease(s.x), Increase(s.y, taille), 2)
    case 2 => Turn(s, Axis(s.x, false), Increase(s.y, taille), 3)
    case 3 => Turn(s, Increase(s.x, taille), Increase(s.y, taille), 4)
    case 4 => Turn(s, Increase(s.x, taille), Axis(s.y, false), 5)
    case 5 => Turn(s, Increase(s.x, taille), DecreaseSouthEast(s.y, taille), 6)
    case 6 => Turn(s, Axis(s.x, false), Decrease(s.y), 7)
    case 7 => Turn(s, Decrease(s.x), Decrease(s.y), 8)
    case 8 => Turn(s, Decrease(s.x), Axis(s.y, false), 1)
    case _ => s
  }

  /** `Walk` with the y check of direction 5 testing the lower bound, as the checks of the
      other downward directions do. With it no direction leaves the grid. */
  function WalkCorrected(s: NodeState, taille: int): (r: NodeState)
    ensures InGrid(s.x, s.y, taille) ==> InGrid(r.x, r.y, taille)
    ensures 1 <= s.dir <= DIRECTIONS ==> r.dir == s.dir || r.dir == Rotate(s.dir)
  {
    if s.dir == 5 then Turn(s, Increase(s.x, taille), Decrease(s.y), 6) else Walk(s, taille)
  }

  /** The random-walk branch: keep the last direction when the draw is below 67, otherwise
      draw a new code 1..8 and record it; then walk one unit. */
  function RandomWalkMove(s: NodeState, taille: int, rng: Stream, at: nat): (r: Outcome)
    ensures r.node.id == s.id
    ensures r.next == if Draw(rng(at), PERCENT) < KEEP_DIRECTION then at + 1 else at + 2
  {
    if Draw(rng(at), PERCENT) < KEEP_DIRECTION then Outcome(Walk(s, taille), at + 1)
    else Outcome(Walk(s.(dir := Draw(rng(at + 1), DIRECTIONS) + 1), taille), at + 2)
  }

  // ---------------------------------------------------------------------------------------
  // One tick

  /** `deplacer_noeud` on values: the move draw, then the variant's branch when the node moves.
      Every tick reads between one and three draws. */
  function Step(s: NodeState, proba: int, taille: int, waypoint: bool, rng: Stream, at: nat): (r: Outcome)
    requires waypoint ==> taille >= 1
    ensures r.node.id == s.id
    ensures at < r.next <= at + 3
  {
    if Draw(rng(at), PERCENT) >= proba then Outcome(s, at + 1)
    else if waypoint then WaypointMove(s, taille, rng, at + 1)
    else RandomWalkMove(s, taille, rng, at + 1)
  }

  /** A `noeud` of the topology list; `Move` updates its fields in place. */
  class Node {
    const id: int
    var posX: int
    var posY: int
    var posXWaypoint: int
    var posYWaypoint: int
    var lastDirection: int

    constructor (id: int, x: int, y: int, wx: int, wy: int, dir: int)
      ensures State() == NodeState(id, x, y, wx, wy, dir)
    {
      this.id := id;
      posX, posY := x, y;
      posXWaypoint, posYWaypoint := wx, wy;
      lastDirection := dir;
    }

    function State(): NodeState
      reads this
    {
      NodeState(id, posX, posY, posXWaypoint, posYWaypoint, lastDirection)
    }

    /** `deplacer_noeud(node, proba_mobilite, taille, waypoint)`, reading the draws of `rng` from
        `at` on; returns the cursor of the next unread draw. */
    method Move(probaMobilite: int, taille: int, waypoint: bool, rng: Stream, at: nat) returns (next: nat)
      requires waypoint ==> taille >= 1
      modifies this
      ensures Outcome(State(), next) == Step(old(State()), probaMobilite, taille, waypoint, rng, at)
    {
      var bouge := Draw(rng(at), PERCENT);
      next := at + 1;
      if bouge < probaMobilite {
        if waypoint {
          if posX == posXWaypoint && posY == posYWaypoint {
            posXWaypoint := Draw(rng(next), taille) + 1;
            posYWaypoint := Draw(rng(next + 1), taille) + 1;
            next := next + 2;
          }
          if posX < posXWaypoint { posX := posX + 1; }
          else if posX > posXWaypoint { posX := posX - 1; }
          if posY < posYWaypoint { posY := posY + 1; }
          else if posY > posYWaypoint { posY := posY - 1; }
        } else {
          var keep := Draw(rng(next), PERCENT);
          next := next + 1;
          if keep >= KEEP_DIRECTION {
            lastDirection := Draw(rng(next), DIRECTIONS) + 1;
            next := next + 1;
          }
          SwitchDirection(taille);
        }
      }
    }

    /** The `switch (direction)` of the random walk. In both branches before it, `direction`
        equals `last_direction`, so the switch is on that field. */
    method SwitchDirection(taille: int)
      modifies this
      ensures State() == Walk(old(State()), taille)
    {
      var dist := 1;
      match lastDirection {
        case 1 =>
          if posX - dist < 1 { posX := 1; lastDirection := 2; } else { posX := posX - dist; }
          if posY + dist > taille { posY := taille; lastDirection := 2; } else { posY := posY + dist; }
        case 2 =>
          if posY + dist > taille { posY := taille; lastDirection := 3; } else { posY := posY + dist; }
        case 3 =>
          if posX + dist > taille { posX := taille; lastDirection := 4; } else { posX := posX + dist; }
          if posY + dist > taille { posY := taille; lastDirection := 4; } else { posY := posY + dist; }
        case 4 =>
          if posX + dist > taille { posX := taille; lastDirection := 5; } else { posX := posX + dist; }
        case 5 =>
          if posX + dist > taille { posX := taille; lastDirection := 6; } else { posX := posX + dist; }
          if posY - dist > taille { posY := taille; lastDirection := 6; } else { posY := posY - dist; }
        case 6 =>
          if posY - dist < 1 { posY := 1; lastDirection := 7; } else { posY := posY - dist; }
        case 7 =>
          if posX - dist < 1 { posX := 1; lastDirection := 8; } else { posX := posX - dist; }
          if posY - dist < 1 { posY := 1; lastDirection := 8; } else { posY := posY - dist; }
        case 8 =>
          if posX - dist < 1 { posX := 1; lastDirection := 1; } else { posX := posX - dist; }
        case _ =>
      }
    }
  }

  // ---------------------------------------------------------------------------------------
  // Reference definition of the random-walk step

  /** The compass table: the unit displacement of each code (x grows east, y grows north). */
  function Delta(d: int): (int, int)
    requires 1 <= d <= DIRECTIONS
  {
    match d
    case 1 => (-1, 1)
    case 2 => (0, 1)
    case 3 => (1, 1)
    case 4 => (1, 0)
    case 5 => (1, -1)
    case 6 => (0, -1)
    case 7 => (-1, -1)
    case 8 => (-1, 0)
  }

  function Clamp(v: int, taille: int): int {
    Max(1, Min(v, taille))
  }

  predicate Outside(v: int, taille: int) {
    v < 1 || v > taille
  }

  /** The bounce-and-turn policy stated directly: move by the table, put each axis that left the
      grid on the bound it crossed, and turn to the next code clockwise if any axis did. */
  function Intended(s: NodeState, taille: int): NodeState {
    if !(1 <= s.dir <= DIRECTIONS) then s
    else
      var (dx, dy) := Delta(s.dir);
      s.(x := Clamp(s.x + dx, taille), y := Clamp(s.y + dy, taille),
         dir := if Outside(s.x + dx, taille) || Outside(s.y + dy, taille) then Rotate(s.dir) else s.dir)
  }

  // ---------------------------------------------------------------------------------------
  // Properties of one tick

  /** A move draw at or above `proba_mobilite` leaves every field alone and reads only that draw. */
  lemma StaysWhenNotChosen(s: NodeState, proba: int, taille: int, waypoint: bool, rng: Stream, at: nat)
    requires waypoint ==> taille >= 1
    requires Draw(rng(at), PERCENT) >= proba
    ensures Step(s, proba, taille, waypoint, rng, at) == Outcome(s, at + 1)
  {
  }

  /** Waypoint mode: the target is replaced only when the node stands on it, by `draw + 1` on
      each axis (so inside [1, taille]), reading two more draws; otherwise it is kept. */
  lemma WaypointRetargetsOnArrival(s: NodeState, proba: int, taille: int, rng: Stream, at: nat)
    requires taille >= 1
    requires Draw(rng(at), PERCENT) < proba
    ensures var r := Step(s, proba, taille, true, rng, at);
      if s.x == s.wx && s.y == s.wy then
        r.node.wx == Draw(rng(at + 1), taille) + 1 && r.node.wy == Draw(rng(at + 2), taille) + 1 &&
        1 <= r.node.wx <= taille && 1 <= r.node.wy <= taille && r.next == at + 3
      else
        r.node.wx == s.wx && r.node.wy == s.wy && r.next == at + 1
  {
  }

  /** Waypoint mode: each axis moves by at most one, strictly toward the (possibly fresh)
      target, and not at all when it already matches. */
  lemma WaypointStepsToward(s: NodeState, proba: int, taille: int, rng: Stream, at: nat)
    requires taille >= 1
    requires Draw(rng(at), PERCENT) < proba
    ensures var r := Step(s, proba, taille, true, rng, at).node;
      Abs(r.x - s.x) <= 1 && Abs(r.y - s.y) <= 1 &&
      Abs(r.wx - r.x) == (if s.x == r.wx then 0 else Abs(r.wx - s.x) - 1) &&
      Abs(r.wy - r.y) == (if s.y == r.wy then 0 else Abs(r.wy - s.y) - 1) &&
      r.dir == s.dir
  {
  }

  /** Waypoint mode: a node and its target inside the grid stay inside the grid. */
  lemma WaypointStaysInGrid(s: NodeState, proba: int, taille: int, rng: Stream, at: nat)
    requires taille >= 1
    requires InGrid(s.x, s.y, taille) && InGrid(s.wx, s.wy, taille)
    ensures var r := Step(s, proba, taille, true, rng, at).node;
      InGrid(r.x, r.y, taille) && InGrid(r.wx, r.wy, taille)
  {
  }

  /** Random walk: below 67 the node walks in its last direction and does not redraw it;
      otherwise it walks in a freshly drawn code 1..8, which becomes its last direction. */
  lemma DirectionMemory(s: NodeState, proba: int, taille: int, rng: Stream, at: nat)
    requires Draw(rng(at), PERCENT) < proba
    ensures var r := Step(s, proba, taille, false, rng, at);
      if Draw(rng(at + 1), PERCENT) < KEEP_DIRECTION then
        r == Outcome(Walk(s, taille), at + 2)
      else
        var d := Draw(rng(at + 2), DIRECTIONS) + 1;
        1 <= d <= DIRECTIONS && r == Outcome(Walk(s.(dir := d), taille), at + 3)
  {
  }

  /** Random walk: a kept code outside 1..8 reaches `default`, and the node stays put. */
  lemma UnknownDirectionStays(s: NodeState, proba: int, taille: int, rng: Stream, at: nat)
    requires !(1 <= s.dir <= DIRECTIONS)
    requires Draw(rng(at), PERCENT) < proba
    requires Draw(rng(at + 1), PERCENT) < KEEP_DIRECTION
    ensures Step(s, proba, taille, false, rng, at) == Outcome(s, at + 2)
  {
  }

  /** The switch follows the compass table, clamps onto the bound crossed and turns clockwise,
      for every direction inside the grid except direction 5 from the bottom row. */
  lemma WalkFollowsCompass(s: NodeState, taille: int)
    requires InGrid(s.x, s.y, taille)
    requires s.dir == 5 ==> s.y >= 2
    ensures Walk(s, taille) == Intended(s, taille)
  {
  }

  /** Direction 5 from the bottom row leaves the grid: y becomes 0, where the clamp and the
      turn were intended. The y check never turns the node; only the x check on the last
      column does. */
  lemma SouthEastLeavesGrid(s: NodeState, taille: int)
    requires InGrid(s.x, s.y, taille)
    requires s.dir == 5 && s.y == 1
    ensures Walk(s, taille).y == 0
    ensures Walk(s, taille).dir == (if s.x == taille then 6 else 5)
    ensures Intended(s, taille).y == 1 && Intended(s, taille).dir == 6
  {
  }

  /** The corrected switch follows the reference everywhere inside the grid. */
  lemma WalkCorrectedFollowsCompass(s: NodeState, taille: int)
    requires InGrid(s.x, s.y, taille)
    ensures WalkCorrected(s, taille) == Intended(s, taille)
  {
  }

  /** In a diagonal case both checks write the same code, so testing y before x gives the same node. */
  lemma CheckOrderIrrelevant(s: NodeState, ax: Axis, ay: Axis, code: int)
    ensures CheckX(CheckY(s, ay, code), ax, code) == Turn(s, ax, ay, code)
  {
  }

  /** Random walk from inside the grid: x stays inside, y never exceeds `taille`, and y drops
      below 1 only from the bottom row by direction 5, to exactly 0. */
  lemma RandomWalkBounds(s: NodeState, proba: int, taille: int, rng: Stream, at: nat)
    requires InGrid(s.x, s.y, taille)
    ensures var r := Step(s, proba, taille, false, rng, at).node;
      1 <= r.x <= taille && r.y <= taille &&
      (r.y < 1 ==> s.y == 1 && r.y == 0 && (r.dir == 5 || r.dir == 6))
  {
  }

  /** Random walk: a last direction in 1..8 stays in 1..8. */
  lemma RandomWalkKeepsCode(s: NodeState, proba: int, taille: int, rng: Stream, at: nat)
    requires 1 <= s.dir <= DIRECTIONS
    ensures 1 <= Step(s, proba, taille, false, rng, at).node.dir <= DIRECTIONS
  {
  }
}
