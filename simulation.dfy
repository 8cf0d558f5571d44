/** `mobilite`: one mobility epoch. The ages of the routing rows go up once; then, when mobility
    is on, `vitesse_noeud_max` sub-steps each move every node and write its position, and only
    after that reset the contacts of every node. */
module Simulation {
  import opened Alea
  import opened Mobility
  import opened Store

  /** The parameters of `mobilite` besides the node list and the connection. */
  datatype Config = Config(vitesseNoeudMax: int, probaMobilite: int, taille: int, portee: int,
                           nbNoeud: int, waypoint: bool)

  /** Every bound handed to the random source is positive. */
  predicate Drawable(c: Config) {
    c.waypoint ==> c.taille >= 1
  }

  /** The node states in list order, both tables, and the cursor of the next unread draw. */
  datatype World = World(nodes: seq<NodeState>, positions: Positions, routage: Routage, next: nat)

  /** The nodes and the positions table after a move pass, and the draw cursor. */
  datatype Pass = Pass(nodes: seq<NodeState>, positions: Positions, next: nat)

  function Ids(ns: seq<NodeState>): set<int> {
    set i | 0 <= i < |ns| :: ns[i].id
  }

  predicate DistinctIds(ns: seq<NodeState>) {
    forall i, j :: 0 <= i < j < |ns| ==> ns[i].id != ns[j].id
  }

  /** `maj_tab_routage(node, portee, mysql, nb_noeud)` on the tables: every row `(a.id, b)` whose
      `b` the neighbour query returns is reset to `a`'s position. */
  function ContactReset(rt: Routage, pos: Positions, a: NodeState, portee: int, nbNoeud: int): (r: Routage)
    ensures r.Keys == rt.Keys
  {
    ResetRows(rt, a.id, a.x, a.y, Neighbours(pos, a.x, a.y, portee * portee, nbNoeud))
  }

  /** A row of the table after `maj_tab_routage` for node `a`: a row `(a.id, b)` is reset to `a`'s
      position exactly when `b` is stored, numbered at most `nb_noeud` and within `portee` of
      `a`; every other row is as before. */
  lemma ContactResetRows(rt: Routage, pos: Positions, a: NodeState, portee: int, nbNoeud: int)
    ensures forall k :: k in rt ==>
      ContactReset(rt, pos, a, portee, nbNoeud)[k] ==
        (if k.0 == a.id && k.1 in pos && k.1 <= nbNoeud &&
            SquaredDistance(pos[k.1], (a.x, a.y)) <= portee * portee
         then ResetEntry(a.x, a.y) else rt[k])
  {
  }

  /** The first `while (aux)` of a sub-step, over the list `ns`: each node in turn takes one
      tick and has its position written. Each node reads one to three draws. */
  function MovePass(ns: seq<NodeState>, pos: Positions, c: Config, rng: Stream, at: nat): (r: Pass)
    requires Drawable(c)
    ensures |r.nodes| == |ns|
    ensures forall i :: 0 <= i < |ns| ==> r.nodes[i].id == ns[i].id
    ensures r.positions.Keys == pos.Keys
    ensures at + |ns| <= r.next <= at + 3 * |ns|
    decreases |ns|
  {
    if ns == [] then Pass([], pos, at)
    else
      var p := MovePass(ns[..|ns| - 1], pos, c, rng, at);
      var o := Step(ns[|ns| - 1], c.probaMobilite, c.taille, c.waypoint, rng, p.next);
      Pass(p.nodes + [o.node], Relocate(p.positions, o.node.id, o.node.x, o.node.y), o.next)
  }

  /** The second `while (aux)`: `maj_tab_routage` for each node in list order, all against the
      same positions table. */
  function ContactPass(ns: seq<NodeState>, pos: Positions, rt: Routage, c: Config): (r: Routage)
    ensures r.Keys == rt.Keys
    decreases |ns|
  {
    if ns == [] then rt
    else ContactReset(ContactPass(ns[..|ns| - 1], pos, rt, c), pos, ns[|ns| - 1], c.portee, c.nbNoeud)
  }

  /** One iteration of the `for` loop: the move pass, then the contact pass on its result. */
  function SubStep(w: World, c: Config, rng: Stream): (r: World)
    requires Drawable(c)
    ensures |r.nodes| == |w.nodes| && forall i :: 0 <= i < |w.nodes| ==> r.nodes[i].id == w.nodes[i].id
    ensures r.positions.Keys == w.positions.Keys && r.routage.Keys == w.routage.Keys
    ensures w.next + |w.nodes| <= r.next <= w.next + 3 * |w.nodes|
  {
    var p := MovePass(w.nodes, w.positions, c, rng, w.next);
    World(p.nodes, p.positions, ContactPass(p.nodes, p.positions, w.routage, c), p.next)
  }

  function SubSteps(k: nat, w: World, c: Config, rng: Stream): (r: World)
    requires Drawable(c)
    ensures |r.nodes| == |w.nodes| && forall i :: 0 <= i < |w.nodes| ==> r.nodes[i].id == w.nodes[i].id
    ensures r.positions.Keys == w.positions.Keys && r.routage.Keys == w.routage.Keys
  {
    if k == 0 then w else SubStep(SubSteps(k - 1, w, c, rng), c, rng)
  }

  /** The number of iterations of `for (i=0; i<vitesse_noeud_max; i++)`. */
  function SubStepCount(c: Config): (r: nat)
    ensures !(r < c.vitesseNoeudMax)
    ensures r > 0 ==> r - 1 < c.vitesseNoeudMax
  {
    if c.vitesseNoeudMax > 0 then c.vitesseNoeudMax else 0
  }

  /** `mobilite` on values: the age statement once, then the sub-steps when `proba_mobilite` is
      non-zero. */
  function Epoch(w: World, c: Config, rng: Stream): (r: World)
    requires Drawable(c)
    ensures |r.nodes| == |w.nodes| && forall i :: 0 <= i < |w.nodes| ==> r.nodes[i].id == w.nodes[i].id
    ensures r.positions.Keys == w.positions.Keys && r.routage.Keys == w.routage.Keys
  {
    var aged := w.(routage := Aging(w.routage, c.nbNoeud));
    if c.probaMobilite == 0 then aged else SubSteps(SubStepCount(c), aged, c, rng)
  }

  // ---------------------------------------------------------------------------------------
  // The source's procedures, on the node objects and the in-memory database

  predicate Distinct(topologie: seq<Node>) {
    forall i, j :: 0 <= i < j < |topologie| ==> topologie[i] != topologie[j]
  }

  function States(topologie: seq<Node>): (r: seq<NodeState>)
    reads set n | n in topologie
    ensures |r| == |topologie|
    ensures forall i :: 0 <= i < |topologie| ==> r[i] == topologie[i].State()
    decreases |topologie|
  {
    if topologie == [] then []
    else States(topologie[..|topologie| - 1]) + [topologie[|topologie| - 1].State()]
  }

  /** `update_pos_noeud_BDD(node, mysql)`. */
  method UpdatePosNoeud(node: Node, db: Database)
    modifies db
    ensures db.positions == Relocate(old(db.positions), node.id, node.posX, node.posY)
    ensures db.routage == old(db.routage)
  {
    db.UpdatePosition(node.id, node.posX, node.posY);
  }

  /** `maj_tab_routage(node, portee, mysql, nb_noeud)`: the neighbour select, then one update per
      returned row, in whatever order the rows arrive. */
  method MajTabRoutage(node: Node, portee: int, db: Database, nbNoeud: int)
    modifies db
    ensures db.positions == old(db.positions)
    ensures db.routage == ContactReset(old(db.routage), db.positions, node.State(), portee, nbNoeud)
  {
    var rows := db.SelectNeighbours(node.posX, node.posY, portee * portee, nbNoeud);
    ghost var rt0 := db.routage;
    var left := rows;
    while left != {}
      invariant left <= rows
      invariant db.positions == old(db.positions)
      invariant db.routage == ResetRows(rt0, node.id, node.posX, node.posY, rows - left)
      decreases left
    {
      var b :| b in left;
      ResetRowsAddOne(rt0, node.id, node.posX, node.posY, rows - left, b);
      db.ResetContact(node.id, b, node.posX, node.posY);
      assert (rows - left) + {b} == rows - (left - {b});
      left := left - {b};
    }
    assert rows - left == rows;
  }

  /** The first `while (aux)` of a sub-step: `deplacer_noeud` then `update_pos_noeud_BDD` for
      each node in list order. */
  method MoveAll(topologie: seq<Node>, c: Config, db: Database, rng: Stream, at: nat) returns (next: nat)
    requires Distinct(topologie)
    requires Drawable(c)
    modifies db, set n | n in topologie
    ensures var p := MovePass(old(States(topologie)), old(db.positions), c, rng, at);
      (forall k :: 0 <= k < |topologie| ==> topologie[k].State() == p.nodes[k]) &&
      db.positions == p.positions && next == p.next
    ensures db.routage == old(db.routage)
  {
    ghost var ns := States(topologie);
    ghost var pos := db.positions;
    ghost var moved := Pass([], pos, at);
    next := at;
    var j := 0;
    while j < |topologie|
      invariant 0 <= j <= |topologie|
      invariant moved == MovePass(ns[..j], pos, c, rng, at)
      invariant db.routage == old(db.routage)
      invariant |moved.nodes| == j && Tracks(topologie, moved.nodes, ns)
      invariant db.positions == moved.positions && next == moved.next
    {
      next, moved := MoveNode(topologie, j, c, db, rng, next, ns, pos, at, moved);
      j := j + 1;
    }
    assert ns[..|topologie|] == ns;
  }

  /** The nodes before `|done|` hold the states of `done`, the others those of `ns`. */
  ghost predicate Tracks(topologie: seq<Node>, done: seq<NodeState>, ns: seq<NodeState>)
    reads set n | n in topologie
  {
    |done| <= |topologie| == |ns| &&
    forall k :: 0 <= k < |topologie| ==> topologie[k].State() == if k < |done| then done[k] else ns[k]
  }

  /** One iteration of the first `while (aux)`, on the `j`-th node of the list: the pass over
      the first `j` nodes, `moved`, becomes the pass over the first `j + 1`. */
  method MoveNode(topologie: seq<Node>, j: nat, c: Config, db: Database, rng: Stream, now: nat,
                  ghost ns: seq<NodeState>, ghost pos: Positions, ghost at: nat, ghost moved: Pass)
    returns (next: nat, ghost moved': Pass)
    requires Distinct(topologie) && Drawable(c) && j < |topologie| == |ns|
    requires moved == MovePass(ns[..j], pos, c, rng, at)
    requires Tracks(topologie, moved.nodes, ns) && db.positions == moved.positions && now == moved.next
    modifies db, topologie[j]
    ensures moved' == MovePass(ns[..j + 1], pos, c, rng, at)
    ensures Tracks(topologie, moved'.nodes, ns) && db.positions == moved'.positions && next == moved'.next
    ensures db.routage == old(db.routage)
  {
    MovePassSnoc(ns, j, pos, c, rng, at);
    ghost var o := Step(ns[j], c.probaMobilite, c.taille, c.waypoint, rng, now);
    next := MoveOne(topologie[j], c, db, rng, now);
    moved' := Pass(moved.nodes + [o.node], db.positions, next);
  }

  /** The body of the first `while (aux)`: `deplacer_noeud` then `update_pos_noeud_BDD`. */
  method MoveOne(node: Node, c: Config, db: Database, rng: Stream, at: nat) returns (next: nat)
    requires Drawable(c)
    modifies db, node
    ensures var o := Step(old(node.State()), c.probaMobilite, c.taille, c.waypoint, rng, at);
      node.State() == o.node && next == o.next &&
      db.positions == Relocate(old(db.positions), o.node.id, o.node.x, o.node.y)
    ensures db.routage == old(db.routage)
  {
    next := node.Move(c.probaMobilite, c.taille, c.waypoint, rng, at);
    UpdatePosNoeud(node, db);
  }

  /** The move pass over one more node of a list is the pass over the shorter prefix followed by
      that node's tick and position write. */
  lemma MovePassSnoc(ns: seq<NodeState>, j: int, pos: Positions, c: Config, rng: Stream, at: nat)
    requires Drawable(c) && 0 <= j < |ns|
    ensures var p := MovePass(ns[..j], pos, c, rng, at);
      var o := Step(ns[j], c.probaMobilite, c.taille, c.waypoint, rng, p.next);
      MovePass(ns[..j + 1], pos, c, rng, at) ==
        Pass(p.nodes + [o.node], Relocate(p.positions, o.node.id, o.node.x, o.node.y), o.next)
  {
    assert ns[..j + 1][..j] == ns[..j];
  }

  /** The second `while (aux)` of a sub-step: `maj_tab_routage` for each node in list order. */
  method ResetAllContacts(topologie: seq<Node>, c: Config, db: Database)
    modifies db
    ensures db.positions == old(db.positions)
    ensures db.routage == ContactPass(States(topologie), db.positions, old(db.routage), c)
  {
    ghost var ns := States(topologie);
    var j := 0;
    while j < |topologie|
      invariant 0 <= j <= |topologie|
      invariant db.positions == old(db.positions)
      invariant db.routage == ContactPass(ns[..j], db.positions, old(db.routage), c)
    {
      ResetNode(topologie, j, c, db, ns, old(db.routage));
      j := j + 1;
    }
    assert ns[..|topologie|] == ns;
  }

  /** One iteration of the second `while (aux)`, on the `j`-th node of the list: the routing
      table after the contact pass over the first `j` nodes becomes the one after the first
      `j + 1`. */
  method ResetNode(topologie: seq<Node>, j: nat, c: Config, db: Database, ghost ns: seq<NodeState>, ghost rt: Routage)
    requires j < |topologie| == |ns| && topologie[j].State() == ns[j]
    requires db.routage == ContactPass(ns[..j], db.positions, rt, c)
    modifies db
    ensures db.positions == old(db.positions)
    ensures db.routage == ContactPass(ns[..j + 1], db.positions, rt, c)
  {
    ContactPassSnoc(ns, j, db.positions, rt, c);
    MajTabRoutage(topologie[j], c.portee, db, c.nbNoeud);
  }

  /** The contact pass over one more node of a list is the pass over the shorter prefix
      followed by that node's contact reset. */
  lemma ContactPassSnoc(ns: seq<NodeState>, j: int, pos: Positions, rt: Routage, c: Config)
    requires 0 <= j < |ns|
    ensures ContactPass(ns[..j + 1], pos, rt, c) == ContactReset(ContactPass(ns[..j], pos, rt, c), pos, ns[j], c.portee, c.nbNoeud)
  {
    assert ns[..j + 1][..j] == ns[..j];
  }

  /** One iteration of the `for` loop of `mobilite`: both list walks, the second after the first. */
  method SubStepInPlace(topologie: seq<Node>, c: Config, db: Database, rng: Stream, at: nat) returns (next: nat)
    requires Distinct(topologie)
    requires Drawable(c)
    modifies db, set n | n in topologie
    ensures World(States(topologie), db.positions, db.routage, next) ==
            SubStep(World(old(States(topologie)), old(db.positions), old(db.routage), at), c, rng)
  {
    ghost var w := World(States(topologie), db.positions, db.routage, at);
    next := MoveAll(topologie, c, db, rng, at);
    ghost var p := MovePass(w.nodes, w.positions, c, rng, w.next);
    assert States(topologie) == p.nodes && db.positions == p.positions && next == p.next;
    ResetAllContacts(topologie, c, db);
  }

  /** `mobilite(topologie, vitesse_noeud_max, proba_mobilite, taille, portee, mysql, nb_noeud,
      waypoint)`, reading draws of `rng` from `at` on; returns the cursor of the next unread draw. */
  method Mobilite(topologie: seq<Node>, c: Config, db: Database, rng: Stream, at: nat) returns (next: nat)
    requires Distinct(topologie)
    requires Drawable(c)
    modifies db, set n | n in topologie
    ensures var e := Epoch(World(old(States(topologie)), old(db.positions), old(db.routage), at), c, rng);
      States(topologie) == e.nodes && db.positions == e.positions && db.routage == e.routage && next == e.next
  {
    ghost var w0 := World(States(topologie), db.positions, db.routage, at);
    db.IncrementAges(c.nbNoeud);
    next := at;
    ghost var aged := World(States(topologie), db.positions, db.routage, next);
    assert aged == w0.(routage := Aging(w0.routage, c.nbNoeud));
    if c.probaMobilite != 0 {
      var i := 0;
      while i < c.vitesseNoeudMax
        invariant 0 <= i <= SubStepCount(c)
        invariant World(States(topologie), db.positions, db.routage, next) == SubSteps(i, aged, c, rng)
      {
        next := SubStepInPlace(topologie, c, db, rng, next);
        i := i + 1;
      }
      assert i == SubStepCount(c);
      assert Epoch(w0, c, rng) == SubSteps(i, aged, c, rng);
    } else {
      assert Epoch(w0, c, rng) == aged;
    }
  }
}
