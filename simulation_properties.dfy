/** What one epoch of `mobilite` guarantees: the order of the two passes, the contact resets,
    the single age increment, and the grid bounds the nodes keep. */
module SimulationProperties {
  import opened Alea
  import opened Mobility
  import opened Store
  import opened Simulation

  /** The node invariant the moves keep: x inside the grid and y never above it; in waypoint
      mode also y at least 1 and the target inside the grid. (In random-walk mode y can drop
      below 1, by direction 5 from the bottom row.) */
  predicate Placed(s: NodeState, c: Config) {
    1 <= s.x <= c.taille && s.y <= c.taille &&
    (c.waypoint ==> 1 <= s.y && InGrid(s.wx, s.wy, c.taille))
  }

  predicate AllPlaced(ns: seq<NodeState>, c: Config) {
    forall i :: 0 <= i < |ns| ==> Placed(ns[i], c)
  }

  lemma IdOfLast(ns: seq<NodeState>)
    requires ns != []
    ensures ns[|ns| - 1].id in Ids(ns)
    ensures forall id :: id in Ids(ns[..|ns| - 1]) ==> id in Ids(ns)
  {
    var n := |ns| - 1;
    forall id | id in Ids(ns[..n]) ensures id in Ids(ns) {
      var i :| 0 <= i < n && ns[..n][i].id == id;
      assert ns[i].id == id;
    }
  }

  // ---------------------------------------------------------------------------------------
  // The move pass

  /** After the first pass, the row of every listed node holds the position that node ended
      at, and the rows of the other ids are untouched: the second pass reads a table in which
      every move of the sub-step is already written. */
  lemma {:induction false} MovePassWritesPositions(ns: seq<NodeState>, pos: Positions, c: Config, rng: Stream, at: nat)
    requires Drawable(c)
    requires DistinctIds(ns)
    ensures var p := MovePass(ns, pos, c, rng, at);
      (forall i :: 0 <= i < |ns| && ns[i].id in pos ==> p.positions[ns[i].id] == (p.nodes[i].x, p.nodes[i].y)) &&
      (forall id :: id in pos && id !in Ids(ns) ==> p.positions[id] == pos[id])
    decreases |ns|
  {
    if ns != [] {
      var n := |ns| - 1;
      var init := ns[..n];
      MovePassWritesPositions(init, pos, c, rng, at);
      IdOfLast(ns);
      var q := MovePass(init, pos, c, rng, at);
      var p := MovePass(ns, pos, c, rng, at);
      assert p.nodes[..n] == q.nodes;
      forall i | 0 <= i < |ns| && ns[i].id in pos
        ensures p.positions[ns[i].id] == (p.nodes[i].x, p.nodes[i].y)
      {
        if i < n {
          assert ns[i].id != ns[n].id;
          assert p.nodes[i] == q.nodes[i];
          assert init[i] == ns[i];
        }
      }
    }
  }

  /** The first pass keeps every node placed. */
  lemma {:induction false} MovePassKeepsPlaced(ns: seq<NodeState>, pos: Positions, c: Config, rng: Stream, at: nat)
    requires Drawable(c)
    requires AllPlaced(ns, c)
    ensures AllPlaced(MovePass(ns, pos, c, rng, at).nodes, c)
    decreases |ns|
  {
    if ns != [] {
      var n := |ns| - 1;
      MovePassKeepsPlaced(ns[..n], pos, c, rng, at);
      var q := MovePass(ns[..n], pos, c, rng, at);
      StepKeepsPlaced(ns[n], c, rng, q.next);
    }
  }

  /** One tick keeps a node placed. */
  lemma StepKeepsPlaced(s: NodeState, c: Config, rng: Stream, at: nat)
    requires Drawable(c)
    requires Placed(s, c)
    ensures Placed(Step(s, c.probaMobilite, c.taille, c.waypoint, rng, at).node, c)
  {
    if c.waypoint {
      WaypointStaysInGrid(s, c.probaMobilite, c.taille, rng, at);
    }
  }

  // ---------------------------------------------------------------------------------------
  // The contact pass

  /** The second pass, for distinct ids: a row owned by a listed node is reset to that node's
      position exactly when the neighbour query for that node returns the row's neighbour, and
      is otherwise unchanged; a row owned by no listed node is unchanged. */
  lemma {:induction false} ContactPassEffect(ns: seq<NodeState>, pos: Positions, rt: Routage, c: Config)
    requires DistinctIds(ns)
    ensures var r := ContactPass(ns, pos, rt, c);
      (forall i, k :: 0 <= i < |ns| && k in rt && k.0 == ns[i].id ==>
         r[k] == if k.1 in Neighbours(pos, ns[i].x, ns[i].y, c.portee * c.portee, c.nbNoeud)
                 then ResetEntry(ns[i].x, ns[i].y) else rt[k]) &&
      (forall k :: k in rt && k.0 !in Ids(ns) ==> r[k] == rt[k])
    decreases |ns|
  {
    if ns != [] {
      var n := |ns| - 1;
      var init := ns[..n];
      ContactPassEffect(init, pos, rt, c);
      IdOfLast(ns);
      var q := ContactPass(init, pos, rt, c);
      var r := ContactPass(ns, pos, rt, c);
      var last := ns[n];
      var near := Neighbours(pos, last.x, last.y, c.portee * c.portee, c.nbNoeud);
      assert r == ResetRows(q, last.id, last.x, last.y, near);
      forall k | k in rt
        ensures r[k] == if k.0 == last.id && k.1 in near then ResetEntry(last.x, last.y) else q[k]
      {
      }
      forall i, k | 0 <= i < |ns| && k in rt && k.0 == ns[i].id
        ensures r[k] == if k.1 in Neighbours(pos, ns[i].x, ns[i].y, c.portee * c.portee, c.nbNoeud)
                        then ResetEntry(ns[i].x, ns[i].y) else rt[k]
      {
        if i == n {
          assert q[k] == rt[k];
        } else {
          assert init[i] == ns[i];
          assert k.0 != last.id;
        }
      }
    }
  }

  /** The row `key` is in both tables, and in `after` it is as in `before` or, when its owner
      is in `owners`, as a contact reset leaves it. */
  predicate RowShaped(before: Routage, after: Routage, owners: set<int>, key: (int, int)) {
    key in before && key in after &&
    (after[key] == before[key] || (key.0 in owners && IsReset(after[key])))
  }

  /** `after` has the rows of `before`, each unchanged or, when its owner is in `owners`, as a
      contact reset leaves it. */
  predicate Shaped(before: Routage, after: Routage, owners: set<int>) {
    after.Keys == before.Keys &&
    forall key {:trigger RowShaped(before, after, owners, key)} :: key in before ==> RowShaped(before, after, owners, key)
  }

  lemma ShapedTransitive(a: Routage, b: Routage, r: Routage, owners: set<int>)
    requires Shaped(a, b, owners) && Shaped(b, r, owners)
    ensures Shaped(a, r, owners)
  {
    forall key | key in a
      ensures RowShaped(a, r, owners, key)
    {
      assert RowShaped(a, b, owners, key) && RowShaped(b, r, owners, key);
    }
  }

  /** A shape with fewer owners is one with more. */
  lemma ShapedWider(a: Routage, b: Routage, owners: set<int>, more: set<int>)
    requires Shaped(a, b, owners) && owners <= more
    ensures Shaped(a, b, more)
  {
    forall key | key in a ensures RowShaped(a, b, more, key) {
      assert RowShaped(a, b, owners, key);
    }
  }

  /** Shapes compose across two states whose lists carry the same ids. */
  lemma ShapedThrough(w: World, mid: World, last: World)
    requires |mid.nodes| == |w.nodes| && forall i :: 0 <= i < |w.nodes| ==> mid.nodes[i].id == w.nodes[i].id
    requires Shaped(w.routage, mid.routage, Ids(w.nodes)) && Shaped(mid.routage, last.routage, Ids(mid.nodes))
    ensures Shaped(w.routage, last.routage, Ids(w.nodes))
  {
    SameIds(w.nodes, mid.nodes);
    ShapedTransitive(w.routage, mid.routage, last.routage, Ids(w.nodes));
  }

  /** The second pass leaves each row as it was or as a contact reset leaves it, and leaves
      alone every row whose owner is not in the list. */
  lemma {:induction false} ContactPassShape(ns: seq<NodeState>, pos: Positions, rt: Routage, c: Config)
    ensures Shaped(rt, ContactPass(ns, pos, rt, c), Ids(ns))
    decreases |ns|
  {
    if ns != [] {
      var n := |ns| - 1;
      ContactPassShape(ns[..n], pos, rt, c);
      IdOfLast(ns);
      var q := ContactPass(ns[..n], pos, rt, c);
      var r := ContactPass(ns, pos, rt, c);
      forall key | key in q ensures RowShaped(q, r, Ids(ns), key) {
      }
      ShapedWider(rt, q, Ids(ns[..n]), Ids(ns));
      ShapedTransitive(rt, q, r, Ids(ns));
    }
  }

  // ---------------------------------------------------------------------------------------
  // A sub-step and the epoch

  /** After a sub-step, the row (a, b) of two listed nodes is reset to a's final position
      exactly when b's number is at most `nb_noeud` and b's final position lies within
      `portee` of a's; b = a included. Otherwise the row is as before the sub-step. */
  lemma SubStepResetsContacts(w: World, c: Config, rng: Stream, i: int, j: int)
    requires Drawable(c)
    requires DistinctIds(w.nodes)
    requires 0 <= i < |w.nodes| && 0 <= j < |w.nodes|
    requires w.nodes[j].id in w.positions
    requires (w.nodes[i].id, w.nodes[j].id) in w.routage
    ensures var r := SubStep(w, c, rng); var a := r.nodes[i]; var b := r.nodes[j];
      r.routage[(a.id, b.id)] ==
        if b.id <= c.nbNoeud && SquaredDistance((b.x, b.y), (a.x, a.y)) <= c.portee * c.portee
        then ResetEntry(a.x, a.y) else w.routage[(a.id, b.id)]
  {
    var p := MovePass(w.nodes, w.positions, c, rng, w.next);
    MovePassWritesPositions(w.nodes, w.positions, c, rng, w.next);
    assert DistinctIds(p.nodes) by {
      forall m, n | 0 <= m < n < |p.nodes| ensures p.nodes[m].id != p.nodes[n].id {
        assert w.nodes[m].id != w.nodes[n].id;
      }
    }
    ContactPassEffect(p.nodes, p.positions, w.routage, c);
    assert p.positions[p.nodes[j].id] == (p.nodes[j].x, p.nodes[j].y);
  }

  /** A sub-step leaves each row as it was or as a contact reset leaves it, and leaves alone
      every row whose owner is not in the list. */
  lemma SubStepShape(w: World, c: Config, rng: Stream)
    requires Drawable(c)
    ensures Shaped(w.routage, SubStep(w, c, rng).routage, Ids(w.nodes))
  {
    var p := MovePass(w.nodes, w.positions, c, rng, w.next);
    ContactPassShape(p.nodes, p.positions, w.routage, c);
    SameIds(w.nodes, p.nodes);
  }

  /** Two lists with the same id at every index have the same ids. */
  lemma SameIds(ns: seq<NodeState>, ms: seq<NodeState>)
    requires |ns| == |ms| && forall i :: 0 <= i < |ns| ==> ms[i].id == ns[i].id
    ensures Ids(ns) == Ids(ms)
  {
    forall id | id in Ids(ms) ensures id in Ids(ns) {
      var i :| 0 <= i < |ms| && ms[i].id == id;
      assert ns[i].id == id;
    }
    forall id | id in Ids(ns) ensures id in Ids(ms) {
      var i :| 0 <= i < |ns| && ns[i].id == id;
      assert ms[i].id == id;
    }
  }

  /** Sub-steps leave each row as it was or as a contact reset leaves it, and leave alone every
      row whose owner is not in the list. */
  lemma {:induction false} SubStepsShape(k: nat, w: World, c: Config, rng: Stream)
    requires Drawable(c)
    ensures Shaped(w.routage, SubSteps(k, w, c, rng).routage, Ids(w.nodes))
  {
    if k > 0 {
      SubStepsShape(k - 1, w, c, rng);
      SubStepsShapeStep(k, w, c, rng);
    }
  }

  /** One more sub-step keeps the shape `k - 1` sub-steps have. */
  lemma SubStepsShapeStep(k: nat, w: World, c: Config, rng: Stream)
    requires Drawable(c) && k >= 1
    requires Shaped(w.routage, SubSteps(k - 1, w, c, rng).routage, Ids(w.nodes))
    ensures Shaped(w.routage, SubSteps(k, w, c, rng).routage, Ids(w.nodes))
  {
    var prev := SubSteps(k - 1, w, c, rng);
    SubStepsLast(k, w, c, rng);
    SubStepShape(prev, c, rng);
    ShapedThrough(w, prev, SubStep(prev, c, rng));
  }

  /** The last of `k` sub-steps runs on the state the first `k - 1` leave. */
  lemma SubStepsLast(k: nat, w: World, c: Config, rng: Stream)
    requires Drawable(c) && k >= 1
    ensures SubSteps(k, w, c, rng) == SubStep(SubSteps(k - 1, w, c, rng), c, rng)
  {
  }

  /** A sub-step keeps every node placed. */
  lemma SubStepKeepsPlaced(w: World, c: Config, rng: Stream)
    requires Drawable(c)
    requires AllPlaced(w.nodes, c)
    ensures AllPlaced(SubStep(w, c, rng).nodes, c)
  {
    MovePassKeepsPlaced(w.nodes, w.positions, c, rng, w.next);
  }

  /** Every node is placed after `k` sub-steps from `w`. */
  predicate PlacedAfter(k: nat, w: World, c: Config, rng: Stream)
    requires Drawable(c)
  {
    AllPlaced(SubSteps(k, w, c, rng).nodes, c)
  }

  /** Sub-steps keep every node placed. */
  lemma {:induction false} SubStepsKeepPlaced(k: nat, w: World, c: Config, rng: Stream)
    requires Drawable(c)
    requires AllPlaced(w.nodes, c)
    ensures PlacedAfter(k, w, c, rng)
  {
    if k > 0 {
      SubStepsKeepPlaced(k - 1, w, c, rng);
      SubStepsKeepPlacedStep(k, w, c, rng);
    }
  }

  /** One more sub-step keeps placed what the first `k - 1` kept placed. */
  lemma SubStepsKeepPlacedStep(k: nat, w: World, c: Config, rng: Stream)
    requires Drawable(c) && k >= 1
    requires PlacedAfter(k - 1, w, c, rng)
    ensures PlacedAfter(k, w, c, rng)
  {
    SubStepsLast(k, w, c, rng);
    SubStepKeepsPlaced(SubSteps(k - 1, w, c, rng), c, rng);
  }

  /** With `proba_mobilite` zero the epoch only runs the age statement: no node moves, no
      position is written, no contact is reset, no draw is read. */
  lemma EpochWithoutMobility(w: World, c: Config, rng: Stream)
    requires Drawable(c)
    requires c.probaMobilite == 0
    ensures Epoch(w, c, rng) == World(w.nodes, w.positions, Aging(w.routage, c.nbNoeud), w.next)
  {
  }

  /** The ages go up once per epoch, whatever `vitesse_noeud_max` is: every row ends either as
      the age statement left it or as a contact reset leaves it, and a row whose owner is not
      in the list ends exactly one older (when the age statement selects it) than it began. */
  lemma EpochAgesOnce(w: World, c: Config, rng: Stream)
    requires Drawable(c)
    ensures Shaped(Aging(w.routage, c.nbNoeud), Epoch(w, c, rng).routage, Ids(w.nodes))
  {
    var aged := w.(routage := Aging(w.routage, c.nbNoeud));
    if c.probaMobilite != 0 {
      SubStepsShape(SubStepCount(c), aged, c, rng);
    }
  }

  /** Ages are raised before the resets: a pair of listed nodes in contact at the end of the
      epoch (b's number at most `nb_noeud`, b within `portee` of a) ends with both ages 0 and
      a's final position in its row. */
  lemma EpochEndsInContact(w: World, c: Config, rng: Stream, i: int, j: int)
    requires Drawable(c)
    requires DistinctIds(w.nodes)
    requires c.probaMobilite != 0 && c.vitesseNoeudMax >= 1
    requires 0 <= i < |w.nodes| && 0 <= j < |w.nodes|
    requires w.nodes[j].id in w.positions
    requires (w.nodes[i].id, w.nodes[j].id) in w.routage
    ensures var e := Epoch(w, c, rng); var a := e.nodes[i]; var b := e.nodes[j];
      b.id <= c.nbNoeud && SquaredDistance((b.x, b.y), (a.x, a.y)) <= c.portee * c.portee ==>
        e.routage[(a.id, b.id)] == ResetEntry(a.x, a.y)
  {
    var aged := w.(routage := Aging(w.routage, c.nbNoeud));
    var k := SubStepCount(c);
    var prev := SubSteps(k - 1, aged, c, rng);
    assert DistinctIds(prev.nodes) by {
      forall m, n | 0 <= m < n < |prev.nodes| ensures prev.nodes[m].id != prev.nodes[n].id {
        assert w.nodes[m].id != w.nodes[n].id;
      }
    }
    assert Epoch(w, c, rng) == SubSteps(k, aged, c, rng);
    SubStepsLast(k, aged, c, rng);
    assert w.nodes[j].id == prev.nodes[j].id && w.nodes[i].id == prev.nodes[i].id;
    SubStepResetsContacts(prev, c, rng, i, j);
  }

  /** The nodes at indices `i` and `j` of `w` are in contact: b's number is at most `nb_noeud`
      and b lies within `portee` of a. */
  predicate InContact(w: World, i: int, j: int, c: Config) {
    0 <= i < |w.nodes| && 0 <= j < |w.nodes| &&
    var a := w.nodes[i]; var b := w.nodes[j];
    b.id <= c.nbNoeud && SquaredDistance((b.x, b.y), (a.x, a.y)) <= c.portee * c.portee
  }

  /** The nodes at indices `i` and `j` are not in contact after `m` sub-steps from `w`. */
  predicate ApartAfter(m: nat, w: World, c: Config, rng: Stream, i: int, j: int)
    requires Drawable(c)
  {
    !InContact(SubSteps(m, w, c, rng), i, j, c)
  }

  /** Two lists with the same id at every index are both free of repeated ids or neither is. */
  lemma SameIdsDistinct(ns: seq<NodeState>, ms: seq<NodeState>)
    requires |ns| == |ms| && forall i :: 0 <= i < |ns| ==> ms[i].id == ns[i].id
    requires DistinctIds(ns)
    ensures DistinctIds(ms)
  {
    forall m, n | 0 <= m < n < |ms| ensures ms[m].id != ms[n].id {
      assert ns[m].id != ns[n].id;
    }
  }

  /** A pair of listed nodes not in contact after a sub-step keeps its row through it. */
  lemma SubStepKeepsApartRow(w: World, c: Config, rng: Stream, i: int, j: int)
    requires Drawable(c)
    requires DistinctIds(w.nodes)
    requires 0 <= i < |w.nodes| && 0 <= j < |w.nodes|
    requires w.nodes[j].id in w.positions
    requires (w.nodes[i].id, w.nodes[j].id) in w.routage
    requires !InContact(SubStep(w, c, rng), i, j, c)
    ensures SubStep(w, c, rng).routage[(w.nodes[i].id, w.nodes[j].id)] == w.routage[(w.nodes[i].id, w.nodes[j].id)]
  {
    SubStepResetsContacts(w, c, rng, i, j);
  }

  /** A pair of listed nodes in contact after none of the first `k` sub-steps keeps its row
      exactly as it was before them. */
  lemma {:induction false} SubStepsKeepApartRow(k: nat, w: World, c: Config, rng: Stream, i: int, j: int)
    requires Drawable(c)
    requires DistinctIds(w.nodes)
    requires 0 <= i < |w.nodes| && 0 <= j < |w.nodes|
    requires w.nodes[j].id in w.positions
    requires (w.nodes[i].id, w.nodes[j].id) in w.routage
    requires forall m: nat :: 1 <= m <= k ==> ApartAfter(m, w, c, rng, i, j)
    ensures SubSteps(k, w, c, rng).routage[(w.nodes[i].id, w.nodes[j].id)] == w.routage[(w.nodes[i].id, w.nodes[j].id)]
  {
    if k > 0 {
      SubStepsKeepApartRow(k - 1, w, c, rng, i, j);
      SubStepsKeepApartStep(k, w, c, rng, i, j);
    }
  }

  /** One more sub-step without contact keeps the row `k - 1` sub-steps kept. */
  lemma SubStepsKeepApartStep(k: nat, w: World, c: Config, rng: Stream, i: int, j: int)
    requires Drawable(c) && k >= 1
    requires DistinctIds(w.nodes)
    requires 0 <= i < |w.nodes| && 0 <= j < |w.nodes|
    requires w.nodes[j].id in w.positions
    requires (w.nodes[i].id, w.nodes[j].id) in w.routage
    requires ApartAfter(k, w, c, rng, i, j)
    requires SubSteps(k - 1, w, c, rng).routage[(w.nodes[i].id, w.nodes[j].id)] == w.routage[(w.nodes[i].id, w.nodes[j].id)]
    ensures SubSteps(k, w, c, rng).routage[(w.nodes[i].id, w.nodes[j].id)] == w.routage[(w.nodes[i].id, w.nodes[j].id)]
  {
    var prev := SubSteps(k - 1, w, c, rng);
    SameIdsDistinct(w.nodes, prev.nodes);
    SubStepsLast(k, w, c, rng);
    SubStepKeepsApartRow(prev, c, rng, i, j);
  }

  /** A pair of listed nodes in contact after no sub-step of the epoch ends with its row exactly
      as the single age statement left it: a row that statement selects (owner at most
      `nb_noeud`, owner and neighbour different) is one older in both ages, with its positions
      kept. */
  lemma EpochApartAgesOnce(w: World, c: Config, rng: Stream, i: int, j: int)
    requires Drawable(c)
    requires DistinctIds(w.nodes)
    requires 0 <= i < |w.nodes| && 0 <= j < |w.nodes|
    requires w.nodes[j].id in w.positions
    requires (w.nodes[i].id, w.nodes[j].id) in w.routage
    requires c.probaMobilite != 0 ==>
      forall m: nat :: 1 <= m <= SubStepCount(c) ==>
        ApartAfter(m, w.(routage := Aging(w.routage, c.nbNoeud)), c, rng, i, j)
    ensures var key := (w.nodes[i].id, w.nodes[j].id); var before := w.routage[key];
      var after := Epoch(w, c, rng).routage[key];
      after == Aging(w.routage, c.nbNoeud)[key] &&
      (Aged(key, c.nbNoeud) ==> after.age == before.age + 1 && after.agePdl == before.agePdl + 1) &&
      after.posX == before.posX && after.posY == before.posY &&
      after.posXPdl == before.posXPdl && after.posYPdl == before.posYPdl
  {
    var aged := w.(routage := Aging(w.routage, c.nbNoeud));
    if c.probaMobilite != 0 {
      SubStepsKeepApartRow(SubStepCount(c), aged, c, rng, i, j);
    }
  }

  /** Every node placed before the epoch is placed after it. */
  lemma EpochKeepsPlaced(w: World, c: Config, rng: Stream)
    requires Drawable(c)
    requires AllPlaced(w.nodes, c)
    ensures AllPlaced(Epoch(w, c, rng).nodes, c)
  {
    var aged := w.(routage := Aging(w.routage, c.nbNoeud));
    SubStepsKeepPlaced(SubStepCount(c), aged, c, rng);
  }
}
