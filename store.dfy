/** The two tables of the topology database that the mobility code touches, as maps, and an
    in-memory database with one method per statement the code sends to it. */
module Store {

  /** A row of `routage`: a position with its age, and the same again for the `_pdl` columns. */
  datatype Entry = Entry(posX: int, posY: int, age: int, posXPdl: int, posYPdl: int, agePdl: int)

  /** The table `noeuds`: `Id` to `(posX, posY)`. */
  type Positions = map<int, (int, int)>

  /** The table `routage`: `(Id, Id_noeud)` to the rest of the row. */
  type Routage = map<(int, int), Entry>

  /** The rows the age statement of `mobilite` selects: `id <= nb_noeud and id != id_noeud`. */
  predicate Aged(key: (int, int), nbNoeud: int) {
    key.0 <= nbNoeud && key.0 != key.1
  }

  /** `update routage set age=age+1, age_pdl=age_pdl+1 where id <= nb_noeud and id != id_noeud`. */
  function Aging(rt: Routage, nbNoeud: int): (r: Routage)
    ensures r.Keys == rt.Keys
    ensures forall k :: k in rt ==>
      var bump := if Aged(k, nbNoeud) then 1 else 0;
      r[k].age == rt[k].age + bump && r[k].agePdl == rt[k].agePdl + bump &&
      r[k].posX == rt[k].posX && r[k].posY == rt[k].posY &&
      r[k].posXPdl == rt[k].posXPdl && r[k].posYPdl == rt[k].posYPdl
  {
    map k | k in rt :: if Aged(k, nbNoeud) then rt[k].(age := rt[k].age + 1, agePdl := rt[k].agePdl + 1) else rt[k]
  }

  /** `update noeuds set posX=x, posY=y where Id=id`: an update, so an id without a row changes
      nothing. */
  function Relocate(pos: Positions, id: int, x: int, y: int): (r: Positions)
    ensures r.Keys == pos.Keys
    ensures id in pos ==> r[id] == (x, y)
    ensures forall j :: j in pos && j != id ==> r[j] == pos[j]
  {
    if id in pos then pos[id := (x, y)] else pos
  }

  function SquaredDistance(p: (int, int), q: (int, int)): int {
    (p.0 - q.0) * (p.0 - q.0) + (p.1 - q.1) * (p.1 - q.1)
  }

  /** `select Id from noeuds where (posX-x)²+(posY-y)² <= r2 and Id <= nb_noeud`: the ids whose
      stored position lies within squared distance `r2` of `(x, y)`. */
  function Neighbours(pos: Positions, x: int, y: int, r2: int, nbNoeud: int): (ids: set<int>)
    ensures ids <= pos.Keys
    ensures forall id :: id in pos && id <= nbNoeud && SquaredDistance(pos[id], (x, y)) <= r2 ==> id in ids
    ensures forall id :: id in ids ==> id <= nbNoeud && SquaredDistance(pos[id], (x, y)) <= r2
  {
    set id | id in pos && id <= nbNoeud && SquaredDistance(pos[id], (x, y)) <= r2
  }

  /** The row that `update routage set posX=x, posY=y, age='0', posX_pdl=x, posY_pdl=y,
      age_pdl='0'` leaves behind, whatever it held before. */
  function ResetEntry(x: int, y: int): (e: Entry)
    ensures e.age == 0 && e.agePdl == 0
    ensures e.posX == e.posXPdl == x && e.posY == e.posYPdl == y
  {
    Entry(x, y, 0, x, y, 0)
  }

  /** A row as a contact reset leaves it: both ages zero, both positions equal. */
  predicate IsReset(e: Entry) {
    e.age == 0 && e.agePdl == 0 && e.posX == e.posXPdl && e.posY == e.posYPdl
  }

  /** The reset statement applied for every id of `ids` as neighbour of `owner`: the rows
      `(owner, b)` with `b` in `ids` become `ResetEntry(x, y)`; every other row is kept. */
  function ResetRows(rt: Routage, owner: int, x: int, y: int, ids: set<int>): (r: Routage)
    ensures r.Keys == rt.Keys
  {
    map k | k in rt :: if k.0 == owner && k.1 in ids then ResetEntry(x, y) else rt[k]
  }

  /** Adding one more neighbour to the reset set is one more single-row update, so the rows of
      the select can be processed one at a time in any order. */
  lemma ResetRowsAddOne(rt: Routage, owner: int, x: int, y: int, done: set<int>, b: int)
    ensures var before := ResetRows(rt, owner, x, y, done);
      ResetRows(rt, owner, x, y, done + {b}) ==
        if (owner, b) in before then before[(owner, b) := ResetEntry(x, y)] else before
  {
    var before := ResetRows(rt, owner, x, y, done);
    var after := ResetRows(rt, owner, x, y, done + {b});
    var expected := if (owner, b) in before then before[(owner, b) := ResetEntry(x, y)] else before;
    assert after.Keys == expected.Keys;
    forall k | k in after
      ensures after[k] == expected[k]
    {
      if k != (owner, b) {
        assert after[k] == before[k];
      }
    }
  }

  /** An in-memory stand-in for the database connection `mysql`. */
  class Database {
    var positions: Positions
    var routage: Routage

    constructor (positions: Positions, routage: Routage)
      ensures this.positions == positions && this.routage == routage
    {
      this.positions := positions;
      this.routage := routage;
    }

    /** The age statement of `mobilite`. */
    method IncrementAges(nbNoeud: int)
      modifies this
      ensures routage == Aging(old(routage), nbNoeud)
      ensures positions == old(positions)
    {
      routage := map k | k in routage ::
        if Aged(k, nbNoeud) then routage[k].(age := routage[k].age + 1, agePdl := routage[k].agePdl + 1)
        else routage[k];
    }

    /** The statement of `update_pos_noeud_BDD`. */
    method UpdatePosition(id: int, x: int, y: int)
      modifies this
      ensures positions == Relocate(old(positions), id, x, y)
      ensures routage == old(routage)
    {
      if id in positions {
        positions := positions[id := (x, y)];
      }
    }

    /** The select of `maj_tab_routage`: the rows of `noeuds` are scanned one at a time, in no
        particular order, and the id of each row meeting the `where` clause is collected. */
    method SelectNeighbours(x: int, y: int, r2: int, nbNoeud: int) returns (ids: set<int>)
      ensures ids == Neighbours(positions, x, y, r2, nbNoeud)
    {
      ids := {};
      var unscanned := positions.Keys;
      while unscanned != {}
        invariant unscanned <= positions.Keys
        invariant ids == Neighbours(positions, x, y, r2, nbNoeud) - unscanned
        decreases unscanned
      {
        var id :| id in unscanned;
        if id <= nbNoeud && SquaredDistance(positions[id], (x, y)) <= r2 {
          ids := ids + {id};
        }
        unscanned := unscanned - {id};
      }
    }

    /** The per-row update of `maj_tab_routage`: the row `(owner, neighbour)`, if there is one,
        takes the position `(x, y)` in both column groups and both ages become 0. */
    method ResetContact(owner: int, neighbour: int, x: int, y: int)
      modifies this
      ensures routage == if (owner, neighbour) in old(routage)
                         then old(routage)[(owner, neighbour) := ResetEntry(x, y)] else old(routage)
      ensures positions == old(positions)
    {
      if (owner, neighbour) in routage {
        routage := routage[(owner, neighbour) := ResetEntry(x, y)];
      }
    }
  }
}
