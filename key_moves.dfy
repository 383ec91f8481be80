/**
 One move of the key-collection search (run2.py, `DIRECTIONS` and the body
 of the search loop in `solve`): exactly one robot steps to an orthogonal
 neighbour, unless the step leaves the grid, hits a wall, meets a door whose
 key has not been collected, or lands on a cell another robot occupies.
 */
module KeyMoves {
  import opened KeyMap

  datatype Option<T> = None | Some(value: T)

  /** A search state: where every robot stands and which keys are held. */
  datatype State = State(positions: seq<Pos>, keys: bv32)

  /** `DIRECTIONS`, as (dx, dy) offsets. */
  const Directions: seq<(int, int)> := [(-1, 0), (1, 0), (0, -1), (0, 1)]

  /** The grid has at least one row and every row is as wide as the first. */
  predicate Rectangular(grid: seq<string>)
  {
    |grid| > 0 && forall y :: 0 <= y < |grid| ==> |grid[y]| == |grid[0]|
  }

  predicate InGrid(grid: seq<string>, p: Pos)
    requires |grid| > 0
  {
    0 <= p.x < |grid[0]| && 0 <= p.y < |grid|
  }

  function CellAt(grid: seq<string>, p: Pos): (c: char)
    requires Rectangular(grid) && InGrid(grid, p)
  {
    grid[p.y][p.x]
  }

  /** The neighbour of `p` in direction `d`. */
  function Neighbour(p: Pos, d: nat): (q: Pos)
    requires d < |Directions|
  {
    Pos(p.x + Directions[d].0, p.y + Directions[d].1)
  }

  /** `set(new_positions)` */
  function Occupied(ps: seq<Pos>): (cells: set<Pos>)
  {
    set p | p in ps
  }

  /** `len(set(ps)) == len(ps)` holds exactly when no two robots share a cell. */
  lemma {:induction false} OccupiedCount(ps: seq<Pos>)
    ensures |Occupied(ps)| <= |ps|
    ensures |Occupied(ps)| == |ps| <==> Distinct(ps)
    decreases |ps|
  {
    if ps != [] {
      var n := |ps| - 1;
      var ps', p := ps[..n], ps[n];
      OccupiedCount(ps');
      assert ps == ps' + [p];
      assert Occupied(ps) == Occupied(ps') + {p};
      if p in Occupied(ps') {
        var j :| 0 <= j < n && ps'[j] == p;
        assert ps[j] == ps[n];
      } else {
        assert |Occupied(ps)| == |Occupied(ps')| + 1;
        if Distinct(ps') {
          forall i, j | 0 <= i < j < |ps| ensures ps[i] != ps[j] {
            if j == n {
              assert ps[i] in Occupied(ps');
            } else {
              assert ps'[i] != ps'[j];
            }
          }
        } else {
          var i, j :| 0 <= i < j < n && ps'[i] == ps'[j];
          assert ps[i] == ps[j];
        }
      }
    }
  }

  /**
   `new_keys`: the mask after entering a cell holding `cell`. Exactly the key
   on that cell, if any, is added.
   */
  function Collect(keys: bv32, cell: char): (k: bv32)
    ensures forall c :: IsKey(c) ==> (HasKey(k, c) <==> HasKey(keys, c) || c == cell)
    ensures keys < KeySpace ==> k < KeySpace
  {
    if IsKey(cell) then
      AddKey(keys, cell);
      keys | KeyBit(cell)
    else keys
  }

  /**
   Robot `r` tries to step in direction `d`. On success the successor state
   differs from `s` only in that robot's cell, which is the neighbour in
   direction `d`, inside the grid and not a wall; a door is entered only with
   its key; the mask gains at most the key on the entered cell; and no two
   robots share a cell. A refused move is refused for one of those reasons.
   */
  function Move(grid: seq<string>, s: State, r: nat, d: nat): (m: Option<State>)
    requires Rectangular(grid)
    requires r < |s.positions| && d < |Directions|
    ensures m.Some? ==>
      var t := Neighbour(s.positions[r], d);
      && InGrid(grid, t)
      && CellAt(grid, t) != '#'
      && (IsDoor(CellAt(grid, t)) ==> HasKey(s.keys, DoorKey(CellAt(grid, t))))
      && |m.value.positions| == |s.positions|
      && m.value.positions[r] == t
      && (forall i :: 0 <= i < |s.positions| && i != r ==> m.value.positions[i] == s.positions[i])
      && Distinct(m.value.positions)
      && (forall c :: IsKey(c) ==>
            (HasKey(m.value.keys, c) <==> HasKey(s.keys, c) || c == CellAt(grid, t)))
      && (s.keys < KeySpace ==> m.value.keys < KeySpace)
    ensures m.None? ==>
      var t := Neighbour(s.positions[r], d);
      || !InGrid(grid, t)
      || CellAt(grid, t) == '#'
      || (IsDoor(CellAt(grid, t)) && !HasKey(s.keys, DoorKey(CellAt(grid, t))))
      || !Distinct(s.positions[r := t])
  {
    var t := Neighbour(s.positions[r], d);
    if !InGrid(grid, t) then None
    else
      var cell := grid[t.y][t.x];
      if cell == '#' then None
      else if IsDoor(cell) && !HasKey(s.keys, DoorKey(cell)) then None
      else
        var keys := Collect(s.keys, cell);
        var ps := s.positions[r := t];
        OccupiedCount(ps);
        if |Occupied(ps)| < |s.positions| then None
        else Some(State(ps, keys))
  }

  /** `s'` is one legal move away from `s`. */
  ghost predicate IsStep(grid: seq<string>, s: State, s': State)
  {
    Rectangular(grid) &&
    exists r: nat, d: nat :: r < |s.positions| && d < |Directions| && Move(grid, s, r, d) == Some(s')
  }

  /** `run` is a sequence of legal moves starting in `start`. */
  ghost predicate IsRun(grid: seq<string>, start: State, run: seq<State>)
  {
    |run| > 0 && run[0] == start &&
    forall i :: 0 <= i < |run| - 1 ==> IsStep(grid, run[i], run[i + 1])
  }

  function Last(run: seq<State>): (s: State)
    requires run != []
  {
    run[|run| - 1]
  }

  /** Every key in the mask is one lying on the map, and no other bit is set. */
  ghost predicate KeysFromGrid(grid: seq<string>, keys: bv32)
  {
    keys < KeySpace && forall c :: IsKey(c) && HasKey(keys, c) ==> OccursIn(grid, c)
  }

  /** All robots inside the grid. */
  ghost predicate OnGrid(grid: seq<string>, ps: seq<Pos>)
  {
    |grid| > 0 && forall i :: 0 <= i < |ps| ==> InGrid(grid, ps[i])
  }

  /**
   A move keeps the robots on the grid and the mask within the map's keys,
   never drops a key, and leaves the robots on distinct cells.
   */
  lemma StepKeeps(grid: seq<string>, s: State, s': State)
    requires IsStep(grid, s, s')
    requires OnGrid(grid, s.positions) && KeysFromGrid(grid, s.keys)
    ensures OnGrid(grid, s'.positions) && KeysFromGrid(grid, s'.keys)
    ensures |s'.positions| == |s.positions| && Distinct(s'.positions)
    ensures forall c :: IsKey(c) && HasKey(s.keys, c) ==> HasKey(s'.keys, c)
  {
    var r: nat, d: nat :| r < |s.positions| && d < |Directions| && Move(grid, s, r, d) == Some(s');
    var t := Neighbour(s.positions[r], d);
    forall c | IsKey(c) && HasKey(s'.keys, c) ensures OccursIn(grid, c) {
      if c == CellAt(grid, t) {
        assert c in grid[t.y];
      }
    }
  }

  /**
   Along any run the mask only grows and stays within the map's keys, and
   the robots stay on the grid.
   */
  lemma {:induction false} RunKeeps(grid: seq<string>, start: State, run: seq<State>)
    requires IsRun(grid, start, run)
    requires OnGrid(grid, start.positions) && KeysFromGrid(grid, start.keys)
    ensures OnGrid(grid, Last(run).positions) && KeysFromGrid(grid, Last(run).keys)
    ensures |Last(run).positions| == |start.positions|
    ensures forall c :: IsKey(c) && HasKey(start.keys, c) ==> HasKey(Last(run).keys, c)
    decreases |run|
  {
    if |run| > 1 {
      var run' := run[..|run| - 1];
      assert IsRun(grid, start, run');
      RunKeeps(grid, start, run');
      StepKeeps(grid, Last(run'), Last(run));
    }
  }
}
