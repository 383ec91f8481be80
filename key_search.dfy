/**
 The breadth-first search of the key-collection puzzle (run2.py, `solve`).

 The search runs over states (robot cells, collected-key mask). The queue
 holds `(positions, keys, steps)` entries; `visited` holds every state ever
 enqueued, so each state is enqueued at most once. The search stops at the
 first dequeued state whose mask equals the map's full mask and answers its
 step count, or answers -1 once the queue is empty.

 The proof keeps a ghost log of every entry ever enqueued, in order, together
 with the link from each entry to the entry it was expanded from. The queue
 is always a suffix of the log.
 */
module KeySearch {
  import opened KeyMap
  import opened KeyMoves

  /** A queue entry `(positions, keys, steps)`. */
  datatype Entry = Entry(state: State, steps: nat)

  /** Entry `from` of the log became this entry by moving `robot` in direction `dir`. */
  datatype Link = Link(from: nat, robot: nat, dir: nat)

  /** What `solve` needs of the map: a non-empty rectangular grid with the robots on it. */
  ghost predicate WellFormed(info: MapInfo)
  {
    Rectangular(info.grid) && OnGrid(info.grid, info.robots)
  }

  function Start(info: MapInfo): (s: State)
  {
    State(info.robots, 0)
  }

  // ---------------------------------------------------------------------
  // The finite space of states, for termination

  ghost function Cells(grid: seq<string>): (cells: set<Pos>)
    requires |grid| > 0
  {
    set x: int, y: int | 0 <= x < |grid[0]| && 0 <= y < |grid| :: Pos(x, y)
  }

  /** All sequences of `n` cells drawn from `cells`. */
  ghost function Placements(n: nat, cells: set<Pos>): (placements: set<seq<Pos>>)
  {
    if n == 0 then {[]}
    else set p, ps | p in cells && ps in Placements(n - 1, cells) :: [p] + ps
  }

  lemma {:induction false} InPlacements(ps: seq<Pos>, cells: set<Pos>)
    requires forall i :: 0 <= i < |ps| ==> ps[i] in cells
    ensures ps in Placements(|ps|, cells)
    decreases |ps|
  {
    if ps != [] {
      InPlacements(ps[1..], cells);
      assert ps == [ps[0]] + ps[1..];
    }
  }

  ghost function ToMask(i: int): (mask: bv32)
    requires 0 <= i < 0x1_0000_0000
  {
    i as bv32
  }

  ghost function Masks(): (masks: set<bv32>)
  {
    set i | 0 <= i < 0x400_0000 :: ToMask(i)
  }

  ghost function Universe(grid: seq<string>, n: nat): (states: set<State>)
    requires |grid| > 0
  {
    set ps, k | ps in Placements(n, Cells(grid)) && k in Masks() :: State(ps, k)
  }

  lemma InUniverse(grid: seq<string>, s: State)
    requires OnGrid(grid, s.positions) && s.keys < KeySpace
    ensures s in Universe(grid, |s.positions|)
  {
    forall i | 0 <= i < |s.positions| ensures s.positions[i] in Cells(grid) {
      var p := s.positions[i];
      assert p == Pos(p.x, p.y);
    }
    InPlacements(s.positions, Cells(grid));
    assert ToMask(s.keys as int) == s.keys;
    assert s.keys in Masks();
  }

  /** `space` holds every state of `n` robots on the grid with a mask of key bits only. */
  ghost predicate Covers(space: set<State>, grid: seq<string>, n: nat)
  {
    forall s: State :: |s.positions| == n && OnGrid(grid, s.positions) && s.keys < KeySpace ==> s in space
  }

  /** The states of a search form a finite set. */
  lemma StateSpace(grid: seq<string>, n: nat) returns (space: set<State>)
    requires |grid| > 0
    ensures Covers(space, grid, n)
  {
    space := Universe(grid, n);
    forall s: State | |s.positions| == n && OnGrid(grid, s.positions) && s.keys < KeySpace
      ensures s in space
    {
      InUniverse(grid, s);
    }
  }

  // ---------------------------------------------------------------------
  // The search invariant

  /** Entry `j` was produced by a legal move from an earlier entry, one step deeper. */
  ghost predicate LinkOk(grid: seq<string>, log: seq<Entry>, links: seq<Link>, j: nat)
    requires Rectangular(grid) && 0 < j < |log| && |links| == |log|
  {
    var l := links[j];
    && l.from < j
    && l.robot < |log[l.from].state.positions|
    && l.dir < |Directions|
    && Move(grid, log[l.from].state, l.robot, l.dir) == Some(log[j].state)
    && log[j].steps == log[l.from].steps + 1
  }

  /**
   The log starts with the start state at depth 0, every later entry is
   linked to its parent, all states keep the robots on the grid and the mask
   within the map's keys, and depths never decrease along the log.
   */
  ghost predicate LogValid(grid: seq<string>, start: State, log: seq<Entry>, links: seq<Link>)
  {
    && Rectangular(grid)
    && |log| > 0 && |links| == |log| && log[0] == Entry(start, 0)
    && (forall j :: 0 <= j < |log| ==>
          && |log[j].state.positions| == |start.positions|
          && OnGrid(grid, log[j].state.positions)
          && KeysFromGrid(grid, log[j].state.keys))
    && (forall j :: 0 < j < |log| ==> LinkOk(grid, log, links, j))
    && (forall i, j :: 0 <= i < j < |log| ==> log[i].steps <= log[j].steps)
  }

  /** `index` finds each visited state's unique entry in the log. */
  ghost predicate Indexed(log: seq<Entry>, index: map<State, nat>, visited: set<State>)
  {
    && index.Keys == visited
    && (forall s :: s in index ==> index[s] < |log| && log[index[s]].state == s)
    && (forall j :: 0 <= j < |log| ==> log[j].state in index && index[log[j].state] == j)
  }

  /** `s` is logged at depth at most `bound`. */
  ghost predicate Reached(log: seq<Entry>, index: map<State, nat>, s: State, bound: int)
  {
    s in index && index[s] < |log| && log[index[s]].steps <= bound
  }

  /**
   Every move from entry `i` by a robot before `r`, or by robot `r` in a
   direction before `d`, leads to a state logged at most one step deeper.
   */
  ghost predicate Explored(grid: seq<string>, log: seq<Entry>, index: map<State, nat>, i: nat, r: nat, d: nat)
    requires Rectangular(grid) && i < |log|
  {
    var s := log[i].state;
    forall r': nat, d': nat ::
      r' < |s.positions| && d' < |Directions| && (r' < r || (r' == r && d' < d)) &&
      Move(grid, s, r', d').Some? ==>
        Reached(log, index, Move(grid, s, r', d').value, log[i].steps + 1)
  }

  /** The first `done` entries of the log have been fully expanded. */
  ghost predicate SearchInv(grid: seq<string>, start: State, log: seq<Entry>, links: seq<Link>,
                            index: map<State, nat>, visited: set<State>, done: nat)
  {
    && LogValid(grid, start, log, links)
    && Indexed(log, index, visited)
    && done <= |log|
    && forall i :: 0 <= i < done ==> Explored(grid, log, index, i, |log[i].state.positions|, 0)
  }

  // ---------------------------------------------------------------------
  // Keeping the invariant

  lemma ExploredGrows(grid: seq<string>, log: seq<Entry>, index: map<State, nat>,
                      log': seq<Entry>, index': map<State, nat>, i: nat, r: nat, d: nat)
    requires Rectangular(grid) && i < |log| <= |log'| && log'[..|log|] == log
    requires forall s :: s in index ==> s in index' && index'[s] == index[s]
    requires Explored(grid, log, index, i, r, d)
    ensures Explored(grid, log', index', i, r, d)
  {
    assert log'[i] == log[i];
    var s := log[i].state;
    forall r': nat, d': nat |
      r' < |s.positions| && d' < |Directions| && (r' < r || (r' == r && d' < d)) &&
      Move(grid, s, r', d').Some?
      ensures Reached(log', index', Move(grid, s, r', d').value, log'[i].steps + 1)
    {
      var t := Move(grid, s, r', d').value;
      assert log'[index[t]] == log[index[t]];
    }
  }

  /** Logging the successor `s'` of entry `cur`, one step deeper, keeps the log valid. */
  lemma PushLog(grid: seq<string>, start: State, log: seq<Entry>, links: seq<Link>,
                cur: nat, r: nat, d: nat, s': State)
    requires LogValid(grid, start, log, links) && cur < |log|
    requires r < |log[cur].state.positions| && d < |Directions|
    requires Move(grid, log[cur].state, r, d) == Some(s')
    requires forall j :: 0 <= j < |log| ==> log[j].steps <= log[cur].steps + 1
    ensures LogValid(grid, start, log + [Entry(s', log[cur].steps + 1)], links + [Link(cur, r, d)])
  {
    var log' := log + [Entry(s', log[cur].steps + 1)];
    var links' := links + [Link(cur, r, d)];
    var s := log[cur].state;
    assert IsStep(grid, s, s');
    StepKeeps(grid, s, s');
    forall j | 0 < j < |log'| ensures LinkOk(grid, log', links', j) {
      if j < |log| {
        assert LinkOk(grid, log, links, j);
      }
    }
  }

  /** Indexing a state not yet visited at the end of the log. */
  lemma PushIndex(log: seq<Entry>, index: map<State, nat>, visited: set<State>, entry: Entry)
    requires Indexed(log, index, visited) && entry.state !in visited
    ensures Indexed(log + [entry], index[entry.state := |log|], visited + {entry.state})
  {
    var log' := log + [entry];
    var index' := index[entry.state := |log|];
    forall j | 0 <= j < |log'|
      ensures log'[j].state in index' && index'[log'[j].state] == j
    {
      if j < |log| {
        assert log[j].state in visited;
      }
    }
  }

  /**
   Enqueueing the new state `s'`, reached from entry `cur` by robot `r` in
   direction `d`, keeps the invariant and records that move as explored.
   */
  lemma PushKeeps(grid: seq<string>, start: State, log: seq<Entry>, links: seq<Link>,
                  index: map<State, nat>, visited: set<State>, cur: nat, r: nat, d: nat, s': State)
    requires SearchInv(grid, start, log, links, index, visited, cur) && cur < |log|
    requires r < |log[cur].state.positions| && d < |Directions|
    requires Move(grid, log[cur].state, r, d) == Some(s') && s' !in visited
    requires forall j :: 0 <= j < |log| ==> log[j].steps <= log[cur].steps + 1
    requires Explored(grid, log, index, cur, r, d)
    ensures
      var log' := log + [Entry(s', log[cur].steps + 1)];
      var index' := index[s' := |log|];
      && SearchInv(grid, start, log', links + [Link(cur, r, d)], index', visited + {s'}, cur)
      && Explored(grid, log', index', cur, r, d + 1)
      && forall j :: 0 <= j < |log'| ==> log'[j].steps <= log[cur].steps + 1
  {
    var log' := log + [Entry(s', log[cur].steps + 1)];
    var index' := index[s' := |log|];
    var s := log[cur].state;
    assert log'[..|log|] == log;
    PushLog(grid, start, log, links, cur, r, d, s');
    PushIndex(log, index, visited, Entry(s', log[cur].steps + 1));
    forall i | 0 <= i < cur
      ensures Explored(grid, log', index', i, |log'[i].state.positions|, 0)
    {
      ExploredGrows(grid, log, index, log', index', i, |log[i].state.positions|, 0);
    }
    ExploredGrows(grid, log, index, log', index', cur, r, d);
    forall r': nat, d': nat |
      r' < |s.positions| && d' < |Directions| && (r' < r || (r' == r && d' < d + 1)) &&
      Move(grid, s, r', d').Some?
      ensures Reached(log', index', Move(grid, s, r', d').value, log'[cur].steps + 1)
    {
    }
  }

  /** A move that is refused, or leads to a visited state, needs no enqueueing. */
  lemma SkipKeeps(grid: seq<string>, log: seq<Entry>, index: map<State, nat>, visited: set<State>,
                  cur: nat, r: nat, d: nat)
    requires Rectangular(grid) && Indexed(log, index, visited) && cur < |log|
    requires r < |log[cur].state.positions| && d < |Directions|
    requires Move(grid, log[cur].state, r, d).None? || Move(grid, log[cur].state, r, d).value in visited
    requires forall j :: 0 <= j < |log| ==> log[j].steps <= log[cur].steps + 1
    requires Explored(grid, log, index, cur, r, d)
    ensures Explored(grid, log, index, cur, r, d + 1)
  {
  }

  lemma NextRobot(grid: seq<string>, log: seq<Entry>, index: map<State, nat>, cur: nat, r: nat)
    requires Rectangular(grid) && cur < |log|
    requires Explored(grid, log, index, cur, r, |Directions|)
    ensures Explored(grid, log, index, cur, r + 1, 0)
  {
  }

  /**
   While entry `cur` is being expanded: the entries before it are fully
   expanded, its own moves before robot `r` and direction `d` are explored,
   the queue is the rest of the log, no dequeued entry has the full mask, and
   no logged entry is more than one step deeper than `cur`.
   */
  ghost predicate Expanding(grid: seq<string>, start: State, mask: bv32, log: seq<Entry>, links: seq<Link>,
                            index: map<State, nat>, visited: set<State>, queue: seq<Entry>,
                            cur: nat, r: nat, d: nat)
  {
    && SearchInv(grid, start, log, links, index, visited, cur)
    && cur < |log|
    && queue == log[cur + 1..]
    && (forall i :: 0 <= i <= cur ==> log[i].state.keys != mask)
    && (forall j :: 0 <= j < |log| ==> log[j].steps <= log[cur].steps + 1)
    && Explored(grid, log, index, cur, r, d)
  }

  /** Enqueueing a new successor keeps the expansion going. */
  lemma PushStep(grid: seq<string>, start: State, mask: bv32, log: seq<Entry>, links: seq<Link>,
                 index: map<State, nat>, visited: set<State>, queue: seq<Entry>,
                 cur: nat, r: nat, d: nat, s': State)
    requires Expanding(grid, start, mask, log, links, index, visited, queue, cur, r, d)
    requires r < |log[cur].state.positions| && d < |Directions|
    requires Move(grid, log[cur].state, r, d) == Some(s') && s' !in visited
    ensures Expanding(grid, start, mask, log + [Entry(s', log[cur].steps + 1)], links + [Link(cur, r, d)],
                      index[s' := |log|], visited + {s'}, queue + [Entry(s', log[cur].steps + 1)], cur, r, d + 1)
  {
    var log' := log + [Entry(s', log[cur].steps + 1)];
    PushKeeps(grid, start, log, links, index, visited, cur, r, d, s');
    assert log'[cur + 1..] == queue + [Entry(s', log[cur].steps + 1)];
    forall i | 0 <= i <= cur ensures log'[i].state.keys != mask {
      assert log'[i] == log[i];
    }
  }

  /** A refused move, or one to a visited state, only advances the direction. */
  lemma SkipStep(grid: seq<string>, start: State, mask: bv32, log: seq<Entry>, links: seq<Link>,
                 index: map<State, nat>, visited: set<State>, queue: seq<Entry>,
                 cur: nat, r: nat, d: nat)
    requires Expanding(grid, start, mask, log, links, index, visited, queue, cur, r, d)
    requires r < |log[cur].state.positions| && d < |Directions|
    requires Move(grid, log[cur].state, r, d).None? || Move(grid, log[cur].state, r, d).value in visited
    ensures Expanding(grid, start, mask, log, links, index, visited, queue, cur, r, d + 1)
  {
    SkipKeeps(grid, log, index, visited, cur, r, d);
  }

  /** Having tried every direction of robot `r`, go on with the next robot. */
  lemma RobotStep(grid: seq<string>, start: State, mask: bv32, log: seq<Entry>, links: seq<Link>,
                  index: map<State, nat>, visited: set<State>, queue: seq<Entry>, cur: nat, r: nat)
    requires Expanding(grid, start, mask, log, links, index, visited, queue, cur, r, |Directions|)
    ensures Expanding(grid, start, mask, log, links, index, visited, queue, cur, r + 1, 0)
  {
    NextRobot(grid, log, index, cur, r);
  }

  lemma SubsetSize(small: set<State>, large: set<State>)
    requires small <= large
    ensures |small| <= |large|
  {
    assert large == (large - small) + small;
  }

  /**
   The invariant of `solve`'s while loop: the entries before `head` are fully
   expanded and none of them holds every key, the queue is the rest of the
   log and spans at most two depths, and the visited states lie in the
   finite `space`.
   */
  ghost predicate Searching(grid: seq<string>, start: State, mask: bv32, log: seq<Entry>, links: seq<Link>,
                            index: map<State, nat>, visited: set<State>, queue: seq<Entry>,
                            head: nat, space: set<State>)
  {
    && SearchInv(grid, start, log, links, index, visited, head)
    && queue == log[head..]
    && (forall i :: 0 <= i < head ==> log[i].state.keys != mask)
    && (head < |log| ==> forall j :: 0 <= j < |log| ==> log[j].steps <= log[head].steps + 1)
    && (mask == 0 ==> head == 0)
    && Covers(space, grid, |start.positions|) && visited <= space && |visited| <= |space|
  }

  /** The search starts with the start state queued and visited at depth 0. */
  lemma Begin(grid: seq<string>, start: State, mask: bv32, space: set<State>)
    requires Rectangular(grid) && OnGrid(grid, start.positions) && start.keys == 0
    requires Covers(space, grid, |start.positions|)
    ensures Searching(grid, start, mask, [Entry(start, 0)], [Link(0, 0, 0)], map[start := 0], {start},
                      [Entry(start, 0)], 0, space)
  {
    assert KeysFromGrid(grid, 0);
    SubsetSize({start}, space);
  }

  /** Dequeueing entry `head`, which lacks some key, starts its expansion. */
  lemma BeginEntry(grid: seq<string>, start: State, mask: bv32, log: seq<Entry>, links: seq<Link>,
                   index: map<State, nat>, visited: set<State>, queue: seq<Entry>, head: nat, space: set<State>)
    requires Searching(grid, start, mask, log, links, index, visited, queue, head, space)
    requires queue != [] && queue[0].state.keys != mask
    ensures Expanding(grid, start, mask, log, links, index, visited, queue[1..], head, 0, 0)
    ensures log[head] == queue[0] && |queue[0].state.positions| == |start.positions|
  {
    assert queue[1..] == log[head + 1..];
  }

  /** Once all robots have been tried, entry `cur` is fully expanded. */
  lemma EndEntry(grid: seq<string>, start: State, mask: bv32, log: seq<Entry>, links: seq<Link>,
                 index: map<State, nat>, visited: set<State>, queue: seq<Entry>, cur: nat, space: set<State>)
    requires Expanding(grid, start, mask, log, links, index, visited, queue, cur, |start.positions|, 0)
    requires Covers(space, grid, |start.positions|) && start.keys == 0
    ensures Searching(grid, start, mask, log, links, index, visited, queue, cur + 1, space)
  {
    assert log[0].state.keys == 0;
    forall s | s in visited ensures s in space {
      var j := index[s];
      assert log[j].state == s;
    }
    SubsetSize(visited, space);
  }

  // ---------------------------------------------------------------------
  // What the invariant gives

  /** Following the links back from entry `j` gives a run of `steps` moves to its state. */
  lemma {:induction false} RunTo(grid: seq<string>, start: State, log: seq<Entry>, links: seq<Link>, j: nat)
      returns (run: seq<State>)
    requires LogValid(grid, start, log, links) && j < |log|
    ensures IsRun(grid, start, run) && |run| == log[j].steps + 1 && Last(run) == log[j].state
    decreases j
  {
    if j == 0 {
      run := [start];
    } else {
      assert LinkOk(grid, log, links, j);
      var l := links[j];
      var prefix := RunTo(grid, start, log, links, l.from);
      run := prefix + [log[j].state];
      assert IsStep(grid, Last(prefix), log[j].state);
      forall i | 0 <= i < |run| - 1 ensures IsStep(grid, run[i], run[i + 1]) {
        if i < |prefix| - 1 {
          assert run[i] == prefix[i] && run[i + 1] == prefix[i + 1];
        }
      }
    }
  }

  /**
   Breadth-first completeness: if every entry shallower than `bound` has been
   expanded, every state reachable in at most `bound` moves is logged, at a
   depth no greater than its distance.
   */
  lemma {:induction false} ReachedWithin(grid: seq<string>, start: State, log: seq<Entry>, links: seq<Link>,
                                         index: map<State, nat>, visited: set<State>, done: nat,
                                         bound: nat, run: seq<State>)
    requires SearchInv(grid, start, log, links, index, visited, done)
    requires forall j :: 0 <= j < |log| && log[j].steps < bound ==> j < done
    requires IsRun(grid, start, run) && |run| <= bound + 1
    ensures Reached(log, index, Last(run), |run| - 1)
    decreases |run|
  {
    if |run| == 1 {
      assert log[0].state == start;
    } else {
      var run' := run[..|run| - 1];
      assert IsRun(grid, start, run');
      ReachedWithin(grid, start, log, links, index, visited, done, bound, run');
      var i := index[Last(run')];
      assert i < done;
      assert IsStep(grid, run[|run| - 2], run[|run| - 1]);
      var r: nat, d: nat :| r < |Last(run').positions| && d < |Directions| &&
        Move(grid, Last(run'), r, d) == Some(Last(run));
      assert Explored(grid, log, index, i, |log[i].state.positions|, 0);
    }
  }

  // ---------------------------------------------------------------------
  // The search

  /**
   The answer `solve` promises: `result` moves suffice to reach a state
   holding every key of the map and no fewer do, or `result` is -1 and no
   reachable state holds them all.
   */
  ghost predicate ShortestCollect(info: MapInfo, result: int)
  {
    && result >= -1
    && (result >= 0 ==> exists run :: (IsRun(info.grid, Start(info), run) &&
          |run| == result + 1 && Last(run).keys == info.allKeysMask))
    && (result >= 0 ==> forall run :: (IsRun(info.grid, Start(info), run) &&
          Last(run).keys == info.allKeysMask) ==> |run| >= result + 1)
    && (result == -1 ==> forall run :: IsRun(info.grid, Start(info), run) ==>
          Last(run).keys != info.allKeysMask)
  }

  /** The promise pins the answer down: two answers meeting it are equal. */
  lemma ShortestCollectUnique(info: MapInfo, a: int, b: int)
    requires ShortestCollect(info, a) && ShortestCollect(info, b)
    ensures a == b
  {
    if a >= 0 && b >= 0 {
      var run :| IsRun(info.grid, Start(info), run) && |run| == a + 1 && Last(run).keys == info.allKeysMask;
      var run' :| IsRun(info.grid, Start(info), run') && |run'| == b + 1 && Last(run').keys == info.allKeysMask;
      assert |run'| >= a + 1 && |run| >= b + 1;
    }
  }

  /** A map without keys is solved by standing still. */
  lemma NoKeysNoMoves(info: MapInfo, result: int)
    requires ShortestCollect(info, result) && info.allKeysMask == 0
    ensures result == 0
  {
    var still := [Start(info)];
    assert IsRun(info.grid, Start(info), still) && Last(still).keys == info.allKeysMask;
  }

  /**
   The queue entries of a breadth-first search, in the order they were
   enqueued: the start first at depth 0, no state twice, depths never
   decreasing, and each later entry one move and one step beyond an earlier
   one, with the robots on distinct cells of the grid and only the map's keys
   collected.
   */
  ghost predicate BfsLog(info: MapInfo, log: seq<Entry>)
  {
    && |log| > 0 && log[0] == Entry(Start(info), 0)
    && (forall i, j :: 0 <= i < j < |log| ==> log[i].state != log[j].state)
    && (forall i, j :: 0 <= i < j < |log| ==> log[i].steps <= log[j].steps)
    && (forall j :: 0 < j < |log| ==> exists i :: (0 <= i < j &&
          IsStep(info.grid, log[i].state, log[j].state) && log[j].steps == log[i].steps + 1))
    && (forall j :: 0 < j < |log| ==> Distinct(log[j].state.positions))
    && (forall j :: 0 <= j < |log| ==>
          OnGrid(info.grid, log[j].state.positions) && KeysFromGrid(info.grid, log[j].state.keys))
  }

  /**
   The log accounts for the answer: a non-negative answer is the depth of the
   first logged entry holding every key; -1 means no logged entry holds them
   all, and every state reachable from the start was logged.
   */
  ghost predicate LogAnswers(info: MapInfo, log: seq<Entry>, result: int)
  {
    && (result >= 0 ==> exists j :: (0 <= j < |log| && log[j].steps == result &&
          log[j].state.keys == info.allKeysMask &&
          forall i :: 0 <= i < j ==> log[i].state.keys != info.allKeysMask))
    && (result == -1 ==> forall j :: 0 <= j < |log| ==> log[j].state.keys != info.allKeysMask)
    && (result == -1 ==> forall run :: IsRun(info.grid, Start(info), run) ==>
          exists j :: 0 <= j < |log| && log[j].state == Last(run))
  }

  /**
   solve: the answer is the fewest moves that collect every key of the map,
   or -1 when no sequence of moves collects them all; a map without keys
   answers 0. The ghost `log` lists every enqueued entry in order.
   */
  method Solve(info: MapInfo) returns (result: int, ghost log: seq<Entry>)
    requires WellFormed(info)
    ensures ShortestCollect(info, result)
    ensures info.allKeysMask == 0 ==> result == 0
    ensures BfsLog(info, log) && LogAnswers(info, log, result)
  {
    var grid := info.grid;
    var robots := info.robots;
    var allKeysMask := info.allKeysMask;
    var start := Start(info);

    var visited: set<State> := {start};
    var queue: seq<Entry> := [Entry(start, 0)];
    log := queue;
    ghost var links: seq<Link> := [Link(0, 0, 0)];
    ghost var index: map<State, nat> := map[start := 0];
    ghost var head: nat := 0;
    ghost var space := StateSpace(grid, |robots|);
    Begin(grid, start, allKeysMask, space);

    while queue != []
      invariant Searching(grid, start, allKeysMask, log, links, index, visited, queue, head, space)
      decreases 2 * (|space| - |visited|) + |queue|
    {
      ghost var full := queue;
      var e := queue[0];
      queue := queue[1..];
      if e.state.keys == allKeysMask {
        result := e.steps;
        FoundOutcome(info, log, links, index, visited, full, head, space, result);
        return;
      }
      visited, queue, log, links, index :=
        ExpandEntry(grid, e, visited, queue, start, allKeysMask, log, links, index, head, space, full);
      head := head + 1;
    }
    result := -1;
    ExhaustedOutcome(info, log, links, index, visited, head, space);
  }

  /** `queue` is `queue0` followed by entries one step deeper than `e`. */
  ghost predicate Appended(e: Entry, queue0: seq<Entry>, queue: seq<Entry>)
  {
    && |queue0| <= |queue| && queue[..|queue0|] == queue0
    && forall j :: |queue0| <= j < |queue| ==> queue[j].steps == e.steps + 1
  }

  lemma AppendedTrans(e: Entry, q0: seq<Entry>, q1: seq<Entry>, q2: seq<Entry>)
    requires Appended(e, q0, q1) && Appended(e, q1, q2)
    ensures Appended(e, q0, q2)
  {
    assert q2[..|q0|] == q1[..|q1|][..|q0|];
  }

  /**
   The inner loops of `solve` for the entry `e` just dequeued from `full`
   (entry `cur` of the log), which lacks some key: every robot tries every
   direction. Afterwards `e` is fully expanded, and exactly as many states
   were newly visited as were enqueued.
   */
  method ExpandEntry(grid: seq<string>, e: Entry, visited0: set<State>, queue0: seq<Entry>,
                     ghost start: State, ghost mask: bv32, ghost log0: seq<Entry>, ghost links0: seq<Link>,
                     ghost index0: map<State, nat>, ghost cur: nat, ghost space: set<State>,
                     ghost full: seq<Entry>)
    returns (visited: set<State>, queue: seq<Entry>, ghost log: seq<Entry>, ghost links: seq<Link>,
             ghost index: map<State, nat>)
    requires Searching(grid, start, mask, log0, links0, index0, visited0, full, cur, space)
    requires full != [] && full[0] == e && queue0 == full[1..]
    requires e.state.keys != mask && start.keys == 0
    ensures Searching(grid, start, mask, log, links, index, visited, queue, cur + 1, space)
    ensures visited0 <= visited && Appended(e, queue0, queue) && |visited| - |visited0| == |queue| - |queue0|
    ensures Successors(grid, e, visited0, queue0, queue)
  {
    BeginEntry(grid, start, mask, log0, links0, index0, visited0, full, cur, space);
    visited, queue, log, links, index := visited0, queue0, log0, links0, index0;
    for r: nat := 0 to |e.state.positions|
      invariant Expanding(grid, start, mask, log, links, index, visited, queue, cur, r, 0)
      invariant log[cur] == e
      invariant visited0 <= visited && Appended(e, queue0, queue) && |visited| - |visited0| == |queue| - |queue0|
      invariant Successors(grid, e, visited0, queue0, queue)
    {
      ghost var before, seen := queue, visited;
      visited, queue, log, links, index :=
        TryRobot(grid, e, r, visited, queue, start, mask, log, links, index, cur);
      AppendedTrans(e, queue0, before, queue);
      SuccessorsStep(grid, e, r, visited0, seen, queue0, before, queue);
    }
    EndEntry(grid, start, mask, log, links, index, visited, queue, cur, space);
  }

  /**
   The loop of `solve` over `DIRECTIONS` for robot `r` of entry `e`: the
   robot tries each direction in turn.
   */
  method TryRobot(grid: seq<string>, e: Entry, r: nat, visited0: set<State>, queue0: seq<Entry>,
                  ghost start: State, ghost mask: bv32, ghost log0: seq<Entry>, ghost links0: seq<Link>,
                  ghost index0: map<State, nat>, ghost cur: nat)
    returns (visited: set<State>, queue: seq<Entry>, ghost log: seq<Entry>, ghost links: seq<Link>,
             ghost index: map<State, nat>)
    requires Expanding(grid, start, mask, log0, links0, index0, visited0, queue0, cur, r, 0)
    requires log0[cur] == e && r < |e.state.positions|
    ensures Expanding(grid, start, mask, log, links, index, visited, queue, cur, r + 1, 0)
    ensures log[cur] == e
    ensures visited0 <= visited && Appended(e, queue0, queue) && |visited| - |visited0| == |queue| - |queue0|
    ensures RobotMoves(grid, e, r, visited0, queue0, queue)
  {
    visited, queue, log, links, index := visited0, queue0, log0, links0, index0;
    for d: nat := 0 to |Directions|
      invariant Expanding(grid, start, mask, log, links, index, visited, queue, cur, r, d)
      invariant log[cur] == e
      invariant visited0 <= visited && Appended(e, queue0, queue) && |visited| - |visited0| == |queue| - |queue0|
      invariant RobotMoves(grid, e, r, visited0, queue0, queue)
    {
      ghost var before, seen := queue, visited;
      visited, queue, log, links, index :=
        TryMove(grid, e, r, d, visited, queue, start, mask, log, links, index, cur);
      AppendedTrans(e, queue0, before, queue);
      RobotMovesStep(grid, e, r, d, visited0, seen, queue0, before, queue);
    }
    RobotStep(grid, start, mask, log, links, index, visited, queue, cur, r);
  }

  /**
   Every entry `queue` gained over `queue0` holds a state outside `visited0`
   that robot `r` reaches from `e` in one move.
   */
  ghost predicate RobotMoves(grid: seq<string>, e: Entry, r: nat, visited0: set<State>,
                             queue0: seq<Entry>, queue: seq<Entry>)
    requires Rectangular(grid) && r < |e.state.positions|
  {
    forall j :: |queue0| <= j < |queue| ==>
      (queue[j].state !in visited0 &&
       exists d: nat :: d < |Directions| && Move(grid, e.state, r, d) == Some(queue[j].state))
  }

  lemma RobotMovesStep(grid: seq<string>, e: Entry, r: nat, d: nat, visited0: set<State>, seen: set<State>,
                       queue0: seq<Entry>, before: seq<Entry>, queue: seq<Entry>)
    requires Rectangular(grid) && r < |e.state.positions| && d < |Directions| && visited0 <= seen
    requires RobotMoves(grid, e, r, visited0, queue0, before)
    requires |queue0| <= |before| <= |queue| && queue[..|before|] == before
    requires var m := Move(grid, e.state, r, d);
      if m.Some? && m.value !in seen then queue == before + [Entry(m.value, e.steps + 1)]
      else queue == before
    ensures RobotMoves(grid, e, r, visited0, queue0, queue)
  {
    forall j | |queue0| <= j < |queue|
      ensures queue[j].state !in visited0 &&
        exists d: nat :: d < |Directions| && Move(grid, e.state, r, d) == Some(queue[j].state)
    {
      if j < |before| {
        assert queue[j] == before[j];
      } else {
        assert queue[j].state !in seen && Move(grid, e.state, r, d) == Some(queue[j].state);
      }
    }
  }

  /**
   Every entry `queue` gained over `queue0` holds a state outside `visited0`
   one move away from `e`.
   */
  ghost predicate Successors(grid: seq<string>, e: Entry, visited0: set<State>,
                             queue0: seq<Entry>, queue: seq<Entry>)
  {
    forall j :: |queue0| <= j < |queue| ==>
      queue[j].state !in visited0 && IsStep(grid, e.state, queue[j].state)
  }

  lemma SuccessorsStep(grid: seq<string>, e: Entry, r: nat, visited0: set<State>, seen: set<State>,
                       queue0: seq<Entry>, before: seq<Entry>, queue: seq<Entry>)
    requires Rectangular(grid) && r < |e.state.positions| && visited0 <= seen
    requires Successors(grid, e, visited0, queue0, before)
    requires |queue0| <= |before| <= |queue| && queue[..|before|] == before
    requires RobotMoves(grid, e, r, seen, before, queue)
    ensures Successors(grid, e, visited0, queue0, queue)
  {
    forall j | |queue0| <= j < |queue|
      ensures queue[j].state !in visited0 && IsStep(grid, e.state, queue[j].state)
    {
      if j < |before| {
        assert queue[j] == before[j];
      } else {
        var d: nat :| d < |Directions| && Move(grid, e.state, r, d) == Some(queue[j].state);
      }
    }
  }

  /**
   One pass of the innermost loop of `solve`: robot `r` of entry `e` tries
   direction `d`; a legal move to a state not yet visited marks that state
   visited and enqueues it one step deeper.
   */
  method TryMove(grid: seq<string>, e: Entry, r: nat, d: nat, visited0: set<State>, queue0: seq<Entry>,
                 ghost start: State, ghost mask: bv32, ghost log0: seq<Entry>, ghost links0: seq<Link>,
                 ghost index0: map<State, nat>, ghost cur: nat)
    returns (visited: set<State>, queue: seq<Entry>, ghost log: seq<Entry>, ghost links: seq<Link>,
             ghost index: map<State, nat>)
    requires Expanding(grid, start, mask, log0, links0, index0, visited0, queue0, cur, r, d)
    requires log0[cur] == e && r < |e.state.positions| && d < |Directions|
    ensures Expanding(grid, start, mask, log, links, index, visited, queue, cur, r, d + 1)
    ensures log[cur] == e
    ensures var m := Move(grid, e.state, r, d);
      if m.Some? && m.value !in visited0 then
        visited == visited0 + {m.value} && queue == queue0 + [Entry(m.value, e.steps + 1)]
      else
        visited == visited0 && queue == queue0
    ensures visited0 <= visited && Appended(e, queue0, queue) && |visited| - |visited0| == |queue| - |queue0|
  {
    var next := Move(grid, e.state, r, d);
    if next.Some? && next.value !in visited0 {
      var s' := next.value;
      PushStep(grid, start, mask, log0, links0, index0, visited0, queue0, cur, r, d, s');
      visited := visited0 + {s'};
      var entry := Entry(s', e.steps + 1);
      assert entry == Entry(s', log0[cur].steps + 1);
      queue := queue0 + [entry];
      index := index0[s' := |log0|];
      log := log0 + [entry];
      links := links0 + [Link(cur, r, d)];
    } else {
      SkipStep(grid, start, mask, log0, links0, index0, visited0, queue0, cur, r, d);
      visited, queue, log, links, index := visited0, queue0, log0, links0, index0;
    }
  }

  /**
   The search stops at entry `cur`: its depth is the length of a run to its
   state, and no shorter run reaches a state with the same mask, since all
   shallower entries were expanded and none of them had that mask.
   */
  lemma Found(grid: seq<string>, start: State, log: seq<Entry>, links: seq<Link>,
              index: map<State, nat>, visited: set<State>, cur: nat, steps: nat, mask: bv32)
    requires SearchInv(grid, start, log, links, index, visited, cur) && cur < |log|
    requires log[cur].steps == steps && log[cur].state.keys == mask
    requires forall i :: 0 <= i < cur ==> log[i].state.keys != mask
    ensures exists run :: (IsRun(grid, start, run) && |run| == steps + 1 && Last(run).keys == mask)
    ensures forall run :: (IsRun(grid, start, run) && Last(run).keys == mask) ==> |run| >= steps + 1
  {
    var found := RunTo(grid, start, log, links, cur);
    forall run | IsRun(grid, start, run) && Last(run).keys == log[cur].state.keys
      ensures |run| >= log[cur].steps + 1
    {
      if |run| < log[cur].steps + 1 {
        ReachedWithin(grid, start, log, links, index, visited, cur, log[cur].steps, run);
      }
    }
  }

  /** With every entry expanded, every reachable state is in the log. */
  lemma Exhausted(grid: seq<string>, start: State, log: seq<Entry>, links: seq<Link>,
                  index: map<State, nat>, visited: set<State>)
    requires SearchInv(grid, start, log, links, index, visited, |log|)
    ensures forall run :: IsRun(grid, start, run) ==> Reached(log, index, Last(run), |run| - 1)
  {
    forall run | IsRun(grid, start, run)
      ensures Reached(log, index, Last(run), |run| - 1)
    {
      ReachedWithin(grid, start, log, links, index, visited, |log|, |run|, run);
    }
  }

  /** The search stops at the front of the queue, which holds every key. */
  lemma FoundOutcome(info: MapInfo, log: seq<Entry>, links: seq<Link>, index: map<State, nat>,
                     visited: set<State>, queue: seq<Entry>, head: nat, space: set<State>, result: int)
    requires Searching(info.grid, Start(info), info.allKeysMask, log, links, index, visited, queue, head, space)
    requires queue != [] && queue[0].state.keys == info.allKeysMask && result == queue[0].steps
    ensures ShortestCollect(info, result)
    ensures info.allKeysMask == 0 ==> result == 0
    ensures BfsLog(info, log) && LogAnswers(info, log, result)
  {
    assert log[head] == queue[0];
    Found(info.grid, Start(info), log, links, index, visited, head, result, info.allKeysMask);
    LogFacts(info.grid, Start(info), log, links, index, visited, head);
  }

  /** The queue ran empty without any entry holding every key. */
  lemma ExhaustedOutcome(info: MapInfo, log: seq<Entry>, links: seq<Link>, index: map<State, nat>,
                         visited: set<State>, head: nat, space: set<State>)
    requires Searching(info.grid, Start(info), info.allKeysMask, log, links, index, visited, [], head, space)
    ensures ShortestCollect(info, -1)
    ensures info.allKeysMask != 0
    ensures BfsLog(info, log) && LogAnswers(info, log, -1)
  {
    assert head == |log|;
    Exhausted(info.grid, Start(info), log, links, index, visited);
    forall run | IsRun(info.grid, Start(info), run)
      ensures exists j :: 0 <= j < |log| && log[j].state == Last(run)
    {
      assert Reached(log, index, Last(run), |run| - 1);
    }
    LogFacts(info.grid, Start(info), log, links, index, visited, head);
  }

  /** The properties of the log that `Solve` reports. */
  lemma LogFacts(grid: seq<string>, start: State, log: seq<Entry>, links: seq<Link>,
                 index: map<State, nat>, visited: set<State>, done: nat)
    requires SearchInv(grid, start, log, links, index, visited, done)
    ensures forall i, j :: 0 <= i < j < |log| ==> log[i].state != log[j].state
    ensures forall j :: 0 < j < |log| ==> exists i :: (0 <= i < j &&
      IsStep(grid, log[i].state, log[j].state) && log[j].steps == log[i].steps + 1)
    ensures forall j :: 0 < j < |log| ==> Distinct(log[j].state.positions)
  {
    forall j | 0 < j < |log|
      ensures exists i :: (0 <= i < j &&
        IsStep(grid, log[i].state, log[j].state) && log[j].steps == log[i].steps + 1)
      ensures Distinct(log[j].state.positions)
    {
      assert LinkOk(grid, log, links, j);
      var l := links[j];
      assert IsStep(grid, log[l.from].state, log[j].state);
    }
  }
}
