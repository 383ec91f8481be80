# Key-collection vault search and hotel capacity check

This project models two small, independent algorithms in Dafny and proves what each one promises.

**The vault search** (`run2.py`) is a multi-robot key-collection puzzle.
- The map is a grid of characters:
  - `#` is a wall;
  - `@` is a robot's start;
  - `a`–`z` are keys;
  - `A`–`Z` are the doors those keys open.
- `parse_map` lists the robots in row-major order. It builds the mask of all keys on the map, with bit `c - 'a'` standing for key `c`.
- `solve` runs a breadth-first search over states made of the robots' cells and the collected-key mask. In each move exactly one robot steps to an orthogonal neighbour. The step is refused if it:
  - leaves the grid;
  - hits a wall;
  - meets a door whose key is missing;
  - lands on another robot.
- Entering a key's cell collects that key.
- The answer is the step count of the first dequeued state that holds every key, or -1.

The model proves that this answer is the fewest moves that collect every key. It also proves that -1 means no sequence of moves collects them all.

**The capacity check** (`run.py`, `check_capacity`) sorts the guests in place by check-in. It then scans them with a min-heap of at most `max_capacity` check-out dates. An arriving guest either:
- takes a free room;
- takes over the room whose occupant leaves first, when that occupant's check-out is on or before the arrival;
- or makes the check fail.

Stays are half-open day intervals `[checkIn, checkOut)`. The model proves that the answer is true exactly when the sorted guests all find fewer than `max_capacity` earlier guests still present on arrival. From that it proves:
- a true answer means no instant has more than `max_capacity` guests present;
- when every stay lasts at least one day, the converse holds as well.

Files:
- `key_map.dfy` — `MapInfo`, key bits and `parse_map`.
- `key_moves.dfy` — `DIRECTIONS` and the move rule.
- `key_search.dfy` — `solve`.
- `capacity.dfy` — `check_capacity`.

## Model

| member | source | states |
|---|---|---|
| KeyMap.DoorKey | run2.py:71-72 | the key for a door is its lower-case letter: same index from `a` as the door's from `A` |
| KeyMap.AddKey | run2.py:33-35 | OR-ing in a key's bit adds exactly that key to the mask and adds no bit outside the 26 key bits |
| KeyMap.ParseMap | run2.py:24-37 | the grid is the input lines; `robots` holds exactly the `@` cells, in row-major order and so pairwise distinct; bit `c - 'a'` of the mask is set iff key `c` occurs on the map, and no other bit is set |
| KeyMoves.Collect | run2.py:76-78 | the new mask holds exactly the old keys plus the key on the entered cell, if it is one, and stays within the key bits |
| KeyMoves.OccupiedCount | run2.py:84-86 | the set of robot cells is as large as the robot list iff no two robots share a cell, so the source's size test rejects exactly the collisions |
| KeyMoves.Move | run2.py:57-88 | a legal move changes only robot `r`, which moves to its neighbour in direction `d`; that cell is inside the grid and not a wall; a door is entered only with its key; the mask gains exactly the entered cell's key; robots end on distinct cells; a refused move is outside the grid, a wall, a locked door or a collision |
| KeyMoves.StepKeeps | run2.py:57-91 | one move keeps the robots on the grid and on distinct cells, never drops a key, and keeps the mask within the keys lying on the map |
| KeyMoves.RunKeeps | run2.py:51-91 | along any sequence of moves the mask only grows, holds only keys on the map, and the robots stay on the grid |
| KeySearch.StateSpace | run2.py:47-49 | the states with the right number of robots, all on the grid, and a mask within the key bits form a finite set, which bounds the visited set |
| KeySearch.RunTo | run2.py:88-91 | following each logged entry back to the entry it was expanded from gives a legal run from the start, with as many moves as the entry's step count |
| KeySearch.ReachedWithin | run2.py:47-93 | breadth-first completeness: once every entry shallower than a bound is expanded, every state reachable within the bound is logged at a depth no greater than its distance |
| KeySearch.Found | run2.py:51-55 | the first dequeued entry holding the mask is reachable in exactly its step count, and no shorter run reaches that mask |
| KeySearch.Exhausted | run2.py:51-93 | when every logged entry has been expanded, every state reachable from the start is in the log |
| KeySearch.FoundOutcome | run2.py:54-55 | stopping at an entry that holds every key gives a shortest answer, a valid search log, and that entry is the first logged one holding every key |
| KeySearch.ExhaustedOutcome | run2.py:93 | an emptied queue means no reachable state holds every key, so the map has at least one key; the log is valid, no logged entry holds every key, and every reachable state was logged |
| KeySearch.LogFacts | run2.py:47-91 | no state is enqueued twice; each later entry is one legal move from an earlier one and one step deeper; no enqueued successor has two robots on a cell |
| KeySearch.ShortestCollectUnique | run2.py:51-55 | the answer contract has exactly one solution, so it pins down `solve`'s answer |
| KeySearch.NoKeysNoMoves | run2.py:48-55 | any answer meeting the contract on a map without keys is 0 |
| KeySearch.TryMove | run2.py:61-91 | one direction for one robot: if the move is legal and its state unvisited, the new visited set is the old one plus that state and the new queue is the old one with that state appended one step deeper; otherwise both are unchanged; the search invariant is kept |
| KeySearch.TryRobot | run2.py:60-91 | after all four directions for robot `r`, every move of that robot from the current entry reaches a logged state at most one step deeper; the queue keeps its old entries in order and only gains entries one step deeper, one per newly visited state, each holding a state not visited before that robot `r` reaches from the entry in one move |
| KeySearch.ExpandEntry | run2.py:57-91 | after all robots and directions, the dequeued entry is fully expanded and the breadth-first invariant holds for the next entry; the queue keeps its old entries in order and only gains entries one step deeper, one per newly visited state, each holding a state not visited before and one legal move from the dequeued entry |
| KeySearch.Solve | run2.py:39-93 | the result is the fewest moves collecting every key of the map, or -1 when no sequence of moves collects them all; a map without keys gives 0; the enqueued entries form a breadth-first log with no repeated state and each step count one more than its parent's; a non-negative result is the depth of the first enqueued entry holding every key, and -1 comes after every reachable state was enqueued exactly once, none holding every key |
| Capacity.OccupancyPermutation | run.py:21 | how many guests are present at an instant does not depend on the order of the guest list |
| Capacity.WithinCapacityPermutation | run.py:21 | reordering the guests does not change whether the rooms suffice at every instant |
| Capacity.ArrivalsFitWithinCapacity | run.py:20-33 | for guests in check-in order, if every arrival finds fewer than `k` earlier guests present, then at no instant are more than `k` present |
| Capacity.WithinCapacityArrivalsFit | run.py:20-33 | conversely, with non-empty stays, at most `k` present at every instant means every arrival finds fewer than `k` earlier guests present |
| Capacity.ShortListFits | run.py:23-26 | at most `k` guests always fit |
| Capacity.BackToBackFits | run.py:28 | any list of guests each checking in no earlier than the previous one checks out fits in a single room: a guest is gone on their check-out day |
| Capacity.HeapPush | run.py:26 | pushing keeps the heap ordered, adds exactly the new check-out, and the minimum becomes the smaller of the old minimum and the new value |
| Capacity.HeapPushPop | run.py:29 | push-then-pop keeps the heap ordered and its size, and removes exactly the smaller of the old minimum and the new value |
| Capacity.AbovePush | run.py:26 | pushing a check-out adds one to the count of heap entries after `t` exactly when that check-out is after `t` |
| Capacity.AboveAll | run.py:25-28 | no ordered heap has more entries after `t` than its size, and a non-empty one has all of them after `t` exactly when its minimum is after `t` |
| Capacity.ArrivalSeesHeap | run.py:28 | the guests still present when guest `i` arrives are exactly the heap entries after that arrival |
| Capacity.PushKeepsMirror | run.py:25-26 | pushing into a heap with free room keeps the heap a faithful record of the occupied rooms |
| Capacity.ReplaceKeepsMirror | run.py:28-29 | replacing the earliest check-out, when it is on or before the arrival, keeps the heap a faithful record of the occupied rooms |
| Capacity.ScanSorted | run.py:22-33 | over sorted guests the scan answers true iff every arrival finds fewer than `k` earlier guests present; at most `k` guests always give true; the loop keeps the heap at most `k` entries |
| Capacity.InsertAt | run.py:21 | sinking guest `i` into the sorted prefix leaves the first `i + 1` guests in check-in order, the guests after position `i` untouched, the array a permutation of before, and guests checking in on the same day in their old order |
| Capacity.SwapKeepsTies | run.py:21 | swapping neighbours who check in on different days keeps every day's guests in their order |
| Capacity.SortByCheckIn | run.py:21 | the array ends sorted by check-in, is a permutation of the input, and keeps guests checking in on the same day in their input order, as Python's stable sort does |
| Capacity.StableSortUnique | run.py:21 | any two lists sorted by check-in that keep the input's same-day order are equal, so the scan sees exactly the list Python's sort produces |
| Capacity.TieOrderMatters | run.py:21-31 | with a zero-length stay, two guests arriving on the same day give different answers in the two orders, so the stability of the sort matters |
| Capacity.CheckCapacity | run.py:20-33 | the caller's guests end sorted by check-in, permuted, with same-day guests in their input order; the answer is true iff every sorted arrival finds a room; true means no instant exceeds `maxCapacity` guests, and with non-empty stays the converse holds; at most `maxCapacity` guests give true |

## Left out

- `get_input` and both `__main__` blocks (run2.py:20-22 and 95-99, run.py:36-50) read stdin and print. They are not modelled.
- `Person.from_json` (run.py:12-17) uses JSON decoding and date parsing from Python's libraries. A guest is a record of a name and two integer day numbers.
- The concrete `heapq` and `deque` are not modelled. The heap is a list of check-outs kept in ascending order, so the minimum is at the front. The queue is a sequence popped at the front and appended at the back.
- Heap entries in the source are `(check_out, Person)` pairs. Equal check-outs would compare `Person` objects and raise `TypeError`. The model orders by check-out only.
- Capacity.CheckCapacity: requires `maxCapacity >= 1` or no guests. Otherwise the source indexes an empty heap and raises `IndexError`.
- Python's built-in sort is modelled by a stable insertion sort. Any stable sort by check-in gives the same list (`Capacity.StableSortUnique`), so the answer is the source's. The order of same-day guests does matter when a stay has no length (`Capacity.TieOrderMatters`).
- Capacity.CheckCapacity: the converse of the capacity characterisation is stated only for non-empty stays. A zero-length stay arriving while every room is taken is refused, although it overlaps nobody.
- KeySearch.Solve: requires a non-empty rectangular grid with the robots on it. The source reads `grid[0]` and indexes rows by the first row's width. On a rectangular grid, `parse_map` only produces robots on the grid.
- KeySearch.Solve: the key mask is a 32-bit vector rather than an unbounded integer. Every mask built from a map fits in 26 bits.
- KeySearch.Solve: the log of enqueued entries and each entry's parent link exist only for the proof. The search itself keeps just the queue and the visited set, as the source does.
- The key mask of `MapInfo` is not required to come from `parse_map`. A mask holding a key absent from the map makes `solve` answer -1, and the contract covers that case.
