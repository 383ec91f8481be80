/**
 The vault map of the key-collection puzzle (run2.py, `MapInfo`,
 `parse_map`).

 The map is a grid of characters: `#` walls, `@` robot starts, lower-case
 letters keys and upper-case letters the doors they open. Collected keys are
 a bit mask with bit `c - 'a'` for key `c`.
 */
module KeyMap {

  /** A cell, as the source's `(x, y)` tuple: column, then row. */
  datatype Pos = Pos(x: int, y: int)

  datatype MapInfo = MapInfo(grid: seq<string>, robots: seq<Pos>, allKeysMask: bv32)

  /** The 26 key bits, 'a' .. 'z'; no mask built from a map has others. */
  const KeySpace: bv32 := 0x400_0000

  predicate IsKey(c: char)
  {
    'a' <= c <= 'z'
  }

  predicate IsDoor(c: char)
  {
    'A' <= c <= 'Z'
  }

  function KeyIndex(c: char): (n: nat)
    requires IsKey(c)
    ensures n < 26
  {
    c as int - 'a' as int
  }

  function Bit(n: nat): (b: bv32)
    requires n < 26
  {
    1 << n
  }

  /** `1 << (ord(c) - ord('a'))` */
  function KeyBit(c: char): (b: bv32)
    requires IsKey(c)
  {
    Bit(KeyIndex(c))
  }

  predicate HasKey(keys: bv32, c: char)
    requires IsKey(c)
  {
    keys & KeyBit(c) != 0
  }

  /** The key that opens door `c`: `c.lower()`. */
  function DoorKey(c: char): (k: char)
    requires IsDoor(c)
    ensures IsKey(k) && KeyIndex(k) == c as int - 'A' as int
  {
    (c as int + 32) as char
  }

  lemma OrBit(m: bv32, a: nat, b: nat)
    requires a < 26 && b < 26
    ensures (m | Bit(a)) & Bit(b) != 0 <==> (m & Bit(b) != 0 || a == b)
  {
  }

  lemma OrBitInSpace(m: bv32, a: nat)
    requires a < 26 && m < KeySpace
    ensures m | Bit(a) < KeySpace
  {
  }

  lemma OrKeyBit(m: bv32, k: char, c: char)
    requires IsKey(k) && IsKey(c)
    ensures (m | KeyBit(k)) & KeyBit(c) != 0 <==> (m & KeyBit(c) != 0 || k == c)
  {
    OrBit(m, KeyIndex(k), KeyIndex(c));
  }

  lemma AddKeyAt(m: bv32, k: char, c: char)
    requires IsKey(k) && IsKey(c)
    ensures HasKey(m | KeyBit(k), c) <==> HasKey(m, c) || c == k
  {
    OrKeyBit(m, k, c);
  }

  /** OR-ing in the bit of key `k` adds exactly key `k` to the mask. */
  lemma AddKey(m: bv32, k: char)
    requires IsKey(k)
    ensures forall c :: IsKey(c) ==> (HasKey(m | KeyBit(k), c) <==> HasKey(m, c) || c == k)
    ensures m < KeySpace ==> m | KeyBit(k) < KeySpace
  {
    forall c | IsKey(c)
      ensures HasKey(m | KeyBit(k), c) <==> HasKey(m, c) || c == k
    {
      AddKeyAt(m, k, c);
    }
    if m < KeySpace {
      OrBitInSpace(m, KeyIndex(k));
    }
  }

  /** Key `c` is lying somewhere on the map. */
  predicate OccursIn(lines: seq<string>, c: char)
  {
    exists y :: 0 <= y < |lines| && c in lines[y]
  }

  /** `p` is a cell of the map holding `c`. */
  predicate IsCell(lines: seq<string>, p: Pos, c: char)
  {
    0 <= p.y < |lines| && 0 <= p.x < |lines[p.y]| && lines[p.y][p.x] == c
  }

  /** Row-major order: `y` outer, `x` inner. */
  predicate Before(p: Pos, q: Pos)
  {
    p.y < q.y || (p.y == q.y && p.x < q.x)
  }

  predicate RowMajor(ps: seq<Pos>)
  {
    forall i, j :: 0 <= i < j < |ps| ==> Before(ps[i], ps[j])
  }

  predicate Distinct(ps: seq<Pos>)
  {
    forall i, j :: 0 <= i < j < |ps| ==> ps[i] != ps[j]
  }

  lemma OccursInExtend(lines: seq<string>, y: nat, c: char)
    requires y < |lines|
    ensures OccursIn(lines[..y + 1], c) <==> OccursIn(lines[..y], c) || c in lines[y]
  {
    if OccursIn(lines[..y + 1], c) {
      var j :| 0 <= j < y + 1 && c in lines[..y + 1][j];
      if j < y {
        assert lines[..y][j] == lines[j];
      }
    }
    if OccursIn(lines[..y], c) {
      var j :| 0 <= j < y && c in lines[..y][j];
      assert lines[..y + 1][j] == lines[j];
    }
    if c in lines[y] {
      assert lines[..y + 1][y] == lines[y];
    }
  }

  /**
   parse_map: the robots are exactly the `@` cells, listed in row-major
   order, and the key mask has exactly the bits of the keys on the map.
   */
  method ParseMap(lines: seq<string>) returns (info: MapInfo)
    ensures info.grid == lines
    ensures forall i :: 0 <= i < |info.robots| ==> IsCell(lines, info.robots[i], '@')
    ensures forall y, x :: 0 <= y < |lines| && 0 <= x < |lines[y]| && lines[y][x] == '@' ==>
      Pos(x, y) in info.robots
    ensures RowMajor(info.robots) && Distinct(info.robots)
    ensures info.allKeysMask < KeySpace
    ensures forall c :: IsKey(c) ==> (HasKey(info.allKeysMask, c) <==> OccursIn(lines, c))
  {
    var robots: seq<Pos> := [];
    var allKeysMask: bv32 := 0;
    for y := 0 to |lines|
      invariant forall i :: 0 <= i < |robots| ==> IsCell(lines, robots[i], '@') && robots[i].y < y
      invariant forall y', x :: 0 <= y' < y && 0 <= x < |lines[y']| && lines[y'][x] == '@' ==>
        Pos(x, y') in robots
      invariant RowMajor(robots)
      invariant allKeysMask < KeySpace
      invariant forall c :: IsKey(c) ==> (HasKey(allKeysMask, c) <==> OccursIn(lines[..y], c))
    {
      var row := lines[y];
      for x := 0 to |row|
        invariant forall i :: 0 <= i < |robots| ==>
          IsCell(lines, robots[i], '@') && Before(robots[i], Pos(x, y))
        invariant forall y', x' :: 0 <= y' < y && 0 <= x' < |lines[y']| && lines[y'][x'] == '@' ==>
          Pos(x', y') in robots
        invariant forall x' :: 0 <= x' < x && row[x'] == '@' ==> Pos(x', y) in robots
        invariant RowMajor(robots)
        invariant allKeysMask < KeySpace
        invariant forall c :: IsKey(c) ==>
          (HasKey(allKeysMask, c) <==> OccursIn(lines[..y], c) || c in row[..x])
      {
        var cell := row[x];
        assert row[..x + 1] == row[..x] + [cell];
        if cell == '@' {
          robots := robots + [Pos(x, y)];
        } else if IsKey(cell) {
          AddKey(allKeysMask, cell);
          allKeysMask := allKeysMask | KeyBit(cell);
        }
      }
      assert row[..|row|] == row;
      forall c | IsKey(c) ensures OccursIn(lines[..y + 1], c) <==> OccursIn(lines[..y], c) || c in row {
        OccursInExtend(lines, y, c);
      }
    }
    assert lines[..|lines|] == lines;
    info := MapInfo(lines, robots, allKeysMask);
  }
}
