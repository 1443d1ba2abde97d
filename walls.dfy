/** The static obstacles of a session, chosen by the difficulty label. */
module Walls {
  import opened Board

  /** The cells (x, y) for x running over lo, lo + 1, ..., hi - 1 (empty when lo >= hi). */
  function Row(lo: int, hi: int, y: int): (r: seq<Cell>)
    decreases hi - lo
    ensures |r| == if lo < hi then hi - lo else 0
    ensures forall k :: 0 <= k < |r| ==> r[k] == (lo + k, y)
  {
    if lo < hi then [(lo, y)] + Row(lo + 1, hi, y) else []
  }

  /** The cells (x, y) for y running over lo, lo + 1, ..., hi - 1 (empty when lo >= hi). */
  function Column(x: int, lo: int, hi: int): (r: seq<Cell>)
    decreases hi - lo
    ensures |r| == if lo < hi then hi - lo else 0
    ensures forall k :: 0 <= k < |r| ==> r[k] == (x, lo + k)
  {
    if lo < hi then [(x, lo)] + Column(x, lo + 1, hi) else []
  }

  /** The wall layout for a difficulty label; any label other than "easy" or
      "normal" gets the hard layout. Every layout lies on the grid. */
  function GenerateWalls(difficulty: string): (w: seq<Cell>)
    ensures |w| == if difficulty == "easy" then 5 else if difficulty == "normal" then 13 else 33
    ensures AllInGrid(w)
  {
    if difficulty == "easy" then
      Row(5, 10, 7)
    else if difficulty == "normal" then
      Row(7, 15, 7) + Column(10, 10, 15)
    else
      Row(7, 20, 7) + Column(10, 10, 20) + Row(10, 20, 15)
  }

  /** The easy layout is the five cells x = 5..9 on row 7. */
  lemma EasyLayout()
    ensures GenerateWalls("easy") == [(5, 7), (6, 7), (7, 7), (8, 7), (9, 7)]
  {
  }

  /** The normal layout is x = 7..14 on row 7, then y = 10..14 on column 10;
      so no normal wall lies left of column 7. */
  lemma NormalLayout()
    ensures GenerateWalls("normal") ==
      [(7, 7), (8, 7), (9, 7), (10, 7), (11, 7), (12, 7), (13, 7), (14, 7),
       (10, 10), (10, 11), (10, 12), (10, 13), (10, 14)]
    ensures forall i :: 0 <= i < |GenerateWalls("normal")| ==> GenerateWalls("normal")[i].0 >= 7
  {
  }

  /** The hard layout is x = 7..19 on row 7 (entries 0..12), then
      y = 10..19 on column 10 (entries 13..22), then x = 10..19 on row 15
      (entries 23..32). */
  lemma HardLayout()
    ensures |GenerateWalls("hard")| == 33
    ensures forall k :: 0 <= k < 33 ==>
      (GenerateWalls("hard")[k] == if k < 13 then (7 + k, 7) else if k < 23 then (10, k - 3) else (k - 13, 15))
  {
    var a, b, c := Row(7, 20, 7), Column(10, 10, 20), Row(10, 20, 15);
    var w := a + b + c;
    assert w == GenerateWalls("hard");
    forall k | 0 <= k < 33
      ensures w[k] == if k < 13 then (7 + k, 7) else if k < 23 then (10, k - 3) else (k - 13, 15)
    {
      if k < 13 { assert w[k] == a[k]; }
      else if k < 23 { assert w[k] == b[k - 13]; }
      else { assert w[k] == c[k - 23]; }
    }
  }

  /** Every label names one of three layouts; unknown labels fall back to hard. */
  lemma UnknownLabelIsHard(difficulty: string)
    requires difficulty != "easy" && difficulty != "normal"
    ensures GenerateWalls(difficulty) == GenerateWalls("hard")
  {
  }

  /** Every wall lies on the grid, no wall lies under the starting snake,
      and every wall lies on row 7 or below it. */
  lemma WallsClearOfStart(difficulty: string)
    ensures AllInGrid(GenerateWalls(difficulty))
    ensures forall i :: 0 <= i < |GenerateWalls(difficulty)| ==> GenerateWalls(difficulty)[i] !in INITIAL_SNAKE
    ensures forall i :: 0 <= i < |GenerateWalls(difficulty)| ==> GenerateWalls(difficulty)[i].1 >= 7
  {
  }

  /** The hard layout lists 33 entries; the only entries that coincide are
      positions 18 and 23, which both hold (10, 15). */
  lemma HardLayoutRepeatsOneCell()
    ensures |GenerateWalls("hard")| == 33
    ensures GenerateWalls("hard")[18] == GenerateWalls("hard")[23] == (10, 15)
    ensures forall i, j :: 0 <= i < j < 33 && GenerateWalls("hard")[i] == GenerateWalls("hard")[j] ==> i == 18 && j == 23
  {
  }

  /** The three layouts cover 5, 13 and 32 distinct cells: the hard list has
      33 entries but covers one cell twice. */
  lemma LayoutSizes()
    ensures |GenerateWalls("easy")| == 5 && |CellsOf(GenerateWalls("easy"))| == 5
    ensures |GenerateWalls("normal")| == 13 && |CellsOf(GenerateWalls("normal"))| == 13
    ensures |GenerateWalls("hard")| == 33 && |CellsOf(GenerateWalls("hard"))| == 32
  {
    var easy := GenerateWalls("easy");
    assert |CellsOf(easy)| == 5 by {
      assert NoDuplicates(easy);
      DistinctCellCount(easy);
    }

    var normal := GenerateWalls("normal");
    assert |CellsOf(normal)| == 13 by {
      var a, b := Row(7, 15, 7), Column(10, 10, 15);
      assert normal == a + b;
      assert NoDuplicates(normal) by {
        forall i, j | 0 <= i < j < |normal| ensures normal[i] != normal[j] {
          if j >= |a| {
            assert normal[j] == b[j - |a|];
            if i >= |a| { assert normal[i] == b[i - |a|]; } else { assert normal[i] == a[i]; }
          }
        }
      }
      DistinctCellCount(normal);
    }

    var hard := GenerateWalls("hard");
    assert |CellsOf(hard)| == 32 by {
      HardLayoutRepeatsOneCell();
      var kept := hard[..23] + hard[24..];
      assert NoDuplicates(kept) by {
        forall i, j | 0 <= i < j < |kept| ensures kept[i] != kept[j] {
          var i', j' := if i < 23 then i else i + 1, if j < 23 then j else j + 1;
          assert kept[i] == hard[i'] && kept[j] == hard[j'];
        }
      }
      DistinctCellCount(kept);
      assert CellsOf(kept) == CellsOf(hard) by {
        forall x | x in hard ensures x in kept {
          var k :| 0 <= k < |hard| && hard[k] == x;
          if k < 23 { assert kept[k] == x; }
          else if k == 23 { assert kept[18] == x; }
          else { assert kept[k - 1] == x; }
        }
      }
    }
  }

  /** Harder layouts only partly contain easier ones: every normal wall is a
      hard wall, but the easy wall (5, 7) is not a normal wall. */
  lemma LayoutNesting()
    ensures CellsOf(GenerateWalls("normal")) <= CellsOf(GenerateWalls("hard"))
    ensures (5, 7) in GenerateWalls("easy") && (5, 7) !in GenerateWalls("normal")
  {
  }
}
