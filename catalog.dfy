/**
 * The static data of the game: the alphabet of shapes and the catalog of
 * levels (constants.ts). The CSS class strings attached to each shape are
 * display data and are not modelled; a shape is its id.
 */
module Catalog {

  /** The six shape ids of `ShapeType`. */
  datatype ShapeType = Circle | Square | Triangle | Diamond | Star | Hexagon

  /** A layer kind in a level's structure: 'M' (mystery) or 'F' (fixed). */
  datatype LayerKind = M | F

  /**
   * A level: its id, its layer kinds in order and its point value. Its `label`
   * is display text and is kept apart, in `LABELS`.
   */
  datatype LevelConfig = LevelConfig(id: int, structure: seq<LayerKind>, points: int)

  const SHAPES: seq<ShapeType> := [Circle, Square, Triangle, Diamond, Star, Hexagon]

  const LEVELS: seq<LevelConfig> := [
    LevelConfig(1, [M], 100),
    LevelConfig(2, [F, M], 200),
    LevelConfig(3, [M, F], 200),
    LevelConfig(4, [F, M, F], 300),
    LevelConfig(5, [F, F, M], 350),
    LevelConfig(6, [M, F, F], 350),
    LevelConfig(7, [M, M], 500),
    LevelConfig(8, [F, M, M], 600),
    LevelConfig(9, [M, M, F], 600),
    LevelConfig(10, [F, M, M, F], 800),
    LevelConfig(11, [F, M, F, M], 1000)
  ]

  /** The `label` of the level with id i + 1 is `LABELS[i]`. */
  const LABELS: seq<string> := [
    "Basic Single Switch",
    "Fixed -> Mystery",
    "Mystery -> Fixed",
    "Fixed -> Mystery -> Fixed",
    "Double Fixed -> Mystery",
    "Mystery -> Double Fixed",
    "Double Mystery",
    "Fixed -> Double Mystery",
    "Double Mystery -> Fixed",
    "Hard Core Chain",
    "Expert Mixed"
  ]

  /** No element occurs twice. */
  predicate Distinct<T(==)>(s: seq<T>) {
    forall i, j :: 0 <= i < j < |s| ==> s[i] != s[j]
  }

  /** The number of mystery layers a structure declares. */
  function MysteryCount(structure: seq<LayerKind>): nat {
    multiset(structure)[M]
  }

  /** The shape alphabet lists every shape id once, so 4 distinct shapes can be sampled from it. */
  lemma {:induction false} ShapesAlphabet()
    ensures |SHAPES| == 6 && Distinct(SHAPES)
    ensures forall s: ShapeType :: s in SHAPES
  {
    forall s: ShapeType ensures s in SHAPES {
      match s
      case Circle => assert SHAPES[0] == s;
      case Square => assert SHAPES[1] == s;
      case Triangle => assert SHAPES[2] == s;
      case Diamond => assert SHAPES[3] == s;
      case Star => assert SHAPES[4] == s;
      case Hexagon => assert SHAPES[5] == s;
    }
  }

  /** Levels are numbered 1 to 11 in catalog order. */
  lemma {:induction false} LevelIds()
    ensures |LEVELS| == 11
    ensures forall i :: 0 <= i < |LEVELS| ==> LEVELS[i].id == i + 1
  {
  }

  /** Every structure has 1 to 4 layers, at least one of them a mystery layer. */
  lemma {:induction false} LevelStructures()
    ensures forall i :: 0 <= i < |LEVELS| ==>
      1 <= |LEVELS[i].structure| <= 4 && 1 <= MysteryCount(LEVELS[i].structure)
  {
    forall i | 0 <= i < |LEVELS|
      ensures 1 <= |LEVELS[i].structure| <= 4 && 1 <= MysteryCount(LEVELS[i].structure)
    {
      LevelStructure(i);
    }
  }

  lemma {:induction false} LevelStructure(i: int)
    requires 0 <= i < |LEVELS|
    ensures 1 <= |LEVELS[i].structure| <= 4 && 1 <= MysteryCount(LEVELS[i].structure)
  {
    var st := LEVELS[i].structure;
    // the position of the first mystery layer, level by level
    if i == 0 { assert st[0] == M; }
    else if i == 1 { assert st[1] == M; }
    else if i == 2 { assert st[0] == M; }
    else if i == 3 { assert st[1] == M; }
    else if i == 4 { assert st[2] == M; }
    else if i == 5 { assert st[0] == M; }
    else if i == 6 { assert st[0] == M; }
    else if i == 7 { assert st[1] == M; }
    else if i == 8 { assert st[0] == M; }
    else if i == 9 { assert st[1] == M; }
    else { assert st[1] == M; }
    assert M in multiset(st);
  }

  /** Points never decrease along the catalog and run from 100 to 1000. */
  lemma {:induction false} LevelPointsOrdered()
    ensures LEVELS[0].points == 100 && LEVELS[|LEVELS| - 1].points == 1000
    ensures forall i, j :: 0 <= i <= j < |LEVELS| ==> LEVELS[i].points <= LEVELS[j].points
  {
    forall i, j | 0 <= i <= j < |LEVELS|
      ensures LEVELS[i].points <= LEVELS[j].points
    {
      PointsStep(i, j);
    }
  }

  lemma {:induction false} PointsStep(i: int, j: int)
    requires 0 <= i <= j < |LEVELS|
    ensures LEVELS[i].points <= LEVELS[j].points
    decreases j - i
  {
    if i < j {
      PointsStep(i + 1, j);
      assert LEVELS[i].points <= LEVELS[i + 1].points;
    }
  }
}
