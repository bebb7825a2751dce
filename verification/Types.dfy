/** The value types every other module shares (server/include/Types.hpp, PlayerCommand.hpp). */
module Types {

  const U64_LIMIT: int := 0x1_0000_0000_0000_0000

  /** A 64-bit unsigned player id; 0 stands for "no owner". */
  type PlayerId = id: int | 0 <= id < U64_LIMIT

  datatype CellState = CellState(alive: bool, owner: PlayerId)

  const DEAD: CellState := CellState(false, 0)

  /** The coordinate of a chunk. */
  datatype Coord = Coord(x: int, y: int)

  /** The coordinate of a cell on the infinite plane. */
  datatype Pos = Pos(x: int, y: int)

  /** The coordinate of a cell inside its chunk. */
  datatype Local = Local(x: nat, y: nat)

  datatype Option<+T> = None | Some(value: T)

  datatype CommandType = PlaceCell | RemoveCell | ToggleCell

  datatype PlayerCommand = PlayerCommand(player: PlayerId, kind: CommandType, x: int, y: int)

  function Elements<T>(s: seq<T>): set<T> {
    set x | x in s
  }

  lemma {:induction false} SubsetSize<T>(a: set<T>, b: set<T>)
    requires a <= b
    ensures |a| <= |b|
    decreases a
  {
    if a != {} {
      var x :| x in a;
      SubsetSize(a - {x}, b - {x});
    }
  }

  // ---------------------------------------------------------------- ascending order of ids

  predicate IsSmallest(ids: set<PlayerId>, id: PlayerId) {
    id in ids && forall j | j in ids :: id <= j
  }

  lemma {:induction false} SmallestExists(ids: set<PlayerId>)
    requires ids != {}
    ensures exists id :: IsSmallest(ids, id)
  {
    var a :| a in ids;
    var rest := ids - {a};
    if rest == {} {
      assert ids == {a};
      assert IsSmallest(ids, a);
    } else {
      SmallestExists(rest);
      var b :| IsSmallest(rest, b);
      assert ids == rest + {a};
      assert IsSmallest(ids, if a <= b then a else b);
    }
  }
}
