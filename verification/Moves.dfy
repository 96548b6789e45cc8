/** Lists of moves, applied one after the other: the last one for a booking decides where it goes. */
module Moves {
  import opened Durations
  import opened Wrappers
  import opened Tables

  // A booking and its target, a time of day or an instant.
  datatype Move<T> = Move(id: string, to: T)

  function MovedIds<T(==)>(moves: seq<Move<T>>): set<string> {
    set m | m in moves :: m.id
  }

  function LastFor<T>(moves: seq<Move<T>>, id: string): Option<T> {
    if moves == [] then None
    else if moves[|moves| - 1].id == id then Some(moves[|moves| - 1].to)
    else LastFor(moves[..|moves| - 1], id)
  }

  lemma {:induction false} LastForFound<T>(moves: seq<Move<T>>, id: string)
    ensures LastFor(moves, id).Some? <==> id in MovedIds(moves)
    ensures LastFor(moves, id).Some? ==> Move(id, LastFor(moves, id).value) in moves
  {
    if moves != [] {
      var n := |moves| - 1;
      LastForFound(moves[..n], id);
      assert moves == moves[..n] + [moves[n]];
    }
  }

  lemma {:induction false} LastForTail<T>(moves: seq<Move<T>>, id: string)
    requires moves != []
    ensures LastFor(moves, id) ==
            if LastFor(moves[1..], id).Some? then LastFor(moves[1..], id)
            else if moves[0].id == id then Some(moves[0].to) else None
  {
    if |moves| > 1 {
      LastForTail(moves[..|moves| - 1], id);
      assert moves[..|moves| - 1][1..] == moves[1..][..|moves| - 2];
    }
  }

  function MovedTo(b: Booking, start: int): Booking {
    b.(start := start, end := start + b.duration * MINUTE)
  }

  function MovedTable(table: Table, moves: seq<Move<int>>): Table
    requires forall m :: m in moves ==> m.id in table
    ensures MovedTable(table, moves).Keys == table.Keys
  {
    if moves == [] then table
    else
      var before := MovedTable(table, moves[..|moves| - 1]);
      var m := moves[|moves| - 1];
      before[m.id := MovedTo(before[m.id], m.to)]
  }

  lemma {:induction false} MovedTableRow(table: Table, moves: seq<Move<int>>, id: string)
    requires forall m :: m in moves ==> m.id in table
    requires id in table
    ensures MovedTable(table, moves)[id] ==
            if LastFor(moves, id).Some? then MovedTo(table[id], LastFor(moves, id).value) else table[id]
  {
    if moves != [] {
      assert moves[|moves| - 1] in moves;
      MovedTableRow(table, moves[..|moves| - 1], id);
    }
  }

  function CancelAll(table: Table, ids: set<string>): Table {
    map id | id in table :: if id in ids then table[id].(status := Cancelled) else table[id]
  }
}
