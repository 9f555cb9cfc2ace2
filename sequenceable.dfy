/**
 Per-source sequence counters. Each counter is one row of the `sequences`
 table, keyed by the Adler-32 checksum of "<table>.<column id>" written as
 eight lower-case hex digits. `SequenceStore` is that table held in memory;
 `Sequence` is one row loaded as an object.
 */
module Sequenceable {
  import opened Adler32
  import Hex

  /** A row's primary key: the rendered checksum. */
  type Key = string

  /** The byte of ".". */
  const DOT: byte := 46

  /** The string the key is derived from: "<table>.<column id>". */
  function Joined(table: Bytes, columnId: Bytes): Bytes
  {
    table + [DOT] + columnId
  }

  /** The key of the counter for `columnId` in `table`. */
  function SerieID(table: Bytes, columnId: Bytes): (id: Key)
    ensures |id| == 8 && Hex.AllDigits(id)
  {
    Hex.EightDigits();
    Hex.Render(Checksum(Joined(table, columnId)), 8)
  }

  /** The key spells out the checksum of the joined string. */
  lemma SerieIDEncodesChecksum(table: Bytes, columnId: Bytes)
    ensures Hex.Parse(SerieID(table, columnId)) == Checksum(Joined(table, columnId))
  {
    Hex.EightDigits();
    Hex.ParseRender(Checksum(Joined(table, columnId)), 8);
  }

  /** Two pairs share a key exactly when their joined strings share a checksum. */
  lemma SameKeyIffSameChecksum(t1: Bytes, c1: Bytes, t2: Bytes, c2: Bytes)
    ensures SerieID(t1, c1) == SerieID(t2, c2)
        <==> Checksum(Joined(t1, c1)) == Checksum(Joined(t2, c2))
  {
    Hex.EightDigits();
    Hex.RenderInjective(Checksum(Joined(t1, c1)), Checksum(Joined(t2, c2)), 8);
  }

  /** ("a.b", "c") and ("a", "b.c") are different pairs with one key. */
  lemma ConcatenationShare()
    ensures ([97, DOT, 98], [99]) != ([97], [98, DOT, 99])
    ensures SerieID([97, DOT, 98], [99]) == SerieID([97], [98, DOT, 99])
  {
    assert Joined([97, DOT, 98], [99]) == Joined([97], [98, DOT, 99]);
  }

  /**
   ("x", "abc") and ("x", "b`d") join to different strings whose checksums
   collide, so they share a key.
   */
  lemma ChecksumCollision()
    ensures Joined([120], [97, 98, 99]) != Joined([120], [98, 96, 100])
    ensures SerieID([120], [97, 98, 99]) == SerieID([120], [98, 96, 100])
  {
    var x: Bytes := [120, DOT, 97, 98, 99];
    var y: Bytes := [120, DOT, 98, 96, 100];
    assert Joined([120], [97, 98, 99]) == x;
    assert Joined([120], [98, 96, 100]) == y;
    assert x[3] != y[3];
    assert x[1..] == [DOT, 97, 98, 99] && x[2..] == [97, 98, 99];
    assert x[3..] == [98, 99] && x[4..] == [99] && x[5..] == [];
    assert y[1..] == [DOT, 98, 96, 100] && y[2..] == [98, 96, 100];
    assert y[3..] == [96, 100] && y[4..] == [100] && y[5..] == [];
    SumsOfTail(x, 1);
    SumsOfTail(x, 2);
    SumsOfTail(x, 3);
    SumsOfTail(x, 4);
    SumsOfTail(y, 1);
    SumsOfTail(y, 2);
    SumsOfTail(y, 3);
    SumsOfTail(y, 4);
    SameSumsCollide(x, y);
  }

  /** One unfolding of Sum and Weighted at an inner suffix. */
  lemma SumsOfTail(s: Bytes, i: nat)
    requires i < |s|
    ensures Sum(s[i..]) == s[i] + Sum(s[i + 1..])
    ensures Weighted(s[i..]) == (|s| - i) * s[i] + Weighted(s[i + 1..])
  {
    assert s[i..][1..] == s[i + 1..];
  }

  // ---------------------------------------------------------------------
  // The table, as values

  /** One row of the `sequences` table. */
  datatype Row = Row(id: Key, source: Bytes, columnId: Bytes, sequence: int)

  type Rows = map<Key, Row>

  /**
   The table's invariant: every row is stored under its own id, that id is
   the key of the row's own (source, column id) pair, and its counter has
   not gone below its starting value 0.
   */
  ghost predicate Consistent(rows: Rows)
  {
    forall k | k in rows ::
      && rows[k].id == k
      && SerieID(rows[k].source, rows[k].columnId) == k
      && rows[k].sequence >= 0
  }

  datatype Found = Found(rows: Rows, row: Row)

  /**
   Find the row keyed by the pair's key, or insert one holding the pair and a
   counter at 0. An existing row is returned unchanged, whatever pair it was
   created for.
   */
  function FindOrCreate(rows: Rows, table: Bytes, columnId: Bytes): (f: Found)
    ensures var id := SerieID(table, columnId);
      && f.rows.Keys == rows.Keys + {id}
      && id in f.rows && f.row == f.rows[id]
      && (id in rows ==> f.rows == rows)
      && (id !in rows ==> f.row == Row(id, table, columnId, 0)
                          && forall k | k in rows :: f.rows[k] == rows[k])
  {
    var id := SerieID(table, columnId);
    if id in rows then Found(rows, rows[id])
    else
      var row := Row(id, table, columnId, 0);
      Found(rows[id := row], row)
  }

  /** The table after one allocation, and the number allocated. */
  datatype Allocation = Allocation(rows: Rows, value: int)

  /** The counter a pair would continue from: its row's, or 0 with no row. */
  function Start(rows: Rows, id: Key): int
  {
    if id in rows then rows[id].sequence else 0
  }

  /**
   Find or create the pair's row, add one to its counter and return the new
   value. Only that row changes, and only its counter.
   */
  function Allocate(rows: Rows, table: Bytes, columnId: Bytes): (a: Allocation)
    ensures var id := SerieID(table, columnId);
      && a.rows.Keys == rows.Keys + {id}
      && a.value == Start(rows, id) + 1
      && a.rows[id].sequence == a.value
      && (id !in rows ==> a.value == 1 && a.rows[id] == Row(id, table, columnId, 1))
      && (id in rows ==> a.rows[id] == rows[id].(sequence := a.value))
      && forall k | k in rows && k != id :: a.rows[k] == rows[k]
  {
    var id := SerieID(table, columnId);
    var f := FindOrCreate(rows, table, columnId);
    var bumped := f.row.(sequence := f.row.sequence + 1);
    Allocation(f.rows[id := bumped], bumped.sequence)
  }

  /** Allocation keeps the table's invariant. */
  lemma AllocateConsistent(rows: Rows, table: Bytes, columnId: Bytes)
    requires Consistent(rows)
    ensures Consistent(Allocate(rows, table, columnId).rows)
  {
    var id := SerieID(table, columnId);
    var after := Allocate(rows, table, columnId).rows;
    forall k | k in after
      ensures after[k].id == k && SerieID(after[k].source, after[k].columnId) == k
      ensures after[k].sequence >= 0
    {
      if k != id { assert after[k] == rows[k]; }
    }
  }

  /** The values handed out by n allocations in a row for one pair. */
  function Allocations(rows: Rows, table: Bytes, columnId: Bytes, n: nat): (r: (Rows, seq<int>))
    ensures |r.1| == n
  {
    if n == 0 then (rows, [])
    else
      var (before, values) := Allocations(rows, table, columnId, n - 1);
      var a := Allocate(before, table, columnId);
      (a.rows, values + [a.value])
  }

  /**
   n allocations for one pair hand out start + 1, ..., start + n in order, with
   no gap and no repeat, and leave the counter at start + n. From an empty
   table the i-th call returns i.
   */
  lemma {:induction false} AllocationsCount(rows: Rows, table: Bytes, columnId: Bytes, n: nat)
    ensures var id := SerieID(table, columnId);
      var (after, values) := Allocations(rows, table, columnId, n);
      && (forall i :: 0 <= i < n ==> values[i] == Start(rows, id) + i + 1)
      && Start(after, id) == Start(rows, id) + n
      && (n > 0 ==> id in after && after.Keys == rows.Keys + {id})
      && (n == 0 ==> after == rows)
  {
    if n > 0 {
      AllocationsCount(rows, table, columnId, n - 1);
    }
  }

  /**
   Allocations for different keys do not disturb each other: allocating for
   one pair first changes neither the value another pair gets nor the row it
   ends up with.
   */
  lemma AllocateIndependent(rows: Rows, t1: Bytes, c1: Bytes, t2: Bytes, c2: Bytes)
    requires SerieID(t1, c1) != SerieID(t2, c2)
    ensures var first := Allocate(rows, t1, c1);
      var id2 := SerieID(t2, c2);
      && Allocate(first.rows, t2, c2).value == Allocate(rows, t2, c2).value
      && Allocate(first.rows, t2, c2).rows[id2] == Allocate(rows, t2, c2).rows[id2]
  {
    var id2 := SerieID(t2, c2);
    var first := Allocate(rows, t1, c1);
    assert Start(first.rows, id2) == Start(rows, id2);
    assert id2 in first.rows ==> first.rows[id2] == rows[id2];
  }

  /**
   Pairs with one key share one counter: the second pair continues where the
   first left off, and a row created for the first pair keeps the first
   pair's source and column id.
   */
  lemma SharedCounter(rows: Rows, t1: Bytes, c1: Bytes, t2: Bytes, c2: Bytes)
    requires SerieID(t1, c1) == SerieID(t2, c2)
    ensures var first := Allocate(rows, t1, c1);
      var second := Allocate(first.rows, t2, c2);
      var id := SerieID(t1, c1);
      && second.value == first.value + 1
      && second.rows[id].source == first.rows[id].source
      && second.rows[id].columnId == first.rows[id].columnId
      && (id !in rows ==> second.rows[id] == Row(id, t1, c1, 2))
  {
  }

  /** The rows whose source is `table`: none missing, none from elsewhere. */
  function SeriesFrom(rows: Rows, table: Bytes): (series: set<Row>)
    ensures forall r :: r in series <==> r in rows.Values && r.source == table
  {
    set k | k in rows && rows[k].source == table :: rows[k]
  }

  /**
   Replacing the row under `id` in a table whose rows sit under their own ids:
   the series of any source loses the old row and gains the new one when its
   source matches; every other row of the series stays.
   */
  lemma SeriesAfterUpdate(rows: Rows, id: Key, row: Row, source: Bytes)
    requires forall k | k in rows :: rows[k].id == k
    requires row.id == id
    ensures SeriesFrom(rows[id := row], source)
         == (set r | r in SeriesFrom(rows, source) && r.id != id)
            + (if row.source == source then {row} else {})
  {
    var after := rows[id := row];
    var lhs := SeriesFrom(after, source);
    var rhs := (set r | r in SeriesFrom(rows, source) && r.id != id)
               + (if row.source == source then {row} else {});
    forall r | r in lhs ensures r in rhs {
      var k :| k in after && after[k] == r;
      if k != id {
        assert rows[k] == r && r.id == k;
      }
    }
    forall r | r in rhs ensures r in lhs {
      if r != row {
        var k :| k in rows && rows[k] == r;
        assert k != id && after[k] == r;
      } else {
        assert after[id] == r;
      }
    }
  }

  /**
   After an allocation for a pair, the series of any source loses the pair's
   old row and gains its new row when the source matches; a row created for
   the pair joins the series of the pair's own table.
   */
  lemma SeriesAfterAllocate(rows: Rows, table: Bytes, columnId: Bytes, source: Bytes)
    requires Consistent(rows)
    ensures var id := SerieID(table, columnId);
      var after := Allocate(rows, table, columnId).rows;
      && SeriesFrom(after, source)
         == (set r | r in SeriesFrom(rows, source) && r.id != id)
            + (if after[id].source == source then {after[id]} else {})
      && (id !in rows ==> SeriesFrom(after, table) == SeriesFrom(rows, table) + {Row(id, table, columnId, 1)})
  {
    var id := SerieID(table, columnId);
    var a := Allocate(rows, table, columnId);
    assert a.rows == rows[id := a.rows[id]];
    SeriesAfterUpdate(rows, id, a.rows[id], source);
    if id !in rows {
      SeriesAfterUpdate(rows, id, a.rows[id], table);
      assert (set r | r in SeriesFrom(rows, table) && r.id != id) == SeriesFrom(rows, table);
    }
  }

  // ---------------------------------------------------------------------
  // The table, as an object

  /** The `sequences` table. */
  class SequenceStore {
    var rows: Rows

    ghost predicate Valid()
      reads this
    {
      Consistent(rows)
    }

    constructor ()
      ensures Valid() && rows == map[]
    {
      rows := map[];
    }

    /** `findOrCreateSerieModel`: find the pair's row, inserting it if absent. */
    method FindOrCreateSerieModel(table: Bytes, columnId: Bytes) returns (model: Row)
      requires Valid()
      modifies this
      ensures Valid()
      ensures rows == FindOrCreate(old(rows), table, columnId).rows
      ensures model == FindOrCreate(old(rows), table, columnId).row
    {
      var id := SerieID(table, columnId);
      if id in rows {
        model := rows[id];
      } else {
        model := Row(id, table, columnId, 0);
        rows := rows[id := model];
      }
    }

    /** `incrementOneTo`: allocate the pair's next number. */
    method IncrementOneTo(table: Bytes, columnId: Bytes) returns (value: int)
      requires Valid()
      modifies this
      ensures Valid()
      ensures rows == Allocate(old(rows), table, columnId).rows
      ensures value == Allocate(old(rows), table, columnId).value
    {
      ghost var a := Allocate(rows, table, columnId);
      AllocateConsistent(rows, table, columnId);
      var id := SerieID(table, columnId);
      var model := FindOrCreateSerieModel(table, columnId);
      model := model.(sequence := model.sequence + 1);
      rows := rows[id := model];
      value := model.sequence;
      assert rows == a.rows && value == a.value;
    }

    /** `getSeriesFrom`: the rows whose source is `table`. */
    method GetSeriesFrom(table: Bytes) returns (series: set<Row>)
      ensures series == SeriesFrom(rows, table)
    {
      series := SeriesFrom(rows, table);
    }

    /** A row loaded as an object, if the key has one. */
    method Find(id: Key) returns (model: Sequence?)
      ensures id in rows <==> model != null
      ensures model != null ==> fresh(model) && model.AsRow() == rows[id]
    {
      if id in rows {
        model := new Sequence.Load(rows[id]);
      } else {
        model := null;
      }
    }
  }

  // ---------------------------------------------------------------------
  // One row as an object

  /**
   A loaded row. `Next` and `Prev` move the in-memory counter and do not
   write it back to the table; the `...Attribute` functions only read it.
   */
  class Sequence {
    var id: Key
    var source: Bytes
    var columnId: Bytes
    var sequence: int

    constructor Load(row: Row)
      ensures AsRow() == row
    {
      id, source, columnId, sequence := row.id, row.source, row.columnId, row.sequence;
    }

    /** The object's fields as a row value. */
    function AsRow(): Row
      reads this
    {
      Row(id, source, columnId, sequence)
    }

    /** `current`. */
    function Current(): (r: int)
      reads this
      ensures r == AsRow().sequence
    {
      sequence
    }

    /** `getPrevAttribute`: one below the counter. */
    function PrevAttribute(): (r: int)
      reads this
      ensures r + 1 == Current()
    {
      sequence - 1
    }

    /** `getCurrentAttribute`: the counter. */
    function CurrentAttribute(): (r: int)
      reads this
      ensures r == Current()
    {
      sequence
    }

    /** `getNextAttribute`: one above the counter. */
    function NextAttribute(): (r: int)
      reads this
      ensures r == Current() + 1
    {
      sequence + 1
    }

    /** `next`: raise the counter by one and return it. */
    method Next() returns (r: int)
      modifies this`sequence
      ensures sequence == old(sequence) + 1
      ensures r == Current() && r == old(NextAttribute())
    {
      sequence := sequence + 1;
      r := sequence;
    }

    /** `prev`: lower the counter by one and return it. */
    method Prev() returns (r: int)
      modifies this`sequence
      ensures sequence == old(sequence) - 1
      ensures r == Current() && r == old(PrevAttribute())
    {
      sequence := sequence - 1;
      r := sequence;
    }
  }

  /** `next` followed by `prev` gives the counter back. */
  method NextThenPrev(s: Sequence) returns (up: int, down: int)
    modifies s
    ensures up == old(s.sequence) + 1 && down == old(s.sequence)
    ensures s.AsRow() == old(s.AsRow())
  {
    up := s.Next();
    down := s.Prev();
  }

  /**
   Three allocations for ("invoices", "number") on an empty table return 1, 2
   and 3, and the row loaded afterwards reads 3 as current, 4 as next and 2
   as prev.
   */
  method InvoiceNumbers() returns (first: int, second: int, third: int, prev: int, current: int, next: int)
    ensures first == 1 && second == 2 && third == 3
    ensures prev == 2 && current == 3 && next == 4
  {
    var invoices: Bytes := [105, 110, 118, 111, 105, 99, 101, 115];
    var number: Bytes := [110, 117, 109, 98, 101, 114];
    var store := new SequenceStore();
    first := store.IncrementOneTo(invoices, number);
    second := store.IncrementOneTo(invoices, number);
    third := store.IncrementOneTo(invoices, number);
    var model := store.Find(SerieID(invoices, number));
    prev, current, next := model.PrevAttribute(), model.CurrentAttribute(), model.NextAttribute();
  }
}
