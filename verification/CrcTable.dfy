/**
 The relay's checksum comparison: the C table of 65 rows by 8 seats, in place,
 against the Python dictionary tick -> seat -> checksum.
 */
module CrcTable {
  import opened Slots

  const CRC_TICKS := 64
  const ROWS := 65               // one spare: insert first, evict after
  const CRC_SEATS := 8

  type Votes = map<int, int>
  type Table = map<int, Votes>

  datatype Verdict = Waiting | Agreed | Mismatch

  // ---- the dictionary -----------------------------------------------------

  function Cast(t: Table, tick: int, seat: int, crc: int): Votes {
    (if tick in t then t[tick] else map[])[seat := crc]
  }

  /** More than 64 ticks: the lowest goes, even if it is the one just touched. */
  ghost function Evicted(t: Table): Table {
    if |t| > CRC_TICKS then t - {MinTick(t)} else t
  }

  ghost predicate Unanimous(v: Votes) {
    forall a, b :: a in v && b in v ==> v[a] == v[b]
  }

  /** log_crc on the dictionary, for a match of `n` players. */
  ghost function Logged(t: Table, tick: int, seat: int, crc: int, n: nat): (Table, Verdict) {
    var votes := Cast(t, tick, seat, crc);
    var u := Evicted(t[tick := votes]);
    if |votes| < n then (u, Waiting)
    else (u - {tick}, if Unanimous(votes) then Agreed else Mismatch)
  }

  /** Between calls: at most 64 ticks, each with some votes but not all. */
  ghost predicate TableOk(t: Table, n: nat) {
    |t| <= CRC_TICKS && forall k :: k in t ==> 0 < |t[k]| < n
  }

  lemma CastSize(t: Table, tick: int, seat: int, crc: int, n: nat)
    requires TableOk(t, n) && n > 0
    ensures 0 < |Cast(t, tick, seat, crc)| <= n
  {
    var v := if tick in t then t[tick] else map[];
    var w := v[seat := crc];
    assert w.Keys == v.Keys + {seat};
    assert |w| == |w.Keys| && |v| == |v.Keys|;
    SetPlusOne(v.Keys, seat);
  }

  /** Between an insertion and its settlement: up to 65 ticks, one of which may be fully voted. */
  ghost predicate Filled(t: Table, tick: int, n: nat, most: nat) {
    |t| <= most && forall k :: k in t ==> 0 < |t[k]| <= (if k == tick then n else n - 1)
  }

  lemma InsertFilled(t: Table, tick: int, seat: int, crc: int, n: nat)
    requires TableOk(t, n) && n > 0
    ensures Filled(t[tick := Cast(t, tick, seat, crc)], tick, n, CRC_TICKS + 1)
  {
    hide Cast;
    CastSize(t, tick, seat, crc, n);
    InsertSize(t, tick, Cast(t, tick, seat, crc));
  }

  lemma EvictFilled(u: Table, tick: int, n: nat)
    requires Filled(u, tick, n, CRC_TICKS + 1) && n > 0
    ensures Filled(Evicted(u), tick, n, CRC_TICKS)
  {
    if |u| > CRC_TICKS { RemoveSize(u, MinTick(u)); }
  }

  lemma LoggedOk(t: Table, tick: int, seat: int, crc: int, n: nat)
    requires TableOk(t, n) && n > 0
    ensures TableOk(Logged(t, tick, seat, crc, n).0, n)
  {
    hide Cast;
    var v := Cast(t, tick, seat, crc);
    var u := t[tick := v];
    InsertFilled(t, tick, seat, crc, n);
    EvictFilled(u, tick, n);
    RemoveSize(Evicted(u), tick);
    assert tick in u && u[tick] == v;
    assert tick in Evicted(u) ==> Evicted(u)[tick] == v;
  }

  /**
   A verdict is right: when every other player's vote for the tick is in, the
   last vote settles it, as agreed exactly if all the checksums are equal.
   */
  lemma LastVote(t: Table, tick: int, seat: int, crc: int, n: nat)
    requires TableOk(t, n) && tick in t && seat !in t[tick] && |t[tick]| == n - 1
    ensures var r := Logged(t, tick, seat, crc, n);
            && tick !in r.0
            && (r.1 == Agreed <==> Unanimous(t[tick]) && forall a :: a in t[tick] ==> t[tick][a] == crc)
            && (r.1 == Mismatch <==> r.1 != Agreed)
  {
    var v := Cast(t, tick, seat, crc);
    assert v.Keys == t[tick].Keys + {seat};
    assert |v| == |v.Keys| && |t[tick]| == |t[tick].Keys|;
    SetPlusOne(t[tick].Keys, seat);
    assert |v| == n;
    assert seat in v && v[seat] == crc;
    if Unanimous(v) {
      assert forall a :: a in t[tick] ==> a in v && v[a] == t[tick][a];
    }
  }

  /** The seats whose vote for the tick is in, with this one. */
  ghost function SeatsIn(t: Table, tick: int, seat: int): set<int> {
    (if tick in t then t[tick].Keys else {}) + {seat}
  }

  /** With this tick more than 64 are stored, and `k` is the lowest. */
  ghost predicate PushedOut(t: Table, tick: int, k: int) {
    |t.Keys + {tick}| > CRC_TICKS && k in t.Keys + {tick} && forall j :: j in t || j == tick ==> k <= j
  }

  /** A verdict falls exactly when the vote is the last one missing; until then nothing is said. */
  lemma Verdicts(t: Table, tick: int, seat: int, crc: int, n: nat)
    requires TableOk(t, n) && n > 0
    ensures var r, seats := Logged(t, tick, seat, crc, n), SeatsIn(t, tick, seat);
            && (r.1 == Waiting <==> |seats| < n) && |seats| <= n
            && (r.1 == Agreed <==> |seats| == n && forall a :: tick in t && a in t[tick] && a != seat ==> t[tick][a] == crc)
  {
    CastSize(t, tick, seat, crc, n);
    var v := Cast(t, tick, seat, crc);
    assert v.Keys == SeatsIn(t, tick, seat);
    assert |v| == |v.Keys|;
    assert seat in v && v[seat] == crc;
    if Unanimous(v) {
      assert forall a :: tick in t && a in t[tick] && a != seat ==> a in v && v[a] == t[tick][a];
    }
  }

  /** What is stored afterwards: every tick still open but the lowest of 65, each with exactly the votes given. */
  lemma Stored(t: Table, tick: int, seat: int, crc: int, n: nat, k: int)
    requires TableOk(t, n) && n > 0
    ensures var u, seats := Logged(t, tick, seat, crc, n).0, SeatsIn(t, tick, seat);
            && (k in u <==> (k in t || k == tick) && !PushedOut(t, tick, k) && (k == tick ==> |seats| < n))
            && (k in u && k != tick ==> u[k] == t[k])
            && (k in u && k == tick ==> u[k].Keys == seats && forall a :: a in seats ==> u[k][a] == if a == seat then crc else t[tick][a])
  {
    hide Cast, Evicted, Unanimous, TableOk;
    Verdicts(t, tick, seat, crc, n);
    CastIs(t, tick, seat, crc);
    var u := t[tick := Cast(t, tick, seat, crc)];
    assert u.Keys == t.Keys + {tick};
    EvictedIs(u, k);
    assert PushedOut(t, tick, k) <==> |u.Keys| > CRC_TICKS && k in u && forall j :: j in u ==> k <= j;
    CastCount(t, tick, seat, crc);
  }

  /** With room left, a vote opens its tick or, the last one missing, closes it. */
  lemma StoredKeys(t: Table, tick: int, seat: int, crc: int, n: nat)
    requires TableOk(t, n) && n > 0 && |t.Keys + {tick}| <= CRC_TICKS
    ensures Logged(t, tick, seat, crc, n).0.Keys ==
            if |SeatsIn(t, tick, seat)| < n then t.Keys + {tick} else t.Keys - {tick}
  {
    hide Cast, Unanimous, TableOk;
    CastCount(t, tick, seat, crc);
    var u := t[tick := Cast(t, tick, seat, crc)];
    assert u.Keys == t.Keys + {tick} && |u| == |u.Keys|;
  }

  lemma CastIs(t: Table, tick: int, seat: int, crc: int)
    ensures var v := Cast(t, tick, seat, crc);
            v.Keys == SeatsIn(t, tick, seat) && forall a :: a in v ==> v[a] == if a == seat then crc else t[tick][a]
  {
  }

  lemma CastCount(t: Table, tick: int, seat: int, crc: int)
    ensures |Cast(t, tick, seat, crc)| == |SeatsIn(t, tick, seat)|
  {
    var v := Cast(t, tick, seat, crc);
    assert v.Keys == SeatsIn(t, tick, seat);
    assert |v| == |v.Keys|;
  }

  lemma EvictedIs(u: Table, k: int)
    ensures k in Evicted(u) <==> k in u && !(|u.Keys| > CRC_TICKS && forall j :: j in u ==> k <= j)
    ensures k in Evicted(u) ==> Evicted(u)[k] == u[k]
  {
    assert |u| == |u.Keys|;
    if |u| > CRC_TICKS {
      var low := MinTick(u);
      assert Lowest(u, low);
      if k in u && (forall j :: j in u ==> k <= j) { OneLowest(u, k, low); }
    }
  }

  // ---- the rows -----------------------------------------------------------

  datatype Row = Row(inUse: bool, tick: int, nseats: nat, s: seq<Slot>)

  const NO_SLOT := Slot(false, 0, 0)
  const NO_SLOTS := [NO_SLOT, NO_SLOT, NO_SLOT, NO_SLOT, NO_SLOT, NO_SLOT, NO_SLOT, NO_SLOT]

  ghost predicate RowRep(r: Row, v: Votes) {
    SlotsRep(r.s, v, CRC_SEATS) && r.nseats == |v|
  }

  ghost predicate HasRow(rows: seq<Row>, tick: int) {
    exists i :: 0 <= i < |rows| && rows[i].inUse && rows[i].tick == tick
  }

  ghost predicate TableRep(rows: seq<Row>, t: Table) {
    && |rows| == ROWS
    && (forall i :: 0 <= i < |rows| && rows[i].inUse ==> rows[i].tick in t && RowRep(rows[i], t[rows[i].tick]))
    && (forall k :: k in t ==> HasRow(rows, k))
    && (forall i, j :: 0 <= i < j < |rows| && rows[i].inUse && rows[j].inUse ==> rows[i].tick != rows[j].tick)
  }

  /** With at most 64 ticks stored, a row is free: the full-table return is never taken. */
  lemma RowFree(rows: seq<Row>, t: Table)
    requires TableRep(rows, t) && |t| <= CRC_TICKS
    ensures exists i :: 0 <= i < |rows| && !rows[i].inUse
  {
    assert |t.Keys| == |t|;
    if forall i :: 0 <= i < |rows| ==> rows[i].inUse {
      var m := seq(|rows|, i requires 0 <= i < |rows| => rows[i].tick);
      DistinctIn(m, t.Keys);
    }
  }

  lemma NewRow(rows: seq<Row>, t: Table, i: nat, tick: int)
    requires TableRep(rows, t) && i < ROWS && !rows[i].inUse && tick !in t
    ensures TableRep(rows[i := Row(true, tick, 0, NO_SLOTS)], t[tick := map[]])
  {
    hide RowRep;
    var r, u := rows[i := Row(true, tick, 0, NO_SLOTS)], t[tick := map[]];
    EmptyRow(tick);
    forall k | k in u
      ensures HasRow(r, k)
    {
      if k == tick { assert r[i].tick == tick; } else {
        assert HasRow(rows, k);
        var j :| 0 <= j < |rows| && rows[j].inUse && rows[j].tick == k;
        assert r[j] == rows[j];
      }
    }
  }

  lemma EmptyRow(tick: int)
    ensures RowRep(Row(true, tick, 0, NO_SLOTS), map[])
  {
  }

  lemma SetRow(rows: seq<Row>, t: Table, i: nat, row: Row, v: Votes)
    requires TableRep(rows, t) && i < ROWS && rows[i].inUse && row.inUse && row.tick == rows[i].tick && RowRep(row, v)
    ensures TableRep(rows[i := row], t[row.tick := v])
  {
    hide RowRep;
    var r, u := rows[i := row], t[row.tick := v];
    forall k | k in u
      ensures HasRow(r, k)
    {
      assert HasRow(rows, k);
      var j :| 0 <= j < |rows| && rows[j].inUse && rows[j].tick == k;
      assert r[j].tick == k && r[j].inUse;
    }
    assert rows[i].tick == row.tick;
  }

  lemma FreeRow(rows: seq<Row>, t: Table, i: nat)
    requires TableRep(rows, t) && i < ROWS && rows[i].inUse
    ensures TableRep(rows[i := rows[i].(inUse := false)], t - {rows[i].tick})
  {
    hide RowRep;
    var r, u := rows[i := rows[i].(inUse := false)], t - {rows[i].tick};
    forall k | k in u
      ensures HasRow(r, k)
    {
      assert HasRow(rows, k);
      var j :| 0 <= j < |rows| && rows[j].inUse && rows[j].tick == k;
      assert r[j] == rows[j];
    }
  }

  lemma SlotsUnanimous(s: seq<Slot>, v: Votes)
    requires SlotsRep(s, v, CRC_SEATS)
    ensures Unanimous(v) <==> forall i, j :: 0 <= i < |s| && 0 <= j < |s| && s[i].inUse && s[j].inUse ==> s[i].crc == s[j].crc
  {
    if forall i, j :: 0 <= i < |s| && 0 <= j < |s| && s[i].inUse && s[j].inUse ==> s[i].crc == s[j].crc {
      forall a, b | a in v && b in v
        ensures v[a] == v[b]
      {
        assert HasSlot(s, a, v[a]) && HasSlot(s, b, v[b]);
        var i :| 0 <= i < |s| && s[i] == Slot(true, a, v[a]);
        var j :| 0 <= j < |s| && s[j] == Slot(true, b, v[b]);
      }
    }
  }

  class Comparator {
    const crc: array<Row>
    var ncrc: nat
    var crcOk: nat
    const members: nat
    ghost var table: Table

    ghost predicate Shape()
      reads this
    {
      crc.Length == ROWS && 2 <= members <= 4
    }

    ghost predicate Valid()
      reads this, crc
    {
      Shape() && TableRep(crc[..], table) && ncrc == |table| && TableOk(table, members)
    }

    /** start_room clears the table. */
    constructor (members: nat)
      requires 2 <= members <= 4
      ensures Valid() && table == map[] && crcOk == 0 && this.members == members
    {
      crc := new Row[ROWS](_ => Row(false, 0, 0, NO_SLOTS));
      ncrc, crcOk, table := 0, 0, map[];
      this.members := members;
    }

    method FindRow(tick: int) returns (k: int)
      requires Shape() && TableRep(crc[..], table)
      ensures -1 <= k < ROWS
      ensures if k >= 0 then crc[k].inUse && crc[k].tick == tick && tick in table else tick !in table
    {
      k := 0;
      while k < ROWS
        invariant 0 <= k <= ROWS
        invariant forall i :: 0 <= i < k ==> !(crc[i].inUse && crc[i].tick == tick)
      {
        if crc[k].inUse && crc[k].tick == tick {
          assert crc[..][k].inUse;
          return;
        }
        k := k + 1;
      }
      k := -1;
      assert tick in table ==> HasRow(crc[..], tick);
    }

    /** The row of a tick, opened if it has none; there is always one left to open. */
    method OpenRow(tick: int) returns (k: nat)
      requires Valid()
      modifies this`ncrc, this`table, crc
      ensures k < ROWS && crc[k].inUse && crc[k].tick == tick
      ensures table == if tick in old(table) then old(table) else old(table)[tick := map[]]
      ensures Shape() && TableRep(crc[..], table) && ncrc == |table|
    {
      hide TableRep, TableOk, RowRep;
      var found := FindRow(tick);
      if found >= 0 { return found; }
      Bounded(table, members);
      RowFree(crc[..], table);
      k := 0;
      while k < ROWS && crc[k].inUse
        invariant 0 <= k <= ROWS
        invariant forall i :: 0 <= i < k ==> crc[i].inUse
      {
        k := k + 1;
      }
      if k == ROWS { assert false; }
      NewRow(crc[..], table, k, tick);
      InsertSize(table, tick, map[]);
      crc[k] := Row(true, tick, 0, NO_SLOTS);
      ncrc := ncrc + 1;
      table := table[tick := map[]];
    }

    /** Insert or replace a seat's checksum; with fewer than eight votes there is a slot for it. */
    method Vote(row: Row, seat: int, sum: int, ghost v: Votes) returns (r: Row)
      requires RowRep(row, v) && |v| < CRC_SEATS
      ensures r == row.(s := r.s, nseats := r.nseats) && RowRep(r, v[seat := sum])
    {
      hide SlotsRep;
      InsertSize(v, seat, sum);
      var s, added := PutSlot(row.s, seat, sum, v, CRC_SEATS);
      r := row.(s := s, nseats := row.nseats + if added then 1 else 0);
    }

    /** The row of the lowest tick. */
    method LowestRow() returns (k: nat)
      requires Shape() && TableRep(crc[..], table) && table != map[]
      ensures k < ROWS && crc[k].inUse && Lowest(table, crc[k].tick)
    {
      ghost var some := SomeKey(table);
      assert HasRow(crc[..], some);
      var low := -1;
      var i := 0;
      while i < ROWS
        invariant 0 <= i <= ROWS && -1 <= low < i
        invariant low < 0 ==> forall j :: 0 <= j < i ==> !crc[j].inUse
        invariant low >= 0 ==> crc[low].inUse && forall j :: 0 <= j < i && crc[j].inUse ==> crc[low].tick <= crc[j].tick
      {
        if crc[i].inUse && (low < 0 || crc[i].tick < crc[low].tick) { low := i; }
        i := i + 1;
      }
      k := low;
      assert crc[..][k].inUse;
      forall t | t in table
        ensures crc[k].tick <= t
      {
        assert HasRow(crc[..], t);
      }
    }

    method AllEqual(s: seq<Slot>) returns (agree: bool)
      ensures agree <==> forall i, j :: 0 <= i < |s| && 0 <= j < |s| && s[i].inUse && s[j].inUse ==> s[i].crc == s[j].crc
    {
      agree := true;
      var nvals, first := 0, 0;
      var i := 0;
      while i < |s|
        invariant 0 <= i <= |s|
        invariant nvals == 0 <==> forall j :: 0 <= j < i ==> !s[j].inUse
        invariant nvals > 0 ==> exists j :: 0 <= j < i && s[j].inUse && s[j].crc == first
        invariant agree <==> forall j :: 0 <= j < i && s[j].inUse ==> s[j].crc == first
      {
        if s[i].inUse {
          if nvals == 0 { first := s[i].crc; } else if s[i].crc != first { agree := false; }
          nvals := nvals + 1;
        }
        i := i + 1;
      }
    }

    /** log_crc: the table goes where the dictionary goes, and the verdict is the same. */
    method Log(tick: int, seat: int, sum: int) returns (verdict: Verdict)
      requires Valid()
      modifies this`ncrc, this`crcOk, this`table, crc
      ensures Valid() && (table, verdict) == Logged(old(table), tick, seat, sum, members)
      ensures crcOk == old(crcOk) + if verdict == Agreed then 1 else 0
    {
      hide TableRep, TableOk, RowRep, Unanimous, SlotsRep, Cast, Evicted;
      ghost var before, v := table, Cast(table, tick, seat, sum);
      LoggedOk(table, tick, seat, sum, members);
      var k := Insert(tick, seat, sum);
      var row := crc[k];
      Evict();
      RowCount(row, v);
      if row.nseats < members { return Waiting; }
      var agree := AllEqual(row.s);
      SlotsUnanimous(row.s, v);
      Settle(k, tick, row);
      verdict := if agree then Agreed else Mismatch;
      if agree { crcOk := crcOk + 1; }
    }

    /** Insert or replace the vote. */
    method Insert(tick: int, seat: int, sum: int) returns (k: nat)
      requires Valid()
      modifies this`ncrc, this`table, crc
      ensures k < ROWS && crc[k].inUse && crc[k].tick == tick && RowRep(crc[k], Cast(old(table), tick, seat, sum))
      ensures table == old(table)[tick := Cast(old(table), tick, seat, sum)]
      ensures Shape() && TableRep(crc[..], table) && ncrc == |table|
    {
      hide TableRep, TableOk, RowRep;
      ghost var before := table;
      FewVotes(before, tick, members);
      k := OpenRow(tick);
      ghost var v := table[tick];
      RowOf(crc[..], table, k);
      var row := Vote(crc[k], seat, sum, v);
      SetRow(crc[..], table, k, row, v[seat := sum]);
      InsertSize(table, tick, v[seat := sum]);
      crc[k] := row;
      table := table[tick := v[seat := sum]];
      assert table == before[tick := Cast(before, tick, seat, sum)];
    }

    /** More than 64 rows: the one of the lowest tick is released. */
    method Evict()
      requires Shape() && TableRep(crc[..], table) && ncrc == |table|
      modifies this`ncrc, this`table, crc
      ensures Shape() && TableRep(crc[..], table) && ncrc == |table| && table == Evicted(old(table))
      ensures forall i :: 0 <= i < ROWS && crc[i].inUse ==> crc[i] == old(crc[i])
      ensures forall i :: 0 <= i < ROWS ==> crc[i].tick == old(crc[i].tick)
      ensures forall i :: 0 <= i < ROWS && old(crc[i].inUse) && !crc[i].inUse ==> crc[i].tick !in table
    {
      hide TableRep;
      if ncrc > CRC_TICKS {
        var low := LowestRow();
        OneLowest(table, crc[low].tick, MinTick(table));
        FreeRow(crc[..], table, low);
        RemoveSize(table, crc[low].tick);
        table := table - {crc[low].tick};
        crc[low] := crc[low].(inUse := false);
        ncrc := ncrc - 1;
      }
    }

    /** All votes are in: the row goes, unless the eviction took it already. */
    method Settle(k: nat, tick: int, ghost row: Row)
      requires Shape() && TableRep(crc[..], table) && ncrc == |table| && k < ROWS && crc[k].tick == tick
      requires !crc[k].inUse ==> tick !in table
      modifies this`ncrc, this`table, crc
      ensures Shape() && TableRep(crc[..], table) && ncrc == |table| && table == old(table) - {tick}
    {
      hide TableRep;
      RemoveSize(table, tick);
      if crc[k].inUse {
        RowTick(crc[..], table, k);
        FreeRow(crc[..], table, k);
        table := table - {tick};
        crc[k] := crc[k].(inUse := false);
        ncrc := ncrc - 1;
      } else {
        assert table - {tick} == table;
      }
    }
  }

  lemma Bounded(t: Table, n: nat)
    requires TableOk(t, n)
    ensures |t| <= CRC_TICKS
  {
  }

  lemma RowOf(rows: seq<Row>, t: Table, k: nat)
    requires TableRep(rows, t) && k < |rows| && rows[k].inUse
    ensures rows[k].tick in t && RowRep(rows[k], t[rows[k].tick])
  {
  }

  lemma RowTick(rows: seq<Row>, t: Table, k: nat)
    requires TableRep(rows, t) && k < |rows| && rows[k].inUse
    ensures rows[k].tick in t
  {
  }

  lemma RowCount(r: Row, v: Votes)
    requires RowRep(r, v)
    ensures r.nseats == |v| && SlotsRep(r.s, v, CRC_SEATS)
  {
  }

  lemma FewVotes(t: Table, tick: int, n: nat)
    requires TableOk(t, n) && n <= 4
    ensures tick in t ==> |t[tick]| < CRC_SEATS
  {
  }
}
