/**
 The v1 comparator: each partner keeps its own tick -> checksum log, and whoever
 reports a tick second takes the other's entry and compares.
 */
module V1Log {
  import opened Slots

  const CRC_TICKS := 64
  const CELLS := 65              // one spare: insert first, evict after

  type Log = map<int, int>

  datatype Verdict = Waiting | Agreed | Mismatch

  /** A report against the two dictionaries: the reporter's and its partner's. */
  ghost function Reported(mine: Log, theirs: Log, tick: int, sum: int): (Log, Log, Verdict) {
    if tick in theirs then (mine, theirs - {tick}, if theirs[tick] == sum then Agreed else Mismatch)
    else
      var m := mine[tick := sum];
      (if |m| > CRC_TICKS then m - {MinTick(m)} else m, theirs, Waiting)
  }

  /** No tick is in both logs, and neither holds more than 64: the spare cell is free between calls. */
  ghost predicate LogsOk(mine: Log, theirs: Log) {
    mine.Keys !! theirs.Keys && |mine| <= CRC_TICKS && |theirs| <= CRC_TICKS
  }

  lemma ReportedOk(mine: Log, theirs: Log, tick: int, sum: int)
    requires LogsOk(mine, theirs)
    ensures LogsOk(Reported(mine, theirs, tick, sum).0, Reported(mine, theirs, tick, sum).1)
  {
    var m := mine[tick := sum];
    RemoveSize(theirs, tick);
    InsertSize(mine, tick, sum);
    if |m| > CRC_TICKS { RemoveSize(m, MinTick(m)); }
  }

  /**
   The second report of a tick settles it, agreed exactly if the two checksums
   are equal, unless the first has been pushed out by 64 later ticks.
   */
  lemma SecondSettles(a: Log, b: Log, tick: int, x: int, y: int)
    requires LogsOk(a, b) && tick !in b
    ensures var first := Reported(a, b, tick, x);
            var second := Reported(b, first.0, tick, y);
            && first.2 == Waiting
            && (tick in first.0 ==> second.2 == (if x == y then Agreed else Mismatch) && tick !in second.0 && tick !in second.1)
            && (tick !in first.0 <==> |a[tick := x]| > CRC_TICKS && forall k :: k in a ==> tick < k)
  {
    InsertSize(a, tick, x);
    if tick !in a { LowestNew(a, tick, x); }
  }

  /** A new tick is the lowest of a log exactly if it is below every other. */
  lemma LowestNew(a: Log, tick: int, x: int)
    requires tick !in a
    ensures tick in a[tick := x] && (MinTick(a[tick := x]) == tick <==> forall k :: k in a ==> tick < k)
  {
    var m := a[tick := x];
    assert forall k :: k in m <==> k in a || k == tick;
    assert Lowest(m, MinTick(m));
  }

  /** One partner's part of a client: its log, the entries in use, its agreed pairs. */
  datatype Side = Side(log: seq<Slot>, n: nat, ok: nat)

  ghost predicate SideRep(s: Side, m: Log) {
    SlotsRep(s.log, m, CELLS) && s.n == |m|
  }

  const EMPTY := Slot(false, 0, 0)

  class Pair {
    var host: Side
    var guest: Side
    ghost var hostLog: Log
    ghost var guestLog: Log

    ghost predicate Valid()
      reads this
    {
      SideRep(host, hostLog) && SideRep(guest, guestLog) && LogsOk(hostLog, guestLog) && host.ok == guest.ok
    }

    /** start_pair resets both. */
    constructor ()
      ensures Valid() && hostLog == map[] && guestLog == map[] && host.ok == 0
    {
      var s := seq(CELLS, _ => EMPTY);
      NoSlots(s, CELLS);
      host, guest, hostLog, guestLog := Side(s, 0, 0), Side(s, 0, 0), map[], map[];
    }

    /** log_crc_v1: the logs go where the dictionaries go, and the two counters move together. */
    method Report(byHost: bool, tick: int, sum: int) returns (verdict: Verdict)
      requires Valid()
      modifies this
      ensures Valid()
      ensures var mine, theirs := if byHost then old(hostLog) else old(guestLog), if byHost then old(guestLog) else old(hostLog);
              var r := Reported(mine, theirs, tick, sum);
              && (if byHost then hostLog else guestLog) == r.0
              && (if byHost then guestLog else hostLog) == r.1
              && verdict == r.2
      ensures host.ok == old(host.ok) + if verdict == Agreed then 1 else 0
    {
      hide SideRep;
      var mine, theirs := if byHost then host else guest, if byHost then guest else host;
      ghost var m, t := if byHost then hostLog else guestLog, if byHost then guestLog else hostLog;
      ReportedOk(m, t, tick, sum);
      var mine', theirs';
      mine', theirs', verdict := Compare(mine, theirs, tick, sum, m, t);
      ghost var r := Reported(m, t, tick, sum);
      if byHost {
        host, guest, hostLog, guestLog := mine', theirs', r.0, r.1;
      } else {
        guest, host, guestLog, hostLog := mine', theirs', r.0, r.1;
      }
    }

    method Compare(mine: Side, theirs: Side, tick: int, sum: int, ghost m: Log, ghost t: Log)
      returns (mine': Side, theirs': Side, verdict: Verdict)
      requires SideRep(mine, m) && SideRep(theirs, t) && LogsOk(m, t) && mine.ok == theirs.ok
      ensures var r := Reported(m, t, tick, sum);
              SideRep(mine', r.0) && SideRep(theirs', r.1) && verdict == r.2
      ensures mine'.ok == theirs'.ok == mine.ok + if verdict == Agreed then 1 else 0
    {
      hide SlotsRep;
      mine', theirs' := mine, theirs;
      var i := FindSlot(theirs.log, tick, t, CELLS);
      SlotShape(theirs.log, t, CELLS);
      RemoveSize(t, tick);
      if i >= 0 {
        ClearSlot(theirs.log, t, CELLS, i);
        var e := theirs.log[i];
        theirs' := theirs.(log := theirs.log[i := e.(inUse := false)], n := theirs.n - 1);
        if e.crc != sum { return mine', theirs', Mismatch; }
        mine', theirs' := mine'.(ok := mine.ok + 1), theirs'.(ok := theirs.ok + 1);
        return mine', theirs', Agreed;
      }
      verdict := Waiting;
      ghost var u := m[tick := sum];
      InsertSize(m, tick, sum);
      var log, added := PutSlot(mine.log, tick, sum, m, CELLS);
      var n := mine.n + if added then 1 else 0;
      if n > CRC_TICKS {
        var low := LowestSlot(log, u, CELLS);
        SlotShape(log, u, CELLS);
        OneLowest(u, log[low].key, MinTick(u));
        RemoveSize(u, log[low].key);
        ClearSlot(log, u, CELLS, low);
        log, n := log[low := log[low].(inUse := false)], n - 1;
      }
      mine' := mine.(log := log, n := n);
    }
  }

}
