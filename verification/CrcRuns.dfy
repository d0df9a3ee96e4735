/**
 The checksum comparison over a whole match, against the votes themselves: the
 counters count rounds, and nothing is counted that is not one.
 */
module CrcRuns {
  import opened Basics
  import opened CrcTable
  import RelayState

  datatype Vote = Vote(tick: int, seat: int, crc: int)

  /** The dictionary after these votes, and how many verdicts of each kind there were. */
  ghost function Tally(votes: seq<Vote>, n: nat): (Table, nat, nat)
    decreases |votes|
  {
    if votes == [] then (map[], 0, 0)
    else
      var p, v := Tally(votes[..|votes| - 1], n), votes[|votes| - 1];
      var r := Logged(p.0, v.tick, v.seat, v.crc, n);
      (r.0, p.1 + Bit(r.1 == Agreed), p.2 + Bit(r.1 == Mismatch))
  }

  // ---- the rounds, from the votes alone -------------------------------------

  ghost function Heard(votes: seq<Vote>, tick: int): set<int> {
    set i | 0 <= i < |votes| && votes[i].tick == tick :: votes[i].seat
  }

  ghost function Ticks(votes: seq<Vote>): set<int> {
    set i | 0 <= i < |votes| :: votes[i].tick
  }

  /** Ticks every seat has voted for. */
  ghost function Rounds(votes: seq<Vote>, n: nat): set<int> {
    set k | k in Ticks(votes) && |Heard(votes, k)| == n
  }

  /** Ticks some seat is still missing for. */
  ghost function Open(votes: seq<Vote>, n: nat): set<int> {
    set k | k in Ticks(votes) && |Heard(votes, k)| < n
  }

  ghost predicate SameSum(votes: seq<Vote>, tick: int) {
    forall i, j :: 0 <= i < |votes| && 0 <= j < |votes| && votes[i].tick == tick && votes[j].tick == tick ==>
      votes[i].crc == votes[j].crc
  }

  ghost function EqualRounds(votes: seq<Vote>, n: nat): set<int> {
    set k | k in Rounds(votes, n) && SameSum(votes, k)
  }

  ghost function UnequalRounds(votes: seq<Vote>, n: nat): set<int> {
    set k | k in Rounds(votes, n) && !SameSum(votes, k)
  }

  /** Players of a match vote once a tick, each for its own seat, and never leave more than 64 ticks open. */
  ghost predicate Fair(votes: seq<Vote>, n: nat) {
    && (forall i :: 0 <= i < |votes| ==> 0 <= votes[i].seat < n)
    && (forall i, j :: 0 <= i < j < |votes| && votes[i].tick == votes[j].tick ==> votes[i].seat != votes[j].seat)
    && (forall m :: 0 <= m <= |votes| ==> |Open(votes[..m], n)| <= CRC_TICKS)
  }

  /** The dictionary holds the open ticks with the votes cast for them. */
  ghost predicate Holds(t: Table, votes: seq<Vote>, n: nat) {
    && t.Keys == Open(votes, n)
    && (forall k :: k in t ==> t[k].Keys == Heard(votes, k))
    && (forall i :: 0 <= i < |votes| && votes[i].tick in t && votes[i].seat in t[votes[i].tick] ==>
          t[votes[i].tick][votes[i].seat] == votes[i].crc)
  }

  // ---- one vote more ------------------------------------------------------

  lemma HeardMore(p: seq<Vote>, v: Vote, k: int)
    ensures Heard(p + [v], k) == if k == v.tick then Heard(p, k) + {v.seat} else Heard(p, k)
    ensures Ticks(p + [v]) == Ticks(p) + {v.tick}
  {
    var q := p + [v];
    assert q[|p|] == v;
    forall x
      ensures x in Heard(q, k) <==> x in (if k == v.tick then Heard(p, k) + {v.seat} else Heard(p, k))
    {
      if x in Heard(p, k) {
        var i :| 0 <= i < |p| && p[i].tick == k && p[i].seat == x;
        assert q[i] == p[i];
      }
    }
    forall x
      ensures x in Ticks(q) <==> x in Ticks(p) + {v.tick}
    {
      if x in Ticks(p) {
        var i :| 0 <= i < |p| && p[i].tick == x;
        assert q[i] == p[i];
      }
    }
  }

  lemma EqualMore(p: seq<Vote>, v: Vote, k: int)
    ensures k != v.tick ==> (SameSum(p + [v], k) <==> SameSum(p, k))
    ensures k == v.tick ==> (SameSum(p + [v], k) <==> forall i :: 0 <= i < |p| && p[i].tick == k ==> p[i].crc == v.crc)
  {
    var q := p + [v];
    assert q[|p|] == v;
    assert forall i :: 0 <= i < |p| ==> q[i] == p[i];
    if k != v.tick && SameSum(q, k) {
      forall i, j | 0 <= i < |p| && 0 <= j < |p| && p[i].tick == k && p[j].tick == k
        ensures p[i].crc == p[j].crc
      {
        assert q[i].crc == q[j].crc;
      }
    }
    if k == v.tick && SameSum(q, k) {
      forall i | 0 <= i < |p| && p[i].tick == k
        ensures p[i].crc == v.crc
      {
        assert q[i].crc == q[|p|].crc;
      }
    }
  }

  ghost function Seats(n: nat): (s: set<int>)
    ensures |s| == n && forall x :: x in s <==> 0 <= x < n
  {
    if n == 0 then {} else Seats(n - 1) + {n - 1}
  }

  /** A seat that has not voted for a tick leaves it open. */
  lemma Missing(p: seq<Vote>, v: Vote, n: nat)
    requires Fair(p + [v], n)
    ensures v.seat !in Heard(p, v.tick) && |Heard(p, v.tick) + {v.seat}| == |Heard(p, v.tick)| + 1 <= n
  {
    var q := p + [v];
    assert q[|p|] == v;
    forall i | 0 <= i < |p| && p[i].tick == v.tick
      ensures p[i].seat != v.seat
    {
      assert q[i].tick == q[|p|].tick && q[i].seat != q[|p|].seat;
    }
    HeardMore(p, v, v.tick);
    forall x | x in Heard(q, v.tick)
      ensures x in Seats(n)
    {
      var i :| 0 <= i < |q| && q[i].tick == v.tick && q[i].seat == x;
    }
    RelayState.Fewer(Heard(q, v.tick), Seats(n));
  }

  lemma FairLess(p: seq<Vote>, v: Vote, n: nat)
    requires Fair(p + [v], n)
    ensures Fair(p, n) && |Open(p, n)| <= CRC_TICKS && |Open(p + [v], n)| <= CRC_TICKS
  {
    hide Open;
    var q := p + [v];
    assert forall i :: 0 <= i < |p| ==> q[i] == p[i];
    forall m | 0 <= m <= |p|
      ensures |Open(p[..m], n)| <= CRC_TICKS
    {
      assert q[..m] == p[..m];
    }
    assert p[..|p|] == p && q[..|q|] == q;
  }

  lemma RoundsMore(p: seq<Vote>, v: Vote, n: nat)
    requires Fair(p + [v], n) && n >= 2
    ensures var q, last := p + [v], |Heard(p, v.tick)| + 1 == n;
            && v.tick !in Rounds(p, n)
            && Open(q, n) == (if last then Open(p, n) - {v.tick} else Open(p, n) + {v.tick})
            && Rounds(q, n) == (if last then Rounds(p, n) + {v.tick} else Rounds(p, n))
  {
    hide Fair, Heard, Ticks;
    Missing(p, v, n);
    var q := p + [v];
    forall k
      ensures Heard(q, k) == if k == v.tick then Heard(p, k) + {v.seat} else Heard(p, k)
      ensures Ticks(q) == Ticks(p) + {v.tick}
    {
      HeardMore(p, v, k);
    }
  }

  lemma CountsMore(p: seq<Vote>, v: Vote, n: nat)
    requires Fair(p + [v], n) && n >= 2
    ensures var q, last := p + [v], |Heard(p, v.tick)| + 1 == n;
            && |EqualRounds(q, n)| == |EqualRounds(p, n)| + Bit(last && SameSum(q, v.tick))
            && |UnequalRounds(q, n)| == |UnequalRounds(p, n)| + Bit(last && !SameSum(q, v.tick))
  {
    hide Fair, Heard, Open, Rounds, SameSum;
    RoundsMore(p, v, n);
    var q, last := p + [v], |Heard(p, v.tick)| + 1 == n;
    forall k | k != v.tick
      ensures SameSum(q, k) <==> SameSum(p, k)
    {
      EqualMore(p, v, k);
    }
    assert EqualRounds(q, n) == if last && SameSum(q, v.tick) then EqualRounds(p, n) + {v.tick} else EqualRounds(p, n);
    assert UnequalRounds(q, n) == if last && !SameSum(q, v.tick) then UnequalRounds(p, n) + {v.tick} else UnequalRounds(p, n);
  }

  lemma HoldsOk(t: Table, p: seq<Vote>, n: nat)
    requires Holds(t, p, n) && Fair(p, n)
    ensures TableOk(t, n)
  {
    assert |t.Keys| == |t|;
    assert p[..|p|] == p;
    forall k | k in t
      ensures 0 < |t[k]| < n
    {
      assert |t[k].Keys| == |t[k]|;
      var i :| 0 <= i < |p| && p[i].tick == k;
      assert p[i].seat in Heard(p, k);
    }
  }

  /** The vote against the dictionary. */
  lemma VoteCounts(t: Table, p: seq<Vote>, v: Vote, n: nat)
    requires Holds(t, p, n) && Fair(p + [v], n) && n >= 2
    ensures TableOk(t, n)
    ensures SeatsIn(t, v.tick, v.seat) == Heard(p, v.tick) + {v.seat}
    ensures (forall a :: v.tick in t && a in t[v.tick] && a != v.seat ==> t[v.tick][a] == v.crc) <==> SameSum(p + [v], v.tick)
    ensures |t.Keys + {v.tick}| <= CRC_TICKS
  {
    hide Fair, SameSum, Heard, Open, TableOk, Holds;
    FairLess(p, v, n);
    HoldsOk(t, p, n);
    Missing(p, v, n);
    EqualMore(p, v, v.tick);
    VotesThere(t, p, v.tick, n);
    NobodyOut(t, p, v, n);
    forall i | 0 <= i < |p| && p[i].tick == v.tick
      ensures p[i].seat != v.seat
    {
      OwnSeat(p, v, n, i);
    }
  }

  /** At most 64 ticks are open before the vote and after it. */
  lemma NobodyOut(t: Table, p: seq<Vote>, v: Vote, n: nat)
    requires Holds(t, p, n) && Fair(p + [v], n) && n >= 2
    ensures |t.Keys + {v.tick}| <= CRC_TICKS
  {
    hide Fair, Heard;
    FairLess(p, v, n);
    Missing(p, v, n);
    RoundsMore(p, v, n);
    VotesThere(t, p, v.tick, n);
    assert t.Keys + {v.tick} == if v.tick in t then t.Keys else Open(p + [v], n);
  }

  lemma VotesThere(t: Table, p: seq<Vote>, k: int, n: nat)
    requires Holds(t, p, n) && n >= 1 && |Heard(p, k)| < n
    ensures k in t <==> Heard(p, k) != {}
    ensures k in t ==> t[k].Keys == Heard(p, k)
    ensures forall i :: 0 <= i < |p| && p[i].tick == k ==> k in t && p[i].seat in t[k] && t[k][p[i].seat] == p[i].crc
    ensures forall a :: k in t && a in t[k] ==> exists i :: 0 <= i < |p| && p[i].tick == k && p[i].seat == a
  {
    forall i | 0 <= i < |p| && p[i].tick == k
      ensures k in t && p[i].seat in t[k]
    {
      assert k in Ticks(p) && p[i].seat in Heard(p, k);
    }
    if k in t { assert k in Ticks(p); }
  }

  lemma HoldsMore(t: Table, p: seq<Vote>, v: Vote, n: nat)
    requires Holds(t, p, n) && Fair(p + [v], n) && n >= 2
    ensures TableOk(t, n) && Holds(Logged(t, v.tick, v.seat, v.crc, n).0, p + [v], n)
  {
    hide Fair, Logged, Open, PushedOut, Heard, TableOk, SeatsIn;
    VoteCounts(t, p, v, n);
    Missing(p, v, n);
    RoundsMore(p, v, n);
    var q, u := p + [v], Logged(t, v.tick, v.seat, v.crc, n).0;
    forall k
      ensures k in u ==> u[k].Keys == Heard(q, k)
    {
      Stored(t, v.tick, v.seat, v.crc, n, k);
      HeardMore(p, v, k);
    }
    forall i | 0 <= i < |q| && q[i].tick in u && q[i].seat in u[q[i].tick]
      ensures u[q[i].tick][q[i].seat] == q[i].crc
    {
      CrcKept(t, p, v, n, i);
    }
    StoredKeys(t, v.tick, v.seat, v.crc, n);
    assert u.Keys == Open(q, n);
  }

  lemma CrcKept(t: Table, p: seq<Vote>, v: Vote, n: nat, i: nat)
    requires Holds(t, p, n) && Fair(p + [v], n) && n >= 2 && TableOk(t, n) && i < |p + [v]|
    ensures var u, x := Logged(t, v.tick, v.seat, v.crc, n).0, (p + [v])[i];
            x.tick in u && x.seat in u[x.tick] ==> u[x.tick][x.seat] == x.crc
  {
    hide Fair, Logged, Open, PushedOut, Heard, TableOk;
    var u, x := Logged(t, v.tick, v.seat, v.crc, n).0, (p + [v])[i];
    Stored(t, v.tick, v.seat, v.crc, n, x.tick);
    if i < |p| { assert x == p[i]; }
    if i < |p| && x.tick == v.tick {
      Missing(p, v, n);
      VotesThere(t, p, v.tick, n);
      OwnSeat(p, v, n, i);
    }
  }

  lemma OwnSeat(p: seq<Vote>, v: Vote, n: nat, i: nat)
    requires Fair(p + [v], n) && i < |p| && p[i].tick == v.tick
    ensures p[i].seat != v.seat
  {
    var q := p + [v];
    assert q[i] == p[i] && q[|p|] == v;
  }

  /**
   Over any fair run of votes from the start of a match: `crc ok` counts exactly
   the ticks all seats have voted for with equal checksums, the mismatches are
   exactly the others all have voted for, and the dictionary holds the rest.
   */
  lemma {:induction false} CountsRounds(votes: seq<Vote>, n: nat)
    requires Fair(votes, n) && n >= 2
    ensures var r := Tally(votes, n);
            && r.1 == |EqualRounds(votes, n)| && r.2 == |UnequalRounds(votes, n)|
            && Holds(r.0, votes, n)
    decreases |votes|
  {
    hide Fair, Logged, Holds;
    if votes == [] {
      assert Holds(map[], [], n) by { NoVotes(n); }
      assert EqualRounds([], n) == {} && UnequalRounds([], n) == {};
    } else {
      var p, v := votes[..|votes| - 1], votes[|votes| - 1];
      assert votes == p + [v];
      FairLess(p, v, n);
      CountsRounds(p, n);
      var t := Tally(p, n).0;
      HoldsMore(t, p, v, n);
      VoteCounts(t, p, v, n);
      Missing(p, v, n);
      Verdicts(t, v.tick, v.seat, v.crc, n);
      CountsMore(p, v, n);
    }
  }

  lemma NoVotes(n: nat)
    ensures Holds(map[], [], n)
  {
  }
}
