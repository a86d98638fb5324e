/** The retention sweep: deleting the audit rows older than a cutoff, a bounded batch per call. */
module Retention {
  import opened Basics

  datatype Row = Row(id: int, createdAt: int)

  predicate Old(r: Row, cutoff: int) { r.createdAt < cutoff }

  /** The rows that stay, in their order. */
  function NotOlder(rows: seq<Row>, cutoff: int): seq<Row> {
    if rows == [] then []
    else (if Old(rows[0], cutoff) then [] else [rows[0]]) + NotOlder(rows[1..], cutoff)
  }

  function CountOld(rows: seq<Row>, cutoff: int): nat {
    if rows == [] then 0 else (if Old(rows[0], cutoff) then 1 else 0) + CountOld(rows[1..], cutoff)
  }

  /** Without the first `n` old rows. */
  function Purged(rows: seq<Row>, cutoff: int, n: int): seq<Row> {
    if rows == [] || n <= 0 then rows
    else if Old(rows[0], cutoff) then Purged(rows[1..], cutoff, n - 1)
    else [rows[0]] + Purged(rows[1..], cutoff, n)
  }

  lemma {:induction false} PurgedTwice(rows: seq<Row>, cutoff: int, n: nat, m: nat)
    ensures Purged(Purged(rows, cutoff, n), cutoff, m) == Purged(rows, cutoff, n + m)
  {
    if rows != [] && n > 0 {
      if Old(rows[0], cutoff) {
        PurgedTwice(rows[1..], cutoff, n - 1, m);
      } else {
        PurgedTwice(rows[1..], cutoff, n, m);
        var p := Purged(rows, cutoff, n);
        assert p[0] == rows[0] && p[1..] == Purged(rows[1..], cutoff, n);
      }
    }
  }

  lemma {:induction false} PurgedCounts(rows: seq<Row>, cutoff: int, n: nat)
    ensures CountOld(Purged(rows, cutoff, n), cutoff) == CountOld(rows, cutoff) - Min(n, CountOld(rows, cutoff))
    ensures CountOld(rows, cutoff) <= n ==> Purged(rows, cutoff, n) == NotOlder(rows, cutoff)
  {
    if rows != [] && n > 0 {
      PurgedCounts(rows[1..], cutoff, if Old(rows[0], cutoff) then n - 1 else n);
    } else if rows != [] {
      AllYoung(rows, cutoff);
    }
  }

  lemma {:induction false} AllYoung(rows: seq<Row>, cutoff: int)
    ensures CountOld(rows, cutoff) == 0 ==> NotOlder(rows, cutoff) == rows
  {
    if rows != [] {
      AllYoung(rows[1..], cutoff);
    }
  }

  /** One row more at the end, as the delete loop meets it. */
  lemma {:induction false} PurgedSnoc(rows: seq<Row>, last: Row, cutoff: int, n: nat)
    ensures Purged(rows + [last], cutoff, n) ==
            Purged(rows, cutoff, n) + (if Old(last, cutoff) && CountOld(rows, cutoff) < n then [] else [last])
    ensures CountOld(rows + [last], cutoff) == CountOld(rows, cutoff) + (if Old(last, cutoff) then 1 else 0)
  {
    if rows == [] {
      assert [] + [last] == [last];
    } else {
      assert (rows + [last])[1..] == rows[1..] + [last];
      PurgedSnoc(rows[1..], last, cutoff, if n > 0 && Old(rows[0], cutoff) then n - 1 else n);
    }
  }

  ghost predicate Ascending(at: seq<int>) {
    forall i, j :: 0 <= i < j < |at| ==> at[i] < at[j]
  }

  /** `at` holds the places of exactly the rows that are not old. */
  ghost predicate YoungPlaces(rows: seq<Row>, cutoff: int, at: seq<int>) {
    && (forall j :: 0 <= j < |at| ==> 0 <= at[j] < |rows|)
    && (forall i :: 0 <= i < |rows| ==> (i in at <==> rows[i].createdAt >= cutoff))
  }

  /** `kept` are the rows at these places, one after the other. */
  ghost predicate RowsAt(rows: seq<Row>, at: seq<int>, kept: seq<Row>) {
    |kept| == |at| && forall j :: 0 <= j < |at| ==> 0 <= at[j] < |rows| && kept[j] == rows[at[j]]
  }

  function Shift(at: seq<int>): (r: seq<int>)
    ensures |r| == |at| && forall j :: 0 <= j < |at| ==> r[j] == at[j] + 1
  {
    seq(|at|, j requires 0 <= j < |at| => at[j] + 1)
  }

  lemma ShiftedPlaces(rows: seq<Row>, cutoff: int, rest: seq<int>, at: seq<int>)
    requires rows != [] && YoungPlaces(rows[1..], cutoff, rest)
    requires at == if Old(rows[0], cutoff) then Shift(rest) else [0] + Shift(rest)
    ensures YoungPlaces(rows, cutoff, at)
  {
    forall i | 0 <= i < |rows| ensures i in at <==> rows[i].createdAt >= cutoff {
      if i > 0 {
        assert rows[1..][i - 1] == rows[i];
        assert i in Shift(rest) ==> i - 1 in rest;
        assert i - 1 in rest ==> exists j :: 0 <= j < |rest| && rest[j] == i - 1 && Shift(rest)[j] == i;
      }
    }
  }

  lemma ShiftedRows(rows: seq<Row>, rest: seq<int>, kept: seq<Row>)
    requires rows != [] && RowsAt(rows[1..], rest, kept)
    ensures RowsAt(rows, Shift(rest), kept) && RowsAt(rows, [0] + Shift(rest), [rows[0]] + kept)
  {
    forall j | 0 <= j < |rest| ensures kept[j] == rows[Shift(rest)[j]] {
      assert rows[1..][rest[j]] == rows[rest[j] + 1];
    }
  }

  lemma ShiftedAscends(rows: seq<Row>, cutoff: int, rest: seq<int>)
    requires rows != [] && Ascending(rest) && YoungPlaces(rows[1..], cutoff, rest)
    ensures Ascending(Shift(rest)) && Ascending([0] + Shift(rest))
  {}

  /** What `at` has to be for these rows. */
  ghost predicate KeptAt(rows: seq<Row>, cutoff: int, at: seq<int>) {
    Ascending(at) && YoungPlaces(rows, cutoff, at) && RowsAt(rows, at, NotOlder(rows, cutoff))
  }

  lemma KeptFirst(rows: seq<Row>, cutoff: int, rest: seq<int>)
    requires rows != [] && KeptAt(rows[1..], cutoff, rest)
    ensures KeptAt(rows, cutoff, if Old(rows[0], cutoff) then Shift(rest) else [0] + Shift(rest))
  {
    ShiftedAscends(rows, cutoff, rest);
    ShiftedPlaces(rows, cutoff, rest, if Old(rows[0], cutoff) then Shift(rest) else [0] + Shift(rest));
    ShiftedRows(rows, rest, NotOlder(rows[1..], cutoff));
    assert [] + NotOlder(rows[1..], cutoff) == NotOlder(rows[1..], cutoff);
  }

  /** The rows that stay are exactly those that are not old, in the order they had. */
  lemma {:induction false} NotOlderKeepsExactly(rows: seq<Row>, cutoff: int) returns (at: seq<int>)
    ensures Ascending(at) && YoungPlaces(rows, cutoff, at) && RowsAt(rows, at, NotOlder(rows, cutoff))
  {
    at := [];
    if rows != [] {
      var rest := NotOlderKeepsExactly(rows[1..], cutoff);
      at := if Old(rows[0], cutoff) then Shift(rest) else [0] + Shift(rest);
      KeptFirst(rows, cutoff, rest);
    }
  }

  /** The places of the rows that are older than the cutoff. */
  function OldPlaces(rows: seq<Row>, cutoff: int): set<int> {
    set i | 0 <= i < |rows| && rows[i].createdAt < cutoff
  }

  lemma OldPlacesSnoc(rows: seq<Row>, last: Row, cutoff: int)
    ensures var more := OldPlaces(rows, cutoff) + (if last.createdAt < cutoff then {|rows|} else {});
            OldPlaces(rows + [last], cutoff) == more
            && |more| == |OldPlaces(rows, cutoff)| + (if last.createdAt < cutoff then 1 else 0)
  {
    forall i ensures i in OldPlaces(rows + [last], cutoff) <==>
                     i in OldPlaces(rows, cutoff) || (last.createdAt < cutoff && i == |rows|)
    {
      if 0 <= i < |rows| { assert (rows + [last])[i] == rows[i]; }
    }
  }

  lemma {:induction false} CountOldIsNumber(rows: seq<Row>, cutoff: int)
    ensures CountOld(rows, cutoff) == |OldPlaces(rows, cutoff)|
  {
    if rows == [] {
      assert OldPlaces(rows, cutoff) == {};
    } else {
      var before, last := rows[..|rows| - 1], rows[|rows| - 1];
      assert rows == before + [last];
      CountOldIsNumber(before, cutoff);
      PurgedSnoc(before, last, cutoff, 0);
      OldPlacesSnoc(before, last, cutoff);
    }
  }

  /** `at` holds the places of exactly the rows that are not among the first n older than the cutoff. */
  ghost predicate SparedPlaces(rows: seq<Row>, cutoff: int, n: nat, at: seq<int>) {
    && (forall j :: 0 <= j < |at| ==> 0 <= at[j] < |rows|)
    && (forall i :: 0 <= i < |rows| ==> (i in at <==> rows[i].createdAt >= cutoff || |OldPlaces(rows[..i], cutoff)| >= n))
  }

  lemma SparedOneMore(rows: seq<Row>, last: Row, cutoff: int, n: nat, at: seq<int>)
    requires Ascending(at) && SparedPlaces(rows, cutoff, n, at)
    ensures var spared := last.createdAt >= cutoff || |OldPlaces(rows, cutoff)| >= n;
            var more := if spared then at + [|rows|] else at;
            Ascending(more) && SparedPlaces(rows + [last], cutoff, n, more)
  {
    var all := rows + [last];
    assert all[..|rows|] == rows;
    forall i | 0 <= i < |rows| ensures all[i] == rows[i] && all[..i] == rows[..i] {}
  }

  /** Purging n rows takes the first n that are older than the cutoff: a row stays, in its order, if and only if
      it is not older, or n older ones come before it. */
  lemma {:induction false} PurgedTakesFirst(rows: seq<Row>, cutoff: int, n: nat) returns (at: seq<int>)
    ensures Ascending(at) && SparedPlaces(rows, cutoff, n, at) && RowsAt(rows, at, Purged(rows, cutoff, n))
  {
    at := [];
    if rows != [] {
      var before, last := rows[..|rows| - 1], rows[|rows| - 1];
      assert rows == before + [last];
      at := PurgedTakesFirst(before, cutoff, n);
      SparedOneMore(before, last, cutoff, n, at);
      CountOldIsNumber(before, cutoff);
      RowsOneMore(before, last, cutoff, n, at);
      if last.createdAt >= cutoff || |OldPlaces(before, cutoff)| >= n { at := at + [|before|]; }
    }
  }

  lemma RowsOneMore(rows: seq<Row>, last: Row, cutoff: int, n: nat, at: seq<int>)
    requires RowsAt(rows, at, Purged(rows, cutoff, n))
    ensures var spared := last.createdAt >= cutoff || CountOld(rows, cutoff) >= n;
            RowsAt(rows + [last], if spared then at + [|rows|] else at, Purged(rows + [last], cutoff, n))
  {
    PurgedSnoc(rows, last, cutoff, n);
  }

  /** What a delete call of a sweep meets: it goes through, it fails, or the context is done before it. */
  datatype Weather = Fine | Fails | Cancelled

  class Store {
    var audit: seq<Row>

    constructor (rows: seq<Row>)
      ensures audit == rows
    {
      audit := rows;
    }

    /** DeleteAuditOlderThan of the in-memory store. */
    method DeleteOlderThan(cutoff: int, batchSize: int) returns (deleted: int)
      requires batchSize >= 0
      modifies this
      ensures audit == Purged(old(audit), cutoff, batchSize)
      ensures deleted == Min(batchSize, CountOld(old(audit), cutoff))
    {
      var kept: seq<Row> := [];
      deleted := 0;
      var i := 0;
      while i < |audit|
        invariant 0 <= i <= |audit| && audit == old(audit)
        invariant kept == Purged(audit[..i], cutoff, batchSize)
        invariant deleted == Min(batchSize, CountOld(audit[..i], cutoff))
      {
        var e := audit[i];
        PurgedSnoc(audit[..i], e, cutoff, batchSize);
        assert audit[..i + 1] == audit[..i] + [e];
        if e.createdAt < cutoff && deleted < batchSize {
          deleted := deleted + 1;
        } else {
          kept := kept + [e];
        }
        i := i + 1;
      }
      assert audit[..i] == audit;
      audit := kept;
    }

    /** Sweep. `calls` counts the delete calls that went through. Whatever happens, they have removed
        the first calls * batchSize old rows and nothing else. The sweep stops after the first call that
        was not filled, when a call fails, or when it sees the cancellation before a call; in fine weather
        it ends after the quotient plus one calls and only the rows not older than the cutoff are left. */
    method Sweep(cutoff: int, batchSize: int, weather: int -> Weather) returns (ok: bool, total: int, ghost calls: nat)
      requires batchSize >= 1
      modifies this
      ensures audit == Purged(old(audit), cutoff, calls * batchSize)
      ensures total == Min(calls * batchSize, CountOld(old(audit), cutoff))
      ensures forall i :: 0 <= i < calls ==> weather(i) == Fine && i * batchSize <= CountOld(old(audit), cutoff)
      ensures calls * batchSize <= CountOld(old(audit), cutoff) ==> weather(calls) == if ok then Cancelled else Fails
      ensures calls * batchSize > CountOld(old(audit), cutoff) ==> ok
      ensures (forall i :: weather(i) == Fine) ==>
                && ok && calls == CountOld(old(audit), cutoff) / batchSize + 1
                && audit == NotOlder(old(audit), cutoff) && total == CountOld(old(audit), cutoff)
    {
      total := 0;
      calls := 0;
      ghost var count := CountOld(audit, cutoff);
      ghost var rows := audit;
      var i := 0;
      assert Purged(rows, cutoff, 0) == rows;
      while weather(i) != Cancelled
        invariant i == calls && audit == Purged(rows, cutoff, calls * batchSize)
        invariant total == Min(calls * batchSize, count) && CountOld(audit, cutoff) == count - total
        invariant calls * batchSize <= count
        invariant forall j :: 0 <= j < calls ==> weather(j) == Fine && j * batchSize <= count
        decreases count - calls * batchSize
      {
        if weather(i) == Fails {
          return false, total, calls;
        }
        PurgedTwice(rows, cutoff, calls * batchSize, batchSize);
        PurgedCounts(audit, cutoff, batchSize);
        var deleted := DeleteOlderThan(cutoff, batchSize);
        calls := calls + 1;
        assert calls * batchSize == (calls - 1) * batchSize + batchSize;
        i := i + 1;
        total := total + deleted;
        if deleted < batchSize {
          PurgedCounts(rows, cutoff, calls * batchSize);
          Quotient(count, batchSize, calls - 1);
          return true, total, calls;
        }
      }
      return true, total, calls;
    }
  }

  lemma Quotient(count: nat, size: nat, q: nat)
    requires size >= 1 && q * size <= count < (q + 1) * size
    ensures count / size == q
  {
    assert (q + 1) * size == q * size + size;
    var r := count - q * size;
    assert count == q * size + r && 0 <= r < size;
    QuotientUnique(count, size, q, count / size);
  }

  lemma QuotientUnique(count: int, size: int, p: int, q: int)
    requires size >= 1 && p * size <= count < p * size + size && q * size <= count < q * size + size
    ensures p == q
  {
    assert (p + 1) * size == p * size + size && (q + 1) * size == q * size + size;
    if p < q { Times(p + 1, q, size); }
    if q < p { Times(q + 1, p, size); }
  }

  lemma Times(a: int, b: int, size: int)
    requires a <= b && size >= 0
    ensures a * size <= b * size
  {
    assert (b - a) * size >= 0;
  }
}
