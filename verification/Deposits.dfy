/** database/deposits.go: counting confirmations of stored deposits. */
module Deposits {
  import opened Prelude
  import opened BigInt
  import opened Classifier

  const UNSAFE := "unsafe"
  const FINALIZED := "finalized"

  datatype DepositRow = DepositRow(blockNumber: nat, hash: string, confirms: nat, status: string)

  /** The status the query asks for: the code compares with 0, the rows it means carry "unsafe". */
  function Pending(policy: Policy): string {
    if policy.AsWritten? then "0" else UNSAFE
  }

  predicate Selected(policy: Policy, row: DepositRow, blockNumber: nat) {
    row.blockNumber <= blockNumber && row.status == Pending(policy)
  }

  /** uint8(u) */
  function Uint8(u: nat): (b: nat)
    ensures b < 256 && (u < 256 ==> b == u)
  {
    u % 256
  }

  /** One row of the loop, with the uint64 subtraction and the uint8 conversions of the code. */
  function ConfirmRow(policy: Policy, row: DepositRow, blockNumber: nat, confirms: nat): DepositRow {
    if !Selected(policy, row, blockNumber) then row
    else
      var chainConfirm := Wrap64(blockNumber - Uint64(row.blockNumber));
      if chainConfirm >= confirms then row.(confirms := Uint8(confirms), status := FINALIZED)
      else row.(confirms := Uint8(chainConfirm))
  }

  function ConfirmAll(policy: Policy, rows: seq<DepositRow>, blockNumber: nat, confirms: nat): (r: seq<DepositRow>)
    ensures |r| == |rows|
  {
    seq(|rows|, i requires 0 <= i < |rows| => ConfirmRow(policy, rows[i], blockNumber, confirms))
  }

  /**
   * No wrap-around, no truncation: a selected deposit gets min(depth, threshold), and is finalized exactly at the
   * threshold.
   */
  lemma ConfirmIsExact(row: DepositRow, blockNumber: nat, confirms: nat)
    requires blockNumber < TWO_64 && confirms <= 255 && row.status == UNSAFE
    ensures var r := ConfirmRow(AsMeant, row, blockNumber, confirms);
            && (row.blockNumber <= blockNumber ==> r.confirms == Min(blockNumber - row.blockNumber, confirms))
            && (r.status == FINALIZED <==> row.blockNumber + confirms <= blockNumber)
            && (r.status != FINALIZED ==> r.status == UNSAFE)
  {
  }

  /** A second confirmation takes confirmations back exactly when it is lower and the deposit is not final. */
  lemma LowerHeightTakesBackIff(row: DepositRow, h1: nat, h2: nat, confirms: nat)
    requires row.status == UNSAFE && row.confirms == 0 && h1 < TWO_64 && h2 < TWO_64 && confirms <= 255
    ensures var first := ConfirmRow(AsMeant, row, h1, confirms);
            ConfirmRow(AsMeant, first, h2, confirms).confirms < first.confirms
            <==> row.blockNumber <= h2 < h1 && h1 - row.blockNumber < confirms
  {
    var first := ConfirmRow(AsMeant, row, h1, confirms);
    ConfirmIsExact(row, h1, confirms);
    assert FINALIZED != UNSAFE by { assert |FINALIZED| != |UNSAFE|; }
    if first.status == UNSAFE {
      ConfirmIsExact(first, h2, confirms);
    }
  }

  lemma RowFuses(policy: Policy, row: DepositRow, h1: nat, h2: nat, confirms: nat)
    requires h1 <= h2 < TWO_64
    ensures ConfirmRow(policy, ConfirmRow(policy, row, h1, confirms), h2, confirms)
            == ConfirmRow(policy, row, h2, confirms)
  {
    assert row.blockNumber <= h1 ==> Wrap64(h1 - Uint64(row.blockNumber)) == h1 - row.blockNumber;
    assert row.blockNumber <= h2 ==> Wrap64(h2 - Uint64(row.blockNumber)) == h2 - row.blockNumber;
    assert FINALIZED != Pending(policy) by {
      assert |FINALIZED| != |Pending(policy)|;
    }
  }

  /** One call of the worker: deposits are stored, then all are confirmed against the height of the batch. */
  datatype Call = Call(stored: seq<DepositRow>, height: nat)

  function Replay(policy: Policy, rows: seq<DepositRow>, calls: seq<Call>, confirms: nat): seq<DepositRow>
    decreases |calls|
  {
    if calls == [] then rows
    else Replay(policy, ConfirmAll(policy, rows + calls[0].stored, calls[0].height, confirms), calls[1..], confirms)
  }

  function AllStored(calls: seq<Call>): seq<DepositRow> {
    if calls == [] then [] else calls[0].stored + AllStored(calls[1..])
  }

  predicate Nondecreasing(calls: seq<Call>) {
    forall i, j | 0 <= i < j < |calls| :: calls[i].height <= calls[j].height
  }

  lemma ConfirmFuses(policy: Policy, rows: seq<DepositRow>, more: seq<DepositRow>, h1: nat, h2: nat, confirms: nat)
    requires h1 <= h2 < TWO_64
    ensures ConfirmAll(policy, ConfirmAll(policy, rows, h1, confirms) + more, h2, confirms)
            == ConfirmAll(policy, rows + more, h2, confirms)
  {
    forall i | 0 <= i < |rows|
      ensures ConfirmRow(policy, ConfirmRow(policy, rows[i], h1, confirms), h2, confirms)
              == ConfirmRow(policy, rows[i], h2, confirms)
    {
      RowFuses(policy, rows[i], h1, h2, confirms);
    }
    hide ConfirmRow;
    var a := ConfirmAll(policy, ConfirmAll(policy, rows, h1, confirms) + more, h2, confirms);
    var b := ConfirmAll(policy, rows + more, h2, confirms);
    forall i | 0 <= i < |rows| + |more| ensures a[i] == b[i] {
      if i < |rows| {
        assert (rows + more)[i] == rows[i];
      }
    }
  }

  /** Any history of calls with nondecreasing heights leaves the table that one call at the last height leaves. */
  lemma {:induction false} HistoryFuses(policy: Policy, rows: seq<DepositRow>, calls: seq<Call>, confirms: nat)
    requires calls != [] && Nondecreasing(calls) && calls[|calls| - 1].height < TWO_64
    ensures Replay(policy, rows, calls, confirms)
            == ConfirmAll(policy, rows + AllStored(calls), calls[|calls| - 1].height, confirms)
    decreases |calls|
  {
    hide ConfirmAll;
    var first, rest := calls[0], calls[1..];
    if rest == [] {
      assert AllStored(rest) == [] && calls == [first];
      assert rows + AllStored(calls) == rows + first.stored;
    } else {
      var last := calls[|calls| - 1];
      assert rest[|rest| - 1] == last;
      HistoryFuses(policy, ConfirmAll(policy, rows + first.stored, first.height, confirms), rest, confirms);
      ConfirmFuses(policy, rows + first.stored, AllStored(rest), first.height, last.height, confirms);
      AppendAssociates(rows, first.stored, AllStored(rest));
    }
  }

  /** What each deposit of such a history ends with. */
  lemma HistoryConfirms(rows: seq<DepositRow>, calls: seq<Call>, confirms: nat, i: nat)
    requires calls != [] && Nondecreasing(calls) && calls[|calls| - 1].height < TWO_64 && confirms <= 255
    requires i < |rows + AllStored(calls)| && (rows + AllStored(calls))[i].status == UNSAFE
    ensures var row := (rows + AllStored(calls))[i];
            var h := calls[|calls| - 1].height;
            var after := Replay(AsMeant, rows, calls, confirms);
            && |after| == |rows + AllStored(calls)|
            && after[i].blockNumber == row.blockNumber && after[i].hash == row.hash
            && (row.blockNumber <= h ==> after[i].confirms == Min(h - row.blockNumber, confirms))
            && (row.blockNumber > h ==> after[i] == row)
            && (after[i].status == FINALIZED <==> row.blockNumber + confirms <= h)
  {
    HistoryFuses(AsMeant, rows, calls, confirms);
    ConfirmIsExact((rows + AllStored(calls))[i], calls[|calls| - 1].height, confirms);
  }

  /** As written the query matches no row that carries a status, so no call ever changes the table. */
  lemma {:induction false} AsWrittenConfirmsNothing(rows: seq<DepositRow>, calls: seq<Call>, confirms: nat)
    requires forall row | row in rows + AllStored(calls) :: row.status == UNSAFE || row.status == FINALIZED
    ensures Replay(AsWritten, rows, calls, confirms) == rows + AllStored(calls)
    decreases |calls|
  {
    if calls != [] {
      var first := calls[0];
      AppendAssociates(rows, first.stored, AllStored(calls[1..]));
      var stored := rows + first.stored;
      forall i | 0 <= i < |stored| ensures ConfirmRow(AsWritten, stored[i], first.height, confirms) == stored[i] {
        assert stored[i] in rows + AllStored(calls);
      }
      assert ConfirmAll(AsWritten, stored, first.height, confirms) == stored;
      AsWrittenConfirmsNothing(stored, calls[1..], confirms);
    }
  }

  /** A stored deposit that a confirmation at `blockNumber` finalizes. */
  predicate Finalizes(row: DepositRow, blockNumber: nat, confirms: nat) {
    ConfirmRow(AsMeant, row, blockNumber, confirms).status == FINALIZED
  }

  /**
   * The worker keeps its threshold in eight bits: deposits are finalized at the configured depth, and not before,
   * exactly when the configured threshold is at most 255.
   */
  lemma ThresholdIsConfiguredIff(configured: nat)
    ensures (forall row: DepositRow, blockNumber: nat | row.status == UNSAFE && blockNumber < TWO_64 ::
               Finalizes(row, blockNumber, Uint8(configured)) <==> row.blockNumber + configured <= blockNumber)
            <==> configured <= 255
  {
    if configured <= 255 {
      forall row: DepositRow, blockNumber: nat | row.status == UNSAFE && blockNumber < TWO_64
        ensures Finalizes(row, blockNumber, Uint8(configured)) <==> row.blockNumber + configured <= blockNumber
      {
        ConfirmIsExact(row, blockNumber, configured);
      }
    } else {
      var row := DepositRow(0, "", 0, UNSAFE);
      ConfirmIsExact(row, Uint8(configured), Uint8(configured));
      assert Finalizes(row, Uint8(configured), Uint8(configured));
    }
  }

  /** A threshold of 256 wraps to nothing: a deposit is final as soon as its own block is handled. */
  lemma ThresholdWraps(row: DepositRow, configured: nat)
    requires row.status == UNSAFE && row.blockNumber < TWO_64
    ensures Uint8(configured + 256) == Uint8(configured)
    ensures Finalizes(row, row.blockNumber, Uint8(256))
  {
    ConfirmIsExact(row, row.blockNumber, Uint8(256));
  }

  class DepositsDB {
    var rows: seq<DepositRow>

    constructor ()
      ensures rows == []
    {
      rows := [];
    }

    method StoreDeposits(depositList: seq<DepositRow>)
      modifies this
      ensures rows == old(rows) + depositList
    {
      rows := rows + depositList;
    }

    /** The query: positions of the selected rows, in table order. */
    static function Query(policy: Policy, rows: seq<DepositRow>, blockNumber: nat): (found: seq<nat>)
      ensures forall k | 0 <= k < |found| :: found[k] < |rows| && Selected(policy, rows[found[k]], blockNumber)
      ensures Ascending(found)
      ensures forall i: nat | i < |rows| && Selected(policy, rows[i], blockNumber) :: i in found
    {
      if rows == [] then []
      else
        var n := |rows| - 1;
        var init := Query(policy, rows[..n], blockNumber);
        if Selected(policy, rows[n], blockNumber) then init + [n] else init
    }

    method UpdateDepositsComfirms(policy: Policy, blockNumber: nat, confirms: nat)
      requires blockNumber < TWO_64
      modifies this
      ensures rows == ConfirmAll(policy, old(rows), blockNumber, confirms)
    {
      var unConfirmDeposits := Query(policy, rows, blockNumber);
      ghost var before := rows;
      var k := 0;
      while k < |unConfirmDeposits|
        invariant 0 <= k <= |unConfirmDeposits|
        invariant |rows| == |before|
        invariant forall i: nat | i < |rows| ::
                    rows[i] == if i in unConfirmDeposits[..k] then ConfirmRow(policy, before[i], blockNumber, confirms)
                               else before[i]
      {
        var i := unConfirmDeposits[k];
        assert i !in unConfirmDeposits[..k];
        var deposit := rows[i];
        var chainConfirm := Wrap64(blockNumber - Uint64(deposit.blockNumber));
        if chainConfirm >= confirms {
          deposit := deposit.(confirms := Uint8(confirms), status := FINALIZED);
        } else {
          deposit := deposit.(confirms := Uint8(chainConfirm));
        }
        rows := rows[i := deposit];
        assert unConfirmDeposits[..k + 1] == unConfirmDeposits[..k] + [i];
        k := k + 1;
      }
      assert unConfirmDeposits[..k] == unConfirmDeposits;
    }
  }
}
