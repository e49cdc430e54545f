/** database/balances.go: the ledger of one business, and what a list of movements does to it. */
module Balances {
  import opened Prelude
  import opened Classifier

  datatype Row = Row(address: string, addressType: AddressType, balance: int, lock: int)

  /** Rows in insertion order; an address is looked up by its first row. */
  type Table = seq<Row>

  /** One movement as the deposit worker reports it. */
  datatype TokenBalance = TokenBalance(fromAddress: string, toAddress: string, balance: int, txType: Label)

  /** The column domain UINT256 of the schema. */
  const UINT256_LIMIT: int := 0x1_0000000000000000_0000000000000000_0000000000000000_0000000000000000

  predicate InRange(v: int) {
    0 <= v < UINT256_LIMIT
  }

  /** Position of the first row of an address, or the length of the table. */
  function Find(t: Table, a: string): (i: nat)
    ensures i <= |t|
    ensures i < |t| ==> t[i].address == a
    ensures forall j | 0 <= j < i :: t[j].address != a
  {
    if t == [] then 0 else if t[0].address == a then 0 else 1 + Find(t[1..], a)
  }

  predicate Has(t: Table, a: string) {
    Find(t, a) < |t|
  }

  function BalanceOf(t: Table, a: string): int {
    if Has(t, a) then t[Find(t, a)].balance else 0
  }

  function LockOf(t: Table, a: string): int {
    if Has(t, a) then t[Find(t, a)].lock else 0
  }

  lemma FindIs(t: Table, a: string, i: nat)
    requires i < |t| && t[i].address == a && forall j | 0 <= j < i :: t[j].address != a
    ensures Find(t, a) == i
  {
  }

  /** QueryWalletBalanceByAddress: a missing address gets an empty row at the end. */
  function Ensure(t: Table, ty: AddressType, a: string): (t': Table)
    ensures Has(t', a)
  {
    if Has(t, a) then t
    else
      var t' := t + [Row(a, ty, 0, 0)];
      FindIs(t', a, |t|);
      t'
  }

  function SetRow(t: Table, a: string, balance: int, lock: int): Table
    requires Has(t, a)
  {
    t[Find(t, a) := t[Find(t, a)].(balance := balance, lock := lock)]
  }

  lemma SetRowFinds(t: Table, a: string, balance: int, lock: int, b: string)
    requires Has(t, a)
    ensures Find(SetRow(t, a, balance, lock), b) == Find(t, b)
  {
    var t' := SetRow(t, a, balance, lock);
    assert forall j | 0 <= j < |t| :: t'[j].address == t[j].address;
    if Has(t, b) {
      FindIs(t', b, Find(t, b));
    }
  }

  lemma EnsureFinds(t: Table, ty: AddressType, a: string, b: string)
    ensures BalanceOf(Ensure(t, ty, a), b) == BalanceOf(t, b)
    ensures LockOf(Ensure(t, ty, a), b) == LockOf(t, b)
    ensures Has(Ensure(t, ty, a), b) <==> Has(t, b) || a == b
  {
    var t' := Ensure(t, ty, a);
    if Has(t, b) {
      FindIs(t', b, Find(t, b));
    } else if !Has(t, a) && a == b {
      FindIs(t', b, |t|);
    }
  }

  // ---------------------------------------------------------------------------------------------
  // Movements as legs
  // ---------------------------------------------------------------------------------------------

  /** A credit adds to the balance; a debit replaces the balance by what is locked minus the amount. */
  datatype Leg =
    | Credit(addressType: AddressType, address: string, amount: int)
    | Debit(addressType: AddressType, address: string, amount: int)

  /** The five branches, in the order they save their rows. */
  function Legs(m: TokenBalance): seq<Leg> {
    match m.txType
    case Deposit => [Credit(User, m.toAddress, m.balance)]
    case Withdraw => [Debit(Hot, m.fromAddress, m.balance)]
    case Collection => [Debit(User, m.fromAddress, m.balance), Credit(Hot, m.toAddress, m.balance)]
    case HotToCold => [Debit(Hot, m.fromAddress, m.balance), Credit(Cold, m.toAddress, m.balance)]
    case _ => [Debit(Cold, m.toAddress, m.balance), Credit(Hot, m.fromAddress, m.balance)]
  }

  function AllLegs(list: seq<TokenBalance>): seq<Leg> {
    if list == [] then [] else Legs(list[0]) + AllLegs(list[1..])
  }

  /** The table when the call returns, and whether it returned nil. */
  datatype Applied = Applied(rows: Table, ok: bool)

  function NewBalance(t: Table, leg: Leg): int {
    if leg.Credit? then BalanceOf(t, leg.address) + leg.amount else LockOf(t, leg.address) - leg.amount
  }

  function ApplyLeg(t: Table, leg: Leg): Applied {
    var queried := Ensure(t, leg.addressType, leg.address);
    var v := NewBalance(queried, leg);
    if InRange(v) then Applied(SetRow(queried, leg.address, v, LockOf(queried, leg.address)), true)
    else Applied(queried, false)
  }

  /** Legs in order, up to the first save that the column refuses. */
  function ApplyLegs(t: Table, legs: seq<Leg>): Applied
    decreases |legs|
  {
    if legs == [] then Applied(t, true)
    else
      var first := ApplyLeg(t, legs[0]);
      if first.ok then ApplyLegs(first.rows, legs[1..]) else first
  }

  lemma {:induction false} ApplyInTwo(t: Table, a: seq<Leg>, b: seq<Leg>)
    ensures ApplyLegs(t, a + b) == var first := ApplyLegs(t, a); if first.ok then ApplyLegs(first.rows, b) else first
    decreases |a|
  {
    hide ApplyLeg;
    if a == [] {
      assert a + b == b;
    } else {
      var first := ApplyLeg(t, a[0]);
      if first.ok {
        ApplyInTwo(first.rows, a[1..], b);
      }
      assert (a + b)[0] == a[0] && (a + b)[1..] == a[1..] + b;
    }
  }

  lemma {:induction false} AllLegsInTwo(a: seq<TokenBalance>, b: seq<TokenBalance>)
    ensures AllLegs(a + b) == AllLegs(a) + AllLegs(b)
  {
    hide Legs;
    if a == [] {
      assert a + b == b;
    } else {
      AllLegsInTwo(a[1..], b);
      assert (a + b)[0] == a[0] && (a + b)[1..] == a[1..] + b;
      AppendAssociates(Legs(a[0]), AllLegs(a[1..]), AllLegs(b));
    }
  }

  /** One leg, seen from any address. */
  lemma LegEffect(t: Table, leg: Leg, a: string)
    requires ApplyLeg(t, leg).ok
    ensures var t' := ApplyLeg(t, leg).rows;
            && LockOf(t', a) == LockOf(t, a)
            && BalanceOf(t', a) == (if a == leg.address then NewBalance(t, leg) else BalanceOf(t, a))
            && (Has(t', a) <==> Has(t, a) || a == leg.address)
  {
    var queried := Ensure(t, leg.addressType, leg.address);
    EnsureFinds(t, leg.addressType, leg.address, a);
    EnsureFinds(t, leg.addressType, leg.address, leg.address);
    SetRowFinds(queried, leg.address, NewBalance(queried, leg), LockOf(queried, leg.address), a);
  }

  // ---------------------------------------------------------------------------------------------
  // Closed form per address
  // ---------------------------------------------------------------------------------------------

  function Credits(legs: seq<Leg>, a: string): int {
    if legs == [] then 0
    else (if legs[0].Credit? && legs[0].address == a then legs[0].amount else 0) + Credits(legs[1..], a)
  }

  predicate Debits(leg: Leg, a: string) {
    leg.Debit? && leg.address == a
  }

  /** Position of the last debit of an address, or -1. */
  function LastDebit(legs: seq<Leg>, a: string): (k: int)
    ensures -1 <= k < |legs|
    ensures k >= 0 ==> Debits(legs[k], a)
    ensures forall j | k < j < |legs| :: !Debits(legs[j], a)
  {
    if legs == [] then -1
    else if Debits(legs[|legs| - 1], a) then |legs| - 1
    else LastDebit(legs[..|legs| - 1], a)
  }

  predicate Mentions(legs: seq<Leg>, a: string) {
    exists leg | leg in legs :: leg.address == a
  }

  lemma {:induction false} OnlyCredits(t: Table, legs: seq<Leg>, a: string)
    requires ApplyLegs(t, legs).ok && forall leg | leg in legs :: !Debits(leg, a)
    ensures BalanceOf(ApplyLegs(t, legs).rows, a) == BalanceOf(t, a) + Credits(legs, a)
    decreases |legs|
  {
    if legs != [] {
      assert legs[0] in legs;
      LegEffect(t, legs[0], a);
      OnlyCredits(ApplyLeg(t, legs[0]).rows, legs[1..], a);
    }
  }

  lemma {:induction false} LocksAndRows(t: Table, legs: seq<Leg>, a: string)
    requires ApplyLegs(t, legs).ok
    ensures LockOf(ApplyLegs(t, legs).rows, a) == LockOf(t, a)
    ensures Has(ApplyLegs(t, legs).rows, a) <==> Has(t, a) || Mentions(legs, a)
    decreases |legs|
  {
    if legs != [] {
      LegEffect(t, legs[0], a);
      LocksAndRows(ApplyLeg(t, legs[0]).rows, legs[1..], a);
      assert legs == [legs[0]] + legs[1..];
    }
  }

  /**
   * The final balance of every address: its balance plus all its credits if it is never debited, else what it has
   * locked minus the last debit plus the later credits.  Locks never change, and exactly the mentioned rows appear.
   */
  lemma AddressClosedForm(t: Table, list: seq<TokenBalance>, a: string)
    requires ApplyLegs(t, AllLegs(list)).ok
    ensures var legs := AllLegs(list);
            var t' := ApplyLegs(t, legs).rows;
            var k := LastDebit(legs, a);
            && BalanceOf(t', a) == (if k < 0 then BalanceOf(t, a) + Credits(legs, a)
                                    else LockOf(t, a) - legs[k].amount + Credits(legs[k + 1..], a))
            && LockOf(t', a) == LockOf(t, a)
            && (Has(t', a) <==> Has(t, a) || Mentions(legs, a))
  {
    LegsClosedForm(t, AllLegs(list), a);
  }

  lemma LegsClosedForm(t: Table, legs: seq<Leg>, a: string)
    requires ApplyLegs(t, legs).ok
    ensures var t' := ApplyLegs(t, legs).rows;
            var k := LastDebit(legs, a);
            && BalanceOf(t', a) == (if k < 0 then BalanceOf(t, a) + Credits(legs, a)
                                    else LockOf(t, a) - legs[k].amount + Credits(legs[k + 1..], a))
            && LockOf(t', a) == LockOf(t, a)
            && (Has(t', a) <==> Has(t, a) || Mentions(legs, a))
  {
    hide ApplyLegs, LastDebit, Credits, Mentions, BalanceOf, LockOf, Find, Has;
    var k := LastDebit(legs, a);
    LocksAndRows(t, legs, a);
    if k < 0 {
      OnlyCredits(t, legs, a);
    } else {
      var after := legs[k + 1..];
      forall leg | leg in after ensures !Debits(leg, a) {
        var j :| 0 <= j < |after| && after[j] == leg;
        assert !Debits(legs[k + 1 + j], a);
      }
      SplitAt(legs, k);
      DebitThenCredits(t, legs[..k], legs[k], after, a);
    }
  }

  lemma DebitThenCredits(t: Table, before: seq<Leg>, debit: Leg, after: seq<Leg>, a: string)
    requires ApplyLegs(t, before + ([debit] + after)).ok
    requires Debits(debit, a) && forall leg | leg in after :: !Debits(leg, a)
    ensures BalanceOf(ApplyLegs(t, before + ([debit] + after)).rows, a)
            == LockOf(t, a) - debit.amount + Credits(after, a)
  {
    ApplyInTwo(t, before, [debit] + after);
    var mid := ApplyLegs(t, before).rows;
    assert ([debit] + after)[0] == debit && ([debit] + after)[1..] == after;
    assert ApplyLegs(mid, [debit] + after) == ApplyLegs(ApplyLeg(mid, debit).rows, after);
    hide ApplyLeg;
    LocksAndRows(t, before, a);
    LegEffect(mid, debit, a);
    OnlyCredits(ApplyLeg(mid, debit).rows, after, a);
  }

  // ---------------------------------------------------------------------------------------------
  // When a list can be applied at all
  // ---------------------------------------------------------------------------------------------

  /** The closed form of a balance after some legs. */
  function Settled(t: Table, legs: seq<Leg>, a: string): int {
    var k := LastDebit(legs, a);
    if k < 0 then BalanceOf(t, a) + Credits(legs, a)
    else LockOf(t, a) - legs[k].amount + Credits(legs[k + 1..], a)
  }

  /** Every balance that the list writes, in closed form, fits the column. */
  predicate AllSettle(t: Table, legs: seq<Leg>) {
    forall k | 0 <= k < |legs| :: InRange(Settled(t, legs[..k + 1], legs[k].address))
  }

  lemma AllSettleExtends(t: Table, init: seq<Leg>, last: Leg)
    ensures AllSettle(t, init + [last])
            <==> AllSettle(t, init) && InRange(Settled(t, init + [last], last.address))
  {
    hide Settled, InRange;
    var legs := init + [last];
    var n := |init|;
    assert legs[..n + 1] == legs && legs[n] == last;
    forall k | 0 <= k < n ensures init[..k + 1] == legs[..k + 1] && init[k] == legs[k] {
    }
    if AllSettle(t, legs) {
      assert InRange(Settled(t, legs[..n + 1], legs[n].address));
      forall k | 0 <= k < n ensures InRange(Settled(t, init[..k + 1], init[k].address)) {
        assert InRange(Settled(t, legs[..k + 1], legs[k].address));
      }
    }
    if AllSettle(t, init) && InRange(Settled(t, legs, last.address)) {
      forall k | 0 <= k < |legs| ensures InRange(Settled(t, legs[..k + 1], legs[k].address)) {
        if k < n {
          assert InRange(Settled(t, init[..k + 1], init[k].address));
        }
      }
    }
  }

  /** A list is applied without an error exactly when all it writes fits. */
  lemma {:induction false} AppliesIff(t: Table, legs: seq<Leg>)
    ensures ApplyLegs(t, legs).ok <==> AllSettle(t, legs)
    decreases |legs|
  {
    hide ApplyLegs, AllSettle;
    if legs == [] {
      NothingApplies(t);
    } else {
      AppliesIff(t, legs[..|legs| - 1]);
      AppliesStep(t, legs[..|legs| - 1], legs[|legs| - 1]);
      assert legs == legs[..|legs| - 1] + [legs[|legs| - 1]];
    }
  }

  lemma AppliesStep(t: Table, init: seq<Leg>, last: Leg)
    requires ApplyLegs(t, init).ok <==> AllSettle(t, init)
    ensures ApplyLegs(t, init + [last]).ok <==> AllSettle(t, init + [last])
  {
    hide ApplyLegs, AllSettle, Settled, InRange;
    LastLegIff(t, init, last);
    AllSettleExtends(t, init, last);
  }

  lemma NothingApplies(t: Table)
    ensures ApplyLegs(t, []) == Applied(t, true) && AllSettle(t, [])
  {
  }

  lemma LastLegIff(t: Table, init: seq<Leg>, last: Leg)
    ensures ApplyLegs(t, init + [last]).ok
            <==> ApplyLegs(t, init).ok && InRange(Settled(t, init + [last], last.address))
  {
    hide Find, Has, BalanceOf, LockOf, InRange, Credits, ApplyLegs;
    ApplyInTwo(t, init, [last]);
    if ApplyLegs(t, init).ok {
      var mid := ApplyLegs(t, init).rows;
      OneLeg(mid, last);
      LegIff(mid, last);
      LegsClosedForm(t, init, last.address);
      SettledExtends(t, init, last);
    }
  }

  lemma LegIff(t: Table, leg: Leg)
    ensures ApplyLeg(t, leg).ok <==> InRange(NewBalance(t, leg))
  {
    EnsureFinds(t, leg.addressType, leg.address, leg.address);
  }

  lemma SettledExtends(t: Table, init: seq<Leg>, last: Leg)
    ensures Settled(t, init + [last], last.address)
            == if last.Credit? then Settled(t, init, last.address) + last.amount
               else LockOf(t, last.address) - last.amount
  {
    var legs, a := init + [last], last.address;
    assert legs[..|legs| - 1] == init && legs[|legs| - 1] == last;
    CreditsOfOne(last, a);
    hide BalanceOf, LockOf;
    if last.Debit? {
      assert LastDebit(legs, a) == |init|;
      assert legs[|init| + 1..] == [];
    } else {
      var k := LastDebit(init, a);
      assert LastDebit(legs, a) == k;
      hide LastDebit, Credits;
      CreditsInTwo(init, [last], a);
      if k >= 0 {
        assert legs[k + 1..] == init[k + 1..] + [last] && legs[k] == init[k];
        CreditsInTwo(init[k + 1..], [last], a);
      }
    }
  }

  lemma CreditsOfOne(leg: Leg, a: string)
    ensures Credits([leg], a) == if leg.Credit? && leg.address == a then leg.amount else 0
    ensures Credits([], a) == 0
  {
    assert [leg][1..] == [];
  }

  lemma {:induction false} CreditsInTwo(a: seq<Leg>, b: seq<Leg>, address: string)
    ensures Credits(a + b, address) == Credits(a, address) + Credits(b, address)
  {
    if a == [] {
      assert a + b == b;
    } else {
      CreditsInTwo(a[1..], b, address);
      assert (a + b)[0] == a[0] && (a + b)[1..] == a[1..] + b;
    }
  }

  lemma {:induction false} CreditsAreNonnegative(legs: seq<Leg>, a: string)
    requires forall leg | leg in legs :: leg.amount >= 0
    ensures Credits(legs, a) >= 0
  {
    if legs != [] {
      assert legs[0] in legs;
      CreditsAreNonnegative(legs[1..], a);
    }
  }

  lemma CreditsOfPart(legs: seq<Leg>, lo: nat, hi: nat, a: string)
    requires lo <= hi <= |legs| && forall leg | leg in legs :: leg.amount >= 0
    ensures 0 <= Credits(legs[lo..hi], a) <= Credits(legs, a)
  {
    assert legs == legs[..lo] + (legs[lo..hi] + legs[hi..]);
    CreditsInTwo(legs[..lo], legs[lo..hi] + legs[hi..], a);
    CreditsInTwo(legs[lo..hi], legs[hi..], a);
    CreditsAreNonnegative(legs[..lo], a);
    CreditsAreNonnegative(legs[lo..hi], a);
    CreditsAreNonnegative(legs[hi..], a);
  }

  /** Amounts are not negative, and no credit can overflow a column, whatever is settled before it. */
  predicate Roomy(t: Table, legs: seq<Leg>) {
    forall leg | leg in legs ::
      && leg.amount >= 0
      && 0 <= BalanceOf(t, leg.address) < UINT256_LIMIT - Credits(legs, leg.address)
      && 0 <= LockOf(t, leg.address) < UINT256_LIMIT - Credits(legs, leg.address)
  }

  /** No debit exceeds what its address has locked. */
  predicate Covered(t: Table, legs: seq<Leg>) {
    forall k | 0 <= k < |legs| && legs[k].Debit? :: legs[k].amount <= LockOf(t, legs[k].address)
  }

  /** Short of an overflow, a list is applied without an error exactly when every debit is covered by its lock. */
  lemma CoveredIff(t: Table, legs: seq<Leg>)
    requires Roomy(t, legs)
    ensures ApplyLegs(t, legs).ok <==> Covered(t, legs)
  {
    AppliesIff(t, legs);
    hide ApplyLegs, Credits, BalanceOf, LockOf;
    if Covered(t, legs) {
      forall k | 0 <= k < |legs| ensures InRange(Settled(t, legs[..k + 1], legs[k].address)) {
        CoveredStaysInRange(t, legs, k);
      }
    } else {
      var k :| 0 <= k < |legs| && legs[k].Debit? && legs[k].amount > LockOf(t, legs[k].address);
      UncoveredDebitFails(t, legs, k);
    }
  }

  lemma CoveredStaysInRange(t: Table, legs: seq<Leg>, k: nat)
    requires Roomy(t, legs) && Covered(t, legs) && k < |legs|
    ensures InRange(Settled(t, legs[..k + 1], legs[k].address))
  {
    hide Credits, BalanceOf, LockOf;
    var a, part := legs[k].address, legs[..k + 1];
    assert legs[k] in legs;
    var d := LastDebit(part, a);
    if d < 0 {
      assert part == legs[0..k + 1];
      CreditsOfPart(legs, 0, k + 1, a);
    } else {
      assert legs[d] == part[d] && legs[d] in legs;
      assert part[d + 1..] == legs[d + 1..k + 1];
      CreditsOfPart(legs, d + 1, k + 1, a);
    }
  }

  /** A debit larger than what its address has locked sinks the whole list, wherever it stands in it. */
  lemma {:induction false} UncoveredDebitFails(t: Table, legs: seq<Leg>, k: nat)
    requires k < |legs| && legs[k].Debit? && legs[k].amount > LockOf(t, legs[k].address)
    ensures !ApplyLegs(t, legs).ok
    decreases |legs|
  {
    var first := ApplyLeg(t, legs[0]);
    if k == 0 {
      EnsureFinds(t, legs[0].addressType, legs[0].address, legs[0].address);
    } else if first.ok {
      LegEffect(t, legs[0], legs[k].address);
      assert legs[1..][k - 1] == legs[k];
      UncoveredDebitFails(first.rows, legs[1..], k - 1);
    }
  }

  lemma OneLeg(t: Table, leg: Leg)
    ensures ApplyLegs(t, [leg]) == ApplyLeg(t, leg)
  {
    hide ApplyLeg;
    assert [leg][1..] == [];
  }

  lemma OneOrTwoLegs(t: Table, legs: seq<Leg>)
    requires 1 <= |legs| <= 2
    ensures ApplyLegs(t, legs) == var first := ApplyLeg(t, legs[0]);
                                  if first.ok && |legs| == 2 then ApplyLeg(first.rows, legs[1]) else first
  {
    hide ApplyLeg;
    if |legs| == 2 {
      assert legs[1..] == [legs[1]];
      OneLeg(ApplyLeg(t, legs[0]).rows, legs[1]);
    } else {
      assert legs == [legs[0]];
      OneLeg(t, legs[0]);
    }
  }

  /**
   * Balance of `a` once `source` is settled by `amount` and `sink` has gained it; a transfer to oneself leaves the
   * lock.
   */
  function Transferred(t: Table, source: string, sink: string, amount: int, a: string): int {
    if a == source && a == sink then LockOf(t, a)
    else if a == source then LockOf(t, a) - amount
    else if a == sink then BalanceOf(t, a) + amount
    else BalanceOf(t, a)
  }

  lemma DebitThenCredit(t: Table, debit: Leg, credit: Leg, a: string)
    requires debit.Debit? && credit.Credit? && debit.amount == credit.amount
    requires ApplyLegs(t, [debit, credit]).ok
    ensures BalanceOf(ApplyLegs(t, [debit, credit]).rows, a)
            == Transferred(t, debit.address, credit.address, debit.amount, a)
  {
    hide ApplyLeg, ApplyLegs, BalanceOf, LockOf, Has, Find;
    OneOrTwoLegs(t, [debit, credit]);
    var mid := ApplyLeg(t, debit).rows;
    LegEffect(t, debit, a);
    LegEffect(t, debit, credit.address);
    LegEffect(mid, credit, a);
  }

  /** One movement, told by its addresses: who gains and whose lock is settled. */
  lemma MovementEffect(t: Table, m: TokenBalance, a: string)
    requires ApplyLegs(t, Legs(m)).ok
    ensures var after := BalanceOf(ApplyLegs(t, Legs(m)).rows, a);
            match m.txType
            case Deposit => after == BalanceOf(t, a) + (if a == m.toAddress then m.balance else 0)
            case Withdraw => after == if a == m.fromAddress then LockOf(t, a) - m.balance else BalanceOf(t, a)
            case Collection => after == Transferred(t, m.fromAddress, m.toAddress, m.balance, a)
            case HotToCold => after == Transferred(t, m.fromAddress, m.toAddress, m.balance, a)
            case _ => after == Transferred(t, m.toAddress, m.fromAddress, m.balance, a)
  {
    hide ApplyLeg, ApplyLegs, BalanceOf, LockOf, Has, Find, Transferred;
    var legs := Legs(m);
    if |legs| == 2 {
      DebitThenCredit(t, legs[0], legs[1], a);
    } else {
      OneLeg(t, legs[0]);
      LegEffect(t, legs[0], a);
    }
  }

  // ---------------------------------------------------------------------------------------------
  // The total
  // ---------------------------------------------------------------------------------------------

  function Total(t: Table): int {
    if t == [] then 0 else t[0].balance + Total(t[1..])
  }

  /** Signed amount of a leg. */
  function Signed(leg: Leg): int {
    if leg.Credit? then leg.amount else -leg.amount
  }

  /** What the debits add on top of their amounts: the locked balance minus the balance each of them found. */
  function Slack(t: Table, legs: seq<Leg>): int
    decreases |legs|
  {
    if legs == [] || !ApplyLeg(t, legs[0]).ok then 0
    else (if legs[0].Debit? then LockOf(t, legs[0].address) - BalanceOf(t, legs[0].address) else 0)
         + Slack(ApplyLeg(t, legs[0]).rows, legs[1..])
  }

  /** Deposits minus withdrawals of a list; transfers between our own wallets do not count. */
  function External(list: seq<TokenBalance>): int {
    if list == [] then 0
    else FromOutside(list[0]) + External(list[1..])
  }

  function FromOutside(m: TokenBalance): int {
    match m.txType
    case Deposit => m.balance
    case Withdraw => -m.balance
    case _ => 0
  }

  function SignedSum(legs: seq<Leg>): int {
    if legs == [] then 0 else Signed(legs[0]) + SignedSum(legs[1..])
  }

  lemma {:induction false} TotalAfterUpdate(t: Table, i: nat, row: Row)
    requires i < |t|
    ensures Total(t[i := row]) == Total(t) - t[i].balance + row.balance
  {
    if i > 0 {
      TotalAfterUpdate(t[1..], i - 1, row);
      assert t[i := row][1..] == t[1..][i - 1 := row];
    }
  }

  lemma {:induction false} TotalAfterAppend(t: Table, row: Row)
    ensures Total(t + [row]) == Total(t) + row.balance
  {
    if t != [] {
      TotalAfterAppend(t[1..], row);
      assert (t + [row])[1..] == t[1..] + [row];
    }
  }

  lemma LegTotal(t: Table, leg: Leg)
    requires ApplyLeg(t, leg).ok
    ensures Total(ApplyLeg(t, leg).rows) == Total(t) - BalanceOf(t, leg.address) + NewBalance(t, leg)
  {
    var queried := Ensure(t, leg.addressType, leg.address);
    EnsureFinds(t, leg.addressType, leg.address, leg.address);
    var i := Find(queried, leg.address);
    TotalAfterUpdate(queried, i, queried[i].(balance := NewBalance(queried, leg)));
    TotalAfterAppend(t, Row(leg.address, leg.addressType, 0, 0));
  }

  lemma {:induction false} LegsTotal(t: Table, legs: seq<Leg>)
    requires ApplyLegs(t, legs).ok
    ensures Total(ApplyLegs(t, legs).rows) == Total(t) + SignedSum(legs) + Slack(t, legs)
    decreases |legs|
  {
    if legs != [] {
      LegTotal(t, legs[0]);
      LegsTotal(ApplyLeg(t, legs[0]).rows, legs[1..]);
    }
  }

  lemma {:induction false} SignedSumInTwo(a: seq<Leg>, b: seq<Leg>)
    ensures SignedSum(a + b) == SignedSum(a) + SignedSum(b)
  {
    if a == [] {
      assert a + b == b;
    } else {
      SignedSumInTwo(a[1..], b);
      assert (a + b)[0] == a[0] && (a + b)[1..] == a[1..] + b;
    }
  }

  lemma TransferCancels(m: TokenBalance)
    ensures SignedSum(Legs(m)) == FromOutside(m)
  {
    var legs := Legs(m);
    if |legs| == 2 {
      assert legs == [legs[0]] + [legs[1]];
      SignedSumInTwo([legs[0]], [legs[1]]);
    }
  }

  lemma {:induction false} TransfersCancel(list: seq<TokenBalance>)
    ensures SignedSum(AllLegs(list)) == External(list)
  {
    if list != [] {
      hide Legs, FromOutside, SignedSum;
      TransfersCancel(list[1..]);
      SignedSumInTwo(Legs(list[0]), AllLegs(list[1..]));
      TransferCancels(list[0]);
    } else {
      assert AllLegs(list) == [];
    }
  }

  /** The accounting identity of a successful call. */
  lemma AccountingIdentity(t: Table, list: seq<TokenBalance>)
    requires ApplyLegs(t, AllLegs(list)).ok
    ensures Total(ApplyLegs(t, AllLegs(list)).rows) == Total(t) + External(list) + Slack(t, AllLegs(list))
  {
    LegsTotal(t, AllLegs(list));
    TransfersCancel(list);
  }

  /** Every debit finds its row with the whole balance locked. */
  predicate DebitsFindLocked(t: Table, legs: seq<Leg>)
    decreases |legs|
  {
    legs == [] || !ApplyLeg(t, legs[0]).ok
    || ((legs[0].Debit? ==> LockOf(t, legs[0].address) == BalanceOf(t, legs[0].address))
        && DebitsFindLocked(ApplyLeg(t, legs[0]).rows, legs[1..]))
  }

  lemma {:induction false} NoSlack(t: Table, legs: seq<Leg>)
    requires DebitsFindLocked(t, legs)
    ensures Slack(t, legs) == 0
    decreases |legs|
  {
    if legs != [] && ApplyLeg(t, legs[0]).ok {
      NoSlack(ApplyLeg(t, legs[0]).rows, legs[1..]);
    }
  }

  predicate Internal(m: TokenBalance) {
    !m.txType.Deposit? && !m.txType.Withdraw?
  }

  lemma {:induction false} InternalIsNotExternal(list: seq<TokenBalance>)
    requires forall m | m in list :: Internal(m)
    ensures External(list) == 0
  {
    if list != [] {
      assert list[0] in list;
      InternalIsNotExternal(list[1..]);
    }
  }

  /** Transfers between our own wallets keep the total when every debited row is fully locked. */
  lemma InternalTransfersConserve(t: Table, list: seq<TokenBalance>)
    requires ApplyLegs(t, AllLegs(list)).ok && DebitsFindLocked(t, AllLegs(list))
    requires forall m | m in list :: Internal(m)
    ensures Total(ApplyLegs(t, AllLegs(list)).rows) == Total(t)
  {
    AccountingIdentity(t, list);
    NoSlack(t, AllLegs(list));
    InternalIsNotExternal(list);
  }

  /** Rows are never removed, reordered or retyped, and a row nobody mentions is untouched. */
  lemma {:induction false} RowsStay(t: Table, legs: seq<Leg>)
    ensures var t' := ApplyLegs(t, legs).rows;
            && |t| <= |t'|
            && forall i | 0 <= i < |t| ::
                 && t'[i].(balance := t[i].balance) == t[i]
                 && (!Mentions(legs, t[i].address) ==> t'[i] == t[i])
    decreases |legs|
  {
    hide ApplyLeg;
    if legs != [] {
      var first := ApplyLeg(t, legs[0]);
      LegRowsStay(t, legs[0]);
      if first.ok {
        RowsStay(first.rows, legs[1..]);
      }
      forall i | 0 <= i < |t|
        ensures Mentions(legs, t[i].address) <==> Mentions(legs[1..], t[i].address) || legs[0].address == t[i].address
      {
        MentionsFirst(legs, t[i].address);
      }
    }
  }

  lemma MentionsFirst(legs: seq<Leg>, a: string)
    requires legs != []
    ensures Mentions(legs, a) <==> Mentions(legs[1..], a) || legs[0].address == a
  {
    assert legs == [legs[0]] + legs[1..];
  }

  lemma LegRowsStay(t: Table, leg: Leg)
    ensures var t' := ApplyLeg(t, leg).rows;
            && |t| <= |t'|
            && forall i | 0 <= i < |t| ::
                 t'[i].(balance := t[i].balance) == t[i] && (leg.address != t[i].address ==> t'[i] == t[i])
  {
  }

  /** The type that the first leg on an address gives. */
  function FirstType(legs: seq<Leg>, a: string): (ty: AddressType)
    requires exists leg | leg in legs :: leg.address == a
    ensures exists k | 0 <= k < |legs| ::
              legs[k].address == a && legs[k].addressType == ty && forall j | 0 <= j < k :: legs[j].address != a
  {
    if legs[0].address == a then
      assert legs[0].addressType == legs[0].addressType;
      legs[0].addressType
    else
      assert exists leg | leg in legs[1..] :: leg.address == a by {
        var leg :| leg in legs && leg.address == a;
        assert leg in legs[1..];
      }
      var ty := FirstType(legs[1..], a);
      assert exists k | 0 <= k < |legs| ::
          legs[k].address == a && legs[k].addressType == ty && forall j | 0 <= j < k :: legs[j].address != a by {
        var k :| 0 <= k < |legs[1..]| && legs[1..][k].address == a && legs[1..][k].addressType == ty
                 && forall j | 0 <= j < k :: legs[1..][j].address != a;
        assert legs[k + 1].address == a && legs[k + 1].addressType == ty;
        forall j | 0 <= j < k + 1 ensures legs[j].address != a {
          assert j > 0 ==> legs[1..][j - 1].address != a;
        }
      }
      ty
  }

  lemma LegCreates(t: Table, leg: Leg)
    ensures var t' := ApplyLeg(t, leg).rows;
            && Has(t', leg.address)
            && (Has(t, leg.address) ==> |t'| == |t|)
            && (!Has(t, leg.address) ==>
                  |t'| == |t| + 1 && t'[|t|].address == leg.address && t'[|t|].addressType == leg.addressType
                  && t'[|t|].lock == 0)
  {
    var queried := Ensure(t, leg.addressType, leg.address);
    if !Has(t, leg.address) {
      FindIs(queried, leg.address, |t|);
    }
    if ApplyLeg(t, leg).ok {
      SetRowFinds(queried, leg.address, NewBalance(queried, leg), LockOf(queried, leg.address), leg.address);
    }
  }

  /** A row that a list creates, even one that fails later, is of the type of the first leg on its address. */
  lemma {:induction false} CreatedRowIs(t: Table, legs: seq<Leg>, i: nat)
    requires |t| <= i < |ApplyLegs(t, legs).rows|
    ensures var row := ApplyLegs(t, legs).rows[i];
            && !Has(t, row.address) && row.lock == 0
            && (exists leg | leg in legs :: leg.address == row.address)
            && row.addressType == FirstType(legs, row.address)
    decreases |legs|
  {
    hide ApplyLeg;
    var first := ApplyLeg(t, legs[0]);
    LegCreates(t, legs[0]);
    LegRowsStay(t, legs[0]);
    assert legs[0] in legs;
    if first.ok {
      RowsStay(first.rows, legs[1..]);
      var row := ApplyLegs(t, legs).rows[i];
      if i >= |first.rows| {
        CreatedRowIs(first.rows, legs[1..], i);
        HasGrows(t, first.rows, row.address);
        var leg :| leg in legs[1..] && leg.address == row.address;
        assert leg in legs;
      }
    }
  }

  lemma HasGrows(t: Table, t': Table, a: string)
    requires |t| <= |t'| && forall i | 0 <= i < |t| :: t'[i].address == t[i].address
    ensures Has(t, a) ==> Has(t', a)
  {
    if Has(t, a) {
      FindIs(t', a, Find(t, a));
    }
  }

  /** The rows that one movement creates: whose they are and of which type. */
  lemma MovementCreates(t: Table, m: TokenBalance, i: nat)
    requires |t| <= i < |ApplyLegs(t, Legs(m)).rows|
    ensures var row := ApplyLegs(t, Legs(m)).rows[i];
            match m.txType
            case Deposit => row.address == m.toAddress && row.addressType == User
            case Withdraw => row.address == m.fromAddress && row.addressType == Hot
            case Collection =>
              (row.address == m.fromAddress && row.addressType == User)
              || (row.address == m.toAddress != m.fromAddress && row.addressType == Hot)
            case HotToCold =>
              (row.address == m.fromAddress && row.addressType == Hot)
              || (row.address == m.toAddress != m.fromAddress && row.addressType == Cold)
            case _ =>
              (row.address == m.toAddress && row.addressType == Cold)
              || (row.address == m.fromAddress != m.toAddress && row.addressType == Hot)
  {
    CreatedRowIs(t, Legs(m), i);
    hide ApplyLegs, ApplyLeg, Find, Has;
    var row := ApplyLegs(t, Legs(m)).rows[i];
    var k :| 0 <= k < |Legs(m)| && Legs(m)[k].address == row.address && Legs(m)[k].addressType == row.addressType
             && forall j | 0 <= j < k :: Legs(m)[j].address != row.address;
    assert k == 1 ==> Legs(m)[0].address != row.address;
  }

  /** The column holds the numbers of 256 bits, no more and no less. */
  lemma ColumnIsWord(v: int)
    ensures InRange(v) <==> 0 <= v && v < 0x1_0000_0000 * 0x1_0000_0000 * 0x1_0000_0000 * 0x1_0000_0000
                                          * 0x1_0000_0000 * 0x1_0000_0000 * 0x1_0000_0000 * 0x1_0000_0000
  {
  }

  // ---------------------------------------------------------------------------------------------
  // Locking
  // ---------------------------------------------------------------------------------------------

  datatype Lock = Lock(address: string, amount: int)

  function LockOne(t: Table, l: Lock): Applied
    requires Has(t, l.address)
  {
    var v := BalanceOf(t, l.address) - l.amount;
    if InRange(v) && InRange(l.amount) then Applied(SetRow(t, l.address, v, l.amount), true) else Applied(t, false)
  }

  /** UpdateBalances: a missing address ends the call without an error. */
  function ApplyLocks(t: Table, locks: seq<Lock>): Applied
    decreases |locks|
  {
    if locks == [] || !Has(t, locks[0].address) then Applied(t, true)
    else
      var first := LockOne(t, locks[0]);
      if first.ok then ApplyLocks(first.rows, locks[1..]) else first
  }

  /** Length of the longest prefix whose addresses all have a row. */
  function KnownPrefix(t: Table, locks: seq<Lock>): (k: nat)
    ensures k <= |locks|
    ensures forall i | 0 <= i < k :: Has(t, locks[i].address)
    ensures k < |locks| ==> !Has(t, locks[k].address)
  {
    if locks == [] || !Has(t, locks[0].address) then 0 else 1 + KnownPrefix(t, locks[1..])
  }

  function LockSum(locks: seq<Lock>, a: string): int {
    if locks == [] then 0 else (if locks[0].address == a then locks[0].amount else 0) + LockSum(locks[1..], a)
  }

  /** The amount of the last lock of an address, or what was locked before. */
  function LastLock(locks: seq<Lock>, a: string, before: int): int {
    if locks == [] then before
    else LastLock(locks[1..], a, if locks[0].address == a then locks[0].amount else before)
  }

  lemma LockEffect(t: Table, l: Lock, a: string)
    requires Has(t, l.address) && LockOne(t, l).ok
    ensures var t' := LockOne(t, l).rows;
            && (Has(t', a) <==> Has(t, a))
            && BalanceOf(t', a) == BalanceOf(t, a) - (if a == l.address then l.amount else 0)
            && LockOf(t', a) == (if a == l.address then l.amount else LockOf(t, a))
  {
    SetRowFinds(t, l.address, BalanceOf(t, l.address) - l.amount, l.amount, a);
  }

  lemma {:induction false} SameKnownPrefix(t: Table, t': Table, locks: seq<Lock>)
    requires forall a :: Has(t, a) <==> Has(t', a)
    ensures KnownPrefix(t, locks) == KnownPrefix(t', locks)
  {
    if locks != [] {
      SameKnownPrefix(t, t', locks[1..]);
    }
  }

  /**
   * A successful call applies exactly the longest prefix of known addresses: sums leave the balance, the last lock
   * stays.
   */
  lemma {:induction false} LocksClosedForm(t: Table, locks: seq<Lock>, a: string)
    requires ApplyLocks(t, locks).ok
    ensures var t' := ApplyLocks(t, locks).rows;
            var applied := locks[..KnownPrefix(t, locks)];
            && (Has(t', a) <==> Has(t, a))
            && BalanceOf(t', a) == BalanceOf(t, a) - LockSum(applied, a)
            && LockOf(t', a) == LastLock(applied, a, LockOf(t, a))
    decreases |locks|
  {
    if locks != [] && Has(t, locks[0].address) {
      var t1 := LockOne(t, locks[0]).rows;
      forall b ensures Has(t, b) <==> Has(t1, b) {
        LockEffect(t, locks[0], b);
      }
      LockEffect(t, locks[0], a);
      hide LockOne, Has, BalanceOf, LockOf;
      LocksClosedForm(t1, locks[1..], a);
      SameKnownPrefix(t, t1, locks[1..]);
      var k := KnownPrefix(t1, locks[1..]);
      assert locks[..k + 1][0] == locks[0] && locks[..k + 1][1..] == locks[1..][..k];
    }
  }

  /** The k-th lock is an amount the column holds, and leaves a balance the column holds. */
  predicate LockFits(t: Table, locks: seq<Lock>, k: nat)
    requires k < |locks|
  {
    && InRange(locks[k].amount)
    && InRange(BalanceOf(t, locks[k].address) - LockSum(locks[..k + 1], locks[k].address))
  }

  lemma FirstLockFits(t: Table, locks: seq<Lock>)
    requires locks != [] && Has(t, locks[0].address)
    ensures LockFits(t, locks, 0) <==> LockOne(t, locks[0]).ok
  {
    assert locks[..1][0] == locks[0] && locks[..1][1..] == [];
    assert LockSum(locks[..1], locks[0].address) == locks[0].amount;
  }

  lemma LaterLockFits(t: Table, locks: seq<Lock>, k: nat)
    requires locks != [] && Has(t, locks[0].address) && LockOne(t, locks[0]).ok && k < |locks| - 1
    ensures LockFits(t, locks, k + 1) <==> LockFits(LockOne(t, locks[0]).rows, locks[1..], k)
  {
    LockEffect(t, locks[0], locks[k + 1].address);
    assert locks[..k + 2][0] == locks[0] && locks[..k + 2][1..] == locks[1..][..k + 1];
  }

  /** UpdateBalances succeeds exactly when every lock up to the first unknown address fits. */
  lemma {:induction false} LocksApplyIff(t: Table, locks: seq<Lock>)
    ensures ApplyLocks(t, locks).ok <==> forall k | 0 <= k < KnownPrefix(t, locks) :: LockFits(t, locks, k)
    decreases |locks|
  {
    hide LockFits, LockOne, Has;
    if locks != [] && Has(t, locks[0].address) {
      var first, rest := LockOne(t, locks[0]), locks[1..];
      FirstLockFits(t, locks);
      if first.ok {
        forall b ensures Has(t, b) <==> Has(first.rows, b) {
          LockEffect(t, locks[0], b);
        }
        SameKnownPrefix(t, first.rows, rest);
        LocksApplyIff(first.rows, rest);
        forall k | 0 <= k < KnownPrefix(t, rest) ensures LockFits(t, locks, k + 1) <==> LockFits(first.rows, rest, k) {
          LaterLockFits(t, locks, k);
        }
        if forall k | 0 <= k < KnownPrefix(t, rest) :: LockFits(first.rows, rest, k) {
          forall k | 0 <= k < KnownPrefix(t, locks) ensures LockFits(t, locks, k) {
            assert k > 0 ==> LockFits(first.rows, rest, k - 1);
          }
        }
        if forall k | 0 <= k < KnownPrefix(t, locks) :: LockFits(t, locks, k) {
          forall k | 0 <= k < KnownPrefix(t, rest) ensures LockFits(first.rows, rest, k) {
            assert LockFits(t, locks, k + 1);
          }
        }
      }
    }
  }

  /** A single lock of a known address goes through exactly when it is an amount up to the whole balance. */
  lemma OneLockIff(t: Table, a: string, amount: int)
    requires Has(t, a) && InRange(BalanceOf(t, a))
    ensures ApplyLocks(t, [Lock(a, amount)]).ok <==> 0 <= amount <= BalanceOf(t, a)
    ensures ApplyLocks(t, [Lock(a, amount)]).ok ==>
              && BalanceOf(ApplyLocks(t, [Lock(a, amount)]).rows, a) == BalanceOf(t, a) - amount
              && LockOf(ApplyLocks(t, [Lock(a, amount)]).rows, a) == amount
  {
    var locks := [Lock(a, amount)];
    assert locks[1..] == [];
    assert ApplyLocks(t, locks).ok <==> LockOne(t, locks[0]).ok;
    if LockOne(t, locks[0]).ok {
      LockEffect(t, locks[0], a);
    }
  }

  /**
   * Locking and then settling: a debited address ends with its last lock minus its last debit plus later credits,
   * whatever its balance was; an address never debited loses its locks and gains its credits.
   */
  lemma LockThenSettle(t: Table, locks: seq<Lock>, list: seq<TokenBalance>, a: string)
    requires ApplyLocks(t, locks).ok && ApplyLegs(ApplyLocks(t, locks).rows, AllLegs(list)).ok
    ensures var t' := ApplyLegs(ApplyLocks(t, locks).rows, AllLegs(list)).rows;
            var applied := locks[..KnownPrefix(t, locks)];
            var legs := AllLegs(list);
            var d := LastDebit(legs, a);
            && BalanceOf(t', a) == (if d >= 0 then LastLock(applied, a, LockOf(t, a)) - legs[d].amount
                                       + Credits(legs[d + 1..], a)
                                    else BalanceOf(t, a) - LockSum(applied, a) + Credits(legs, a))
            && LockOf(t', a) == LastLock(applied, a, LockOf(t, a))
  {
    hide ApplyLocks, ApplyLegs, Has, BalanceOf, LockOf, AllLegs, Credits, LastDebit, LockSum, LastLock;
    LocksClosedForm(t, locks, a);
    AddressClosedForm(ApplyLocks(t, locks).rows, list, a);
  }

  /**
   * A withdrawal of `amount` after locking `locked` takes `amount` off the balance exactly when the whole balance was
   * locked.
   */
  lemma WithdrawalIsExactIff(t: Table, a: string, locked: int, amount: int)
    requires Has(t, a)
    requires ApplyLocks(t, [Lock(a, locked)]).ok
    requires ApplyLegs(ApplyLocks(t, [Lock(a, locked)]).rows, AllLegs([TokenBalance(a, "", amount, Withdraw)])).ok
    ensures var t' := ApplyLegs(ApplyLocks(t, [Lock(a, locked)]).rows,
                                AllLegs([TokenBalance(a, "", amount, Withdraw)])).rows;
            && BalanceOf(t', a) == locked - amount
            && (BalanceOf(t', a) == BalanceOf(t, a) - amount <==> locked == BalanceOf(t, a))
  {
    var locks, list := [Lock(a, locked)], [TokenBalance(a, "", amount, Withdraw)];
    assert locks[1..] == [] && list[1..] == [];
    assert KnownPrefix(t, locks) == 1 && locks[..1] == locks;
    assert LastLock(locks, a, LockOf(t, a)) == locked;
    var legs := AllLegs(list);
    assert legs == [Debit(Hot, a, amount)];
    assert Debits(legs[0], a) && LastDebit(legs, a) == 0;
    assert legs[1..] == [] && Credits(legs[1..], a) == 0;
    hide ApplyLocks, ApplyLegs;
    LockThenSettle(t, locks, list, a);
  }

  // ---------------------------------------------------------------------------------------------
  // The code
  // ---------------------------------------------------------------------------------------------

  class BalancesDB {
    var rows: Table

    constructor ()
      ensures rows == []
    {
      rows := [];
    }

    method QueryWalletBalanceByAddress(addressType: AddressType, address: string) returns (row: Row)
      modifies this
      ensures rows == Ensure(old(rows), addressType, address)
      ensures row == rows[Find(rows, address)]
    {
      var i := Find(rows, address);
      if i == |rows| {
        var balanceItem := Row(address, addressType, 0, 0);
        rows := rows + [balanceItem];
        FindIs(rows, address, i);
        return balanceItem;
      }
      return rows[i];
    }

    /** Save writes a row that was queried before; the column refuses values outside UINT256. */
    method Save(row: Row) returns (ok: bool)
      requires Has(rows, row.address)
      modifies this
      ensures ok <==> InRange(row.balance) && InRange(row.lock)
      ensures rows == if ok then old(rows)[Find(old(rows), row.address) := row] else old(rows)
    {
      if !InRange(row.balance) || !InRange(row.lock) {
        return false;
      }
      rows := rows[Find(rows, row.address) := row];
      return true;
    }

    /** Locked amounts come from this table, so the column holds them. */
    predicate Valid()
      reads this
    {
      forall i | 0 <= i < |rows| :: InRange(rows[i].lock)
    }

    method Add(addressType: AddressType, address: string, amount: int) returns (ok: bool)
      requires Valid()
      modifies this
      ensures Valid() && Applied(rows, ok) == ApplyLeg(old(rows), Credit(addressType, address, amount))
    {
      var row := QueryWalletBalanceByAddress(addressType, address);
      ok := Save(row.(balance := row.balance + amount));
    }

    method Sub(addressType: AddressType, address: string, amount: int) returns (ok: bool)
      requires Valid()
      modifies this
      ensures Valid() && Applied(rows, ok) == ApplyLeg(old(rows), Debit(addressType, address, amount))
    {
      var row := QueryWalletBalanceByAddress(addressType, address);
      ok := Save(row.(balance := row.lock - amount));
    }

    method UpdateOrCreate(balanceList: seq<TokenBalance>) returns (ok: bool)
      requires Valid()
      modifies this
      ensures Valid() && Applied(rows, ok) == ApplyLegs(old(rows), AllLegs(balanceList))
    {
      var i := 0;
      ok := true;
      while i < |balanceList|
        invariant 0 <= i <= |balanceList| && Valid()
        invariant Applied(rows, ok) == ApplyLegs(old(rows), AllLegs(balanceList[..i])) && ok
      {
        ghost var before := rows;
        ok := Move(balanceList[i]);
        ListPrefix(balanceList, i);
        hide ApplyLegs, AllLegs, Legs;
        ApplyInTwo(old(rows), AllLegs(balanceList[..i]), Legs(balanceList[i]));
        if !ok {
          ApplyInTwo(old(rows), AllLegs(balanceList[..i + 1]), AllLegs(balanceList[i + 1..]));
          return;
        }
        i := i + 1;
      }
      assert balanceList[..i] == balanceList;
    }

    /** The five branches for one movement. */
    method Move(value: TokenBalance) returns (ok: bool)
      requires Valid()
      modifies this
      ensures Valid() && Applied(rows, ok) == ApplyLegs(old(rows), Legs(value))
    {
      hide ApplyLeg;
      OneOrTwoLegs(rows, Legs(value));
      match value.txType {
        case Deposit =>
          ok := Add(User, value.toAddress, value.balance);
        case Withdraw =>
          ok := Sub(Hot, value.fromAddress, value.balance);
        case Collection =>
          ok := Sub(User, value.fromAddress, value.balance);
          if ok {
            ok := Add(Hot, value.toAddress, value.balance);
          }
        case HotToCold =>
          ok := Sub(Hot, value.fromAddress, value.balance);
          if ok {
            ok := Add(Cold, value.toAddress, value.balance);
          }
        case _ =>
          ok := Sub(Cold, value.toAddress, value.balance);
          if ok {
            ok := Add(Hot, value.fromAddress, value.balance);
          }
      }
    }

    static lemma ListPrefix(list: seq<TokenBalance>, i: nat)
      requires i < |list|
      ensures AllLegs(list[..i + 1]) == AllLegs(list[..i]) + Legs(list[i])
      ensures AllLegs(list) == AllLegs(list[..i + 1]) + AllLegs(list[i + 1..])
    {
      hide Legs, AllLegs;
      OneMore(list, i);
      AllLegsInTwo(list[..i], [list[i]]);
      LegsOfOne(list[i]);
      AllLegsInTwo(list[..i + 1], list[i + 1..]);
    }

    static lemma OneMore<T>(list: seq<T>, i: nat)
      requires i < |list|
      ensures list[..i + 1] == list[..i] + [list[i]] && list == list[..i + 1] + list[i + 1..]
    {
    }

    static lemma LegsOfOne(m: TokenBalance)
      ensures AllLegs([m]) == Legs(m)
    {
      hide Legs;
      assert [m][1..] == [];
    }

    method UpdateBalances(balanceList: seq<Lock>) returns (ok: bool)
      requires Valid()
      modifies this
      ensures Valid() && Applied(rows, ok) == ApplyLocks(old(rows), balanceList)
    {
      ok := true;
      var i := 0;
      while i < |balanceList|
        invariant 0 <= i <= |balanceList| && Valid() && ok
        invariant ApplyLocks(old(rows), balanceList) == ApplyLocks(rows, balanceList[i..])
      {
        var l := balanceList[i];
        assert balanceList[i..][0] == l && balanceList[i..][1..] == balanceList[i + 1..];
        var k := Find(rows, l.address);
        if k == |rows| {
          return true;
        }
        var balance := rows[k];
        ghost var before := rows;
        ok := Save(balance.(balance := balance.balance - l.amount, lock := l.amount));
        assert Applied(rows, ok) == LockOne(before, l);
        if !ok {
          return;
        }
        i := i + 1;
      }
    }
  }
}
