/** worker/synchronizer.go: how one transaction is labelled for one business. */
module Classifier {
  import opened Prelude

  /** The address table's three kinds of wallet. */
  datatype AddressType = User | Hot | Cold

  /** Outcome of one address-table query. */
  datatype Lookup<+T> = Found(value: T) | NotFound | Fault

  /**
   * What the address table of one business answers while a batch is classified.  `faults` are the
   * addresses whose query fails; `hot` and `cold` answer the two wallet queries.
   */
  datatype Book = Book(rows: map<string, AddressType>, faults: set<string>, hot: Lookup<string>, cold: Lookup<string>)
  {
    /** AddressExist looks the lower-cased address up, and reports a fault as "does not exist". */
    function AddressExist(address: string): Option<AddressType> {
      var key := ToLower(address);
      if key in rows && key !in faults then Some(rows[key]) else None
    }

    /** QueryAddressesByToAddress looks the address up as it is written. */
    function Query(address: string): Lookup<AddressType> {
      if address in faults then Fault
      else if address in rows then Found(rows[address])
      else NotFound
    }

    /** Both wallets are registered, so that their addresses can be read. */
    predicate HasWallets() {
      hot.Found? && cold.Found?
    }
  }

  /**
   * How the result of the sender query is read.  AsWritten: a missing row is an error, like a fault.
   * AsMeant: a missing row means "not one of ours", which the comparison with nil relies on.
   */
  datatype Policy = AsWritten | AsMeant

  predicate Fails(policy: Policy, q: Lookup<AddressType>) {
    q.Fault? || (policy.AsWritten? && q.NotFound?)
  }

  function LowerChar(c: char): char {
    if 'A' <= c <= 'Z' then (c as int + 32) as char else c
  }

  function ToLower(s: string): (t: string)
    ensures |t| == |s| && forall i | 0 <= i < |s| :: t[i] == LowerChar(s[i])
  {
    seq(|s|, i requires 0 <= i < |s| => LowerChar(s[i]))
  }

  const SEPARATOR := '|'

  /** strings.Split(s, "|"): at least one piece, none of which holds the separator. */
  function Split(s: string): (pieces: seq<string>)
    ensures |pieces| >= 1
    ensures forall p | p in pieces :: SEPARATOR !in p
  {
    if s == "" then [""]
    else
      var rest := Split(s[1..]);
      if s[0] == SEPARATOR then [""] + rest else [[s[0]] + rest[0]] + rest[1..]
  }

  function Join(pieces: seq<string>): string
    requires |pieces| >= 1
  {
    if |pieces| == 1 then pieces[0] else pieces[0] + [SEPARATOR] + Join(pieces[1..])
  }

  lemma {:induction false} JoinSplit(s: string)
    ensures Join(Split(s)) == s
  {
    if s != "" {
      JoinSplit(s[1..]);
      var rest := Split(s[1..]);
      if s[0] == SEPARATOR {
        assert ([""] + rest)[1..] == rest;
        assert s == "" + [SEPARATOR] + s[1..];
      } else {
        var pieces := [[s[0]] + rest[0]] + rest[1..];
        assert pieces[1..] == rest[1..];
        assert s == [s[0]] + s[1..];
      }
    }
  }

  datatype RawIo = RawIo(address: string, index: nat, amount: int)

  datatype RawTx = RawTx(hash: string, fee: string, vin: seq<RawIo>, vout: seq<RawIo>)

  datatype Label = Unknown | Deposit | Withdraw | Collection | HotToCold | ColdToHot

  /** `Quit` is the early `return err`; `Panic` is a read through a missing wallet row. */
  datatype Outcome = Labelled(kind: Label) | Quit | Panic

  /** The five flags of the triple loop. */
  datatype Flags = Flags(deposit: bool, withdraw: bool, collection: bool, toCold: bool, toHot: bool)
  {
    function Or(other: Flags): Flags {
      Flags(deposit || other.deposit, withdraw || other.withdraw, collection || other.collection,
            toCold || other.toCold, toHot || other.toHot)
    }

    /** The chain of assignments after the loops: the last flag that is set wins. */
    function Winner(): Label {
      if toHot then ColdToHot
      else if toCold then HotToCold
      else if collection then Collection
      else if withdraw then Withdraw
      else if deposit then Deposit
      else Unknown
    }
  }

  const NO_FLAGS := Flags(false, false, false, false, false)

  /** Which of the five patterns one (receiver, sender) pair matches. */
  predicate Matches(book: Book, kind: Label, to: string, from: string)
    requires book.HasWallets()
  {
    var receiver := book.AddressExist(to);
    match kind
    case Unknown => false
    case Deposit => receiver == Some(User) && !book.Query(from).Found?
    case Withdraw => receiver.None? && from == book.hot.value
    case Collection => receiver == Some(Hot) && book.Query(from).Found?
    case HotToCold => receiver == Some(Cold) && from == book.hot.value
    case ColdToHot => receiver == Some(Hot) && from == book.cold.value
  }

  function PairFlags(book: Book, to: string, from: string): Flags
    requires book.HasWallets()
  {
    Flags(Matches(book, Deposit, to, from), Matches(book, Withdraw, to, from), Matches(book, Collection, to, from),
          Matches(book, HotToCold, to, from), Matches(book, ColdToHot, to, from))
  }

  /** Some pair of a receiver in `tos` and a sender in `froms` matches the pattern. */
  predicate SomePair(book: Book, kind: Label, tos: seq<string>, froms: seq<string>)
    requires book.HasWallets()
  {
    exists to, from | to in tos && from in froms :: Matches(book, kind, to, from)
  }

  function SeenFlags(book: Book, tos: seq<string>, froms: seq<string>): Flags
    requires book.HasWallets()
  {
    Flags(SomePair(book, Deposit, tos, froms), SomePair(book, Withdraw, tos, froms),
          SomePair(book, Collection, tos, froms),
          SomePair(book, HotToCold, tos, froms), SomePair(book, ColdToHot, tos, froms))
  }

  lemma SeenNothing(book: Book, tos: seq<string>, froms: seq<string>)
    requires book.HasWallets() && (tos == [] || froms == [])
    ensures SeenFlags(book, tos, froms) == NO_FLAGS
  {
  }

  lemma SeenOnePair(book: Book, to: string, from: string)
    requires book.HasWallets()
    ensures SeenFlags(book, [to], [from]) == PairFlags(book, to, from)
  {
    assert to in [to] && from in [from];
  }

  lemma SeenInTwo(book: Book, to: string, a: seq<string>, b: seq<string>)
    requires book.HasWallets()
    ensures SeenFlags(book, [to], a + b) == SeenFlags(book, [to], a).Or(SeenFlags(book, [to], b))
  {
  }

  lemma SeenOneMoreReceiver(book: Book, tos: seq<string>, to: string, froms: seq<string>)
    requires book.HasWallets()
    ensures SeenFlags(book, tos + [to], froms) == SeenFlags(book, tos, froms).Or(SeenFlags(book, [to], froms))
  {
  }

  /** Every sender address of a transaction, in the order the loops visit them. */
  function Senders(vin: seq<RawIo>): (froms: seq<string>)
    ensures vin != [] ==> froms != []
  {
    if vin == [] then [] else Senders(vin[..|vin| - 1]) + Split(vin[|vin| - 1].address)
  }

  function Receivers(vout: seq<RawIo>): (tos: seq<string>)
    ensures |tos| == |vout| && forall i | 0 <= i < |vout| :: tos[i] == vout[i].address
  {
    seq(|vout|, i requires 0 <= i < |vout| => vout[i].address)
  }

  predicate AnyFails(policy: Policy, book: Book, froms: seq<string>) {
    exists from | from in froms :: Fails(policy, book.Query(from))
  }

  /** The label without loops: a question about the set of receivers and the set of senders. */
  function Spec(policy: Policy, book: Book, tos: seq<string>, froms: seq<string>): Outcome {
    if tos == [] then Labelled(Unknown)
    else if book.hot.Fault? then Quit
    else if froms == [] then Labelled(Unknown)
    else if !book.HasWallets() then (if Fails(policy, book.Query(froms[0])) then Quit else Panic)
    else if AnyFails(policy, book, froms) then Quit
    else Labelled(SeenFlags(book, tos, froms).Winner())
  }

  function Classified(policy: Policy, book: Book, tx: RawTx): Outcome {
    Spec(policy, book, Receivers(tx.vout), Senders(tx.vin))
  }

  /** Scanning senders against one receiver: stop at the first obstacle, or add what the pairs show. */
  function Scan(policy: Policy, book: Book, to: string, froms: seq<string>, flags: Flags): Result<Flags, Outcome> {
    if froms == [] then Ok(flags)
    else if !book.HasWallets() then Err(if Fails(policy, book.Query(froms[0])) then Quit else Panic)
    else if AnyFails(policy, book, froms) then Err(Quit)
    else Ok(flags.Or(SeenFlags(book, [to], froms)))
  }

  lemma ScanInTwo(policy: Policy, book: Book, to: string, a: seq<string>, b: seq<string>, flags: Flags)
    ensures Scan(policy, book, to, a + b, flags)
            == var first := Scan(policy, book, to, a, flags);
               if first.Ok? then Scan(policy, book, to, b, first.value) else first
  {
    if a == [] {
      assert a + b == b;
    } else if b == [] {
      assert a + b == a;
    } else {
      assert (a + b)[0] == a[0];
      AnyFailsInTwo(policy, book, a, b);
      if book.HasWallets() {
        SeenInTwo(book, to, a, b);
      }
    }
  }

  lemma AnyFailsInTwo(policy: Policy, book: Book, a: seq<string>, b: seq<string>)
    ensures AnyFails(policy, book, a + b) <==> AnyFails(policy, book, a) || AnyFails(policy, book, b)
  {
    forall from | from in a || from in b ensures from in a + b {
    }
  }

  lemma ScanOne(policy: Policy, book: Book, to: string, from: string, flags: Flags)
    requires book.HasWallets() && !Fails(policy, book.Query(from))
    ensures Scan(policy, book, to, [from], flags) == Ok(flags.Or(PairFlags(book, to, from)))
  {
    SeenOnePair(book, to, from);
  }

  lemma ScanOneStops(policy: Policy, book: Book, to: string, from: string, flags: Flags)
    requires !book.HasWallets() || Fails(policy, book.Query(from))
    ensures Scan(policy, book, to, [from], flags) == Err(if Fails(policy, book.Query(from)) then Quit else Panic)
  {
    assert from in [from];
  }

  /** The innermost loop: the addresses of one input. */
  method ScanAddresses(policy: Policy, book: Book, to: string, addressList: seq<string>, flags: Flags)
    returns (r: Result<Flags, Outcome>)
    ensures r == Scan(policy, book, to, addressList, flags)
  {
    hide ToLower, AnyFails, SeenFlags;
    var receiver := book.AddressExist(to);
    var Flags(isDeposit, isWithdraw, isCollection, isToCold, isToHot) := flags;
    var k := 0;
    while k < |addressList|
      invariant 0 <= k <= |addressList|
      invariant Scan(policy, book, to, addressList[..k], flags)
                == Ok(Flags(isDeposit, isWithdraw, isCollection, isToCold, isToHot))
    {
      var address := addressList[k];
      ghost var seen := Flags(isDeposit, isWithdraw, isCollection, isToCold, isToHot);
      ScanInTwo(policy, book, to, addressList[..k], [address], flags);
      assert addressList[..k] + [address] == addressList[..k + 1];
      var vinAddress := book.Query(address);
      if Fails(policy, vinAddress) || !book.HasWallets() {
        ScanOneStops(policy, book, to, address, seen);
        ScanInTwo(policy, book, to, addressList[..k + 1], addressList[k + 1..], flags);
        assert addressList[..k + 1] + addressList[k + 1..] == addressList;
        return Err(if Fails(policy, vinAddress) then Quit else Panic);
      }
      if !vinAddress.Found? && receiver == Some(User) {
        isDeposit := true;
      }
      if receiver == Some(Hot) && vinAddress.Found? {
        isCollection := true;
      }
      if address == book.hot.value && receiver.None? {
        isWithdraw := true;
      }
      if receiver == Some(Cold) && address == book.hot.value {
        isToCold := true;
      }
      if address == book.cold.value && receiver == Some(Hot) {
        isToHot := true;
      }
      ScanOne(policy, book, to, address, seen);
      assert Flags(isDeposit, isWithdraw, isCollection, isToCold, isToHot) == seen.Or(PairFlags(book, to, address));
      k := k + 1;
    }
    assert addressList[..k] == addressList;
    return Ok(Flags(isDeposit, isWithdraw, isCollection, isToCold, isToHot));
  }

  /** The middle loop: the inputs of the transaction. */
  method ScanInputs(policy: Policy, book: Book, to: string, vin: seq<RawIo>, flags: Flags)
    returns (r: Result<Flags, Outcome>)
    ensures r == Scan(policy, book, to, Senders(vin), flags)
  {
    r := Ok(flags);
    var j := 0;
    while j < |vin|
      invariant 0 <= j <= |vin|
      invariant r.Ok? && r == Scan(policy, book, to, Senders(vin[..j]), flags)
    {
      var addressList := Split(vin[j].address);
      assert vin[..j + 1][..j] == vin[..j];
      ScanInTwo(policy, book, to, Senders(vin[..j]), addressList, flags);
      r := ScanAddresses(policy, book, to, addressList, r.value);
      if r.Err? {
        ghost var rest := SendersExtend(vin, j + 1);
        ScanInTwo(policy, book, to, Senders(vin[..j + 1]), rest, flags);
        return;
      }
      j := j + 1;
    }
    assert vin[..j] == vin;
  }

  lemma {:induction false} SendersExtend(vin: seq<RawIo>, j: nat) returns (rest: seq<string>)
    requires j <= |vin|
    ensures Senders(vin) == Senders(vin[..j]) + rest
    decreases |vin| - j
  {
    if j == |vin| {
      assert vin[..j] == vin;
      rest := [];
    } else {
      assert vin[..j + 1][..j] == vin[..j];
      var more := SendersExtend(vin, j + 1);
      rest := Split(vin[j].address) + more;
    }
  }

  /** The outer loop over receivers, and the label the flags stand for. */
  method Classify(policy: Policy, book: Book, tx: RawTx) returns (o: Outcome)
    ensures o == Classified(policy, book, tx)
  {
    var toAddressList := Receivers(tx.vout);
    ghost var froms := Senders(tx.vin);
    var flags := NO_FLAGS;
    var i := 0;
    hide SeenFlags, AnyFails, Senders;
    if book.HasWallets() {
      SeenNothing(book, [], froms);
      assert toAddressList[..0] == [];
    }
    while i < |toAddressList|
      invariant 0 <= i <= |toAddressList|
      invariant i > 0 ==> !book.hot.Fault?
      invariant i > 0 && froms != [] ==> book.HasWallets() && !AnyFails(policy, book, froms)
      invariant flags == if book.HasWallets() then SeenFlags(book, toAddressList[..i], froms) else NO_FLAGS
    {
      if book.hot.Fault? {
        return Quit;
      }
      var scanned := ScanInputs(policy, book, toAddressList[i], tx.vin, flags);
      if scanned.Err? {
        return scanned.error;
      }
      if book.HasWallets() {
        SeenOneMoreReceiver(book, toAddressList[..i], toAddressList[i], froms);
        SeenNothing(book, [toAddressList[i]], []);
        assert toAddressList[..i + 1] == toAddressList[..i] + [toAddressList[i]];
      }
      flags := scanned.value;
      i := i + 1;
    }
    assert toAddressList[..i] == toAddressList;
    if book.HasWallets() && (froms == [] || toAddressList == []) {
      SeenNothing(book, toAddressList, froms);
    }
    var txType := Unknown;
    if flags.deposit { txType := Deposit; }
    if flags.withdraw { txType := Withdraw; }
    if flags.collection { txType := Collection; }
    if flags.toCold { txType := HotToCold; }
    if flags.toHot { txType := ColdToHot; }
    return Labelled(txType);
  }

  // ---------------------------------------------------------------------------------------------
  // What the label means
  // ---------------------------------------------------------------------------------------------

  lemma {:induction false} SenderOfSomeInput(vin: seq<RawIo>, from: string)
    ensures from in Senders(vin) <==> exists io | io in vin :: from in Split(io.address)
  {
    if vin != [] {
      var init, last := vin[..|vin| - 1], vin[|vin| - 1];
      SenderOfSomeInput(init, from);
      assert vin == init + [last];
      if from in Split(last.address) {
        assert last in vin;
      }
    }
  }

  ghost predicate SameMembers(a: seq<string>, b: seq<string>) {
    forall x :: x in a <==> x in b
  }

  /** The label depends only on which addresses receive and which addresses send. */
  lemma OrderIsIrrelevant(policy: Policy, book: Book, tx: RawTx, other: RawTx)
    requires SameMembers(Receivers(tx.vout), Receivers(other.vout))
    requires SameMembers(Senders(tx.vin), Senders(other.vin))
    ensures book.HasWallets() ==> Classified(policy, book, tx) == Classified(policy, book, other)
    ensures Classified(policy, book, tx).Labelled? || Classified(policy, book, other).Labelled?
            ==> Classified(policy, book, tx) == Classified(policy, book, other)
  {
    var tos, froms := Receivers(tx.vout), Senders(tx.vin);
    var tos', froms' := Receivers(other.vout), Senders(other.vin);
    assert tos != [] ==> tos[0] in tos';
    assert tos' != [] ==> tos'[0] in tos;
    assert froms != [] ==> froms[0] in froms';
    assert froms' != [] ==> froms'[0] in froms;
    assert AnyFails(policy, book, froms) <==> AnyFails(policy, book, froms');
    if book.HasWallets() {
      forall kind ensures SomePair(book, kind, tos, froms) == SomePair(book, kind, tos', froms') {
      }
    }
  }

  /** The two inputs list the same addresses, each as often, in any order. */
  predicate SameAddresses(a: RawIo, b: RawIo) {
    multiset(Split(a.address)) == multiset(Split(b.address))
  }

  /** Every input of `vin` has a counterpart in `other`. */
  ghost predicate Mirrored(vin: seq<RawIo>, other: seq<RawIo>) {
    forall io | io in vin :: exists io' | io' in other :: SameAddresses(io, io')
  }

  lemma MirroredSender(vin: seq<RawIo>, other: seq<RawIo>, from: string)
    requires Mirrored(vin, other) && from in Senders(vin)
    ensures from in Senders(other)
  {
    SenderOfSomeInput(vin, from);
    SenderOfSomeInput(other, from);
    var io :| io in vin && from in Split(io.address);
    var io' :| io' in other && SameAddresses(io, io');
    PieceOfPermutation(Split(io.address), Split(io'.address), from);
  }

  /** Permuting the outputs, the inputs, and the addresses of an input keeps the label. */
  lemma PermutationKeepsLabel(policy: Policy, book: Book, tx: RawTx, other: RawTx)
    requires book.HasWallets()
    requires multiset(tx.vout) == multiset(other.vout)
    requires Mirrored(tx.vin, other.vin) && Mirrored(other.vin, tx.vin)
    ensures Classified(policy, book, tx) == Classified(policy, book, other)
  {
    forall x ensures x in Receivers(tx.vout) <==> x in Receivers(other.vout) {
      ReceiverOfPermutation(tx.vout, other.vout, x);
    }
    forall x ensures x in Senders(tx.vin) <==> x in Senders(other.vin) {
      if x in Senders(tx.vin) { MirroredSender(tx.vin, other.vin, x); }
      if x in Senders(other.vin) { MirroredSender(other.vin, tx.vin, x); }
    }
    OrderIsIrrelevant(policy, book, tx, other);
  }

  lemma PieceOfPermutation(a: seq<string>, b: seq<string>, x: string)
    requires multiset(a) == multiset(b)
    ensures x in a <==> x in b
  {
    assert x in a <==> x in multiset(a);
    assert x in b <==> x in multiset(b);
  }

  lemma ReceiverOfPermutation(vout: seq<RawIo>, other: seq<RawIo>, to: string)
    requires multiset(vout) == multiset(other)
    ensures to in Receivers(vout) <==> to in Receivers(other)
  {
    if to in Receivers(vout) { ReceiverMoves(vout, other, to); }
    if to in Receivers(other) { ReceiverMoves(other, vout, to); }
  }

  lemma ReceiverMoves(vout: seq<RawIo>, other: seq<RawIo>, to: string)
    requires multiset(vout) == multiset(other) && to in Receivers(vout)
    ensures to in Receivers(other)
  {
    var i :| 0 <= i < |vout| && Receivers(vout)[i] == to;
    assert vout[i] in multiset(other);
    var j :| 0 <= j < |other| && other[j] == vout[i];
    assert Receivers(other)[j] == to;
  }

  /** A spend of the hot wallet with change to an address that the look-up finds as hot is an internal transfer. */
  lemma HotChangeIsNoWithdrawal(policy: Policy, book: Book, tx: RawTx, change: string)
    requires book.HasWallets() && book.hot.value in book.rows
    requires book.hot.value in Senders(tx.vin)
    requires change in Receivers(tx.vout) && book.AddressExist(change) == Some(Hot)
    ensures var o := Classified(policy, book, tx);
            o == Quit || (o.Labelled? && o.kind in {Collection, HotToCold, ColdToHot})
  {
    var o := Classified(policy, book, tx);
    if o != Quit {
      assert book.Query(book.hot.value).Found? by {
        assert !Fails(policy, book.Query(book.hot.value));
      }
      assert Matches(book, Collection, change, book.hot.value);
    }
  }

  /** The hot wallet spends, and one output pays the hot wallet's own address. */
  ghost predicate SpendsBack(book: Book, tx: RawTx)
    requires book.HasWallets()
  {
    book.hot.value in Senders(tx.vin) && book.hot.value in Receivers(tx.vout)
  }

  /** The address table lets the change of a hot-wallet spend be told from a payment to the outside. */
  predicate ChangeIsSeen(policy: Policy, book: Book)
    requires book.HasWallets()
  {
    var hot := book.hot.value;
    || SEPARATOR in hot
    || Fails(policy, book.Query(hot))
    || book.AddressExist(hot) == Some(Cold)
    || (book.AddressExist(hot) == Some(Hot) && (book.Query(hot).Found? || book.cold.value == hot))
  }

  /**
   * A hot-wallet spend with change to itself is never labelled "withdraw" exactly when the lower-cased look-up of the
   * hot address finds a hot or a cold wallet.  The second clause is for an address the table knows as it is written.
   */
  lemma HotChangeIff(policy: Policy, book: Book)
    requires book.HasWallets()
    ensures (forall tx | SpendsBack(book, tx) :: Classified(policy, book, tx) != Labelled(Withdraw))
            <==> ChangeIsSeen(policy, book)
    ensures book.Query(book.hot.value).Found? && SEPARATOR !in book.hot.value ==>
              (ChangeIsSeen(policy, book) <==> book.AddressExist(book.hot.value) in {Some(Hot), Some(Cold)})
  {
    if ChangeIsSeen(policy, book) {
      forall tx | SpendsBack(book, tx) ensures Classified(policy, book, tx) != Labelled(Withdraw) {
        SeenChangeIsNoWithdrawal(policy, book, tx);
      }
    } else {
      var tx := UnseenChange(policy, book);
    }
  }

  lemma SeenChangeIsNoWithdrawal(policy: Policy, book: Book, tx: RawTx)
    requires book.HasWallets() && ChangeIsSeen(policy, book) && SpendsBack(book, tx)
    ensures Classified(policy, book, tx) != Labelled(Withdraw)
  {
    var hot, tos, froms := book.hot.value, Receivers(tx.vout), Senders(tx.vin);
    SenderOfSomeInput(tx.vin, hot);
    if !AnyFails(policy, book, froms) {
      assert !Fails(policy, book.Query(hot));
      if book.AddressExist(hot) == Some(Cold) {
        assert Matches(book, HotToCold, hot, hot);
      } else if book.Query(hot).Found? {
        HotChangeIsNoWithdrawal(policy, book, tx, hot);
      } else {
        assert Matches(book, ColdToHot, hot, hot);
      }
    }
  }

  /** Otherwise a spend with change to itself and an output to an address nobody knows is labelled "withdraw". */
  lemma UnseenChange(policy: Policy, book: Book) returns (tx: RawTx)
    requires book.HasWallets() && !ChangeIsSeen(policy, book)
    ensures SpendsBack(book, tx) && Classified(policy, book, tx) == Labelled(Withdraw)
  {
    var hot := book.hot.value;
    var x := UnknownAddress(book);
    var vin, vout := [RawIo(hot, 0, 0)], [RawIo(hot, 0, 0), RawIo(x, 1, 0)];
    tx := RawTx("", "", vin, vout);
    SplitWhole(hot);
    assert vin[..0] == [] && Senders(vin) == [hot];
    assert hot in [hot];
    var tos := Receivers(vout);
    assert tos == [hot, x];
    assert !AnyFails(policy, book, [hot]);
    assert x in tos && Matches(book, Withdraw, x, hot);
    assert !SomePair(book, Collection, tos, [hot]) && !SomePair(book, HotToCold, tos, [hot]);
    assert !SomePair(book, ColdToHot, tos, [hot]);
  }

  lemma {:induction false} SplitWhole(s: string)
    requires SEPARATOR !in s
    ensures Split(s) == [s]
  {
    if s != "" {
      SplitWhole(s[1..]);
      assert [s[0]] + s[1..] == s;
    }
  }

  /** The table is finite: some address is longer than all it knows. */
  lemma UnknownAddress(book: Book) returns (x: string)
    ensures book.AddressExist(x).None?
  {
    var n := LongerThan(book.rows.Keys);
    x := seq(n, _ => 'a');
    assert |ToLower(x)| == n;
  }

  lemma {:induction false} LongerThan(keys: set<string>) returns (n: nat)
    ensures forall key | key in keys :: |key| < n
  {
    n := 0;
    if keys != {} {
      var key :| key in keys;
      n := LongerThan(keys - {key});
      if n <= |key| {
        n := |key| + 1;
      }
    }
  }

  /**
   * An address with a capital letter is stored as it is written and looked up in lower case: its change is a
   * withdrawal.
   */
  lemma CapitalHotAddressWithdraws(policy: Policy)
    ensures var book := Book(map["A" := Hot, "c" := Cold], {}, Found("A"), Found("c"));
            var tx := RawTx("", "", [RawIo("A", 0, 1)], [RawIo("A", 0, 1)]);
            && book.rows[book.hot.value] == Hot
            && SpendsBack(book, tx)
            && Classified(policy, book, tx) == Labelled(Withdraw)
  {
    var book := Book(map["A" := Hot, "c" := Cold], {}, Found("A"), Found("c"));
    var vin, vout := [RawIo("A", 0, 1)], [RawIo("A", 0, 1)];
    SplitWhole("A");
    assert vin[..0] == [] && Senders(vin) == ["A"] && Receivers(vout) == ["A"];
    assert ToLower("A") == "a";
    assert "a" != "A" && "a" != "c" by { assert "a"[0] != "A"[0] && "a"[0] != "c"[0]; }
    assert book.AddressExist("A") == None && book.Query("A") == Found(Hot);
    var froms := ["A"];
    assert "A" in froms;
    assert !AnyFails(policy, book, froms);
    assert Matches(book, Withdraw, "A", "A");
  }

  // ---------------------------------------------------------------------------------------------
  // The label, told by the addresses
  // ---------------------------------------------------------------------------------------------

  /** What the two queries of the address table answer. */
  lemma LookupsAre(book: Book, address: string)
    ensures var exists_, sender := book.AddressExist(address), book.Query(address);
            && (exists_ == None <==> ToLower(address) !in book.rows || ToLower(address) in book.faults)
            && (exists_ != None ==> exists_ == Some(book.rows[ToLower(address)]))
            && (sender == Fault <==> address in book.faults)
            && (sender == NotFound <==> address !in book.faults && address !in book.rows)
            && (sender.Found? ==> address in book.rows && sender == Found(book.rows[address]))
  {
  }

  /** Some output pays an address of this type, or with None an address that the look-up does not find. */
  predicate Pays(book: Book, tx: RawTx, wanted: Option<AddressType>) {
    exists io | io in tx.vout :: book.AddressExist(io.address) == wanted
  }

  /** The address stands in the address field of some input. */
  predicate SentBy(tx: RawTx, address: string) {
    exists io | io in tx.vin :: address in Split(io.address)
  }

  /** Some sender is in the address table, or not. */
  predicate SentByOurs(book: Book, tx: RawTx, ours: bool) {
    exists io, from | io in tx.vin && from in Split(io.address) :: book.Query(from).Found? == ours
  }

  /** Every sender is found, or, as meant, not found without a fault. */
  predicate SendersAnswered(policy: Policy, book: Book, tx: RawTx) {
    forall io, from | io in tx.vin && from in Split(io.address) ::
      book.Query(from).Found? || (policy.AsMeant? && book.Query(from) == NotFound)
  }

  lemma ReceiverOfSomeOutput(vout: seq<RawIo>, to: string)
    ensures to in Receivers(vout) <==> exists io | io in vout :: io.address == to
  {
    if io :| io in vout && io.address == to {
      var i :| 0 <= i < |vout| && vout[i] == io;
      assert Receivers(vout)[i] == to;
    }
  }

  lemma PaysIs(book: Book, tx: RawTx, wanted: Option<AddressType>)
    ensures Pays(book, tx, wanted) <==> exists to | to in Receivers(tx.vout) :: book.AddressExist(to) == wanted
  {
    if io :| io in tx.vout && book.AddressExist(io.address) == wanted {
      ReceiverOfSomeOutput(tx.vout, io.address);
    }
    if to :| to in Receivers(tx.vout) && book.AddressExist(to) == wanted {
      ReceiverOfSomeOutput(tx.vout, to);
      var io :| io in tx.vout && io.address == to;
    }
  }

  lemma SentByOursIs(book: Book, tx: RawTx, ours: bool)
    ensures SentByOurs(book, tx, ours) <==> exists from | from in Senders(tx.vin) :: book.Query(from).Found? == ours
  {
    if io, from :| io in tx.vin && from in Split(io.address) && book.Query(from).Found? == ours {
      SenderOfSomeInput(tx.vin, from);
    }
    if from :| from in Senders(tx.vin) && book.Query(from).Found? == ours {
      SenderOfSomeInput(tx.vin, from);
      var io :| io in tx.vin && from in Split(io.address);
    }
  }

  lemma AnsweredIs(policy: Policy, book: Book, tx: RawTx)
    ensures SendersAnswered(policy, book, tx) <==> !AnyFails(policy, book, Senders(tx.vin))
  {
    if SendersAnswered(policy, book, tx) {
      forall from | from in Senders(tx.vin) ensures !Fails(policy, book.Query(from)) {
        SenderOfSomeInput(tx.vin, from);
        var io :| io in tx.vin && from in Split(io.address);
      }
    } else {
      var io, from :| io in tx.vin && from in Split(io.address)
                      && !(book.Query(from).Found? || (policy.AsMeant? && book.Query(from) == NotFound));
      SenderOfSomeInput(tx.vin, from);
      assert Fails(policy, book.Query(from));
    }
  }

  /** A pattern that some pair matches is a receiver of one kind and, apart from it, a sender of one kind. */
  lemma PatternsSplit(book: Book, tx: RawTx)
    requires book.HasWallets()
    ensures var tos, froms := Receivers(tx.vout), Senders(tx.vin);
            && (SomePair(book, ColdToHot, tos, froms) <==> Pays(book, tx, Some(Hot)) && SentBy(tx, book.cold.value))
            && (SomePair(book, HotToCold, tos, froms) <==> Pays(book, tx, Some(Cold)) && SentBy(tx, book.hot.value))
            && (SomePair(book, Collection, tos, froms) <==> Pays(book, tx, Some(Hot)) && SentByOurs(book, tx, true))
            && (SomePair(book, Withdraw, tos, froms) <==> Pays(book, tx, None) && SentBy(tx, book.hot.value))
            && (SomePair(book, Deposit, tos, froms) <==> Pays(book, tx, Some(User)) && SentByOurs(book, tx, false))
  {
    var tos, froms := Receivers(tx.vout), Senders(tx.vin);
    PaysIs(book, tx, Some(Hot));
    PaysIs(book, tx, Some(Cold));
    PaysIs(book, tx, Some(User));
    PaysIs(book, tx, None);
    SentByOursIs(book, tx, true);
    SentByOursIs(book, tx, false);
    SenderOfSomeInput(tx.vin, book.cold.value);
    SenderOfSomeInput(tx.vin, book.hot.value);
    hide Pays, SentByOurs, Senders, Receivers;
    forall kind | kind in {ColdToHot, HotToCold, Collection, Withdraw, Deposit}
      ensures SomePair(book, kind, tos, froms)
              <==> exists to | to in tos :: exists from | from in froms :: Matches(book, kind, to, from)
    {
    }
  }

  /**
   * Which label a transaction gets, for any address table in which both wallets are registered: one equivalence for
   * each label, in the order of their priority.
   */
  lemma LabelIs(policy: Policy, book: Book, tx: RawTx)
    requires book.HasWallets() && SendersAnswered(policy, book, tx)
    ensures var o := Classified(policy, book, tx);
            && o.Labelled?
            && (o.kind == ColdToHot <==> Pays(book, tx, Some(Hot)) && SentBy(tx, book.cold.value))
            && (o.kind == HotToCold
                <==> o.kind != ColdToHot && Pays(book, tx, Some(Cold)) && SentBy(tx, book.hot.value))
            && (o.kind == Collection
                <==> o.kind !in {ColdToHot, HotToCold} && Pays(book, tx, Some(Hot)) && SentByOurs(book, tx, true))
            && (o.kind == Withdraw
                <==> o.kind !in {ColdToHot, HotToCold, Collection}
                     && Pays(book, tx, None) && SentBy(tx, book.hot.value))
            && (o.kind == Deposit
                <==> o.kind !in {ColdToHot, HotToCold, Collection, Withdraw}
                     && Pays(book, tx, Some(User)) && SentByOurs(book, tx, false))
            && (o.kind == Unknown <==> o.kind !in {ColdToHot, HotToCold, Collection, Withdraw, Deposit})
  {
    AnsweredIs(policy, book, tx);
    PatternsSplit(book, tx);
    var tos, froms := Receivers(tx.vout), Senders(tx.vin);
    if tos == [] || froms == [] {
      SeenNothing(book, tos, froms);
    }
    hide Pays, SentBy, SentByOurs, AnyFails, SomePair, Senders, Receivers;
  }

  /** When there is no label: as written or as meant, by a fault, or through a wallet that is not registered. */
  lemma NoLabelIff(policy: Policy, book: Book, tx: RawTx)
    ensures var o := Classified(policy, book, tx);
            && (tx.vout == [] ==> o == Labelled(Unknown))
            && (tx.vout != [] && book.hot.Fault? ==> o == Quit)
            && (tx.vout != [] && !book.hot.Fault? && tx.vin == [] ==> o == Labelled(Unknown))
            && (tx.vout != [] && book.HasWallets() ==> (o == Quit <==> !SendersAnswered(policy, book, tx)))
            && (o == Panic ==> tx.vout != [] && tx.vin != [] && !book.HasWallets())
            && (o == Panic <== tx.vout != [] && tx.vin != [] && !book.hot.Fault? && !book.HasWallets()
                               && SendersAnswered(policy, book, tx))
  {
    AnsweredIs(policy, book, tx);
    assert Senders(tx.vin) != [] ==> Senders(tx.vin)[0] in Senders(tx.vin);
  }

  /** With the missing row read as an error, a transaction gets a label only if every sender is one of our addresses. */
  lemma AsWrittenNeedsKnownSenders(book: Book, tx: RawTx)
    requires book.HasWallets() && tx.vout != []
    ensures Classified(AsWritten, book, tx).Labelled?
            <==> forall from | from in Senders(tx.vin) :: book.Query(from).Found?
    ensures Classified(AsWritten, book, tx) != Labelled(Deposit)
  {
    var tos, froms := Receivers(tx.vout), Senders(tx.vin);
    if !AnyFails(AsWritten, book, froms) {
      forall from | from in froms ensures book.Query(from).Found? {
        assert !Fails(AsWritten, book.Query(from));
      }
      assert !SomePair(book, Deposit, tos, froms);
    } else {
      var from :| from in froms && Fails(AsWritten, book.Query(from));
      assert !book.Query(from).Found?;
    }
  }

  /** The two readings agree exactly when no sender is unknown, or a query really fails. */
  lemma ReadingsAgreeIff(book: Book, tx: RawTx)
    requires book.HasWallets() && tx.vout != []
    ensures Classified(AsWritten, book, tx) == Classified(AsMeant, book, tx)
            <==> (forall from | from in Senders(tx.vin) :: !book.Query(from).NotFound?)
                 || (exists from | from in Senders(tx.vin) :: book.Query(from).Fault?)
  {
    var froms := Senders(tx.vin);
    if from :| from in froms && book.Query(from).Fault? {
      assert Fails(AsWritten, book.Query(from)) && Fails(AsMeant, book.Query(from));
    } else if from :| from in froms && book.Query(from).NotFound? {
      assert Fails(AsWritten, book.Query(from));
      assert !AnyFails(AsMeant, book, froms);
    } else {
      assert !AnyFails(AsWritten, book, froms) && !AnyFails(AsMeant, book, froms);
    }
  }
}
