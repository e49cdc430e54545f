/** worker/synchronizer.go: the tick of the block scanner, from headers to one message per batch. */
module Synchronizer {
  import opened Prelude
  import opened BigInt
  import opened Classifier
  import opened SyncClient

  datatype VoutItem = VoutItem(address: string, txIndex: nat, amount: int)

  datatype VinItem = VinItem(address: string, txId: string, vout: nat, amount: int)

  datatype Transaction = Transaction(businessId: string, blockNumber: nat, hash: string, fee: string, txType: Label,
                                     vinList: seq<VinItem>, voutList: seq<VoutItem>)

  datatype TransactionsChannel = TransactionsChannel(blockHeight: nat, transactions: seq<Transaction>)

  /** One message to the consumer: what each business gets out of a batch. */
  type Batch = map<string, TransactionsChannel>

  /**
   * What the node and the database answer while one batch is processed.  `txs` holds the blocks
   * that can be read, `books` the address tables; `storeFails` is a fault of the block insert.
   */
  datatype Node = Node(txs: map<nat, seq<RawTx>>, businesses: Option<seq<string>>, books: map<string, Book>,
                       storeFails: bool)
  {
    function BookOf(uid: string): Book {
      if uid in books then books[uid] else Book(map[], {}, Fault, Fault)
    }
  }

  /** Why a batch stops early: an error return, the early `return err`, or a panic. */
  datatype Stop = Go | StopError | StopQuit | StopPanic

  // ---------------------------------------------------------------------------------------------
  // One block for one business
  // ---------------------------------------------------------------------------------------------

  /** Output indexes are cut to eight bits. */
  function Outputs(vout: seq<RawIo>): (items: seq<VoutItem>)
    ensures |items| == |vout|
  {
    seq(|vout|, i requires 0 <= i < |vout| => VoutItem(vout[i].address, vout[i].index % 256, vout[i].amount))
  }

  /** The record of a labelled transaction; the inputs that the loops gather are never attached to it. */
  function Item(policy: Policy, book: Book, uid: string, header: Header, tx: RawTx): Transaction {
    var o := Classified(policy, book, tx);
    Transaction(uid, header.number, tx.hash, tx.fee, if o.Labelled? then o.kind else Unknown, [], Outputs(tx.vout))
  }

  function Items(policy: Policy, book: Book, uid: string, header: Header, txs: seq<RawTx>): (items: seq<Transaction>)
    ensures |items| == |txs|
  {
    if txs == [] then []
    else Items(policy, book, uid, header, txs[..|txs| - 1]) + [Item(policy, book, uid, header, txs[|txs| - 1])]
  }

  /**
   * The record of every transaction, field by field: the business, the height of the block, the transaction's own hash
   * and fee, its label, no inputs, and each output with its address, its index cut to eight bits and its amount.
   */
  lemma {:induction false} ItemsAre(policy: Policy, book: Book, uid: string, header: Header, txs: seq<RawTx>, i: nat)
    requires i < |txs|
    ensures var item, tx := Items(policy, book, uid, header, txs)[i], txs[i];
            && item.businessId == uid && item.blockNumber == header.number
            && item.hash == tx.hash && item.fee == tx.fee && item.vinList == []
            && (Classified(policy, book, tx).Labelled? ==> item.txType == Classified(policy, book, tx).kind)
            && |item.voutList| == |tx.vout|
            && forall j | 0 <= j < |tx.vout| ::
                 && item.voutList[j].address == tx.vout[j].address
                 && item.voutList[j].txIndex == tx.vout[j].index % 256
                 && item.voutList[j].amount == tx.vout[j].amount
  {
    hide Classified;
    if i < |txs| - 1 {
      ItemsAre(policy, book, uid, header, txs[..|txs| - 1], i);
    }
  }

  function OutcomeStop(o: Outcome): Stop {
    match o
    case Labelled(_) => Go
    case Quit => StopQuit
    case Panic => StopPanic
  }

  function TxsStop(policy: Policy, book: Book, txs: seq<RawTx>): Stop {
    if txs == [] then Go
    else
      var first := TxsStop(policy, book, txs[..|txs| - 1]);
      if first != Go then first else OutcomeStop(Classified(policy, book, txs[|txs| - 1]))
  }

  lemma {:induction false} TxsStopEarly(policy: Policy, book: Book, txs: seq<RawTx>, n: nat)
    requires n <= |txs| && TxsStop(policy, book, txs[..n]) != Go
    ensures TxsStop(policy, book, txs) == TxsStop(policy, book, txs[..n])
  {
    if n == |txs| {
      assert txs[..n] == txs;
    } else {
      assert txs[..|txs| - 1][..n] == txs[..n];
      TxsStopEarly(policy, book, txs[..|txs| - 1], n);
    }
  }

  /** A block goes through exactly when all its transactions are labelled; else the first one that is not decides. */
  lemma {:induction false} TxsStopIs(policy: Policy, book: Book, txs: seq<RawTx>)
    ensures TxsStop(policy, book, txs) == Go <==> forall tx | tx in txs :: Classified(policy, book, tx).Labelled?
    ensures TxsStop(policy, book, txs) != Go ==>
              exists i | 0 <= i < |txs| ::
                && (forall j | 0 <= j < i :: Classified(policy, book, txs[j]).Labelled?)
                && (TxsStop(policy, book, txs) == StopQuit <==> Classified(policy, book, txs[i]) == Quit)
                && (TxsStop(policy, book, txs) == StopPanic <==> Classified(policy, book, txs[i]) == Panic)
                && !Classified(policy, book, txs[i]).Labelled?
  {
    hide Classified;
    if txs != [] {
      var n := |txs| - 1;
      var init, last := txs[..n], txs[n];
      assert txs == init + [last] && last in txs;
      TxsStopIs(policy, book, init);
      if TxsStop(policy, book, init) == Go {
        forall j | 0 <= j < n ensures Classified(policy, book, txs[j]).Labelled? {
          assert txs[j] == init[j] && init[j] in init;
        }
        assert !Classified(policy, book, last).Labelled? ==> TxsStop(policy, book, txs) != Go;
      }
    }
  }

  /** The loop over the transactions of a block. */
  method ClassifyBlock(policy: Policy, book: Book, uid: string, header: Header, txs: seq<RawTx>)
    returns (stop: Stop, items: seq<Transaction>)
    ensures stop == TxsStop(policy, book, txs)
    ensures stop == Go ==> items == Items(policy, book, uid, header, txs)
  {
    stop, items := Go, [];
    for i := 0 to |txs|
      invariant stop == Go == TxsStop(policy, book, txs[..i])
      invariant items == Items(policy, book, uid, header, txs[..i])
    {
      assert txs[..i + 1][..i] == txs[..i];
      var o := Classify(policy, book, txs[i]);
      stop := OutcomeStop(o);
      if stop != Go {
        TxsStopEarly(policy, book, txs, i + 1);
        return;
      }
      items := items + [Transaction(uid, header.number, txs[i].hash, txs[i].fee, o.kind, [], Outputs(txs[i].vout))];
    }
    assert txs[..|txs|] == txs;
  }

  // ---------------------------------------------------------------------------------------------
  // Grouping per business
  // ---------------------------------------------------------------------------------------------

  /** Add what one block holds for one business; an empty contribution leaves the batch alone. */
  function AddBusiness(batch: Batch, uid: string, header: Header, items: seq<Transaction>): Batch {
    if items == [] then batch
    else if uid !in batch then batch[uid := TransactionsChannel(Uint64(header.number), items)]
    else batch[uid := TransactionsChannel(Uint64(header.number), batch[uid].transactions + items)]
  }

  function AddBusinesses(policy: Policy, node: Node, batch: Batch, header: Header, txs: seq<RawTx>,
                         uids: seq<string>): Batch {
    if uids == [] then batch
    else
      var uid := uids[|uids| - 1];
      AddBusiness(AddBusinesses(policy, node, batch, header, txs, uids[..|uids| - 1]), uid, header,
                  Items(policy, node.BookOf(uid), uid, header, txs))
  }

  function BusinessesStop(policy: Policy, node: Node, txs: seq<RawTx>, uids: seq<string>): Stop {
    if uids == [] then Go
    else
      var first := BusinessesStop(policy, node, txs, uids[..|uids| - 1]);
      if first != Go then first else TxsStop(policy, node.BookOf(uids[|uids| - 1]), txs)
  }

  lemma {:induction false} BusinessesStopEarly(policy: Policy, node: Node, txs: seq<RawTx>, uids: seq<string>, n: nat)
    requires n <= |uids| && BusinessesStop(policy, node, txs, uids[..n]) != Go
    ensures BusinessesStop(policy, node, txs, uids) == BusinessesStop(policy, node, txs, uids[..n])
  {
    if n == |uids| {
      assert uids[..n] == uids;
    } else {
      assert uids[..|uids| - 1][..n] == uids[..n];
      BusinessesStopEarly(policy, node, txs, uids[..|uids| - 1], n);
    }
  }

  predicate Readable(node: Node, header: Header) {
    header.number in node.txs && node.businesses.Some?
  }

  function HeaderStop(policy: Policy, node: Node, header: Header): Stop {
    if !Readable(node, header) then StopError
    else BusinessesStop(policy, node, node.txs[header.number], node.businesses.value)
  }

  function HeadersStop(policy: Policy, node: Node, headers: seq<Header>): Stop {
    if headers == [] then Go
    else
      var first := HeadersStop(policy, node, headers[..|headers| - 1]);
      if first != Go then first else HeaderStop(policy, node, headers[|headers| - 1])
  }

  lemma {:induction false} HeadersStopEarly(policy: Policy, node: Node, headers: seq<Header>, n: nat)
    requires n <= |headers| && HeadersStop(policy, node, headers[..n]) != Go
    ensures HeadersStop(policy, node, headers) == HeadersStop(policy, node, headers[..n])
  {
    if n == |headers| {
      assert headers[..n] == headers;
    } else {
      assert headers[..|headers| - 1][..n] == headers[..n];
      HeadersStopEarly(policy, node, headers[..|headers| - 1], n);
    }
  }

  lemma {:induction false} BusinessesGoIff(policy: Policy, node: Node, txs: seq<RawTx>, uids: seq<string>)
    ensures BusinessesStop(policy, node, txs, uids) == Go
            <==> forall uid | uid in uids :: TxsStop(policy, node.BookOf(uid), txs) == Go
  {
    hide TxsStop;
    if uids != [] {
      var init, last := uids[..|uids| - 1], uids[|uids| - 1];
      assert uids == init + [last] && last in uids;
      BusinessesGoIff(policy, node, txs, init);
    }
  }

  /** The first business whose transactions stop decides. */
  lemma {:induction false} BusinessesStopIs(policy: Policy, node: Node, txs: seq<RawTx>, uids: seq<string>)
    returns (k: nat)
    requires BusinessesStop(policy, node, txs, uids) != Go
    ensures k < |uids| && BusinessesStop(policy, node, txs, uids[..k]) == Go
    ensures BusinessesStop(policy, node, txs, uids) == TxsStop(policy, node.BookOf(uids[k]), txs)
    ensures BusinessesStop(policy, node, txs, uids) != StopError
  {
    hide TxsStop;
    var n := |uids| - 1;
    var init := uids[..n];
    if BusinessesStop(policy, node, txs, init) != Go {
      k := BusinessesStopIs(policy, node, txs, init);
      assert init[..k] == uids[..k] && init[k] == uids[k];
    } else {
      NoTxError(policy, node.BookOf(uids[n]), txs);
      k := n;
    }
  }

  lemma {:induction false} NoTxError(policy: Policy, book: Book, txs: seq<RawTx>)
    ensures TxsStop(policy, book, txs) != StopError
  {
    if txs != [] {
      NoTxError(policy, book, txs[..|txs| - 1]);
    }
  }

  /** A batch goes through exactly when all headers can be read and all transactions are labelled for all businesses. */
  lemma {:induction false} HeadersGoIff(policy: Policy, node: Node, headers: seq<Header>)
    ensures HeadersStop(policy, node, headers) == Go
            <==> forall header | header in headers :: Passes(policy, node, header)
  {
    hide TxsStop, BusinessesStop;
    if headers != [] {
      var init, last := headers[..|headers| - 1], headers[|headers| - 1];
      assert headers == init + [last] && last in headers;
      HeadersGoIff(policy, node, init);
      if Readable(node, last) {
        BusinessesGoIff(policy, node, node.txs[last.number], node.businesses.value);
      }
    }
  }

  predicate Passes(policy: Policy, node: Node, header: Header) {
    && header.number in node.txs && node.businesses.Some?
    && forall uid | uid in node.businesses.value ::
         TxsStop(policy, node.BookOf(uid), node.txs[header.number]) == Go
  }

  /**
   * Else the first header that does not pass decides: with an error exactly when the node does not show it or the
   * business list is not read, otherwise as the first of its businesses whose transactions stop.
   */
  lemma {:induction false} HeadersStopIs(policy: Policy, node: Node, headers: seq<Header>) returns (k: nat)
    requires HeadersStop(policy, node, headers) != Go
    ensures k < |headers| && HeadersStop(policy, node, headers[..k]) == Go
    ensures HeadersStop(policy, node, headers) == StopError
            <==> headers[k].number !in node.txs || node.businesses == None
    ensures headers[k].number in node.txs && node.businesses.Some? ==>
              exists b | 0 <= b < |node.businesses.value| ::
                HeadersStop(policy, node, headers)
                == TxsStop(policy, node.BookOf(node.businesses.value[b]), node.txs[headers[k].number])
  {
    hide TxsStop, BusinessesStop;
    var n := |headers| - 1;
    var init := headers[..n];
    if HeadersStop(policy, node, init) != Go {
      k := HeadersStopIs(policy, node, init);
      assert init[..k] == headers[..k] && init[k] == headers[k];
    } else {
      k := n;
      if Readable(node, headers[n]) {
        var b := BusinessesStopIs(policy, node, node.txs[headers[n].number], node.businesses.value);
      }
    }
  }

  /** The message the header loop builds. */
  function Collect(policy: Policy, node: Node, headers: seq<Header>): Batch {
    if headers == [] then map[]
    else
      var header := headers[|headers| - 1];
      var batch := Collect(policy, node, headers[..|headers| - 1]);
      if Readable(node, header)
      then AddBusinesses(policy, node, batch, header, node.txs[header.number], node.businesses.value)
      else batch
  }

  // ---------------------------------------------------------------------------------------------
  // Closed form: the stream of each business
  // ---------------------------------------------------------------------------------------------

  /** The transactions a block holds for a business: its labelled items, once per listing of the business. */
  function BlockStream(policy: Policy, node: Node, uid: string, header: Header, txs: seq<RawTx>,
                       uids: seq<string>): seq<Transaction> {
    if uids == [] then []
    else BlockStream(policy, node, uid, header, txs, uids[..|uids| - 1])
         + (if uids[|uids| - 1] == uid then Items(policy, node.BookOf(uid), uid, header, txs) else [])
  }

  /** A business that is listed once gets the items of the block once, in the order of the block. */
  lemma {:induction false} ListedOnce(policy: Policy, node: Node, uid: string, header: Header, txs: seq<RawTx>,
                                      uids: seq<string>, k: nat)
    requires k < |uids| && uids[k] == uid && forall i | 0 <= i < |uids| && i != k :: uids[i] != uid
    ensures BlockStream(policy, node, uid, header, txs, uids) == Items(policy, node.BookOf(uid), uid, header, txs)
  {
    hide Items;
    var init := uids[..|uids| - 1];
    if k < |uids| - 1 {
      ListedOnce(policy, node, uid, header, txs, init, k);
    } else {
      NotListed(policy, node, uid, header, txs, init);
    }
  }

  lemma {:induction false} NotListed(policy: Policy, node: Node, uid: string, header: Header, txs: seq<RawTx>,
                                     uids: seq<string>)
    requires uid !in uids
    ensures BlockStream(policy, node, uid, header, txs, uids) == []
  {
    if uids != [] {
      NotListed(policy, node, uid, header, txs, uids[..|uids| - 1]);
      assert uids[|uids| - 1] in uids;
    }
  }

  function HeaderStream(policy: Policy, node: Node, uid: string, header: Header): seq<Transaction> {
    if Readable(node, header)
    then BlockStream(policy, node, uid, header, node.txs[header.number], node.businesses.value)
    else []
  }

  function Stream(policy: Policy, node: Node, uid: string, headers: seq<Header>): seq<Transaction> {
    if headers == [] then []
    else Stream(policy, node, uid, headers[..|headers| - 1]) + HeaderStream(policy, node, uid, headers[|headers| - 1])
  }

  /** The height of the last header that contributes a transaction. */
  function LastContribution(policy: Policy, node: Node, uid: string, headers: seq<Header>): nat {
    if headers == [] then 0
    else if HeaderStream(policy, node, uid, headers[|headers| - 1]) != [] then Uint64(headers[|headers| - 1].number)
    else LastContribution(policy, node, uid, headers[..|headers| - 1])
  }

  /** What a message holds for a business. */
  function Received(batch: Batch, uid: string): seq<Transaction> {
    if uid in batch then batch[uid].transactions else []
  }

  lemma {:induction false} BlockAddsItsStream(policy: Policy, node: Node, batch: Batch, header: Header, txs: seq<RawTx>,
                                              uids: seq<string>, uid: string)
    requires uid in batch ==> batch[uid].transactions != []
    ensures var after := AddBusinesses(policy, node, batch, header, txs, uids);
            var part := BlockStream(policy, node, uid, header, txs, uids);
            && Received(after, uid) == Received(batch, uid) + part
            && (uid in after <==> Received(batch, uid) + part != [])
            && (part != [] ==> after[uid].blockHeight == Uint64(header.number))
            && (part == [] ==> (uid in after <==> uid in batch) && (uid in batch ==> after[uid] == batch[uid]))
  {
    hide Items;
    if uids != [] {
      BlockAddsItsStream(policy, node, batch, header, txs, uids[..|uids| - 1], uid);
      var part := BlockStream(policy, node, uid, header, txs, uids[..|uids| - 1]);
      var items := Items(policy, node.BookOf(uid), uid, header, txs);
      AppendAssociates(Received(batch, uid), part, items);
    }
  }

  /** The message holds, per business, the whole stream of the batch and the height of its last contribution. */
  lemma {:induction false} CollectIsStream(policy: Policy, node: Node, headers: seq<Header>, uid: string)
    ensures var batch := Collect(policy, node, headers);
            && (uid in batch <==> Stream(policy, node, uid, headers) != [])
            && (uid in batch ==>
                  batch[uid] == TransactionsChannel(LastContribution(policy, node, uid, headers),
                                                    Stream(policy, node, uid, headers)))
  {
    if headers != [] {
      var header := headers[|headers| - 1];
      CollectIsStream(policy, node, headers[..|headers| - 1], uid);
      if Readable(node, header) {
        BlockAddsItsStream(policy, node, Collect(policy, node, headers[..|headers| - 1]), header,
                           node.txs[header.number], node.businesses.value, uid);
      }
    }
  }

  lemma {:induction false} StreamSplits(policy: Policy, node: Node, uid: string, a: seq<Header>, b: seq<Header>)
    ensures Stream(policy, node, uid, a + b) == Stream(policy, node, uid, a) + Stream(policy, node, uid, b)
    ensures LastContribution(policy, node, uid, a + b)
            == if Stream(policy, node, uid, b) != [] then LastContribution(policy, node, uid, b)
               else LastContribution(policy, node, uid, a)
  {
    if b == [] {
      assert a + b == a;
    } else {
      var init := b[..|b| - 1];
      StreamSplits(policy, node, uid, a, init);
      assert (a + b)[..|a + b| - 1] == a + init && (a + b)[|a + b| - 1] == b[|b| - 1];
      AppendAssociates(Stream(policy, node, uid, a), Stream(policy, node, uid, init),
                       HeaderStream(policy, node, uid, b[|b| - 1]));
    }
  }

  /** One batch over h1 + h2 gives each business what the two batches give it together. */
  lemma BatchSplits(policy: Policy, node: Node, uid: string, h1: seq<Header>, h2: seq<Header>)
    ensures var whole := Collect(policy, node, h1 + h2);
            var first := Collect(policy, node, h1);
            var second := Collect(policy, node, h2);
            && Received(whole, uid) == Received(first, uid) + Received(second, uid)
            && (uid in whole <==> uid in first || uid in second)
            && (uid in second ==> whole[uid].blockHeight == second[uid].blockHeight)
            && (uid in first && uid !in second ==> whole[uid].blockHeight == first[uid].blockHeight)
  {
    CollectIsStream(policy, node, h1 + h2, uid);
    CollectIsStream(policy, node, h1, uid);
    CollectIsStream(policy, node, h2, uid);
    StreamSplits(policy, node, uid, h1, h2);
  }

  function CollectAll(policy: Policy, node: Node, windows: seq<seq<Header>>): seq<Batch> {
    if windows == [] then []
    else [Collect(policy, node, windows[0])] + CollectAll(policy, node, windows[1..])
  }

  function ReceivedAll(batches: seq<Batch>, uid: string): seq<Transaction> {
    if batches == [] then [] else Received(batches[0], uid) + ReceivedAll(batches[1..], uid)
  }

  lemma ReceivedAllCons(batch: Batch, rest: seq<Batch>, uid: string)
    ensures ReceivedAll([batch] + rest, uid) == Received(batch, uid) + ReceivedAll(rest, uid)
  {
    assert ([batch] + rest)[1..] == rest;
  }

  lemma StreamOfNothing(policy: Policy, node: Node, uid: string)
    ensures Stream(policy, node, uid, []) == []
  {
  }

  /** However the headers are cut into windows, the business receives the same stream. */
  lemma {:induction false} WindowSizeIsInvisible(policy: Policy, node: Node, uid: string, windows: seq<seq<Header>>)
    ensures ReceivedAll(CollectAll(policy, node, windows), uid) == Stream(policy, node, uid, Flatten(windows))
  {
    hide Collect, Stream, LastContribution;
    if windows == [] {
      StreamOfNothing(policy, node, uid);
    } else {
      WindowSizeIsInvisible(policy, node, uid, windows[1..]);
      CollectIsStream(policy, node, windows[0], uid);
      StreamSplits(policy, node, uid, windows[0], Flatten(windows[1..]));
      ReceivedAllCons(Collect(policy, node, windows[0]), CollectAll(policy, node, windows[1..]), uid);
    }
  }

  // ---------------------------------------------------------------------------------------------
  // The tick
  // ---------------------------------------------------------------------------------------------

  datatype BatchResult = Nil | Error | Crashed

  /**
   * What a tick can change: the cursor, the retained batch, the blocks table, and the messages taken by the consumer.
   */
  datatype View = View(cursor: Option<Header>, headers: seq<Header>, blocks: seq<Header>, delivered: seq<Batch>)

  /** What the blocks table takes: heights that are positive and not there yet. */
  predicate Insertable(blocks: seq<Header>, headers: seq<Header>) {
    forall h | h in headers :: h.number > 0 && h.number !in Numbers(blocks)
  }

  /** The insert of all headers at once. */
  predicate StoreSucceeds(node: Node, blocks: seq<Header>, headers: seq<Header>) {
    !node.storeFails && Insertable(blocks, headers)
  }

  function AfterBatch(policy: Policy, node: Node, v: View): (View, BatchResult) {
    if v.headers == [] then (v, Nil)
    else
      match HeadersStop(policy, node, v.headers)
      case StopError => (v, Error)
      case StopPanic => (v, Crashed)
      case StopQuit => (v, if policy.AsWritten? then Nil else Error)
      case Go =>
        var sent := v.(delivered := v.delivered + [Collect(policy, node, v.headers)]);
        if StoreSucceeds(node, v.blocks, v.headers) then (sent.(blocks := v.blocks + v.headers), Nil)
        else (sent, Error)
  }

  function AfterFetch(p: Provider, depth: nat, maxSize: nat, v: View): View
    requires maxSize < TWO_64
  {
    if v.headers != [] then v
    else
      var reply := Reply(v.cursor, p, depth, maxSize);
      v.(cursor := Moved(v.cursor, reply), headers := if reply.Ok? then reply.value else [])
  }

  /** A tick: fetch when nothing is retained, process, and forget the batch when processing returns nil. */
  function AfterTick(policy: Policy, p: Provider, node: Node, depth: nat, maxSize: nat, v: View): (View, BatchResult)
    requires maxSize < TWO_64
  {
    var (after, result) := AfterBatch(policy, node, AfterFetch(p, depth, maxSize, v));
    (if result.Nil? then after.(headers := []) else after, result)
  }

  /** A read that fails keeps the batch for the next tick; only the early return as written forgets an unsent one. */
  lemma BatchIsForgottenIff(policy: Policy, p: Provider, node: Node, depth: nat, maxSize: nat, v: View)
    requires maxSize < TWO_64 && AfterFetch(p, depth, maxSize, v).headers != []
    ensures var fetched := AfterFetch(p, depth, maxSize, v);
            var (after, result) := AfterTick(policy, p, node, depth, maxSize, v);
            && (after.headers == [] || after.headers == fetched.headers)
            && (after.headers == [] && after.blocks == v.blocks
                <==> policy.AsWritten? && HeadersStop(policy, node, fetched.headers) == StopQuit)
            && (after.headers == [] && after.blocks != v.blocks <==> after.blocks == v.blocks + fetched.headers)
            && (result == Crashed <==> HeadersStop(policy, node, fetched.headers) == StopPanic)
  {
    hide HeadersStop, Collect, Reply;
    var fetched := AfterFetch(p, depth, maxSize, v);
    assert |v.blocks + fetched.headers| > |v.blocks|;
  }

  predicate UniqueHeights(headers: seq<Header>) {
    forall i, j | 0 <= i < j < |headers| :: headers[i].number != headers[j].number
  }

  /**
   * The blocks table keeps what its schema promises: no height twice and none that is zero.  It grows by the whole
   * batch exactly when the batch was handed over, the database did not fault and every height is new and positive.
   */
  lemma TableKeepsItsKeys(policy: Policy, node: Node, v: View)
    requires UniqueHeights(v.blocks) && UniqueHeights(v.headers) && forall h | h in v.blocks :: h.number > 0
    ensures var (after, result) := AfterBatch(policy, node, v);
            && UniqueHeights(after.blocks) && (forall h | h in after.blocks :: h.number > 0)
            && after.cursor == v.cursor && after.headers == v.headers
            && (after.delivered != v.delivered <==> v.headers != [] && HeadersStop(policy, node, v.headers) == Go)
            && (after.blocks == v.blocks || after.blocks == v.blocks + v.headers)
            && (v.headers != [] ==>
                  (after.blocks == v.blocks + v.headers
                   <==> && HeadersStop(policy, node, v.headers) == Go && !node.storeFails
                        && forall h | h in v.headers ::
                             h.number > 0 && forall b | b in v.blocks :: b.number != h.number))
  {
    hide HeadersStop, Collect;
    var (after, result) := AfterBatch(policy, node, v);
    assert v.headers != [] ==> |v.blocks + v.headers| > |v.blocks|;
    forall h | h in v.headers
      ensures h.number in Numbers(v.blocks) <==> exists b | b in v.blocks :: b.number == h.number
    {
      InNumbers(v.blocks, h.number);
    }
    if after.blocks != v.blocks {
      KeysJoin(v.blocks, v.headers);
    }
  }

  lemma InNumbers(blocks: seq<Header>, n: nat)
    ensures n in Numbers(blocks) <==> exists b | b in blocks :: b.number == n
  {
    if b :| b in blocks && b.number == n {
      var i :| 0 <= i < |blocks| && blocks[i] == b;
      assert Numbers(blocks)[i] == n;
    }
  }

  lemma KeysJoin(blocks: seq<Header>, headers: seq<Header>)
    requires UniqueHeights(blocks) && UniqueHeights(headers) && Insertable(blocks, headers)
    ensures UniqueHeights(blocks + headers)
  {
    var all := blocks + headers;
    forall i, j | 0 <= i < j < |all| ensures all[i].number != all[j].number {
      if i < |blocks| <= j {
        assert all[j] in headers;
        InNumbers(blocks, all[j].number);
        assert all[i] in blocks;
      }
    }
  }

  class BaseSynchronizer {
    const policy: Policy
    const headerBufferSize: nat
    const blockBatch: BatchBlock
    var headers: seq<Header>
    var blocks: seq<Header>
    var delivered: seq<Batch>

    constructor (policy: Policy, headerBufferSize: nat, blockBatch: BatchBlock, blocks: seq<Header>)
      ensures this.policy == policy && this.headerBufferSize == headerBufferSize && this.blockBatch == blockBatch
      ensures AsView() == View(blockBatch.lastTraversedHeader, [], blocks, [])
    {
      this.policy, this.headerBufferSize, this.blockBatch := policy, headerBufferSize, blockBatch;
      this.headers, this.blocks, this.delivered := [], blocks, [];
    }

    function AsView(): View
      reads this, blockBatch
    {
      View(blockBatch.lastTraversedHeader, headers, blocks, delivered)
    }

    method Tick(p: Provider, node: Node) returns (result: BatchResult)
      requires 1 <= headerBufferSize < TWO_64
      modifies this, blockBatch
      ensures (AsView(), result)
              == AfterTick(policy, p, node, blockBatch.blockConfirmationDepth, headerBufferSize, old(AsView()))
    {
      if |headers| == 0 {
        var newHeaders := blockBatch.NextHeaders(p, headerBufferSize);
        if newHeaders.Ok? && newHeaders.value != [] {
          headers := newHeaders.value;
        }
      }
      assert AsView() == AfterFetch(p, blockBatch.blockConfirmationDepth, headerBufferSize, old(AsView()));
      result := ProcessBatch(node);
      if result.Nil? {
        headers := [];
      }
    }

    method ProcessBatch(node: Node) returns (result: BatchResult)
      modifies this`blocks, this`delivered
      ensures (AsView(), result) == AfterBatch(policy, node, old(AsView()))
    {
      if |headers| == 0 {
        return Nil;
      }
      var stop, businessTxChannel := GatherBatch(policy, node, headers);
      match stop {
        case StopError => return Error;
        case StopPanic => return Crashed;
        case StopQuit => return if policy.AsWritten? then Nil else Error;
        case Go =>
      }
      delivered := delivered + [businessTxChannel];
      if !StoreSucceeds(node, blocks, headers) {
        return Error;
      }
      blocks := blocks + headers;
      return Nil;
    }

    /** The loop over headers and businesses that fills the message. */
    static method GatherBatch(policy: Policy, node: Node, headers: seq<Header>) returns (stop: Stop, batch: Batch)
      ensures stop == HeadersStop(policy, node, headers)
      ensures stop == Go ==> batch == Collect(policy, node, headers)
    {
      stop, batch := Go, map[];
      for i := 0 to |headers|
        invariant stop == Go == HeadersStop(policy, node, headers[..i])
        invariant batch == Collect(policy, node, headers[..i])
      {
        assert headers[..i + 1][..i] == headers[..i];
        stop, batch := GatherBlock(policy, node, headers[i], batch);
        if stop != Go {
          HeadersStopEarly(policy, node, headers, i + 1);
          return;
        }
      }
      assert headers[..|headers|] == headers;
    }

    static method GatherBlock(policy: Policy, node: Node, header: Header, given: Batch)
      returns (stop: Stop, batch: Batch)
      ensures stop == HeaderStop(policy, node, header)
      ensures stop == Go ==> Readable(node, header)
                             && batch == AddBusinesses(policy, node, given, header, node.txs[header.number],
                                                        node.businesses.value)
    {
      hide TxsStop, Items, Classified;
      batch := given;
      if header.number !in node.txs || node.businesses.None? {
        return StopError, batch;
      }
      var txList, businessList := node.txs[header.number], node.businesses.value;
      stop := Go;
      for j := 0 to |businessList|
        invariant stop == Go == BusinessesStop(policy, node, txList, businessList[..j])
        invariant batch == AddBusinesses(policy, node, given, header, txList, businessList[..j])
      {
        assert businessList[..j + 1][..j] == businessList[..j];
        var uid := businessList[j];
        var items;
        stop, items := ClassifyBlock(policy, node.BookOf(uid), uid, header, txList);
        if stop != Go {
          BusinessesStopEarly(policy, node, txList, businessList, j + 1);
          return;
        }
        if |items| > 0 {
          if uid !in batch {
            batch := batch[uid := TransactionsChannel(Uint64(header.number), items)];
          } else {
            batch := batch[uid := TransactionsChannel(Uint64(header.number), batch[uid].transactions + items)];
          }
        }
      }
      assert businessList[..|businessList|] == businessList;
    }
  }
}
