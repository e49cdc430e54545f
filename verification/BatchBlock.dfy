/** rpcclient/syncclient: the cursor that hands out bounded windows of confirmed headers. */
module SyncClient {
  import opened Prelude
  import opened BigInt

  datatype Header = Header(hash: string, prevHash: string, number: nat, timestamp: nat)

  /** Reply to the query for the newest header. */
  datatype Latest = LatestFault | Unreported | Reported(header: Header)

  /** The chain node as one call sees it; a request for a height outside `headers` fails. */
  datatype Provider = Provider(latest: Latest, headers: map<nat, Header>)

  datatype FetchError = RpcFailed | LatestUnreported | AheadOfProvider

  /** The node answers a request for height h with the header of height h. */
  ghost predicate Honest(p: Provider) {
    forall h | h in p.headers :: p.headers[h].number == h
  }

  function Numbers(headers: seq<Header>): (ns: seq<nat>)
    ensures |ns| == |headers|
    ensures forall i | 0 <= i < |ns| :: ns[i] == headers[i].number
  {
    seq(|headers|, i requires 0 <= i < |headers| => headers[i].number)
  }

  /** What one call decides to fetch, before any header is requested. */
  datatype Plan = Nothing | Ahead | Window(lo: nat, count: nat)

  function PlanWindow(last: Option<nat>, latest: nat, depth: nat, maxSize: nat): Plan
    requires maxSize < TWO_64
  {
    var end := latest - depth;
    if end < 0 then Nothing
    else if last.Some? && last.value == end then Nothing
    else if last.Some? && last.value > end then Ahead
    else
      var next := if last.Some? then last.value + 1 else 0;
      Window(next, Wrap64(Uint64(Clamp(next, end, maxSize) - next) + 1))
  }

  /** The plan is the next min(maxSize, remaining) confirmed heights, and "ahead" means just that. */
  lemma PlanIsNextWindow(last: Option<nat>, latest: nat, depth: nat, maxSize: nat)
    requires 1 <= maxSize < TWO_64 && latest < TWO_63
    ensures var plan := PlanWindow(last, latest, depth, maxSize);
            var next := if last.Some? then last.value + 1 else 0;
            && (plan.Ahead? <==> latest - depth >= 0 && last.Some? && last.value > latest - depth)
            && (plan.Window? <==> next <= latest - depth)
            && (plan.Window? ==>
                  && plan.lo == next
                  && 1 <= plan.count <= maxSize
                  && plan.lo + plan.count - 1 == Min(next + maxSize - 1, latest - depth))
  {
    var next: nat := if last.Some? then last.value + 1 else 0;
    if next <= latest - depth {
      ClampOnHeights(next, latest - depth, maxSize);
    }
  }

  /** A zero window, which the configuration default rules out, asks for two headers instead of none. */
  lemma ZeroWindowFetchesTwo(last: nat, latest: nat, depth: nat)
    requires last < latest - depth && latest < TWO_63
    ensures PlanWindow(Some(last), latest, depth, 0) == Window(last + 1, 2)
  {
    var end := latest - depth;
    assert Uint64(end - (last + 1)) == end - (last + 1);
    assert Clamp(last + 1, end, 0) == last;
  }

  /** All `count` headers from `lo` on, or None as soon as one request fails. */
  function FetchAll(p: Provider, lo: nat, count: nat): (r: Option<seq<Header>>)
    ensures r.Some? ==> |r.value| == count
  {
    if count == 0 then Some([])
    else
      var init := FetchAll(p, lo, count - 1);
      var height := lo + count - 1;
      if init.Some? && height in p.headers then
        Some(init.value + [p.headers[height]])
      else None
  }

  lemma {:induction false} OneFailureFailsAll(p: Provider, lo: nat, count: nat, h: nat)
    requires lo <= h < lo + count && h !in p.headers
    ensures FetchAll(p, lo, count).None?
  {
    if h < lo + (count - 1) {
      OneFailureFailsAll(p, lo, count - 1, h);
    }
  }

  lemma {:induction false} FetchAllSucceeds(p: Provider, lo: nat, count: nat)
    requires forall h: nat | lo <= h < lo + count :: h in p.headers
    ensures FetchAll(p, lo, count).Some?
    ensures forall header | header in FetchAll(p, lo, count).value :: header in p.headers.Values
  {
    if count > 0 {
      FetchAllSucceeds(p, lo, count - 1);
      var height := lo + count - 1;
      assert p.headers[height] in p.headers.Values;
    }
  }

  /** The i-th header is the node's header for the i-th height of the window. */
  lemma {:induction false} FetchedAre(p: Provider, lo: nat, count: nat, i: nat)
    requires FetchAll(p, lo, count).Some? && i < count
    ensures lo + i in p.headers && FetchAll(p, lo, count).value[i] == p.headers[lo + i]
  {
    if i < count - 1 {
      FetchedAre(p, lo, count - 1, i);
    }
  }

  lemma {:induction false} FetchedNumbers(p: Provider, lo: nat, count: nat)
    requires Honest(p) && FetchAll(p, lo, count).Some?
    ensures Numbers(FetchAll(p, lo, count).value) == Heights(lo, lo + count)
  {
    if count > 0 {
      FetchedNumbers(p, lo, count - 1);
      var init := FetchAll(p, lo, count - 1).value;
      var newest := p.headers[lo + count - 1];
      assert Numbers(init + [newest]) == Numbers(init) + [newest.number];
      assert Heights(lo, lo + count) == Heights(lo, lo + (count - 1)) + [lo + count - 1];
    }
  }

  /** Reply of one call, as a function of the cursor and the node. */
  function Reply(last: Option<Header>, p: Provider, depth: nat, maxSize: nat): Result<seq<Header>, FetchError>
    requires maxSize < TWO_64
  {
    match p.latest
    case LatestFault => Err(RpcFailed)
    case Unreported => Err(LatestUnreported)
    case Reported(newest) =>
      match PlanWindow(if last.Some? then Some(last.value.number) else None, newest.number, depth, maxSize)
      case Nothing => Ok([])
      case Ahead => Err(AheadOfProvider)
      case Window(lo, count) =>
        var all := FetchAll(p, lo, count);
        if all.Some? then Ok(all.value) else Err(RpcFailed)
  }

  /** The cursor moves to the last header returned, and only when something is returned. */
  function Moved(last: Option<Header>, reply: Result<seq<Header>, FetchError>): Option<Header> {
    if reply.Ok? && reply.value != [] then Some(reply.value[|reply.value| - 1]) else last
  }

  /** What a caller sees of an honest node: the next confirmed heights, nothing skipped, nothing repeated. */
  lemma ReplyIsNextHeights(last: Option<Header>, p: Provider, depth: nat, maxSize: nat)
    requires 1 <= maxSize < TWO_64 && Honest(p)
    requires p.latest.Reported? && p.latest.header.number < TWO_63
    requires var reply := Reply(last, p, depth, maxSize); reply.Ok? && reply.value != []
    ensures var reply := Reply(last, p, depth, maxSize);
            var next := if last.Some? then last.value.number + 1 else 0;
            var top := Min(next + maxSize - 1, p.latest.header.number - depth);
            && next <= top
            && Numbers(reply.value) == Heights(next, top + 1)
            && Moved(last, reply).Some? && Moved(last, reply).value.number == top
  {
    PlanIsNextWindow(if last.Some? then Some(last.value.number) else None, p.latest.header.number, depth, maxSize);
    var plan := PlanWindow(if last.Some? then Some(last.value.number) else None,
                           p.latest.header.number, depth, maxSize);
    assert FetchAll(p, plan.lo, plan.count) == Some(Reply(last, p, depth, maxSize).value);
    FetchedNumbers(p, plan.lo, plan.count);
    assert Numbers(FetchAll(p, plan.lo, plan.count).value)[plan.count - 1] == plan.lo + plan.count - 1;
  }

  /** Which replies carry no header: at the confirmed head, or too early, or ahead, or a fault; the cursor stays. */
  lemma ReplyWithoutHeaders(last: Option<Header>, p: Provider, depth: nat, maxSize: nat)
    requires 1 <= maxSize < TWO_64
    requires p.latest.Reported? ==> p.latest.header.number < TWO_63
    ensures var reply := Reply(last, p, depth, maxSize);
            var end := if p.latest.Reported? then p.latest.header.number - depth else -1;
            && (reply == Err(AheadOfProvider) <==> end >= 0 && last.Some? && last.value.number > end)
            && (reply == Ok([]) <==> p.latest.Reported? && (end < 0 || (last.Some? && last.value.number == end)))
            && (!(reply.Ok? && reply.value != []) ==> Moved(last, reply) == last)
  {
    if p.latest.Reported? {
      PlanIsNextWindow(if last.Some? then Some(last.value.number) else None, p.latest.header.number, depth, maxSize);
    }
  }

  /** The two other errors: no newest header to go by, and a query that failed, for it or for a header of the window. */
  lemma ReplyErrors(last: Option<Header>, p: Provider, depth: nat, maxSize: nat)
    requires 1 <= maxSize < TWO_64
    requires p.latest.Reported? ==> p.latest.header.number < TWO_63
    ensures var reply := Reply(last, p, depth, maxSize);
            && (reply == Err(LatestUnreported) <==> p.latest == Unreported)
            && (reply == Err(RpcFailed)
                <==> || p.latest == LatestFault
                     || (p.latest.Reported?
                         && var next := if last.Some? then last.value.number + 1 else 0;
                            exists h: nat | next <= h <= Min(next + maxSize - 1, p.latest.header.number - depth) ::
                              h !in p.headers))
  {
    hide Wrap64, Uint64, Clamp, ToInt64;
    if p.latest.Reported? {
      var next := if last.Some? then last.value.number + 1 else 0;
      var plan := PlanWindow(if last.Some? then Some(last.value.number) else None, p.latest.header.number, depth,
                             maxSize);
      PlanIsNextWindow(if last.Some? then Some(last.value.number) else None, p.latest.header.number, depth, maxSize);
      hide PlanWindow;
      if plan.Window? {
        var top := plan.lo + plan.count - 1;
        if h: nat :| next <= h <= top && h !in p.headers {
          OneFailureFailsAll(p, plan.lo, plan.count, h);
        } else {
          FetchAllSucceeds(p, plan.lo, plan.count);
        }
      }
    }
  }

  class BatchBlock {
    var latestHeader: Option<Header>
    var lastTraversedHeader: Option<Header>
    const blockConfirmationDepth: nat

    constructor (fromHeader: Option<Header>, confDepth: nat)
      ensures latestHeader == None && lastTraversedHeader == fromHeader && blockConfirmationDepth == confDepth
    {
      latestHeader, lastTraversedHeader := None, fromHeader;
      blockConfirmationDepth := confDepth;
    }

    /** The request loop of NextHeaders: it gives up at the first request that fails. */
    static method FetchHeaders(p: Provider, nextHeight: nat, count: nat) returns (r: Option<seq<Header>>)
      ensures r == FetchAll(p, nextHeight, count)
    {
      var headers: seq<Header> := [];
      for i := 0 to count
        invariant FetchAll(p, nextHeight, i) == Some(headers)
      {
        var height := nextHeight + i;
        if height !in p.headers {
          OneFailureFailsAll(p, nextHeight, count, height);
          return None;
        }
        headers := headers + [p.headers[height]];
      }
      return Some(headers);
    }

    method NextHeaders(p: Provider, maxSize: nat) returns (r: Result<seq<Header>, FetchError>)
      requires 1 <= maxSize < TWO_64
      modifies this
      ensures r == Reply(old(lastTraversedHeader), p, blockConfirmationDepth, maxSize)
      ensures lastTraversedHeader == Moved(old(lastTraversedHeader), r)
      ensures latestHeader == if p.latest.Reported? then Some(p.latest.header) else old(latestHeader)
    {
      hide Wrap64, Uint64, Clamp, ToInt64;
      match p.latest {
        case LatestFault => return Err(RpcFailed);
        case Unreported => return Err(LatestUnreported);
        case Reported(newest) => latestHeader := Some(newest);
      }
      var endHeight := p.latest.header.number - blockConfirmationDepth;
      if endHeight < 0 {
        return Ok([]);
      }
      var nextHeight := 0;
      if lastTraversedHeader.Some? {
        var last := lastTraversedHeader.value.number;
        if last == endHeight {
          return Ok([]);
        } else if last > endHeight {
          return Err(AheadOfProvider);
        }
        nextHeight := last + 1;
      }
      endHeight := Clamp(nextHeight, endHeight, maxSize);
      var count := Wrap64(Uint64(endHeight - nextHeight) + 1);
      var headers := FetchHeaders(p, nextHeight, count);
      if headers.None? {
        return Err(RpcFailed);
      }
      if |headers.value| == 0 {
        return Ok([]);
      }
      lastTraversedHeader := Some(headers.value[|headers.value| - 1]);
      return Ok(headers.value);
    }
  }
}
