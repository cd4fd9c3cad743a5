/** The backfill worker: gap checks against a list of peers, and the bounded search for a stream. */
module Backfill {
  import opened Basics
  import opened Database
  import opened Gaps
  import opened GapFill
  import opened Service
  import opened Tiers
  import ColdFiles
  import Ledger
  import TierSteps
  import TierTheorems

  const PEER_RETRY_LIMIT: nat := 3
  const PEER_BACKOFF_BASE_SECONDS: nat := 1
  const MAX_PEER_CONNECTION_ATTEMPTS: nat := 5

  // ----- looking for a peer to stream from -----

  /** What one connection attempt comes to: a stream, a peer without the range, or an error. */
  datatype Connection = Connected | OutOfRange | ConnectError

  function Power2(k: nat): nat {
    if k == 0 then 1 else 2 * Power2(k - 1)
  }

  function Backoff(retries: nat): nat {
    PEER_BACKOFF_BASE_SECONDS * Power2(retries)
  }

  /** The time slept before `retries` repeated attempts at one peer. */
  function BackoffSum(retries: nat): nat {
    if retries == 0 then 0 else BackoffSum(retries - 1) + Backoff(retries - 1)
  }

  /** Whether a peer ends up streaming, when attempts go as `attempt` says. */
  predicate Answers(attempt: (nat, nat, nat) -> Connection, round: nat, peer: nat, retries: nat)
    decreases PEER_RETRY_LIMIT - retries
  {
    match attempt(round, peer, retries)
    case Connected => true
    case OutOfRange => false
    case ConnectError => retries < PEER_RETRY_LIMIT && Answers(attempt, round, peer, retries + 1)
  }

  /** Attempt `k` connects, after errors only. */
  ghost predicate ConnectsAt(attempt: (nat, nat, nat) -> Connection, round: nat, peer: nat, k: nat) {
    k < 4 && attempt(round, peer, k).Connected? && forall j | 0 <= j < k :: attempt(round, peer, j).ConnectError?
  }

  /** A peer answers exactly if one of its first four attempts connects, after errors only. */
  lemma {:induction false} AnswersIff(attempt: (nat, nat, nat) -> Connection, round: nat, peer: nat, retries: nat)
    requires retries <= 3 && forall j | 0 <= j < retries :: attempt(round, peer, j).ConnectError?
    ensures Answers(attempt, round, peer, retries) <==> exists k :: ConnectsAt(attempt, round, peer, k)
    decreases 3 - retries
  {
    if attempt(round, peer, retries).Connected? {
      assert ConnectsAt(attempt, round, peer, retries);
    } else if attempt(round, peer, retries).ConnectError? && retries < 3 {
      AnswersIff(attempt, round, peer, retries + 1);
    } else {
      forall k: nat ensures !ConnectsAt(attempt, round, peer, k) {
        assert retries < k ==> !attempt(round, peer, retries).ConnectError? || k >= 4;
      }
    }
  }

  /** The attempts made at one peer, and the time slept between them: errors only before the last. */
  ghost predicate PeerTried(attempt: (nat, nat, nat) -> Connection, round: nat, peer: nat, tries: nat, slept: nat) {
    && 1 <= tries <= 4 && slept == [0, 1, 3, 7][tries - 1]
    && (forall j | 0 <= j < tries - 1 :: attempt(round, peer, j).ConnectError?)
    && (tries < 4 ==> !attempt(round, peer, tries - 1).ConnectError?)
  }

  /** Tries one peer until it answers or the retries are used up. */
  method TryPeer(attempt: (nat, nat, nat) -> Connection, round: nat, peer: nat)
    returns (found: bool, tries: nat, slept: nat)
    ensures found <==> exists k :: ConnectsAt(attempt, round, peer, k)
    ensures PeerTried(attempt, round, peer, tries, slept)
    ensures found <==> attempt(round, peer, tries - 1).Connected?
  {
    AnswersIff(attempt, round, peer, 0);
    var retries := 0;
    tries, slept := 0, 0;
    assert BackoffSum(3) == 7 by {
      assert Power2(1) == 2 && Power2(2) == 4;
      assert BackoffSum(1) == 1 && BackoffSum(2) == 3;
    }
    assert BackoffSum(1) == 1 && BackoffSum(2) == 3;
    while true
      invariant tries == retries <= PEER_RETRY_LIMIT && slept == BackoffSum(retries) == [0, 1, 3, 7][retries]
      invariant forall j | 0 <= j < retries :: attempt(round, peer, j).ConnectError?
      invariant Answers(attempt, round, peer, retries) <==> Answers(attempt, round, peer, 0)
      decreases PEER_RETRY_LIMIT - retries
    {
      tries := tries + 1;
      match attempt(round, peer, retries) {
        case Connected => return true, tries, slept;
        case OutOfRange => return false, tries, slept;
        case ConnectError =>
          if retries >= PEER_RETRY_LIMIT {
            return false, tries, slept;
          }
          slept := slept + Backoff(retries);
          retries := retries + 1;
      }
    }
  }

  ghost predicate RoundAnswers(attempt: (nat, nat, nat) -> Connection, round: nat, peers: nat) {
    exists peer: nat, k: nat :: peer < peers && ConnectsAt(attempt, round, peer, k)
  }

  /** Some peer answers in one of the first `rounds` rounds. */
  ghost predicate AnyAnswers(attempt: (nat, nat, nat) -> Connection, rounds: nat, peers: nat) {
    exists round: nat :: round < rounds && RoundAnswers(attempt, round, peers)
  }

  /**
   * For any peers and any outcomes the search ends within twenty attempts and thirty-five seconds
   * of sleep per peer, and finds a stream exactly when some peer answers in one of five rounds.
   */
  method StreamBlocksFromPeers(peers: nat, attempt: (nat, nat, nat) -> Connection)
    returns (found: bool, tries: nat, slept: nat)
    ensures tries <= 20 * peers && slept <= 35 * peers
    ensures found <==> AnyAnswers(attempt, 5, peers)
  {
    tries, slept := 0, 0;
    var rounds := 0;
    while rounds < MAX_PEER_CONNECTION_ATTEMPTS
      invariant rounds <= MAX_PEER_CONNECTION_ATTEMPTS
      invariant tries <= 4 * (peers * rounds) && slept <= 7 * (peers * rounds)
      invariant !AnyAnswers(attempt, rounds, peers)
    {
      var ok, t, s := TryRound(peers, attempt, rounds);
      RoundsAdd(peers, rounds);
      tries, slept := tries + t, slept + s;
      if ok {
        return true, tries, slept;
      }
      rounds := rounds + 1;
    }
    found := false;
  }

  lemma RoundsAdd(peers: nat, rounds: nat)
    requires rounds < MAX_PEER_CONNECTION_ATTEMPTS
    ensures peers * (rounds + 1) == peers * rounds + peers <= 5 * peers
  {
  }

  /** One pass over the peers. */
  method TryRound(peers: nat, attempt: (nat, nat, nat) -> Connection, round: nat)
    returns (found: bool, tries: nat, slept: nat)
    ensures tries <= 4 * peers && slept <= 7 * peers
    ensures found <==> RoundAnswers(attempt, round, peers)
  {
    tries, slept := 0, 0;
    for peer := 0 to peers
      invariant tries <= 4 * peer && slept <= 7 * peer
      invariant forall p: nat, k: nat | p < peer :: !ConnectsAt(attempt, round, p, k)
    {
      var ok, t, s := TryPeer(attempt, round, peer);
      tries, slept := tries + t, slept + s;
      if ok {
        return true, tries, slept;
      }
    }
    found := false;
  }

  // ----- gap checks -----

  /** What a peer replies: no usable status, or its range, what its stream delivers and how that ends. */
  datatype Reply =
    | StatusError
    | NoStatus
    | Status(first: nat, last: nat, stream: seq<Block>, ok: bool)

  /** The reply to a request for a range, by first and last number, peer and retry. */
  type Network = (nat, nat, nat, nat) -> Reply

  /** What a peer streams of `[start, end]` comes in order and does not leave the range. */
  ghost predicate InOrder(reply: Reply, start: nat, end: nat) {
    reply.Status? ==> ColdFiles.Consecutive(reply.stream, start) && start + |reply.stream| <= end + 1
  }

  ghost predicate Orderly(net: Network) {
    forall start: nat, end: nat, peer: nat, retries: nat | start <= end ::
      InOrder(net(start, end, peer, retries), start, end)
  }

  predicate AllNumbered(blocks: seq<Block>) {
    forall i | 0 <= i < |blocks| :: BlockNumber(blocks[i]).Some?
  }

  /** No peer streams a block with the number 2^64 - 1, which has no successor. */
  ghost predicate Tame(net: Network) {
    forall start: nat, end: nat, peer: nat, retries: nat :: TameReply(net(start, end, peer, retries))
  }

  ghost predicate TameReply(reply: Reply) {
    reply.Status? ==> Writable(reply.stream)
  }

  ghost predicate Writable(blocks: seq<Block>) {
    forall i | 0 <= i < |blocks| :: BlockNumber(blocks[i]) != Some(U64_MAX)
  }

  predicate Offers(reply: Reply, start: nat, end: nat) {
    reply.Status? && reply.first <= start && end <= reply.last
  }

  /** A stream ends well if the peer says so and every block of it could be written. */
  predicate EndsWell(reply: Reply) {
    reply.Status? && reply.ok && AllNumbered(reply.stream)
  }

  /** The reply that ends the search at one peer: its first stream that ends well. */
  function FinalOf(net: Network, start: nat, end: nat, peer: nat, retries: nat): Option<Reply>
    decreases PEER_RETRY_LIMIT - retries, start
  {
    var reply := net(start, end, peer, retries);
    if Offers(reply, start, end) && EndsWell(reply) then Some(reply)
    else if (reply.StatusError? || Offers(reply, start, end)) && retries < PEER_RETRY_LIMIT then
      FinalOf(net, start, end, peer, retries + 1)
    else None
  }

  /** The reply that ends the search for a range: that of the first peer with a stream that ends well. */
  function Final(net: Network, peers: nat, start: nat, end: nat, peer: nat): Option<Reply>
    decreases peers - peer
  {
    if peer >= peers then None
    else if FinalOf(net, start, end, peer, 0).Some? then FinalOf(net, start, end, peer, 0)
    else Final(net, peers, start, end, peer + 1)
  }

  /** The peer's range, first and last, spans the one asked for. */
  ghost predicate Spans(reply: Reply, start: nat, end: nat) {
    reply.Status? && reply.first <= start && end <= reply.last
  }

  /** Worth another request to the same peer: no status, or a stream of the range that does not end well. */
  ghost predicate WorthRetrying(reply: Reply, start: nat, end: nat) {
    reply.StatusError? || (Spans(reply, start, end) && !(reply.ok && AllNumbered(reply.stream)))
  }

  /** Reply `k` of the peer ends the search: the range is spanned, the stream ends well, and none before did. */
  ghost predicate EndsSearch(net: Network, start: nat, end: nat, peer: nat, k: nat) {
    var reply := net(start, end, peer, k);
    && k < 4 && Spans(reply, start, end) && reply.ok && AllNumbered(reply.stream)
    && (forall j | 0 <= j < k :: WorthRetrying(net(start, end, peer, j), start, end))
  }

  /** And no peer before this one has a reply that does. */
  ghost predicate EndsSearchFirst(net: Network, peers: nat, start: nat, end: nat, peer: nat, k: nat) {
    && peer < peers && EndsSearch(net, start, end, peer, k)
    && (forall p: nat, j: nat | p < peer :: !EndsSearch(net, start, end, p, j))
  }

  /** The requests to one peer: all but the last worth retrying, the last not, or the fourth. */
  ghost predicate AsksUntil(net: Network, start: nat, end: nat, peer: nat, asked: nat, reply: Option<Reply>) {
    && 1 <= asked <= 4
    && (forall j | 0 <= j < asked - 1 :: WorthRetrying(net(start, end, peer, j), start, end))
    && (asked < 4 ==> !WorthRetrying(net(start, end, peer, asked - 1), start, end))
    && reply == (if EndsSearch(net, start, end, peer, asked - 1) then Some(net(start, end, peer, asked - 1)) else None)
  }

  /** After `asked` requests: whether to go on, and with what reply if not. */
  ghost predicate AskedSoFar(net: Network, start: nat, end: nat, peer: nat, asked: nat, again: bool,
                             reply: Option<Reply>)
  {
    && (forall j | 0 <= j < asked - 1 :: WorthRetrying(net(start, end, peer, j), start, end))
    && if asked == 0 then again && reply.None?
       else
         var answer := net(start, end, peer, asked - 1);
         && (again <==> WorthRetrying(answer, start, end))
         && reply == (if Spans(answer, start, end) && !again then Some(answer) else None)
  }

  lemma AskedIsFinal(net: Network, start: nat, end: nat, peer: nat, asked: nat, again: bool, reply: Option<Reply>)
    requires 1 <= asked <= 4 && AskedSoFar(net, start, end, peer, asked, again, reply) && (again ==> asked == 4)
    ensures AsksUntil(net, start, end, peer, asked, reply) && reply == FinalOf(net, start, end, peer, 0)
  {
    FinalOfFrom(net, start, end, peer, 0);
    var last: nat := asked - 1;
    forall k: nat | EndsSearch(net, start, end, peer, k) ensures k == last {
      assert k < last ==> WorthRetrying(net(start, end, peer, k), start, end);
      assert last < k ==> WorthRetrying(net(start, end, peer, last), start, end);
    }
  }

  lemma {:induction false} FinalOfFrom(net: Network, start: nat, end: nat, peer: nat, retries: nat)
    requires retries <= 3
    requires forall j | 0 <= j < retries :: WorthRetrying(net(start, end, peer, j), start, end)
    ensures FinalOf(net, start, end, peer, retries).Some? <==> exists k :: EndsSearch(net, start, end, peer, k)
    ensures forall k: nat | EndsSearch(net, start, end, peer, k) ::
              FinalOf(net, start, end, peer, retries) == Some(net(start, end, peer, k))
    decreases 3 - retries
  {
    var reply := net(start, end, peer, retries);
    if Offers(reply, start, end) && EndsWell(reply) {
      assert EndsSearch(net, start, end, peer, retries);
    } else if WorthRetrying(reply, start, end) && retries < 3 {
      FinalOfFrom(net, start, end, peer, retries + 1);
    }
    forall k: nat | EndsSearch(net, start, end, peer, k)
      ensures k >= retries && (WorthRetrying(reply, start, end) || k == retries)
    {
      assert k < retries ==> WorthRetrying(net(start, end, peer, k), start, end);
      assert retries < k ==> WorthRetrying(net(start, end, peer, retries), start, end);
    }
  }

  /** The search ends with the first such reply of the first peer that has one, and with none if none has. */
  lemma {:induction false} FinalIs(net: Network, peers: nat, start: nat, end: nat, peer: nat)
    requires forall p: nat, j: nat | p < peer :: !EndsSearch(net, start, end, p, j)
    ensures var reply := Final(net, peers, start, end, peer);
            if reply.Some?
            then exists p, k :: EndsSearchFirst(net, peers, start, end, p, k) && reply.value == net(start, end, p, k)
            else forall p: nat, k: nat | p < peers :: !EndsSearch(net, start, end, p, k)
    decreases peers - peer
  {
    if peer < peers {
      FinalOfFrom(net, start, end, peer, 0);
      if FinalOf(net, start, end, peer, 0).Some? {
        var k :| EndsSearch(net, start, end, peer, k);
        assert EndsSearchFirst(net, peers, start, end, peer, k);
      } else {
        FinalIs(net, peers, start, end, peer + 1);
      }
    }
  }

  /** A range is supplied exactly if the stream that ends the search for it is as long as the range. */
  lemma SuppliedIff(net: Network, peers: nat, start: nat, end: nat)
    ensures Supplied(net, peers, start, end) <==>
              exists p, k :: && EndsSearchFirst(net, peers, start, end, p, k)
                             && start + |net(start, end, p, k).stream| == end + 1
  {
    FinalIs(net, peers, start, end, 0);
    forall p, k, p', k' |
      EndsSearchFirst(net, peers, start, end, p, k) && EndsSearchFirst(net, peers, start, end, p', k')
      ensures net(start, end, p, k) == net(start, end, p', k')
    {
      FirstIsOne(net, peers, start, end, p, k, p', k');
    }
  }

  lemma FirstIsOne(net: Network, peers: nat, start: nat, end: nat, p: nat, k: nat, p': nat, k': nat)
    requires EndsSearchFirst(net, peers, start, end, p, k) && EndsSearchFirst(net, peers, start, end, p', k')
    ensures p == p' && k == k'
  {
    assert p < p' ==> !EndsSearch(net, start, end, p, k);
    assert p' < p ==> !EndsSearch(net, start, end, p', k');
    assert k < k' ==> WorthRetrying(net(start, end, p, k), start, end);
    assert k' < k ==> WorthRetrying(net(start, end, p, k'), start, end);
  }

  /** The stream that ends the search delivers the whole range. */
  ghost predicate Supplied(net: Network, peers: nat, start: nat, end: nat) {
    var reply := Final(net, peers, start, end, 0);
    reply.Some? && reply.value.Status? && start + |reply.value.stream| == end + 1
  }

  /** Which of the ranges are supplied. */
  ghost function Serves(net: Network, peers: nat, ranges: seq<(nat, nat)>): (served: seq<bool>)
    ensures |served| == |ranges|
    ensures forall i | 0 <= i < |ranges| :: served[i] <==> Supplied(net, peers, ranges[i].0, ranges[i].1)
  {
    seq(|ranges|, i requires 0 <= i < |ranges| => Supplied(net, peers, ranges[i].0, ranges[i].1))
  }

  /** The ranges a check asks for: cut off below the configured start, and dropped when that empties them. */
  function Effective(startBlock: nat, ranges: seq<(nat, nat)>): seq<(nat, nat)> {
    if ranges == [] then []
    else
      var init, (start, end) := Effective(startBlock, ranges[..|ranges| - 1]), ranges[|ranges| - 1];
      if Max(start, startBlock) > end then init else init + [(Max(start, startBlock), end)]
  }

  /** Exactly the ranges that reach the configured start are asked for, from there on. */
  lemma {:induction false} EffectiveIff(startBlock: nat, ranges: seq<(nat, nat)>, start: nat, end: nat)
    ensures (start, end) in Effective(startBlock, ranges) <==>
              start <= end && exists first: nat :: (first, end) in ranges && start == Max(first, startBlock)
  {
    if ranges == [] {
    } else {
      var init, last := ranges[..|ranges| - 1], ranges[|ranges| - 1];
      EffectiveIff(startBlock, init, start, end);
      assert ranges == init + [last];
      forall first: nat ensures (first, end) in ranges <==> (first, end) in init || (first, end) == last { }
      if (start, end) in Effective(startBlock, init) {
        var first: nat :| (first, end) in init && start == Max(first, startBlock);
        assert (first, end) in ranges;
      } else if start <= end && end == last.1 && start == Max(last.0, startBlock) {
        assert (last.0, end) in ranges;
      }
    }
  }

  /** When no range starts below the configured start, a check asks for all of them as they are. */
  lemma {:induction false} EffectiveIsAll(startBlock: nat, ranges: seq<(nat, nat)>)
    requires forall i | 0 <= i < |ranges| :: startBlock <= ranges[i].0 <= ranges[i].1
    ensures Effective(startBlock, ranges) == ranges
  {
    if ranges == [] {
    } else {
      EffectiveIsAll(startBlock, ranges[..|ranges| - 1]);
    }
  }

  /** Every range of numbers that can be stored is delivered in the end. */
  ghost predicate Generous(net: Network, peers: nat) {
    Orderly(net) && forall start: nat, end: nat | start <= end < U64_MAX :: Supplied(net, peers, start, end)
  }

  function HeaderBlocks(start: nat, end: nat): (blocks: seq<Block>)
    requires start <= end < U64_MAX
    ensures |blocks| == end + 1 - start && ColdFiles.Consecutive(blocks, start)
  {
    seq(end + 1 - start, i requires 0 <= i < end + 1 - start => Block([Header(start + i)]))
  }

  /** A peer that has every block and streams what it is asked for. */
  function FullPeer(start: nat, end: nat, peer: nat, retries: nat): Reply {
    if start <= end < U64_MAX then Status(0, U64_MAX, HeaderBlocks(start, end), true) else NoStatus
  }

  /** One such peer is enough. */
  lemma OneFullPeerIsGenerous()
    ensures Generous(FullPeer, 1) && Tame(FullPeer)
  {
    forall start: nat, end: nat | start <= end < U64_MAX ensures Supplied(FullPeer, 1, start, end) {
      var blocks := HeaderBlocks(start, end);
      assert forall i | 0 <= i < |blocks| :: Numbered(blocks[i], start + i);
      assert FinalOf(FullPeer, start, end, 0, 0) == Some(FullPeer(start, end, 0, 0));
    }
  }

  lemma AllGapsListed(gaps: GapMap)
    requires Separated(gaps)
    ensures forall s: nat, e: nat :: (s, e) in AllGaps(gaps) <==> s in gaps && gaps[s] == e
    ensures forall i, j | 0 <= i < j < |AllGaps(gaps)| :: AllGaps(gaps)[i].1 < AllGaps(gaps)[j].0
  {
    var starts := KeysFrom(gaps.Keys, 0);
    assert forall i | 0 <= i < |starts| :: starts[i] in starts;
    forall s | s in gaps ensures (s, gaps[s]) in AllGaps(gaps) {
      var i := RangeListed(gaps, s);
    }
  }

  /** Reads the recorded ranges in ascending order. */
  method GetAllGaps(gaps: GapMap) returns (ranges: seq<(nat, nat)>)
    requires Separated(gaps)
    ensures ranges == AllGaps(gaps)
    ensures forall s: nat, e: nat :: (s, e) in ranges <==> s in gaps && gaps[s] == e
    ensures forall i, j | 0 <= i < j < |ranges| :: ranges[i].1 < ranges[j].0
  {
    var starts := KeysFrom(gaps.Keys, 0);
    ranges := [];
    for i := 0 to |starts|
      invariant ranges == AllGaps(gaps)[..i]
    {
      assert starts[i] in starts;
      ranges := ranges + [(starts[i], gaps[starts[i]])];
    }
    AllGapsListed(gaps);
  }

  /** No recorded range of a sound ledger reaches below the configured start. */
  lemma EffectiveGaps(seed: nat, db: Db, stored: set<nat>, startBlock: nat)
    requires Ledger.Sound(seed, db, stored) && seed == SaturatingPred(startBlock)
    ensures Effective(startBlock, AllGaps(db.gaps)) == AllGaps(db.gaps)
    ensures forall i | 0 <= i < |AllGaps(db.gaps)| :: AllGaps(db.gaps)[i].0 <= AllGaps(db.gaps)[i].1 < U64_MAX
    ensures AllGaps(db.gaps) != [] ==> db.latest.Some?
  {
    var ranges := AllGaps(db.gaps);
    GapsInReach(seed, db, stored);
    forall i | 0 <= i < |ranges| ensures startBlock <= ranges[i].0 <= ranges[i].1 {
      assert InReach(seed, db, ranges[i]);
    }
    EffectiveIsAll(startBlock, ranges);
  }

  /** What a check finds in a reachable store: ranges from the start on, and a hot tier to write to. */
  lemma RangesFound(cfg: Config, w: World, startBlock: nat)
    requires ValidConfig(cfg) && Faithful(cfg.codec) && Reachable(cfg, w) && cfg.seed == SaturatingPred(startBlock)
    ensures Separated(w.store.db.gaps)
    ensures var ranges := AllGaps(w.store.db.gaps);
            && Effective(startBlock, ranges) == ranges
            && (forall i | 0 <= i < |ranges| :: ranges[i].0 <= ranges[i].1 < U64_MAX)
            && (ranges != [] ==> w.store.db.earliestHot.Some?)
  {
    TierSteps.ReachableInv(cfg, w);
    EffectiveGaps(cfg.seed, w.store.db, w.history.content.Keys, startBlock);
  }

  /** What one check comes to, in terms of the database alone. */
  lemma CheckOutcome(cfg: Config, w: World, t': Trace)
    requires ValidConfig(cfg) && Faithful(cfg.codec) && Reachable(cfg, w) && Legal(cfg.seed, t')
    requires WholeCycle(Origin(w.store.db), t')
    ensures Ledger.Latest(cfg.seed, t'.db) == Ledger.Latest(cfg.seed, w.store.db) == Ledger.Highest(t'.db)
    ensures Ledger.Highest(w.store.db) == Ledger.Latest(cfg.seed, w.store.db) ==> t'.db.gaps == map[]
  {
    TierSteps.ReachableInv(cfg, w);
    var base, t := w.history.content.Keys, Origin(w.store.db);
    FirstCycleReachesLatest(cfg.seed, base, t, t');
    if Ledger.Highest(w.store.db) == Ledger.Latest(cfg.seed, w.store.db) {
      SecondCycleClears(cfg.seed, base, t, t');
    }
  }

  /** A check brings the contiguous stretch up to the end of every recorded range that is supplied. */
  ghost predicate Reaches(net: Network, peers: nat, db: Db, db': Db) {
    forall s | s in db.gaps && Supplied(net, peers, s, db.gaps[s]) :: db.gaps[s] <= Ledger.Highest(db')
  }

  lemma CheckReaches(cfg: Config, w: World, t': Trace, net: Network, peers: nat)
    requires ValidConfig(cfg) && Faithful(cfg.codec) && Reachable(cfg, w) && Legal(cfg.seed, t')
    requires var ranges := AllGaps(w.store.db.gaps); Cycle(Origin(w.store.db), t', ranges, Serves(net, peers, ranges))
    ensures Reaches(net, peers, w.store.db, t'.db)
  {
    TierSteps.ReachableInv(cfg, w);
    var db, ranges := w.store.db, AllGaps(w.store.db.gaps);
    AnyCycleGrows(cfg.seed, w.history.content.Keys, Origin(db), t', Serves(net, peers, ranges));
    forall s | s in db.gaps && Supplied(net, peers, s, db.gaps[s]) ensures db.gaps[s] <= Ledger.Highest(t'.db) {
      var i := RangeListed(db.gaps, s);
      assert Serves(net, peers, ranges)[i];
    }
  }

  /** Every number above the seed and up to the latest block can be read. */
  ghost predicate AllReadable(cfg: Config, store: Store) {
    forall n | cfg.seed < n <= Ledger.Latest(cfg.seed, store.db) :: TierTheorems.Readable(cfg, store, n)
  }

  lemma ContiguousReads(cfg: Config, w: World)
    requires ValidConfig(cfg) && Faithful(cfg.codec) && Reachable(cfg, w)
    ensures Ledger.Highest(w.store.db) == Ledger.Latest(cfg.seed, w.store.db) ==> AllReadable(cfg, w.store)
  {
    forall n | cfg.seed < n <= Ledger.Highest(w.store.db) ensures TierTheorems.Readable(cfg, w.store, n) {
      TierTheorems.StoreContiguous(cfg, w, n);
    }
  }

  /** What a check against any peers whatsoever comes to. */
  lemma AnyCheckOutcome(cfg: Config, w: World, t': Trace)
    requires ValidConfig(cfg) && Faithful(cfg.codec) && Reachable(cfg, w) && Legal(cfg.seed, t')
    requires First(t') == w.store.db
    ensures Ledger.Latest(cfg.seed, w.store.db) <= Ledger.Latest(cfg.seed, t'.db)
    ensures Ledger.Highest(w.store.db) <= Ledger.Highest(t'.db)
  {
    TierSteps.ReachableInv(cfg, w);
    TraceStaysSound(cfg.seed, w.history.content.Keys, t');
  }

  lemma GenerousSupplies(cfg: Config, w: World, net: Network, peers: nat)
    requires ValidConfig(cfg) && Faithful(cfg.codec) && Reachable(cfg, w) && Generous(net, peers)
    ensures var ranges := AllGaps(w.store.db.gaps); Serves(net, peers, ranges) == Everything(|ranges|)
  {
    RangesFound(cfg, w, cfg.seed + 1);
  }

  /** What one tick comes to, for any peers and for generous ones. */
  lemma TickOutcome(cfg: Config, w: World, t': Trace, net: Network, peers: nat)
    requires ValidConfig(cfg) && Faithful(cfg.codec) && Reachable(cfg, w) && Legal(cfg.seed, t')
    requires First(t') == w.store.db
    requires var ranges := AllGaps(w.store.db.gaps);
             Orderly(net) ==> Cycle(Origin(w.store.db), t', ranges, Serves(net, peers, ranges))
    ensures Ledger.Latest(cfg.seed, w.store.db) <= Ledger.Latest(cfg.seed, t'.db)
    ensures Ledger.Highest(w.store.db) <= Ledger.Highest(t'.db)
    ensures Generous(net, peers) ==>
              && Ledger.Latest(cfg.seed, t'.db) == Ledger.Latest(cfg.seed, w.store.db) == Ledger.Highest(t'.db)
              && (Ledger.Highest(w.store.db) == Ledger.Latest(cfg.seed, w.store.db) ==> t'.db.gaps == map[])
  {
    AnyCheckOutcome(cfg, w, t');
    if Generous(net, peers) {
      GenerousSupplies(cfg, w, net, peers);
      CheckOutcome(cfg, w, t');
    }
  }

  lemma ServesOneMore(net: Network, peers: nat, t: Trace, mid: Trace, t': Trace, ranges: seq<(nat, nat)>,
                      start: nat, end: nat)
    requires Cycle(t, mid, ranges, Serves(net, peers, ranges))
    requires Visits(mid, t', (start, end), Supplied(net, peers, start, end))
    ensures Cycle(t, t', ranges + [(start, end)], Serves(net, peers, ranges + [(start, end)]))
  {
    var one := Supplied(net, peers, start, end);
    CycleSnoc(t, mid, t', ranges, Serves(net, peers, ranges), (start, end), one);
    assert Serves(net, peers, ranges + [(start, end)]) == Serves(net, peers, ranges) + [one];
  }

  // ----- traces as runs of the store -----

  /** After `t`, exactly these blocks were written, in order, each under its own number. */
  ghost predicate Brings(t: Trace, t': Trace, blocks: seq<Block>)
    decreases |blocks|
  {
    if blocks == [] then t' == t
    else
      var last := |blocks| - 1;
      && t'.Wrote? && t'.block == blocks[last] && Numbered(blocks[last], t'.number)
      && Brings(t, t'.prev, blocks[..last])
  }

  ghost predicate BringsUpTo(t: Trace, t': Trace, blocks: seq<Block>, i: nat) {
    i <= |blocks| && AllNumbered(blocks[..i]) && Brings(t, t', blocks[..i])
  }

  lemma BringsOneMore(t: Trace, mid: Trace, t': Trace, blocks: seq<Block>, i: nat)
    requires BringsUpTo(t, mid, blocks, i) && i < |blocks| && t'.Wrote? && t'.prev == mid
    requires t'.block == blocks[i] && Numbered(blocks[i], t'.number)
    ensures BringsUpTo(t, t', blocks, i + 1)
  {
    assert blocks[..i + 1][..i] == blocks[..i];
  }

  /** Consecutive blocks written in order are a stream. */
  lemma {:induction false} BringsStreams(t: Trace, t': Trace, blocks: seq<Block>, start: nat)
    requires Brings(t, t', blocks) && ColdFiles.Consecutive(blocks, start)
    ensures Streams(t, t', start, start + |blocks|)
    decreases |blocks|
  {
    if blocks == [] {
    } else {
      var last := |blocks| - 1;
      assert Numbered(blocks[last], start + last);
      BringsStreams(t, t'.prev, blocks[..last], start);
    }
  }

  /** The blocks before `k` have headers, and the next one, if any, has none. */
  ghost predicate HeadedUpTo(blocks: seq<Block>, k: nat) {
    && k <= |blocks| && AllNumbered(blocks[..k])
    && (k < |blocks| ==> BlockNumber(blocks[k]).None?)
  }

  lemma HeadedIsAll(blocks: seq<Block>, k: nat, start: nat)
    requires HeadedUpTo(blocks, k)
    ensures AllNumbered(blocks) <==> k == |blocks|
    ensures ColdFiles.Consecutive(blocks, start) ==> k == |blocks|
    ensures k == |blocks| ==> blocks[..k] == blocks
  {
    if k < |blocks| {
      assert !Numbered(blocks[k], start + k);
    }
  }

  /** The values written are the encoded blocks, each under its own number. */
  ghost predicate Carries(codec: Codec, trace: Trace) {
    trace.Wrote? ==>
      Carries(codec, trace.prev) && Numbered(trace.block, trace.number) && trace.value == codec.encode(trace.block)
  }

  /** The store after the writes of a trace. */
  function Replay(w: World, trace: Trace): World {
    match trace
    case Origin(_) => w
    case Wrote(prev, number, block, _, db) =>
      var before := Replay(w, prev);
      World(before.store.(db := db),
            before.history.(content := before.history.content[number := block],
                            written := before.history.written[number := block]))
  }

  /** A store that can take streamed blocks: reachable, with a hot tier. */
  ghost predicate Ready(cfg: Config, w: World) {
    ValidConfig(cfg) && Faithful(cfg.codec) && Reachable(cfg, w) && w.store.db.earliestHot.Some?
  }

  /** The trace is one of live writes to the store `w`. */
  ghost predicate Applies(cfg: Config, w: World, trace: Trace) {
    First(trace) == w.store.db && Legal(cfg.seed, trace) && Carries(cfg.codec, trace)
  }

  lemma {:induction false} ReplayIsReady(cfg: Config, w: World, trace: Trace)
    requires Ready(cfg, w) && Applies(cfg, w, trace)
    ensures Ready(cfg, Replay(w, trace)) && Replay(w, trace).store.db == trace.db
  {
    match trace
    case Origin(_) =>
    case Wrote(prev, number, block, _, _) =>
      ReplayIsReady(cfg, w, prev);
      LiveWriteReachable(cfg, Replay(w, prev), Replay(w, trace), number, block);
  }

  // ----- checks beside the archiver -----

  /**
   * What happens to the store during a check: blocks are filled in, and in between, at any moment, the
   * archiver moves on, stops or is started again.
   */
  datatype Shift =
    | Begin(world: World)
    | Fill(before: Shift, number: nat, block: Block, world: World)
    | Keep(before: Shift, world: World)

  ghost predicate IsShift(cfg: Config, s: Shift)
    requires ValidConfig(cfg)
  {
    match s
    case Begin(_) => true
    case Fill(before, number, block, w) => IsShift(cfg, before) && LiveWrite(cfg, before.world, w, number, block)
    case Keep(before, w) => IsShift(cfg, before) && Maintains(cfg, before.world, w)
  }

  function Start(s: Shift): World {
    match s
    case Begin(w) => w
    case Fill(before, _, _, _) => Start(before)
    case Keep(before, _) => Start(before)
  }

  /** The part of the database that gap checks are about. */
  ghost predicate SameLedger(a: Db, b: Db) {
    a.gaps == b.gaps && a.latest == b.latest && a.highestContiguous == b.highestContiguous
  }

  /** The writes of a shift, on a database that only they change. */
  function TraceOf(codec: Codec, s: Shift): Trace {
    match s
    case Begin(w) => Origin(w.store.db)
    case Fill(before, number, block, w) =>
      var t := TraceOf(codec, before);
      var value := codec.encode(block);
      Wrote(t, number, block, value,
            t.db.(hot := t.db.hot[number := value], gaps := w.store.db.gaps, latest := w.store.db.latest,
                  highestContiguous := w.store.db.highestContiguous,
                  earliestHot := if t.db.earliestHot.None? then Some(number) else t.db.earliestHot,
                  trueEarliest := if t.db.trueEarliest.None? then Some(number) else t.db.trueEarliest))
    case Keep(before, _) => TraceOf(codec, before)
  }

  lemma WritesSameLedger(seed: nat, db: Db, db': Db, shadow: Db, shadow': Db, n: nat, value: bytes)
    requires Ledger.Writes(seed, db, db', n, value) && SameLedger(shadow, db) && SameLedger(shadow', db')
    requires shadow' == shadow.(hot := shadow.hot[n := value], gaps := db'.gaps, latest := db'.latest,
                                highestContiguous := db'.highestContiguous,
                                earliestHot := if shadow.earliestHot.None? then Some(n) else shadow.earliestHot,
                                trueEarliest := if shadow.trueEarliest.None? then Some(n) else shadow.trueEarliest)
    ensures Ledger.Writes(seed, shadow, shadow', n, value)
  {
  }

  lemma {:induction false} ShiftIsTrace(cfg: Config, s: Shift)
    requires ValidConfig(cfg) && Faithful(cfg.codec) && IsShift(cfg, s) && Reachable(cfg, Start(s))
    ensures Reachable(cfg, s.world) && Legal(cfg.seed, TraceOf(cfg.codec, s))
    ensures First(TraceOf(cfg.codec, s)) == Start(s).store.db
    ensures SameLedger(TraceOf(cfg.codec, s).db, s.world.store.db)
  {
    match s
    case Begin(_) =>
    case Fill(before, number, block, w) =>
      ShiftIsTrace(cfg, before);
      LiveWriteReachable(cfg, before.world, w, number, block);
      var t, t' := TraceOf(cfg.codec, before), TraceOf(cfg.codec, s);
      WritesSameLedger(cfg.seed, before.world.store.db, w.store.db, t.db, t'.db, number, cfg.codec.encode(block));
    case Keep(before, w) =>
      ShiftIsTrace(cfg, before);
      TierSteps.StepReachable(cfg, before.world, w);
      MaintenanceKeepsLedger(cfg, before.world, w);
  }

  lemma MaintenanceKeepsLedger(cfg: Config, w: World, w': World)
    requires ValidConfig(cfg) && Faithful(cfg.codec) && Reachable(cfg, w) && Maintains(cfg, w, w')
    ensures SameLedger(w'.store.db, w.store.db)
  {
    TierTheorems.ReachableCounted(cfg, w);
    TierTheorems.MaintenanceKeepsRecords(cfg, w, w');
  }

  /** A shift in which every range recorded at its start was delivered. */
  ghost predicate Delivers(cfg: Config, s: Shift)
    requires ValidConfig(cfg)
  {
    && IsShift(cfg, s)
    && WholeCycle(Origin(Start(s).store.db), TraceOf(cfg.codec, s))
  }

  lemma DeliveredOutcome(cfg: Config, s: Shift)
    requires ValidConfig(cfg) && Faithful(cfg.codec) && Reachable(cfg, Start(s)) && Delivers(cfg, s)
    ensures var db, db' := Start(s).store.db, s.world.store.db;
            && Reachable(cfg, s.world) && Ledger.Latest(cfg.seed, db') == Ledger.Latest(cfg.seed, db)
            && Ledger.Highest(db') == Ledger.Latest(cfg.seed, db')
            && (Ledger.Highest(db) == Ledger.Latest(cfg.seed, db) ==> db'.gaps == map[])
  {
    ShiftIsTrace(cfg, s);
    CheckOutcome(cfg, Start(s), TraceOf(cfg.codec, s));
  }

  /**
   * From any reachable store, at any moment of an archival, two checks whose recorded ranges were all
   * delivered, with the archiver at work beside them, leave no recorded gap and make every number above
   * the seed, up to the same latest block, readable.
   */
  lemma TwoChecksConverge(cfg: Config, first: Shift, second: Shift)
    requires ValidConfig(cfg) && Faithful(cfg.codec) && Reachable(cfg, Start(first)) && Start(second) == first.world
    requires Delivers(cfg, first) && Delivers(cfg, second)
    ensures var w, w' := Start(first), second.world;
            && Reachable(cfg, w') && w'.store.db.gaps == map[] && AllReadable(cfg, w'.store)
            && Ledger.Highest(w'.store.db) == Ledger.Latest(cfg.seed, w'.store.db)
            && Ledger.Latest(cfg.seed, w'.store.db) == Ledger.Latest(cfg.seed, w.store.db)
  {
    DeliveredOutcome(cfg, first);
    DeliveredOutcome(cfg, second);
    ContiguousReads(cfg, second.world);
  }

  class BackfillWorker {
    const service: PersistenceService
    const startBlock: nat

    /** The service is where the writes of `trace` have brought the store `w`. */
    ghost predicate At(trace: Trace, w: World)
      reads service
    {
      service.Now() == Replay(w, trace) && Applies(service.cfg, w, trace)
    }

    constructor (service: PersistenceService, startBlock: nat)
      ensures this.service == service && this.startBlock == startBlock
    {
      this.service, this.startBlock := service, startBlock;
    }

    /** Writes the next block of a stream, if it has a header. */
    method WriteStreamed(block: Block, ghost t: Trace, ghost origin: World) returns (ok: bool, ghost t': Trace)
      requires Ready(service.cfg, origin) && At(t, origin) && BlockNumber(block) != Some(U64_MAX)
      modifies service
      ensures At(t', origin) && (ok <==> BlockNumber(block).Some?)
      ensures ok ==> t'.Wrote? && t'.prev == t && t'.number == BlockNumber(block).value && t'.block == block
      ensures !ok ==> t' == t
    {
      ReplayIsReady(service.cfg, origin, t);
      var r := service.WriteBlock(block);
      ok, t' := r.Ok?, t;
      if ok {
        t' := Wrote(t, BlockNumber(block).value, block, service.cfg.codec.encode(block), service.db);
      }
    }

    /** Writes what a peer streams, block by block, up to the first without a header. */
    method StreamFromPeer(blocks: seq<Block>, ghost start: nat, ghost t: Trace, ghost origin: World)
      returns (ok: bool, ghost t': Trace, ghost upTo: nat)
      requires Ready(service.cfg, origin) && At(t, origin) && Writable(blocks)
      modifies service
      ensures At(t', origin) && (ok <==> AllNumbered(blocks))
      ensures HeadedUpTo(blocks, upTo) && Brings(t, t', blocks[..upTo])
      ensures ColdFiles.Consecutive(blocks, start) ==> Streams(t, t', start, start + |blocks|)
    {
      ok, t', upTo := WriteHeaded(blocks, t, origin);
      HeadedIsAll(blocks, upTo, start);
      if ColdFiles.Consecutive(blocks, start) {
        BringsStreams(t, t', blocks, start);
      }
    }

    /** The loop over the blocks of a stream. */
    method WriteHeaded(blocks: seq<Block>, ghost t: Trace, ghost origin: World)
      returns (ok: bool, ghost t': Trace, ghost upTo: nat)
      requires Ready(service.cfg, origin) && At(t, origin) && Writable(blocks)
      modifies service
      ensures At(t', origin) && (ok <==> upTo == |blocks|)
      ensures HeadedUpTo(blocks, upTo) && Brings(t, t', blocks[..upTo])
    {
      ok, t', upTo := true, t, 0;
      for i := 0 to |blocks|
        invariant At(t', origin) && ok && upTo == i && BringsUpTo(t, t', blocks, i)
      {
        ghost var before := t';
        ok, t' := WriteStreamed(blocks[i], before, origin);
        if !ok {
          break;
        }
        BringsOneMore(t, before, t', blocks, i);
        upTo := i + 1;
      }
    }

    /** One reply: whatever a peer that has the range streams is written. */
    method TakeReply(answer: Reply, start: nat, end: nat, ghost origin: World, ghost tries: Tries)
      returns (ok: bool, ghost tries': Tries)
      requires Ready(service.cfg, origin) && At(tries.trace, origin) && TameReply(answer)
      modifies service
      ensures At(tries'.trace, origin)
      ensures if Offers(answer, start, end)
              then ok == EndsWell(answer) && tries' == Tried(tries, tries'.trace, start + |answer.stream|)
              else !ok && tries' == tries
      ensures InOrder(answer, start, end) && tries'.Tried? && tries' != tries ==>
                Streams(tries.trace, tries'.trace, start, tries'.stop) && tries'.stop <= end + 1
    {
      ok, tries' := false, tries;
      if Offers(answer, start, end) {
        ghost var t';
        ghost var upTo;
        ok, t', upTo := StreamFromPeer(answer.stream, start, tries.trace, origin);
        ok := ok && answer.ok;
        tries' := Tried(tries, t', start + |answer.stream|);
      }
    }

    /** One request to a peer, and whether it is worth another. */
    method AskPeer(net: Network, peer: nat, start: nat, end: nat, retries: nat,
                   ghost t: Trace, ghost origin: World, ghost tries: Tries)
      returns (reply: Option<Reply>, again: bool, ghost tries': Tries)
      requires Ready(service.cfg, origin) && At(tries.trace, origin) && Tame(net) && start <= end
      requires Orderly(net) ==> Attempts(t, tries, start, end)
      modifies service
      ensures At(tries'.trace, origin)
      ensures Orderly(net) ==> Attempts(t, tries', start, end)
      ensures reply.Some? ==> reply.value.Status? && tries'.Tried? && tries'.stop == start + |reply.value.stream|
      ensures var answer := net(start, end, peer, retries);
              && (again <==> WorthRetrying(answer, start, end))
              && reply == (if Spans(answer, start, end) && !again then Some(answer) else None)
              && (!Spans(answer, start, end) ==> tries' == tries)
    {
      var answer := net(start, end, peer, retries);
      assert TameReply(answer) && (Orderly(net) ==> InOrder(answer, start, end));
      var ok;
      ok, tries' := TakeReply(answer, start, end, origin, tries);
      reply := if ok then Some(answer) else None;
      again := !ok && (answer.StatusError? || Offers(answer, start, end));
    }

    /** Asks one peer for a range until its stream ends well or the retries are used up. */
    method FillFromPeer(net: Network, peer: nat, start: nat, end: nat,
                        ghost t: Trace, ghost origin: World, ghost tries: Tries)
      returns (reply: Option<Reply>, asked: nat, ghost tries': Tries)
      requires Ready(service.cfg, origin) && At(tries.trace, origin) && Tame(net) && start <= end
      requires Orderly(net) ==> Attempts(t, tries, start, end)
      modifies service
      ensures At(tries'.trace, origin)
      ensures Orderly(net) ==> Attempts(t, tries', start, end)
      ensures AsksUntil(net, start, end, peer, asked, reply)
      ensures reply == FinalOf(net, start, end, peer, 0)
      ensures (forall j | 0 <= j < asked :: !Spans(net(start, end, peer, j), start, end)) ==> tries' == tries
      ensures reply.Some? ==> reply.value.Status? && tries'.Tried? && tries'.stop == start + |reply.value.stream|
    {
      var retries, again := 0, true;
      reply, asked, tries' := None, 0, tries;
      while again && retries <= PEER_RETRY_LIMIT
        invariant At(tries'.trace, origin) && (Orderly(net) ==> Attempts(t, tries', start, end))
        invariant asked == retries <= PEER_RETRY_LIMIT + 1
        invariant AskedSoFar(net, start, end, peer, retries, again, reply)
        invariant (forall j | 0 <= j < retries :: !Spans(net(start, end, peer, j), start, end)) ==> tries' == tries
        invariant reply.Some? ==> reply.value.Status? && tries'.Tried? && tries'.stop == start + |reply.value.stream|
      {
        reply, again, tries' := AskPeer(net, peer, start, end, retries, t, origin, tries');
        asked, retries := asked + 1, retries + 1;
      }
      AskedIsFinal(net, start, end, peer, asked, again, reply);
    }

    /** Asks the peers for a range, one after the other, until a stream ends well. */
    method FillGap(net: Network, peers: nat, start: nat, end: nat, ghost t: Trace, ghost origin: World)
      returns (reply: Option<Reply>, asked: nat, ghost t': Trace)
      requires Ready(service.cfg, origin) && At(t, origin) && Tame(net) && start <= end
      modifies service
      ensures At(t', origin) && reply == Final(net, peers, start, end, 0) && asked <= 4 * peers
      ensures if reply.Some?
              then exists p, k :: EndsSearchFirst(net, peers, start, end, p, k) && reply.value == net(start, end, p, k)
              else forall p: nat, k: nat | p < peers :: !EndsSearch(net, start, end, p, k)
      ensures (forall p: nat, j: nat | p < peers :: !Spans(net(start, end, p, j), start, end)) ==> t' == t
      ensures Orderly(net) ==> Visits(t, t', (start, end), Supplied(net, peers, start, end))
    {
      ghost var tries := Untried(t);
      reply, asked := None, 0;
      for peer := 0 to peers
        invariant At(tries.trace, origin) && (Orderly(net) ==> Attempts(t, tries, start, end))
        invariant asked <= 4 * peer && reply.None?
        invariant (forall p: nat, j: nat | p < peers :: !Spans(net(start, end, p, j), start, end)) ==> tries.trace == t
        invariant Final(net, peers, start, end, 0) == Final(net, peers, start, end, peer)
      {
        var more;
        reply, more, tries := FillFromPeer(net, peer, start, end, t, origin, tries);
        asked := asked + more;
        if reply.Some? {
          break;
        }
      }
      t' := tries.trace;
      FinalIs(net, peers, start, end, 0);
    }

    /** Visits the ranges of a snapshot in order. */
    method FillRanges(net: Network, peers: nat, ranges: seq<(nat, nat)>, ghost t: Trace, ghost origin: World)
      returns (ghost t': Trace)
      requires Ready(service.cfg, origin) && At(t, origin) && Tame(net)
      modifies service
      ensures At(t', origin)
      ensures var wanted := Effective(startBlock, ranges);
              Orderly(net) ==> Cycle(t, t', wanted, Serves(net, peers, wanted))
    {
      t' := t;
      for i := 0 to |ranges|
        invariant At(t', origin)
        invariant var wanted := Effective(startBlock, ranges[..i]);
                  Orderly(net) ==> Cycle(t, t', wanted, Serves(net, peers, wanted))
      {
        var (first, end) := ranges[i];
        var start := Max(first, startBlock);
        assert ranges[..i + 1][..i] == ranges[..i];
        if start > end {
          continue;
        }
        ghost var mid := t';
        var reply, asked;
        reply, asked, t' := FillGap(net, peers, start, end, mid, origin);
        if Orderly(net) {
          ServesOneMore(net, peers, t, mid, t', Effective(startBlock, ranges[..i]), start, end);
        }
      }
      assert ranges[..|ranges|] == ranges;
    }

    /** One gap check: every range recorded at its start is asked for. */
    method RunSingleGapCheck(net: Network, peers: nat) returns (ghost t': Trace)
      requires service.Sound() && Tame(net) && service.cfg.seed == SaturatingPred(startBlock)
      modifies service
      ensures service.Sound() && service.db == t'.db && At(t', old(service.Now()))
      ensures var ranges := AllGaps(old(service.db.gaps));
              Orderly(net) ==> Cycle(Origin(old(service.db)), t', ranges, Serves(net, peers, ranges))
      ensures Orderly(net) ==> Reaches(net, peers, old(service.db), service.db)
    {
      ghost var origin := service.Now();
      t' := Origin(service.db);
      RangesFound(service.cfg, origin, startBlock);
      var ranges := GetAllGaps(service.db.gaps);
      if ranges == [] {
        return;
      }
      t' := FillRanges(net, peers, ranges, t', origin);
      ReplayIsReady(service.cfg, origin, t');
      if Orderly(net) {
        CheckReaches(service.cfg, origin, t', net, peers);
      }
    }

    /** The gap-fill loop over the ticks before it is shut down. */
    method RunGapFillLoop(nets: seq<Network>, peers: nat)
      requires service.Sound() && service.cfg.seed == SaturatingPred(startBlock)
      requires forall i | 0 <= i < |nets| :: Tame(nets[i])
      modifies service
      ensures service.Sound()
      ensures old(Ledger.Latest(service.cfg.seed, service.db)) <= Ledger.Latest(service.cfg.seed, service.db)
      ensures old(Ledger.Highest(service.db)) <= Ledger.Highest(service.db)
      ensures |nets| >= 2 && (forall i | 0 <= i < |nets| :: Generous(nets[i], peers)) ==>
                && service.db.gaps == map[] && Ledger.Highest(service.db) == Ledger.Latest(service.cfg.seed, service.db)
                && Ledger.Latest(service.cfg.seed, service.db) == old(Ledger.Latest(service.cfg.seed, service.db))
                && AllReadable(service.cfg, service.Now().store)
    {
      ghost var generous := forall i | 0 <= i < |nets| :: Generous(nets[i], peers);
      ghost var latest := Ledger.Latest(service.cfg.seed, service.db);
      for i := 0 to |nets|
        invariant service.Sound()
        invariant latest <= Ledger.Latest(service.cfg.seed, service.db)
        invariant old(Ledger.Highest(service.db)) <= Ledger.Highest(service.db)
        invariant generous ==> Ledger.Latest(service.cfg.seed, service.db) == latest
        invariant generous && i >= 1 ==> Ledger.Highest(service.db) == Ledger.Latest(service.cfg.seed, service.db)
        invariant generous && i >= 2 ==> service.db.gaps == map[]
      {
        RunTick(nets[i], peers);
        assert generous ==> Generous(nets[i], peers);
      }
      ContiguousReads(service.cfg, service.Now());
    }

    /** One tick of the loop, in terms of the database alone. */
    method RunTick(net: Network, peers: nat)
      requires service.Sound() && Tame(net) && service.cfg.seed == SaturatingPred(startBlock)
      modifies service
      ensures service.Sound()
      ensures old(Ledger.Latest(service.cfg.seed, service.db)) <= Ledger.Latest(service.cfg.seed, service.db)
      ensures old(Ledger.Highest(service.db)) <= Ledger.Highest(service.db)
      ensures Generous(net, peers) ==>
                && Ledger.Latest(service.cfg.seed, service.db) == old(Ledger.Latest(service.cfg.seed, service.db))
                && Ledger.Highest(service.db) == Ledger.Latest(service.cfg.seed, service.db)
                && (old(Ledger.Highest(service.db)) == old(Ledger.Latest(service.cfg.seed, service.db)) ==>
                      service.db.gaps == map[])
    {
      ghost var before := service.Now();
      ghost var t' := RunSingleGapCheck(net, peers);
      TickOutcome(service.cfg, before, t', net, peers);
    }
  }
}
