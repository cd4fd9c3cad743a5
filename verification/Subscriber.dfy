/** Subscriber sessions: which requests are accepted, and what an accepted one is sent. */
module Subscriber {
  import opened Basics
  import opened Tiers
  import ColdFiles
  import Ledger
  import TierSteps
  import TierTheorems

  /** The range asked for; `U64_MAX` stands for the earliest block, or for no end. */
  datatype Request = Request(start: u64, end: u64)

  datatype Code = Success | InvalidStartBlockNumber | InvalidEndBlockNumber | NotAvailable | Failure

  datatype StreamError =
    | Validation(code: Code)
    | Persistence
    | ClientDisconnected
    | TimeoutWaitingForBlock(number: nat)
    | ServerShutdown
    | Internal

  function ToStatusCode(error: StreamError): Code {
    if error.Validation? then error.code else Failure
  }

  /** What a waiting session hears next; nothing more means that it times out. */
  datatype Wake = NewBlock(number: u64) | Lagged | Closed

  /**
   * One turn of the streaming loop: the store as the session reads it, the store as it is when the session
   * starts to listen, and what happens to the session. What is announced before it listens it never hears.
   */
  datatype Turn = Turn(world: World, listening: World, shutdown: bool, connected: bool, wakes: seq<Wake>)

  // ----- validation -----

  function Validate(request: Request, earliest: Option<nat>, latest: Option<nat>, lookahead: nat)
    : Result<nat, StreamError>
  {
    if request.end != U64_MAX && request.start != U64_MAX && request.start > request.end then
      Err(Validation(InvalidEndBlockNumber))
    else if request.start == U64_MAX && request.end == U64_MAX then
      Ok(if earliest.Some? then earliest.value else 0)
    else if request.start == U64_MAX then
      if earliest.Some? && earliest.value <= request.end then Ok(earliest.value)
      else Err(Validation(NotAvailable))
    else if earliest.Some? && request.start < earliest.value then
      Err(Validation(InvalidStartBlockNumber))
    else if latest.Some? && request.start > ColdFiles.WrappingAdd(latest.value, lookahead) then
      Err(Validation(NotAvailable))
    else
      Ok(request.start)
  }

  predicate Unbounded(request: Request) {
    request.end == U64_MAX
  }

  /** Both ends are given, and in the wrong order. */
  ghost predicate Reversed(request: Request) {
    request.end < request.start < U64_MAX
  }

  /** A start is given that lies before the earliest block. */
  ghost predicate TooEarly(request: Request, earliest: Option<nat>) {
    request.start < U64_MAX && earliest.Some? && request.start < earliest.value
  }

  /** A start is given that lies further ahead of the latest block than permitted, in 64-bit arithmetic. */
  ghost predicate TooFar(request: Request, latest: Option<nat>, lookahead: nat) {
    && request.start < U64_MAX && latest.Some?
    && request.start > (latest.value + lookahead) % (U64_MAX + 1)
  }

  /** The earliest block is asked for, up to an end that comes before it or while there is none. */
  ghost predicate NothingUpTo(request: Request, earliest: Option<nat>) {
    request.start == U64_MAX && request.end < U64_MAX && (earliest.None? || request.end < earliest.value)
  }

  /** A request gets each code exactly for its own reason, and starts where it asks to otherwise. */
  lemma RefusedIff(request: Request, earliest: Option<nat>, latest: Option<nat>, lookahead: nat)
    ensures var r := Validate(request, earliest, latest, lookahead);
            && (r == Err(Validation(InvalidEndBlockNumber)) <==> Reversed(request))
            && (r == Err(Validation(InvalidStartBlockNumber)) <==> !Reversed(request) && TooEarly(request, earliest))
            && (r == Err(Validation(NotAvailable)) <==>
                  || NothingUpTo(request, earliest)
                  || (!Reversed(request) && !TooEarly(request, earliest) && TooFar(request, latest, lookahead)))
            && (r.Ok? <==> && !Reversed(request) && !TooEarly(request, earliest)
                           && !TooFar(request, latest, lookahead) && !NothingUpTo(request, earliest))
            && (r.Ok? ==> r.value == if request.start < U64_MAX then request.start
                                     else if earliest.Some? then earliest.value else 0)
  {
  }

  /** While the sum does not overflow, too far means more than the look-ahead above the latest block. */
  lemma TooFarIff(request: Request, latest: Option<nat>, lookahead: nat)
    requires latest.Some? ==> latest.value + lookahead <= U64_MAX
    ensures TooFar(request, latest, lookahead) <==>
              request.start < U64_MAX && latest.Some? && request.start > latest.value + lookahead
  {
  }

  /** An accepted stream starts where it was asked to, is not empty, and starts on or after the earliest block. */
  lemma AcceptedStart(request: Request, earliest: Option<nat>, latest: Option<nat>, lookahead: nat)
    ensures var r := Validate(request, earliest, latest, lookahead);
            r.Ok? ==> && (Unbounded(request) || r.value <= request.end)
                      && (request.start != U64_MAX ==> r.value == request.start)
                      && (earliest.Some? ==> earliest.value <= r.value)
                      && (earliest.Some? && request.start == U64_MAX ==> r.value == earliest.value)
  {
  }

  /**
   * In every reachable store, a request that starts at a readable number up to the latest is refused
   * exactly if it starts below the recorded earliest number, which later live writes do not lower, or if
   * the sum of the latest number and the look-ahead overflows and falls below its start.
   */
  lemma ReadableRefusedIff(cfg: Config, w: World, request: Request, lookahead: nat)
    requires ValidConfig(cfg) && Faithful(cfg.codec) && Reachable(cfg, w)
    requires cfg.seed < request.start <= Ledger.Latest(cfg.seed, w.store.db) && request.start <= request.end
    requires TierTheorems.Readable(cfg, w.store, request.start)
    ensures w.store.db.trueEarliest.Some? && w.store.db.latest.Some?
    ensures Validate(request, w.store.db.trueEarliest, w.store.db.latest, lookahead) ==
            if request.start < w.store.db.trueEarliest.value then Err(Validation(InvalidStartBlockNumber))
            else if TooFar(request, w.store.db.latest, lookahead) then Err(Validation(NotAvailable))
            else Ok(request.start)
    ensures TooFar(request, w.store.db.latest, lookahead) ==> w.store.db.latest.value + lookahead > U64_MAX
  {
    HasEarliest(cfg, w);
    RefusedIff(request, w.store.db.trueEarliest, w.store.db.latest, lookahead);
    if w.store.db.latest.value + lookahead <= U64_MAX {
      TooFarIff(request, w.store.db.latest, lookahead);
    }
  }

  lemma HasEarliest(cfg: Config, w: World)
    requires ValidConfig(cfg) && Faithful(cfg.codec) && Reachable(cfg, w)
    ensures w.store.db.latest.Some? ==> w.store.db.trueEarliest.Some? && w.store.db.latest.value < U64_MAX
  {
    TierSteps.ReachableInv(cfg, w);
  }

  // ----- streaming -----

  /** Between turns the store may take any steps. */
  ghost predicate AllReachable(cfg: Config, turns: seq<Turn>)
    requires ValidConfig(cfg)
  {
    forall i {:trigger WorldAt(turns, i)} | 0 <= i < |turns| :: Reachable(cfg, WorldAt(turns, i))
  }

  function WorldAt(turns: seq<Turn>, i: nat): World
    requires i < |turns|
  {
    turns[i].world
  }

  /**
   * The blocks sent carry the numbers from `start` on, without a gap; block `start + i` is the one
   * the store had under its number in turn `when[i]`, and the turns move forward.
   */
  ghost predicate Ordered(turns: seq<Turn>, start: nat, sent: seq<Block>, when: seq<nat>) {
    && |when| == |sent|
    && (forall i | 0 <= i < |sent| :: SentAt(turns, start + i, sent[i], when[i]))
    && (forall i, j | 0 <= i < j < |when| :: when[i] < when[j])
  }

  ghost predicate SentAt(turns: seq<Turn>, n: nat, block: Block, turn: nat) {
    && turn < |turns| && Numbered(block, n)
    && n in turns[turn].world.history.content && turns[turn].world.history.content[n] == block
  }

  /** All that is heard is about earlier blocks. */
  ghost predicate Stale(wakes: seq<Wake>, needed: nat) {
    forall i | 0 <= i < |wakes| :: wakes[i].NewBlock? && wakes[i].number < needed
  }

  /** The block is stored after the session has looked for it and before it listens. */
  ghost predicate Slipped(turn: Turn, n: nat) {
    n !in turn.world.history.content && n in turn.listening.history.content
  }

  ghost predicate Wanted(request: Request, n: nat) {
    Unbounded(request) || n <= request.end
  }

  /** The wake that ends a wait: everything before it was about earlier blocks. */
  ghost predicate Woken(wakes: seq<Wake>, needed: nat, i: nat) {
    && i < |wakes| && (wakes[i].Lagged? || (wakes[i].NewBlock? && wakes[i].number >= needed))
    && Stale(wakes[..i], needed)
  }

  /** The channel closes before anything but earlier blocks is announced. */
  ghost predicate Closes(wakes: seq<Wake>, needed: nat, i: nat) {
    i < |wakes| && wakes[i].Closed? && Stale(wakes[..i], needed)
  }

  /** How a turn in which `n` is needed ends the stream. */
  ghost predicate Ends(request: Request, turn: Turn, n: nat, r: Result<(), StreamError>) {
    var stored := n in turn.world.history.content;
    || (turn.shutdown && r == Err(ServerShutdown))
    || (!turn.shutdown && !Wanted(request, n) && r == Ok(()))
    || (!turn.shutdown && Wanted(request, n) && stored && !turn.connected && r == Err(ClientDisconnected))
    || (!turn.shutdown && Wanted(request, n) && !stored
        && (|| ((exists i :: Closes(turn.wakes, n, i)) && r == Err(Internal))
            || (Stale(turn.wakes, n) && r == Err(TimeoutWaitingForBlock(n)))))
  }

  /** A turn in which `n` is needed does not end the stream: the block is sent, or announced later. */
  ghost predicate GoesOn(request: Request, turn: Turn, n: nat) {
    && !turn.shutdown && Wanted(request, n)
    && if n in turn.world.history.content then turn.connected else exists i :: Woken(turn.wakes, n, i)
  }

  /** The number needed after `i` turns: a turn that finds its number in the store moves on by one. */
  ghost function Needed(turns: seq<Turn>, start: nat, i: nat): nat
    requires i <= |turns|
  {
    if i == 0 then start
    else
      var n := Needed(turns, start, i - 1);
      if n in turns[i - 1].world.history.content then n + 1 else n
  }

  /** The stream goes on for the first `i` turns. */
  ghost predicate Underway(request: Request, turns: seq<Turn>, start: nat, i: nat)
    requires i <= |turns|
  {
    i > 0 ==> && Underway(request, turns, start, i - 1)
              && GoesOn(request, turns[i - 1], Needed(turns, start, i - 1))
  }

  lemma {:induction false} UnderwayAt(request: Request, turns: seq<Turn>, start: nat, i: nat, j: nat)
    requires j < i <= |turns| && Underway(request, turns, start, i)
    ensures GoesOn(request, turns[j], Needed(turns, start, j))
  {
    if j == i - 1 {
    } else {
      UnderwayAt(request, turns, start, i - 1, j);
    }
  }

  /** The stream goes on for `last` turns, and then ends as the next turn says, or because there is none. */
  ghost predicate Streamed(request: Request, turns: seq<Turn>, start: nat, last: nat, r: Result<(), StreamError>) {
    && last <= |turns| && Underway(request, turns, start, last)
    && if last == |turns| then r == Err(ServerShutdown) else Ends(request, turns[last], Needed(turns, start, last), r)
  }

  /** A stream never gets beyond the end of its request by more than the number that ends it. */
  lemma {:induction false} NeededWithin(request: Request, turns: seq<Turn>, start: nat, i: nat)
    requires i <= |turns| && (Unbounded(request) || start <= request.end + 1) && Underway(request, turns, start, i)
    ensures Unbounded(request) || Needed(turns, start, i) <= request.end + 1
  {
    if i == 0 {
    } else {
      NeededWithin(request, turns, start, i - 1);
    }
  }

  lemma {:induction false} NeededAdvances(request: Request, turns: seq<Turn>, start: nat, i: nat)
    requires i <= |turns| && AllThere(turns, start, request.end) && start + i <= request.end + 1
    ensures Needed(turns, start, i) == start + i
  {
    if i == 0 {
    } else {
      NeededAdvances(request, turns, start, i - 1);
      assert HasRange(turns[i - 1].world, start, request.end);
    }
  }

  /** When all of the range is there and there are turns enough, the stream ends well. */
  lemma StreamedWhole(request: Request, turns: seq<Turn>, start: nat, last: nat, r: Result<(), StreamError>)
    requires Streamed(request, turns, start, last, r) && !Unbounded(request) && start <= request.end
    requires AllThere(turns, start, request.end) && start + |turns| > request.end + 1
    ensures r.Ok?
  {
    var whole := request.end + 1 - start;
    if last > whole {
      UnderwayAt(request, turns, start, last, whole);
      NeededAdvances(request, turns, start, whole);
    } else {
      NeededAdvances(request, turns, start, last);
      assert last < whole ==> HasRange(turns[last].world, start, request.end);
    }
  }

  /** In every turn the session is left alone and the store has all blocks of the range. */
  ghost predicate AllThere(turns: seq<Turn>, start: nat, end: nat) {
    forall i | 0 <= i < |turns| :: !turns[i].shutdown && turns[i].connected && HasRange(turns[i].world, start, end)
  }

  ghost predicate HasRange(w: World, start: nat, end: nat) {
    forall n | start <= n <= end :: n in w.history.content
  }

  /** What a subscriber is sent is what a gap check relies on when it asks a peer. */
  lemma OrderedIsConsecutive(turns: seq<Turn>, start: nat, sent: seq<Block>, when: seq<nat>)
    requires Ordered(turns, start, sent, when)
    ensures ColdFiles.Consecutive(sent, start)
  {
    forall i | 0 <= i < |sent| ensures Numbered(sent[i], start + i) {
      assert SentAt(turns, start + i, sent[i], when[i]);
    }
  }

  /** What a read that finds a block returns is the block stored under the number, with that number. */
  lemma ReadIsStored(cfg: Config, w: World, n: nat, raw: bytes, block: Block)
    requires ValidConfig(cfg) && Faithful(cfg.codec) && Reachable(cfg, w)
    requires Read(cfg.codec, w.store, n) == Ok(Some(raw)) && cfg.codec.decode(raw) == Some(block)
    ensures n in w.history.content && w.history.content[n] == block && Numbered(block, n)
  {
    TierTheorems.StoreRefinesMap(cfg, w, n);
    TierSteps.ReachableInv(cfg, w);
  }

  lemma StoredIsRead(cfg: Config, w: World, n: nat)
    requires ValidConfig(cfg) && Faithful(cfg.codec) && Reachable(cfg, w)
    ensures n in w.history.content ==> Read(cfg.codec, w.store, n) == Ok(Some(cfg.codec.encode(w.history.content[n])))
    ensures n !in w.history.content ==> Read(cfg.codec, w.store, n) == Ok(None)
  {
    TierTheorems.StoreRefinesMap(cfg, w, n);
  }

  /** The next block joins those already sent. */
  lemma OrderedSnoc(turns: seq<Turn>, start: nat, sent: seq<Block>, when: seq<nat>, block: Block, turn: nat)
    requires Ordered(turns, start, sent, when) && SentAt(turns, start + |sent|, block, turn)
    requires forall i | 0 <= i < |when| :: when[i] < turn
    ensures Ordered(turns, start, sent + [block], when + [turn])
  {
  }

  /** Where a session stands after `i` turns: what it was sent, and when. */
  ghost predicate Standing(request: Request, turns: seq<Turn>, start: nat, i: nat, sent: seq<Block>, when: seq<nat>) {
    && i <= |turns| && Underway(request, turns, start, i) && start + |sent| == Needed(turns, start, i)
    && Ordered(turns, start, sent, when) && (forall j | 0 <= j < |when| :: when[j] < i)
  }

  /** What has been sent after a turn in which `n` was needed. */
  ghost function Sent(turn: Turn, n: nat, sent: seq<Block>): seq<Block> {
    if n in turn.world.history.content then sent + [turn.world.history.content[n]] else sent
  }

  ghost predicate Fits(turn: Turn, n: nat) {
    n in turn.world.history.content ==> Numbered(turn.world.history.content[n], n)
  }

  lemma StandingAfter(request: Request, turns: seq<Turn>, start: nat, i: nat, sent: seq<Block>, when: seq<nat>)
    returns (when': seq<nat>)
    requires Standing(request, turns, start, i, sent, when) && i < |turns|
    requires GoesOn(request, turns[i], start + |sent|) && Fits(turns[i], start + |sent|)
    ensures Standing(request, turns, start, i + 1, Sent(turns[i], start + |sent|, sent), when')
  {
    when' := when;
    var n, content := start + |sent|, turns[i].world.history.content;
    if n in content {
      OrderedSnoc(turns, start, sent, when, content[n], i);
      when' := when + [i];
    }
  }

  class SubscriberSession {
    const cfg: Config
    const request: Request
    const lookahead: u64
    var sent: seq<Block>
    var code: Option<Code>

    constructor (cfg: Config, request: Request, lookahead: u64)
      ensures this.cfg == cfg && this.request == request && this.lookahead == lookahead
      ensures sent == [] && code == None
    {
      this.cfg, this.request, this.lookahead := cfg, request, lookahead;
      sent, code := [], None;
    }

    /** Waits until a block at or above the needed one is announced, or the session must look again. */
    method WaitForNewBlock(wakes: seq<Wake>, needed: nat) returns (r: Result<(), StreamError>)
      ensures r.Ok? <==> exists i :: Woken(wakes, needed, i)
      ensures r == Err(TimeoutWaitingForBlock(needed)) <==> Stale(wakes, needed)
      ensures r == Err(Internal) <==> exists i :: Closes(wakes, needed, i)
      ensures r.Err? ==> r.error in {Internal, TimeoutWaitingForBlock(needed)}
    {
      for i := 0 to |wakes|
        invariant Stale(wakes[..i], needed)
      {
        match wakes[i] {
          case NewBlock(number) =>
            if number >= needed {
              assert Woken(wakes, needed, i);
              return Ok(());
            }
          case Lagged =>
            assert Woken(wakes, needed, i);
            return Ok(());
          case Closed =>
            assert Closes(wakes, needed, i);
            return Err(Internal);
        }
      }
      assert wakes[..|wakes|] == wakes;
      r := Err(TimeoutWaitingForBlock(needed));
    }

    /**
     * Sends the next block if the store has it, and otherwise waits. It times out exactly if the block was
     * not there when it looked and only earlier ones are announced once it listens, even if it slipped by.
     */
    method ProcessNextBlock(turn: Turn, n: nat) returns (r: Result<Option<nat>, StreamError>)
      requires ValidConfig(cfg) && Faithful(cfg.codec) && Reachable(cfg, turn.world)
      modifies this`sent
      ensures r == Ok(None) <==> !Unbounded(request) && n > request.end
      ensures r.Ok? && r.value.Some? ==> r.value == Some(n) || r.value == Some(n + 1)
      ensures r == Ok(Some(n + 1)) ==>
                && n in turn.world.history.content && Numbered(turn.world.history.content[n], n)
                && sent == old(sent) + [turn.world.history.content[n]]
      ensures r != Ok(Some(n + 1)) ==> sent == old(sent)
      ensures (Unbounded(request) || n <= request.end) && n in turn.world.history.content && turn.connected ==>
                r == Ok(Some(n + 1))
      ensures r == Err(TimeoutWaitingForBlock(n)) <==>
                (Unbounded(request) || n <= request.end) && n !in turn.world.history.content && Stale(turn.wakes, n)
      ensures !turn.shutdown ==> if r.Ok? && r.value.Some? then GoesOn(request, turn, n)
                                 else Ends(request, turn, n, if r.Ok? then Ok(()) else Err(r.error))
      ensures GoesOn(request, turn, n) ==>
                var content := turn.world.history.content;
                if n in content
                then r == Ok(Some(n + 1)) && sent == old(sent) + [content[n]] && Numbered(content[n], n)
                else r == Ok(Some(n)) && sent == old(sent)
      ensures r.Err? ==> ToStatusCode(r.error) == Failure
    {
      if !Unbounded(request) && n > request.end {
        return Ok(None);
      }
      StoredIsRead(cfg, turn.world, n);
      var found := Read(cfg.codec, turn.world.store, n);
      if found.Err? {
        return Err(Persistence);
      }
      if found.value.Some? {
        var block := cfg.codec.decode(found.value.value);
        if block.None? {
          return Err(Persistence);
        }
        if !turn.connected {
          return Err(ClientDisconnected);
        }
        ReadIsStored(cfg, turn.world, n, found.value.value, block.value);
        sent := sent + [block.value];
        return Ok(Some(n + 1));
      }
      var waited := WaitForNewBlock(turn.wakes, n);
      if waited.Err? {
        return Err(waited.error);
      }
      r := Ok(Some(n));
    }

    /** One turn: the stream goes on, with the needed block sent if the store has it, or it ends. */
    method TakeTurn(turn: Turn, n: nat) returns (more: bool, r: Result<(), StreamError>)
      requires ValidConfig(cfg) && Faithful(cfg.codec) && Reachable(cfg, turn.world)
      modifies this`sent
      ensures if more then GoesOn(request, turn, n) else Ends(request, turn, n, r)
      ensures more ==> sent == Sent(turn, n, old(sent)) && Fits(turn, n)
      ensures !more ==> sent == old(sent)
    {
      if turn.shutdown {
        return false, Err(ServerShutdown);
      }
      var step := ProcessNextBlock(turn, n);
      if step.Err? {
        return false, Err(step.error);
      }
      more, r := step.value.Some?, Ok(());
    }

    /** The streaming loop, from an accepted start. */
    method StreamFrom(start: nat, turns: seq<Turn>)
      returns (r: Result<(), StreamError>, ghost when: seq<nat>, ghost last: nat)
      requires ValidConfig(cfg) && Faithful(cfg.codec) && AllReachable(cfg, turns) && sent == []
      modifies this`sent
      ensures Ordered(turns, start, sent, when) && Streamed(request, turns, start, last, r)
      ensures start + |sent| == Needed(turns, start, last)
    {
      when := [];
      var next := start;
      for i := 0 to |turns|
        invariant next == start + |sent| && Standing(request, turns, start, i, sent, when)
      {
        ghost var before := sent;
        var more;
        assert WorldAt(turns, i) == turns[i].world;
        more, r := TakeTurn(turns[i], next);
        if !more {
          return r, when, i;
        }
        when := StandingAfter(request, turns, start, i, before, when);
        next := start + |sent|;
      }
      r, last := Err(ServerShutdown), |turns|;
    }

    /**
     * Whatever the store does meanwhile, an accepted session is sent the blocks from its start on,
     * each once and in order, none beyond the end; it ends well only when it has all of them.
     */
    method ExecuteStream(opening: World, turns: seq<Turn>)
      returns (r: Result<(), StreamError>, ghost when: seq<nat>, ghost last: nat)
      requires ValidConfig(cfg) && Faithful(cfg.codec) && AllReachable(cfg, turns) && sent == []
      modifies this`sent
      ensures var start := Validate(request, opening.store.db.trueEarliest, opening.store.db.latest, lookahead);
              && (start.Err? ==> r == Err(start.error) && sent == [])
              && (start.Ok? ==> Ordered(turns, start.value, sent, when))
              && (start.Ok? && !Unbounded(request) ==> start.value + |sent| <= request.end + 1)
              && (r.Ok? ==> start.Ok? && !Unbounded(request) && start.value + |sent| == request.end + 1)
              && (start.Ok? && !Unbounded(request) && start.value + |turns| > request.end + 1 ==>
                    AllThere(turns, start.value, request.end) ==> r.Ok?)
      ensures var start := Validate(request, opening.store.db.trueEarliest, opening.store.db.latest, lookahead);
              start.Ok? ==> && Streamed(request, turns, start.value, last, r)
                            && start.value + |sent| == Needed(turns, start.value, last)
      ensures r.Err? ==> ToStatusCode(r.error) != Success
    {
      var start := Validate(request, opening.store.db.trueEarliest, opening.store.db.latest, lookahead);
      RefusedIff(request, opening.store.db.trueEarliest, opening.store.db.latest, lookahead);
      AcceptedStart(request, opening.store.db.trueEarliest, opening.store.db.latest, lookahead);
      if start.Err? {
        return Err(start.error), [], 0;
      }
      r, when, last := StreamFrom(start.value, turns);
      NeededWithin(request, turns, start.value, last);
      if !Unbounded(request) && start.value + |turns| > request.end + 1 && AllThere(turns, start.value, request.end) {
        StreamedWhole(request, turns, start.value, last, r);
      }
    }

    /** A stream fails with nothing but a failure; codes come from the validation alone. */
    lemma StreamCodes(turns: seq<Turn>, start: nat, last: nat, r: Result<(), StreamError>)
      requires Streamed(request, turns, start, last, r)
      ensures r.Err? ==> ToStatusCode(r.error) == Failure
    {
    }

    /** Runs the session to its end and reports how it ended. */
    method Run(opening: World, turns: seq<Turn>)
      returns (ghost r: Result<(), StreamError>, ghost when: seq<nat>, ghost last: nat)
      requires ValidConfig(cfg) && Faithful(cfg.codec) && AllReachable(cfg, turns) && sent == []
      modifies this
      ensures code.Some?
      ensures var start := Validate(request, opening.store.db.trueEarliest, opening.store.db.latest, lookahead);
              && (start.Ok? ==> Ordered(turns, start.value, sent, when))
              && (start.Err? ==> sent == [] && code == Some(ToStatusCode(start.error)))
              && (code == Some(Success) ==>
                    start.Ok? && !Unbounded(request) && start.value + |sent| == request.end + 1)
              && (start.Ok? ==> && Streamed(request, turns, start.value, last, r)
                                && code == Some(if r.Ok? then Success else Failure))
      ensures var earliest, latest := opening.store.db.trueEarliest, opening.store.db.latest;
              && (code == Some(InvalidEndBlockNumber) <==> Reversed(request))
              && (code == Some(InvalidStartBlockNumber) <==> !Reversed(request) && TooEarly(request, earliest))
              && (code == Some(NotAvailable) <==>
                    || NothingUpTo(request, earliest)
                    || (!Reversed(request) && !TooEarly(request, earliest) && TooFar(request, latest, lookahead)))
    {
      RefusedIff(request, opening.store.db.trueEarliest, opening.store.db.latest, lookahead);
      var ended;
      ended, when, last := ExecuteStream(opening, turns);
      r := ended;
      var start := Validate(request, opening.store.db.trueEarliest, opening.store.db.latest, lookahead);
      if start.Ok? {
        StreamCodes(turns, start.value, last, r);
      }
      code := Some(if ended.Ok? then Success else ToStatusCode(ended.error));
    }
  }
}
