/**
 * Publisher sessions: how a session answers its requests, competes for block numbers and releases
 * them again. Every function is one step that other sessions cannot interrupt.
 */
module Sessions {
  import opened Basics

  const TWO_63: int := 0x8000_0000_0000_0000

  type i64 = i: int | -TWO_63 <= i < TWO_63

  function AsI64(n: u64): i64 {
    if n < TWO_63 then n else n - U64_MAX - 1
  }

  function AsU64(i: i64): u64 {
    if i >= 0 then i else i + U64_MAX + 1
  }

  type Id = nat

  datatype Action = Accept | Skip | Resend | EndBehind | EndDuplicate | EndError | BadBlockProof

  datatype Code = Behind | DuplicateBlock | Error | BadProof

  datatype Response =
    | SkipBlock(number: u64)
    | ResendBlock(number: u64)
    | Acknowledgement(number: u64)
    | EndOfStream(code: Code, number: u64)

  datatype Request = BlockItems(items: seq<Item>) | EndOfBlock(number: u64) | EndStream

  /** What the history remembers of a number: an election won, an acknowledgement, a call to resend. */
  datatype Note = Won(number: u64) | Acked(number: u64) | Resent(number: u64)

  /** The state all sessions share; `active` holds what was sent to each session, `log` is history. */
  datatype Shared = Shared(
    winners: map<u64, Id>,
    latest: i64,
    active: map<Id, seq<Response>>,
    log: multiset<Note>)

  /** Where a session is in its handling of a request. */
  datatype Phase =
    | Reading
    | Electing(candidate: u64, items: seq<Item>)
    | Submitting(block: Block)
    | Awaiting(key: nat, block: Block)
    | Acknowledged
    | Rejected
    | TimedOut
    | Leaving(todo: set<u64>, current: Option<u64>)
    | Gone

  /**
   * A session. History is `clean`, that the current block's header came while no block was open, and
   * `sets`, the item sets accepted since the open block began; so is the block of an `Awaiting` phase.
   */
  datatype Session = Session(
    phase: Phase,
    number: u64,
    action: Option<Action>,
    buffer: seq<Item>,
    clean: bool,
    sets: seq<seq<Item>>)

  const FRESH: Session := Session(Reading, 0, None, [], true, [])

  /** What one session can see and change. */
  datatype Local = Local(shared: Shared, session: Session)

  // ----- validation and framing -----

  function FirstHeader(items: seq<Item>): Option<u64> {
    if items == [] then None
    else if items[0].Header? then Some(items[0].number)
    else FirstHeader(items[1..])
  }

  predicate ValidItems(maxItems: nat, items: seq<Item>, isNewBlock: bool) {
    items != [] && |items| <= maxItems && (isNewBlock ==> items[0].Header?)
  }

  /** How many items up to and including the first proof; all of them when there is none. */
  function UpToProof(items: seq<Item>): (k: nat)
    ensures k <= |items|
  {
    if items == [] then 0
    else if items[0].Proof? then 1
    else 1 + UpToProof(items[1..])
  }

  predicate HasProof(items: seq<Item>) {
    exists i | 0 <= i < |items| :: items[i].Proof?
  }

  function CutAtProof(items: seq<Item>): seq<Item> {
    items[..UpToProof(items)]
  }

  function Flatten(sets: seq<seq<Item>>): seq<Item> {
    if sets == [] then [] else Flatten(sets[..|sets| - 1]) + sets[|sets| - 1]
  }

  // ----- answers -----

  function Send(shared: Shared, id: Id, response: Response): Shared {
    if id in shared.active then shared.(active := shared.active[id := shared.active[id] + [response]])
    else shared
  }

  function Broadcast(active: map<Id, seq<Response>>, except: set<Id>, response: Response): map<Id, seq<Response>> {
    map t | t in active :: if t in except then active[t] else active[t] + [response]
  }

  predicate Holds(winners: map<u64, Id>, id: Id, n: u64) {
    n in winners && winners[n] == id
  }

  function Owned(winners: map<u64, Id>, id: Id): set<u64> {
    set n | n in winners && winners[n] == id
  }

  /** The handler loop ends: everything the session still holds will be released. */
  function Terminate(id: Id, l: Local): Local {
    l.(session := l.session.(phase := Leaving(Owned(l.shared.winners, id), None)))
  }

  function CodeOf(action: Action): Code {
    match action
    case EndBehind => Behind
    case EndDuplicate => DuplicateBlock
    case BadBlockProof => BadProof
    case _ => Error
  }

  /** Ends the stream with the code for `action`; a publisher that is behind is told how far. */
  function End(id: Id, l: Local, number: u64, action: Action): Local {
    var told := if action.EndBehind? then AsU64(l.shared.latest) else number;
    Terminate(id, Local(Send(l.shared, id, EndOfStream(CodeOf(action), told)),
                        l.session.(number := number, action := Some(action))))
  }

  function SkipOver(id: Id, l: Local, number: u64): Local {
    Local(Send(l.shared, id, SkipBlock(number)), FRESH)
  }

  // ----- requests -----

  /** Adds accepted items to the block; a proof completes it, and what follows the proof is dropped. */
  function AcceptItems(session: Session, items: seq<Item>): Session {
    var taken := session.buffer + CutAtProof(items);
    var more := session.(sets := session.sets + [items]);
    if HasProof(items) then more.(phase := Submitting(Block(taken)), buffer := [])
    else more.(buffer := taken)
  }

  /** A header: too old, already being received, or open for election. */
  function OnHeader(id: Id, l: Local, n: u64, items: seq<Item>): Local {
    if AsI64(n) < l.shared.latest then End(id, l, n, EndBehind)
    else if AsI64(n) == l.shared.latest then End(id, l, n, EndDuplicate)
    else if Holds(l.shared.winners, id, n) then End(id, l, n, EndDuplicate)
    else if n in l.shared.winners then SkipOver(id, l, n)
    else l.(session := l.session.(phase := Electing(n, items)))
  }

  /** Items without a header: they continue the block the session was accepted for. */
  function OnContinuation(id: Id, l: Local, items: seq<Item>): Local {
    var number := l.session.number;
    if l.session.action != Some(Accept) then End(id, l, number, EndError)
    else if Holds(l.shared.winners, id, number) then l.(session := AcceptItems(l.session, items))
    else if number in l.shared.winners then Local(Send(l.shared, id, ResendBlock(number)), FRESH)
    else End(id, l, number, EndError)
  }

  function OnItems(maxItems: nat, id: Id, l: Local, items: seq<Item>): Local {
    var header := FirstHeader(items);
    if !ValidItems(maxItems, items, header.Some?) then
      var told := if header.Some? then header.value else l.session.number;
      Terminate(id, l.(shared := Send(l.shared, id, EndOfStream(Error, told))))
    else if header.Some? then OnHeader(id, l, header.value, items)
    else OnContinuation(id, l, items)
  }

  function OnEndOfBlock(id: Id, l: Local, n: u64): Local {
    if l.session.action != Some(Accept) || n != l.session.number then End(id, l, l.session.number, EndError)
    else l.(session := l.session.(phase := Submitting(Block(l.session.buffer)), buffer := []))
  }

  function OnRequest(maxItems: nat, id: Id, l: Local, request: Request): Local {
    match request
    case BlockItems(items) => OnItems(maxItems, id, l, items)
    case EndOfBlock(n) => OnEndOfBlock(id, l, n)
    case EndStream => Terminate(id, l)
  }

  /** The entry for the candidate is taken if it is still free; a lost race names the previous block. */
  function OnElection(id: Id, l: Local): Local
    requires l.session.phase.Electing?
  {
    var n, items := l.session.phase.candidate, l.session.phase.items;
    if n in l.shared.winners then SkipOver(id, l, l.session.number)
    else
      Local(l.shared.(winners := l.shared.winners[n := id], log := l.shared.log + multiset{Won(n)}),
            AcceptItems(l.session.(phase := Reading, number := n, action := Some(Accept),
                                   clean := l.session.buffer == []), items))
  }

  /** The second half of an election, directly after the first. */
  function Elect(id: Id, l: Local): Local {
    if l.session.phase.Electing? then OnElection(id, l) else l
  }

  // ----- the outcome of a submission -----

  function OnPersisted(l: Local): Local {
    var n := l.session.number;
    Local(l.shared.(latest := AsI64(n), active := Broadcast(l.shared.active, {}, Acknowledgement(n)),
                    log := l.shared.log + multiset{Acked(n)}),
          l.session.(phase := Acknowledged))
  }

  function AfterAck(l: Local): Local {
    Local(l.shared.(winners := l.shared.winners - {l.session.number}), FRESH)
  }

  /** The publisher is told of the bad proof, the others that the block is open again. */
  function OnVerificationFailed(id: Id, l: Local): Local {
    var n := l.session.number;
    var told := Send(l.shared, id, EndOfStream(CodeOf(BadBlockProof), n));
    Local(told.(active := Broadcast(told.active, {id}, ResendBlock(n)), log := told.log + multiset{Resent(n)}),
          l.session.(phase := Rejected))
  }

  function AfterRejection(id: Id, l: Local): Local {
    Terminate(id, l.(shared := l.shared.(winners := l.shared.winners - {l.session.number})))
  }

  function OnTimeout(l: Local): Local {
    Local(l.shared.(winners := l.shared.winners - {l.session.number}), l.session.(phase := TimedOut))
  }

  function CallForResend(shared: Shared, id: Id, n: u64): Shared {
    shared.(active := Broadcast(shared.active, {id}, ResendBlock(n)), log := shared.log + multiset{Resent(n)})
  }

  function AfterTimeout(id: Id, l: Local): Local {
    Terminate(id, l.(shared := CallForResend(l.shared, id, l.session.number)))
  }

  // ----- leaving -----

  /** Removes one entry the session still holds. */
  function ReleaseNext(l: Local, n: u64): Local
    requires l.session.phase.Leaving?
  {
    Local(l.shared.(winners := l.shared.winners - {n}),
          l.session.(phase := Leaving(l.session.phase.todo - {n}, Some(n))))
  }

  function AfterRelease(id: Id, l: Local): Local
    requires l.session.phase.Leaving? && l.session.phase.current.Some?
  {
    Local(CallForResend(l.shared, id, l.session.phase.current.value),
          l.session.(phase := Leaving(l.session.phase.todo, None)))
  }

  function Unregister(id: Id, l: Local): Local {
    Local(l.shared.(active := l.shared.active - {id}), l.session.(phase := Gone))
  }

  // ----- one step of one session -----

  /** What a step tells the pipeline, or hears from it. */
  datatype Signal =
    | Silent
    | Submits(key: nat, author: Id, number: u64, block: Block, clean: bool)
    | Hears(persisted: bool, number: u64, key: nat)

  ghost predicate SessionStep(maxItems: nat, id: Id, l: Local, l': Local, signal: Signal) {
    match l.session.phase
    case Reading =>
      signal.Silent? && (l' == Terminate(id, l) || exists request :: l' == OnRequest(maxItems, id, l, request))
    case Electing(_, _) => signal.Silent? && l' == OnElection(id, l)
    case Submitting(block) =>
      || (signal.Silent? && l' == Terminate(id, l))
      || (signal.Submits? && signal == Submits(signal.key, id, l.session.number, block, l.session.clean)
          && l' == l.(session := l.session.(phase := Awaiting(signal.key, block))))
    case Awaiting(key, _) =>
      || (signal == Hears(true, l.session.number, key) && l' == OnPersisted(l))
      || (signal == Hears(false, l.session.number, key) && l' == OnVerificationFailed(id, l))
      || (signal.Silent? && l' == OnTimeout(l))
    case Acknowledged => signal.Silent? && l' == AfterAck(l)
    case Rejected => signal.Silent? && l' == AfterRejection(id, l)
    case TimedOut => signal.Silent? && l' == AfterTimeout(id, l)
    case Leaving(todo, current) =>
      signal.Silent?
      && (if current.Some? then l' == AfterRelease(id, l)
          else if todo == {} then l' == Unregister(id, l)
          else exists n :: n in todo && l' == ReleaseNext(l, n))
    case Gone => false
  }
}
