/** The publisher session as an object, over state it shares with the others. */
module Publisher {
  import opened Basics
  import opened Sessions
  import opened Election
  import opened Accounting
  import opened Replies

  class SharedState {
    var winners: map<u64, Id>
    var latest: i64
    var active: map<Id, seq<Response>>
    ghost var log: multiset<Note>

    ghost function Value(): Shared
      reads this
    {
      Shared(winners, latest, active, log)
    }

    constructor (latest: i64)
      ensures Value() == Shared(map[], latest, map[], multiset{})
    {
      winners, this.latest, active, log := map[], latest, map[], multiset{};
    }

    method SendTo(id: Id, response: Response)
      modifies this`active
      ensures Value() == Send(old(Value()), id, response)
    {
      if id in active {
        active := active[id := active[id] + [response]];
      }
    }

    /** Sends to every registered session that is not excepted. */
    method SendToAll(except: set<Id>, response: Response)
      modifies this`active
      ensures active == Broadcast(old(active), except, response)
    {
      var pending := active.Keys;
      while pending != {}
        invariant pending <= active.Keys == old(active).Keys
        invariant forall t | t in active :: active[t] ==
                    if t in pending then old(active)[t] else Broadcast(old(active), except, response)[t]
        decreases pending
      {
        var t :| t in pending;
        if t !in except {
          active := active[t := active[t] + [response]];
        }
        pending := pending - {t};
      }
    }
  }

  lemma ProofAt(items: seq<Item>, i: nat)
    requires i < |items| && items[i].Proof? && !HasProof(items[..i])
    ensures HasProof(items) && UpToProof(items) == i + 1
  {
    UpToProofJoins(items[..i], items[i..]);
    assert items[..i] + items[i..] == items && items[i..][0].Proof?;
  }

  /** What the handler loop does after a request. */
  datatype Outcome = Continue | Finish | Submit(block: Block)

  /** The entries are released in this order. */
  function ReleaseAll(id: Id, l: Local, order: seq<u64>): Local
    requires l.session.phase.Leaving?
    ensures ReleaseAll(id, l, order).session.phase.Leaving?
  {
    if order == [] then l
    else AfterRelease(id, ReleaseNext(ReleaseAll(id, l, order[..|order| - 1]), order[|order| - 1]))
  }

  function Resends(order: seq<u64>): seq<Response> {
    seq(|order|, i requires 0 <= i < |order| => ResendBlock(order[i]))
  }

  /** Releasing entries removes them one by one, and every other session hears of each, in order. */
  lemma {:induction false} ReleaseHeard(id: Id, l: Local, order: seq<u64>)
    requires l.session.phase.Leaving?
    ensures var l' := ReleaseAll(id, l, order);
            && Heard(l.shared.active, l'.shared.active, id, [], Resends(order)) && l'.shared.latest == l.shared.latest
            && l'.shared.winners == l.shared.winners - set n | n in order
  {
    if order == [] {
      forall t | t in l.shared.active ensures l.shared.active[t] + [] == l.shared.active[t] { }
    } else {
      var init, n := order[..|order| - 1], order[|order| - 1];
      ReleaseHeard(id, l, init);
      var mid := ReleaseAll(id, l, init);
      var removed := ReleaseNext(mid, n);
      ResendIsHeard(removed.shared, id, n);
      HeardMore(l.shared.active, mid.shared.active, AfterRelease(id, removed).shared.active, id,
                [], Resends(init), [], [ResendBlock(n)]);
      assert Resends(order) == Resends(init) + [ResendBlock(n)];
      assert (set m | m in order) == (set m | m in init) + {n};
      assert mid.shared.winners - {n} == l.shared.winners - set m | m in order;
    }
  }

  lemma LeaveHeard(id: Id, l: Local, order: seq<u64>)
    requires l.session.phase.Leaving? && Enumerates(order, Owned(l.shared.winners, id))
    ensures var l' := Unregister(id, ReleaseAll(id, l, order));
            && l'.shared.latest == l.shared.latest && l'.shared.active.Keys == l.shared.active.Keys - {id}
            && l'.shared.winners == l.shared.winners - Owned(l.shared.winners, id)
            && (forall t | t in l'.shared.active :: l'.shared.active[t] == l.shared.active[t] + Resends(order))
  {
    ReleaseHeard(id, l, order);
    assert (set n | n in order) == Owned(l.shared.winners, id);
  }

  ghost predicate Enumerates(order: seq<u64>, numbers: set<u64>) {
    && (forall i, j | 0 <= i < j < |order| :: order[i] != order[j])
    && (forall n :: n in order <==> n in numbers)
  }

  // ----- methods as steps of the model -----

  /** The states a session goes through. */
  datatype Path = From(here: Local) | Then(before: Path, here: Local)

  /** Steps of one session from `l` on, without a word from the pipeline. */
  ghost predicate Silently(maxItems: nat, id: Id, l: Local, path: Path) {
    match path
    case From(here) => here == l
    case Then(before, here) =>
      Silently(maxItems, id, l, before) && SessionStep(maxItems, id, before.here, here, Silent)
  }

  function Length(path: Path): nat {
    match path
    case From(_) => 0
    case Then(before, _) => Length(before) + 1
  }

  /** From a good session to a good one: others keep their entries, and the log covers what is owed. */
  ghost predicate Settles(l: Local, l': Local, id: Id) {
    StepKeeps(l, l', id) && forall n: u64 :: StepBalances(l, l', id, n)
  }

  lemma StepSettles(maxItems: nat, id: Id, l: Local, l': Local, signal: Signal)
    requires Good(l.shared.winners, id, l.session) && SessionStep(maxItems, id, l, l', signal)
    ensures Settles(l, l', id)
  {
    SessionStepKeeps(maxItems, id, l, l', signal);
    forall n: u64 ensures StepBalances(l, l', id, n) {
      SessionStepBalances(maxItems, id, l, l', signal, n);
    }
  }

  lemma SettlesTrans(l: Local, mid: Local, l': Local, id: Id)
    requires Settles(l, mid, id) && Settles(mid, l', id)
    ensures Settles(l, l', id)
  {
    forall n: u64 ensures StepBalances(l, l', id, n) {
      assert StepBalances(l, mid, id, n) && StepBalances(mid, l', id, n);
    }
  }

  lemma {:induction false} PathSettles(maxItems: nat, id: Id, l: Local, path: Path)
    requires Good(l.shared.winners, id, l.session) && Silently(maxItems, id, l, path)
    ensures Settles(l, path.here, id)
  {
    match path
    case From(_) =>
    case Then(before, here) =>
      PathSettles(maxItems, id, l, before);
      StepSettles(maxItems, id, before.here, here, Silent);
      SettlesTrans(l, before.here, here, id);
  }

  /** A request is one step, or two when it leads to an election. */
  ghost function RequestPath(maxItems: nat, id: Id, l: Local, request: Request): (path: Path)
    requires l.session.phase.Reading?
    ensures Silently(maxItems, id, l, path) && Length(path) <= 2
    ensures path.here == Elect(id, OnRequest(maxItems, id, l, request))
  {
    var first := Then(From(l), OnRequest(maxItems, id, l, request));
    assert Length(first) == 1;
    if first.here.session.phase.Electing? then Then(first, OnElection(id, first.here)) else first
  }

  /** Releasing numbers a leaving session holds, each once, is a sequence of steps. */
  lemma {:induction false} ReleasePath(maxItems: nat, id: Id, l: Local, order: seq<u64>, numbers: set<u64>)
    returns (path: Path)
    requires l.session.phase.Leaving? && l.session.phase.current.None?
    requires Enumerates(order, numbers) && numbers <= l.session.phase.todo
    ensures Silently(maxItems, id, l, path) && path.here == ReleaseAll(id, l, order)
    ensures path.here.session.phase == Leaving(l.session.phase.todo - numbers, None)
  {
    if order == [] {
      assert numbers == {};
      path := From(l);
    } else {
      var init, n := order[..|order| - 1], order[|order| - 1];
      assert n in order;
      assert Enumerates(init, numbers - {n});
      var before := ReleasePath(maxItems, id, l, init, numbers - {n});
      assert n in before.here.session.phase.todo;
      var removed := ReleaseNext(before.here, n);
      path := Then(Then(before, removed), AfterRelease(id, removed));
      assert l.session.phase.todo - (numbers - {n}) - {n} == l.session.phase.todo - numbers;
    }
  }

  /** Leaving is a sequence of steps, after which the session owes nothing and holds nothing. */
  lemma LeavePath(maxItems: nat, id: Id, l: Local, order: seq<u64>) returns (path: Path)
    requires Good(l.shared.winners, id, l.session) && l.session.phase.Leaving? && l.session.phase.current.None?
    requires Enumerates(order, Owned(l.shared.winners, id))
    ensures Silently(maxItems, id, l, path) && path.here == Unregister(id, ReleaseAll(id, l, order))
    ensures Settles(l, path.here, id)
  {
    var released := ReleasePath(maxItems, id, l, order, l.session.phase.todo);
    path := Then(released, Unregister(id, released.here));
    PathSettles(maxItems, id, l, path);
  }

  /** Hearing an outcome and acting on it settles what the session owes for its number, once. */
  ghost predicate SettlesOutcome(maxItems: nat, id: Id, l: Local, l': Local, signal: Signal) {
    && (exists mid :: SessionStep(maxItems, id, l, mid, signal) && SessionStep(maxItems, id, mid, l', Silent))
    && Settles(l, l', id) && !Holds(l'.shared.winners, id, l.session.number)
    && Unsettled(l'.shared.log, l.session.number) == Unsettled(l.shared.log, l.session.number) - 1
  }

  lemma OutcomeReleases(maxItems: nat, id: Id, l: Local, mid: Local, l': Local, signal: Signal)
    requires Good(l.shared.winners, id, l.session) && l.session.phase.Awaiting?
    requires SessionStep(maxItems, id, l, mid, signal) && SessionStep(maxItems, id, mid, l', Silent)
    ensures !Holds(l'.shared.winners, id, l.session.number)
    ensures Unsettled(l'.shared.log, l.session.number) == Unsettled(l.shared.log, l.session.number) - 1
  {
  }

  lemma OutcomeSettles(maxItems: nat, id: Id, l: Local, mid: Local, l': Local, signal: Signal)
    requires Good(l.shared.winners, id, l.session) && l.session.phase.Awaiting?
    requires SessionStep(maxItems, id, l, mid, signal) && SessionStep(maxItems, id, mid, l', Silent)
    ensures SettlesOutcome(maxItems, id, l, l', signal)
  {
    StepSettles(maxItems, id, l, mid, signal);
    StepSettles(maxItems, id, mid, l', Silent);
    SettlesTrans(l, mid, l', id);
    OutcomeReleases(maxItems, id, l, mid, l', signal);
  }

  class SessionManager {
    const id: Id
    const maxItems: nat
    const shared: SharedState
    var number: u64
    var action: Option<Action>
    var buffer: seq<Item>
    ghost var phase: Phase
    ghost var clean: bool
    ghost var sets: seq<seq<Item>>

    ghost function Now(): Local
      reads this, shared
    {
      Local(shared.Value(), Session(phase, number, action, buffer, clean, sets))
    }

    constructor (id: Id, maxItems: nat, shared: SharedState)
      ensures this.id == id && this.maxItems == maxItems && this.shared == shared
      ensures Now() == Local(shared.Value(), FRESH)
    {
      this.id, this.maxItems, this.shared := id, maxItems, shared;
      number, action, buffer, phase, clean, sets := 0, None, [], Reading, true, [];
    }

    method Reset()
      modifies this
      ensures Now() == old(Now()).(session := FRESH)
    {
      number, action, buffer, phase, clean, sets := 0, None, [], Reading, true, [];
    }

    method Finishes()
      modifies this`phase
      ensures Now() == Terminate(id, old(Now()))
    {
      phase := Leaving(Owned(shared.winners, id), None);
    }

    method HandleEnd(n: u64, act: Action)
      modifies this, shared`active
      ensures Now() == End(id, old(Now()), n, act)
    {
      var told := if act.EndBehind? then AsU64(shared.latest) else n;
      number, action := n, Some(act);
      shared.SendTo(id, EndOfStream(CodeOf(act), told));
      Finishes();
    }

    method HandleSkip(n: u64)
      modifies this, shared`active
      ensures Now() == SkipOver(id, old(Now()), n)
    {
      shared.SendTo(id, SkipBlock(n));
      Reset();
    }

    method FindHeader(items: seq<Item>) returns (header: Option<u64>)
      ensures header == FirstHeader(items)
    {
      header := None;
      var i := 0;
      while i < |items|
        invariant 0 <= i <= |items| && FirstHeader(items) == FirstHeader(items[i..])
      {
        if items[i].Header? {
          return Some(items[i].number);
        }
        assert items[i..][1..] == items[i + 1..];
        i := i + 1;
      }
    }

    method ValidateBlockItems(items: seq<Item>, isNewBlock: bool) returns (ok: bool)
      ensures ok <==> ValidItems(maxItems, items, isNewBlock)
    {
      if |items| == 0 || |items| > maxItems {
        return false;
      }
      ok := !isNewBlock || items[0].Header?;
    }

    /** Buffers items up to the first proof, which completes the block. */
    method HandleAccept(items: seq<Item>) returns (outcome: Outcome)
      requires phase.Reading?
      modifies this`buffer, this`phase, this`sets
      ensures Now() == old(Now()).(session := AcceptItems(old(Now()).session, items))
      ensures outcome == if HasProof(items) then Submit(phase.block) else Continue
    {
      ghost var start := buffer;
      sets := sets + [items];
      var i := 0;
      while i < |items|
        invariant 0 <= i <= |items| && buffer == start + items[..i] && !HasProof(items[..i]) && phase.Reading?
        invariant sets == old(sets) + [items]
      {
        buffer := buffer + [items[i]];
        NoProofJoins(items[..i], [items[i]]);
        assert items[..i] + [items[i]] == items[..i + 1];
        assert buffer == start + items[..i + 1];
        if items[i].Proof? {
          ProofAt(items, i);
          assert CutAtProof(items) == items[..i + 1];
          outcome := Submit(Block(buffer));
          phase, buffer := Submitting(Block(buffer)), [];
          return;
        }
        i := i + 1;
      }
      assert items[..i] == items;
      UpToProofIsFirst(items);
      outcome := Continue;
    }

    /** A header: the session is behind, is late, repeats itself, or competes for the number. */
    method HandleHeader(n: u64, items: seq<Item>) returns (outcome: Outcome)
      requires phase.Reading?
      modifies this, shared
      ensures Now() == Elect(id, OnHeader(id, old(Now()), n, items)) && Tells(outcome)
    {
      if AsI64(n) < shared.latest {
        HandleEnd(n, EndBehind);
        return Finish;
      }
      if AsI64(n) == shared.latest || Holds(shared.winners, id, n) {
        HandleEnd(n, EndDuplicate);
        return Finish;
      }
      if n in shared.winners {
        HandleSkip(n);
        return Continue;
      }
      shared.winners := shared.winners[n := id];
      shared.log := shared.log + multiset{Won(n)};
      number, action, clean := n, Some(Accept), buffer == [];
      outcome := HandleAccept(items);
    }

    /** Items that continue a block. */
    method HandleContinuation(items: seq<Item>) returns (outcome: Outcome)
      requires phase.Reading?
      modifies this, shared`active
      ensures Now() == OnContinuation(id, old(Now()), items) && Tells(outcome)
    {
      if action != Some(Accept) {
        HandleEnd(number, EndError);
        return Finish;
      }
      if Holds(shared.winners, id, number) {
        outcome := HandleAccept(items);
      } else if number in shared.winners {
        shared.SendTo(id, ResendBlock(number));
        Reset();
        outcome := Continue;
      } else {
        HandleEnd(number, EndError);
        outcome := Finish;
      }
    }

    /** The outcome of a request agrees with the phase the session is left in. */
    ghost predicate Tells(outcome: Outcome)
      reads this
    {
      match outcome
      case Continue => phase.Reading?
      case Finish => phase.Leaving?
      case Submit(block) => phase == Submitting(block)
    }

    method HandleBlockItems(items: seq<Item>) returns (outcome: Outcome)
      requires phase.Reading?
      modifies this, shared
      ensures Now() == Elect(id, OnItems(maxItems, id, old(Now()), items)) && Tells(outcome)
    {
      var header := FindHeader(items);
      var ok := ValidateBlockItems(items, header.Some?);
      if !ok {
        var told := if header.Some? then header.value else number;
        shared.SendTo(id, EndOfStream(Error, told));
        Finishes();
        outcome := Finish;
      } else if header.Some? {
        outcome := HandleHeader(header.value, items);
      } else {
        outcome := HandleContinuation(items);
      }
    }

    method HandleBlockEnd(n: u64) returns (outcome: Outcome)
      requires phase.Reading?
      modifies this, shared`active
      ensures Now() == OnEndOfBlock(id, old(Now()), n) && Tells(outcome)
    {
      if action != Some(Accept) || n != number {
        HandleEnd(number, EndError);
        return Finish;
      }
      outcome := Submit(Block(buffer));
      phase, buffer := Submitting(Block(buffer)), [];
    }

    ghost predicate Valid()
      reads this, shared
    {
      Good(shared.winners, id, Now().session)
    }

    method Dispatch(request: Request) returns (outcome: Outcome)
      requires phase.Reading?
      modifies this, shared
      ensures Now() == Elect(id, OnRequest(maxItems, id, old(Now()), request)) && Tells(outcome)
    {
      match request
      case BlockItems(items) => outcome := HandleBlockItems(items);
      case EndOfBlock(n) => outcome := HandleBlockEnd(n);
      case EndStream =>
        Finishes();
        outcome := Finish;
    }

    /**
     * One request, when nobody else moves between the two looks at the winners: at most two steps of
     * the model, which keep the session good, take no entry of another session, and win at most what
     * the log then says is owed. A block to submit is all that was accepted, cut after the first proof.
     */
    method HandleRequest(request: Request) returns (outcome: Outcome, ghost path: Path)
      requires Valid() && phase.Reading?
      modifies this, shared
      ensures Valid() && Settles(old(Now()), Now(), id) && Tells(outcome)
      ensures Silently(maxItems, id, old(Now()), path) && path.here == Now() && Length(path) <= 2
      ensures outcome.Submit? ==> Complete(outcome.block, Now().session) && Holds(shared.winners, id, number)
      ensures id in old(shared.active) ==> Answered(maxItems, id, old(Now()), Now(), request)
    {
      ghost var before := Now();
      if id in shared.active {
        RequestIsAnswered(maxItems, id, before, request);
      }
      outcome := Dispatch(request);
      path := RequestPath(maxItems, id, before, request);
      PathSettles(maxItems, id, before, path);
    }

    // ----- after the wait -----

    method FinishPersisted()
      requires Valid() && phase.Awaiting?
      modifies this, shared
      ensures Valid() && SettlesOutcome(maxItems, id, old(Now()), Now(), Hears(true, old(number), old(phase.key)))
      ensures phase.Reading? && shared.latest == AsI64(old(number))
      ensures shared.winners == old(shared.winners) - {old(number)}
      ensures Heard(old(shared.active), shared.active, id,
                    [Acknowledgement(old(number))], [Acknowledgement(old(number))])
    {
      ghost var before := Now();
      shared.latest := AsI64(number);
      shared.SendToAll({}, Acknowledgement(number));
      shared.log := shared.log + multiset{Acked(number)};
      shared.winners := shared.winners - {number};
      Reset();
      OutcomeSettles(maxItems, id, before, OnPersisted(before), Now(),
                     Hears(true, before.session.number, before.session.phase.key));
    }

    method FinishVerificationFailed()
      requires Valid() && phase.Awaiting?
      modifies this, shared
      ensures Valid() && SettlesOutcome(maxItems, id, old(Now()), Now(), Hears(false, old(number), old(phase.key)))
      ensures phase.Leaving? && shared.latest == old(shared.latest)
      ensures shared.winners == old(shared.winners) - {old(number)}
      ensures Heard(old(shared.active), shared.active, id,
                    [EndOfStream(BadProof, old(number))], [ResendBlock(old(number))])
    {
      ghost var before := Now();
      FailureIsHeard(before, id);
      shared.SendTo(id, EndOfStream(CodeOf(BadBlockProof), number));
      shared.SendToAll({id}, ResendBlock(number));
      shared.log := shared.log + multiset{Resent(number)};
      shared.winners := shared.winners - {number};
      Finishes();
      OutcomeSettles(maxItems, id, before, OnVerificationFailed(id, before), Now(),
                     Hears(false, before.session.number, before.session.phase.key));
    }

    method FinishTimedOut()
      requires Valid() && phase.Awaiting?
      modifies this, shared
      ensures Valid() && SettlesOutcome(maxItems, id, old(Now()), Now(), Silent)
      ensures phase.Leaving? && shared.latest == old(shared.latest)
      ensures shared.winners == old(shared.winners) - {old(number)}
      ensures Heard(old(shared.active), shared.active, id, [], [ResendBlock(old(number))])
    {
      ghost var before := Now();
      ResendIsHeard(before.shared, id, number);
      shared.winners := shared.winners - {number};
      shared.SendToAll({id}, ResendBlock(number));
      shared.log := shared.log + multiset{Resent(number)};
      Finishes();
      OutcomeSettles(maxItems, id, before, OnTimeout(before), Now(), Silent);
    }

    /** Removes one entry and calls for its block again. */
    method ReleaseOne(n: u64)
      requires phase.Leaving? && phase.current.None? && n in phase.todo
      modifies this`phase, shared
      ensures Now() == AfterRelease(id, ReleaseNext(old(Now()), n))
    {
      shared.winners := shared.winners - {n};
      shared.SendToAll({id}, ResendBlock(n));
      shared.log := shared.log + multiset{Resent(n)};
      phase := Leaving(phase.todo - {n}, None);
    }

    method ReleaseOwned() returns (released: seq<u64>)
      requires Valid() && phase.Leaving? && phase.current.None?
      modifies this`phase, shared
      ensures Now() == ReleaseAll(id, old(Now()), released)
      ensures Enumerates(released, old(Owned(shared.winners, id)))
    {
      ghost var start := Now();
      var affected := Owned(shared.winners, id);
      released := [];
      while affected != {}
        invariant phase == Leaving(affected, None) && Now() == ReleaseAll(id, start, released)
        invariant Enumerates(released, Owned(start.shared.winners, id) - affected)
        invariant affected <= Owned(start.shared.winners, id)
        decreases affected
      {
        var n :| n in affected;
        ReleaseOne(n);
        affected := affected - {n};
        assert (released + [n])[..|released|] == released;
        released := released + [n];
      }
    }

    /**
     * Releases everything the session still holds, each number once and with one call to resend, and
     * signs off: steps of the model, after which the session owes nothing.
     */
    method Leave() returns (released: seq<u64>, ghost path: Path)
      requires Valid() && phase.Leaving? && phase.current.None?
      modifies this, shared
      ensures Valid() && phase.Gone? && Settles(old(Now()), Now(), id)
      ensures Silently(maxItems, id, old(Now()), path) && path.here == Now()
      ensures Now() == Unregister(id, ReleaseAll(id, old(Now()), released))
      ensures Enumerates(released, old(Owned(shared.winners, id)))
      ensures shared.latest == old(shared.latest) && shared.active.Keys == old(shared.active).Keys - {id}
      ensures shared.winners == old(shared.winners) - Owned(old(shared.winners), id)
      ensures forall t | t in shared.active :: shared.active[t] == old(shared.active)[t] + Resends(released)
    {
      ghost var start := Now();
      released := ReleaseOwned();
      LeaveHeard(id, start, released);
      shared.active := shared.active - {id};
      phase := Gone;
      path := LeavePath(maxItems, id, start, released);
    }
  }
}
