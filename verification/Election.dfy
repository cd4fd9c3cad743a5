/** All publisher sessions together: at most one accepts a block, and every election won is settled. */
module Election {
  import opened Basics
  import opened Sessions

  datatype Election = Election(sessions: map<Id, Session>, shared: Shared)

  function View(e: Election, id: Id): Local
    requires id in e.sessions
  {
    Local(e.shared, e.sessions[id])
  }

  ghost predicate Connects(e: Election, e': Election, id: Id) {
    && id !in e.sessions
    && e' == Election(e.sessions[id := FRESH], e.shared.(active := e.shared.active[id := []]))
  }

  ghost predicate Moves(maxItems: nat, e: Election, e': Election, id: Id, signal: Signal) {
    && id in e.sessions && id in e'.sessions && e'.sessions == e.sessions[id := e'.sessions[id]]
    && SessionStep(maxItems, id, View(e, id), View(e', id), signal)
  }

  ghost predicate ElectionStep(maxItems: nat, e: Election, e': Election, signal: Signal) {
    || (signal.Silent? && exists id :: Connects(e, e', id))
    || (exists id :: Moves(maxItems, e, e', id, signal))
  }

  ghost predicate Initially(e: Election) {
    e.sessions == map[] && e.shared.winners == map[] && e.shared.latest >= -1
    && e.shared.active == map[] && e.shared.log == multiset{}
  }

  // ----- what holds of one session at all times -----

  /** The open block: it starts with the header of a number the session holds, and has no proof yet. */
  ghost predicate Framed(winners: map<u64, Id>, id: Id, s: Session) {
    && |s.buffer| > 0 && s.buffer[0].Header? && Holds(winners, id, s.buffer[0].number)
    && !HasProof(s.buffer) && s.buffer == Flatten(s.sets)
    && (s.clean <==> s.buffer[0].number == s.number)
  }

  /** No block is open, or one the session was accepted for. */
  ghost predicate Open(winners: map<u64, Id>, id: Id, s: Session) {
    || (s.action.None? && s.number == 0 && s.buffer == [] && s.sets == [])
    || (s.action == Some(Accept) && Holds(winners, id, s.number) && Framed(winners, id, s))
  }

  /**
   * A complete block: all items accepted since the block was opened, up to and including the first
   * proof. It starts with a header, which is that of the current number exactly if `clean`.
   */
  ghost predicate Complete(block: Block, s: Session) {
    && block.items == CutAtProof(Flatten(s.sets))
    && |block.items| > 0 && block.items[0].Header?
    && (s.clean <==> block.items[0].number == s.number)
  }

  ghost predicate Pending(winners: map<u64, Id>, id: Id, s: Session) {
    s.action == Some(Accept) && Holds(winners, id, s.number) && s.buffer == []
  }

  ghost predicate Good(winners: map<u64, Id>, id: Id, s: Session) {
    match s.phase
    case Reading => Open(winners, id, s)
    case Electing(n, items) =>
      Open(winners, id, s) && items != [] && items[0] == Header(n) && (s.action == Some(Accept) ==> n != s.number)
    case Submitting(block) => Pending(winners, id, s) && Complete(block, s)
    case Awaiting(_, block) => Pending(winners, id, s) && Complete(block, s)
    case Acknowledged => Pending(winners, id, s)
    case Rejected => Pending(winners, id, s)
    case TimedOut => !Holds(winners, id, s.number)
    case Leaving(todo, current) => todo == Owned(winners, id) && (current.Some? ==> !Holds(winners, id, current.value))
    case Gone => Owned(winners, id) == {}
  }

  /** A session accepts a block from the election it wins until it has released the number. */
  predicate Accepting(s: Session, n: u64) {
    && s.action == Some(Accept) && s.number == n
    && (s.phase.Reading? || s.phase.Electing? || s.phase.Submitting? || s.phase.Awaiting?
        || s.phase.Acknowledged? || s.phase.Rejected?)
  }

  ghost predicate Sound(e: Election) {
    && (forall id | id in e.sessions :: Good(e.shared.winners, id, e.sessions[id]))
    && (forall n | n in e.shared.winners :: e.shared.winners[n] in e.sessions)
    && (forall id | id in e.sessions && !e.sessions[id].phase.Gone? :: id in e.shared.active)
  }

  /** What a step of `id` leaves alone: the entries of every other session. */
  ghost predicate LeavesOthers(winners: map<u64, Id>, winners': map<u64, Id>, id: Id) {
    && (forall n: u64 | n in winners && winners[n] != id :: n in winners' && winners'[n] == winners[n])
    && (forall n: u64 | n in winners' && winners'[n] != id :: n in winners && winners[n] == winners'[n])
  }

  // ----- lemmas about framing -----

  lemma {:induction false} FirstHeaderLeads(items: seq<Item>)
    requires items != [] && items[0].Header?
    ensures FirstHeader(items) == Some(items[0].number)
  {
  }

  /** The items up to the first proof hold no proof but, if there is one, as the last. */
  lemma {:induction false} UpToProofIsFirst(items: seq<Item>)
    ensures HasProof(items) ==> UpToProof(items) > 0 && items[UpToProof(items) - 1].Proof?
                                && !HasProof(items[..UpToProof(items) - 1])
    ensures !HasProof(items) ==> UpToProof(items) == |items|
  {
    if items != [] && !items[0].Proof? {
      UpToProofIsFirst(items[1..]);
      if HasProof(items) {
        var i :| 0 <= i < |items| && items[i].Proof?;
        assert items[1..][i - 1].Proof?;
      } else {
        forall i | 0 <= i < |items[1..]| ensures !items[1..][i].Proof? {
          assert !items[i + 1].Proof?;
        }
      }
    }
  }

  lemma NoProofJoins(a: seq<Item>, b: seq<Item>)
    ensures HasProof(a + b) <==> HasProof(a) || HasProof(b)
  {
    if HasProof(a) {
      var i :| 0 <= i < |a| && a[i].Proof?;
      assert (a + b)[i].Proof?;
    }
    if HasProof(b) {
      var i :| 0 <= i < |b| && b[i].Proof?;
      assert (a + b)[|a| + i].Proof?;
    }
  }

  lemma {:induction false} UpToProofJoins(a: seq<Item>, b: seq<Item>)
    ensures UpToProof(a + b) == if HasProof(a) then UpToProof(a) else |a| + UpToProof(b)
  {
    if a == [] {
      assert a + b == b;
    } else {
      assert (a + b)[1..] == a[1..] + b;
      UpToProofJoins(a[1..], b);
      assert HasProof(a) <==> a[0].Proof? || HasProof(a[1..]) by {
        NoProofJoins([a[0]], a[1..]);
        assert a == [a[0]] + a[1..];
      }
    }
  }

  /** Without a proof so far, cutting the items at the first proof cuts the new ones only. */
  lemma CutOfMore(before: seq<Item>, items: seq<Item>)
    requires !HasProof(before)
    ensures CutAtProof(before + items) == before + CutAtProof(items)
    ensures CutAtProof(before) == before
  {
    UpToProofJoins(before, items);
    UpToProofIsFirst(before);
  }

  /** Accepted items keep the block framed, or complete it. */
  lemma AcceptGood(winners: map<u64, Id>, id: Id, s: Session, items: seq<Item>)
    requires s.phase.Reading? && s.action == Some(Accept) && Holds(winners, id, s.number) && items != []
    requires Framed(winners, id, s) || (s.buffer == [] && s.sets == [] && s.clean && items[0] == Header(s.number))
    ensures Good(winners, id, AcceptItems(s, items))
  {
    assert Flatten(s.sets + [items]) == Flatten(s.sets) + items by {
      assert (s.sets + [items])[..|s.sets|] == s.sets;
    }
    CutOfMore(s.buffer, items);
    if HasProof(items) {
      UpToProofIsFirst(items);
    } else {
      CutOfMore(items, []);
      NoProofJoins(s.buffer, items);
    }
  }

  // ----- every step keeps every session good -----

  ghost predicate StepKeeps(l: Local, l': Local, id: Id) {
    Good(l'.shared.winners, id, l'.session) && LeavesOthers(l.shared.winners, l'.shared.winners, id)
  }

  lemma ItemsKeep(maxItems: nat, id: Id, l: Local, items: seq<Item>)
    requires l.session.phase.Reading? && Good(l.shared.winners, id, l.session)
    ensures StepKeeps(l, OnItems(maxItems, id, l, items), id)
  {
    var header := FirstHeader(items);
    if ValidItems(maxItems, items, header.Some?) {
      if header.Some? {
        FirstHeaderLeads(items);
      } else if l.session.action == Some(Accept) {
        AcceptGood(l.shared.winners, id, l.session, items);
      }
    }
  }

  lemma EndOfBlockKeeps(id: Id, l: Local, n: u64)
    requires l.session.phase.Reading? && Good(l.shared.winners, id, l.session)
    ensures StepKeeps(l, OnEndOfBlock(id, l, n), id)
  {
    if !HasProof(l.session.buffer) {
      CutOfMore(l.session.buffer, []);
    }
  }

  lemma RequestKeeps(maxItems: nat, id: Id, l: Local, request: Request)
    requires l.session.phase.Reading? && Good(l.shared.winners, id, l.session)
    ensures StepKeeps(l, OnRequest(maxItems, id, l, request), id)
  {
    match request
    case BlockItems(items) => ItemsKeep(maxItems, id, l, items);
    case EndOfBlock(n) => EndOfBlockKeeps(id, l, n);
    case EndStream =>
  }

  lemma ElectionKeeps(id: Id, l: Local)
    requires l.session.phase.Electing? && Good(l.shared.winners, id, l.session)
    ensures StepKeeps(l, OnElection(id, l), id)
  {
    var n, items := l.session.phase.candidate, l.session.phase.items;
    if n !in l.shared.winners {
      var s := l.session.(phase := Reading, number := n, action := Some(Accept), clean := l.session.buffer == []);
      AcceptGood(l.shared.winners[n := id], id, s, items);
    }
  }

  lemma SettlingKeeps(maxItems: nat, id: Id, l: Local, l': Local, signal: Signal)
    requires Good(l.shared.winners, id, l.session) && SessionStep(maxItems, id, l, l', signal)
    requires !l.session.phase.Reading? && !l.session.phase.Electing?
    ensures StepKeeps(l, l', id)
  {
  }

  lemma SessionStepKeeps(maxItems: nat, id: Id, l: Local, l': Local, signal: Signal)
    requires Good(l.shared.winners, id, l.session) && SessionStep(maxItems, id, l, l', signal)
    ensures StepKeeps(l, l', id)
  {
    if l.session.phase.Reading? {
      if l' != Terminate(id, l) {
        var request :| l' == OnRequest(maxItems, id, l, request);
        RequestKeeps(maxItems, id, l, request);
      }
    } else if l.session.phase.Electing? {
      ElectionKeeps(id, l);
    } else {
      SettlingKeeps(maxItems, id, l, l', signal);
    }
  }

  lemma OthersStayGood(winners: map<u64, Id>, winners': map<u64, Id>, id: Id, other: Id, s: Session)
    requires LeavesOthers(winners, winners', id) && other != id && Good(winners, other, s)
    ensures Good(winners', other, s)
  {
    assert Owned(winners', other) == Owned(winners, other);
  }

  /** New entries belong to the session that moves. */
  lemma WinnersKnown(e: Election, e': Election, id: Id)
    requires id in e'.sessions && e.sessions.Keys <= e'.sessions.Keys
    requires LeavesOthers(e.shared.winners, e'.shared.winners, id)
    requires forall n | n in e.shared.winners :: e.shared.winners[n] in e.sessions
    ensures forall n | n in e'.shared.winners :: e'.shared.winners[n] in e'.sessions
  {
  }

  lemma StepKeepsActive(maxItems: nat, id: Id, l: Local, l': Local, signal: Signal, other: Id)
    requires SessionStep(maxItems, id, l, l', signal) && other in l.shared.active
    ensures other in l'.shared.active || (other == id && l'.session.phase.Gone?)
  {
  }

  lemma MoveKeepsSound(maxItems: nat, e: Election, e': Election, id: Id, signal: Signal)
    requires Sound(e) && Moves(maxItems, e, e', id, signal)
    ensures Sound(e')
  {
    SessionStepKeeps(maxItems, id, View(e, id), View(e', id), signal);
    forall other | other in e'.sessions ensures Good(e'.shared.winners, other, e'.sessions[other]) {
      if other != id {
        OthersStayGood(e.shared.winners, e'.shared.winners, id, other, e.sessions[other]);
      }
    }
    WinnersKnown(e, e', id);
    forall other | other in e'.sessions && !e'.sessions[other].phase.Gone? ensures other in e'.shared.active {
      assert !e.sessions[id].phase.Gone?;
      StepKeepsActive(maxItems, id, View(e, id), View(e', id), signal, other);
    }
  }

  lemma StepKeepsSound(maxItems: nat, e: Election, e': Election, signal: Signal)
    requires Sound(e) && ElectionStep(maxItems, e, e', signal)
    ensures Sound(e')
  {
    if id :| Moves(maxItems, e, e', id, signal) {
      MoveKeepsSound(maxItems, e, e', id, signal);
    }
  }

  // ----- consequences for one session -----

  /** While a session accepts a block, its items are never refused: nobody takes the number away. */
  lemma ContinuationAccepted(id: Id, l: Local, items: seq<Item>)
    requires l.session.phase.Reading? && Good(l.shared.winners, id, l.session) && l.session.action == Some(Accept)
    ensures OnContinuation(id, l, items) == l.(session := AcceptItems(l.session, items))
  {
  }

  /** A session that loses the race for a number is told to skip the right block only if that is block 0. */
  lemma LostRaceNames(id: Id, l: Local)
    requires l.session.phase.Electing? && Good(l.shared.winners, id, l.session) && id in l.shared.active
    requires l.session.phase.candidate in l.shared.winners
    ensures var l' := OnElection(id, l);
            exists told :: l'.shared.active[id] == l.shared.active[id] + [SkipBlock(told)]
                           && (told == l.session.phase.candidate <==>
                                 l.session.phase.candidate == 0 && l.session.action.None?)
  {
    assert OnElection(id, l).shared.active[id] == l.shared.active[id] + [SkipBlock(l.session.number)];
  }

  /** For instance: two sessions look up block 5, one wins it, and the other is told to skip block 0. */
  lemma LostRaceExample(id: Id, rival: Id)
    requires id != rival
    ensures var start := Shared(map[], 4, map[id := []], multiset{});
            var won := OnElection(rival, OnItems(10, rival, Local(start, FRESH), [Header(5)]));
            var lost := OnElection(id, Local(won.shared, OnItems(10, id, Local(start, FRESH), [Header(5)]).session));
            won.shared.winners == map[5 := rival] && lost.shared.active[id] == [SkipBlock(0)]
  {
    assert FirstHeader([Header(5)]) == Some(5);
  }

  /**
   * A header for a free number while a block is open wins its election, and the block then handed
   * over under that number is numbered by the header that opened it.
   */
  lemma HeaderIntoOpenBlock(maxItems: nat, id: Id, l: Local, n: u64, items: seq<Item>)
    requires l.session.phase.Reading? && Good(l.shared.winners, id, l.session) && l.session.buffer != []
    requires ValidItems(maxItems, items, true) && items[0] == Header(n) && HasProof(items)
    requires n !in l.shared.winners && AsI64(n) > l.shared.latest
    ensures var s := OnElection(id, OnItems(maxItems, id, l, items)).session;
            && s.phase.Submitting? && s.number == n && !s.clean
            && BlockNumber(s.phase.block) == Some(l.session.buffer[0].number) && l.session.buffer[0].number != n
  {
    FirstHeaderLeads(items);
  }

  /** For instance: block 5 is opened, then block 7 is sent whole; what is submitted as 7 is block 5. */
  lemma MisfiledExample(id: Id)
    ensures var l0 := Local(Shared(map[], 4, map[], multiset{}), FRESH);
            var l1 := OnElection(id, OnItems(10, id, l0, [Header(5)]));
            var l2 := OnElection(id, OnItems(10, id, l1, [Header(7), Proof(7)]));
            l2.session.phase == Submitting(Block([Header(5), Header(7), Proof(7)])) && l2.session.number == 7
  {
    var l0 := Local(Shared(map[], 4, map[], multiset{}), FRESH);
    assert FirstHeader([Header(5)]) == Some(5);
    var l1 := OnElection(id, OnItems(10, id, l0, [Header(5)]));
    assert l1.session.buffer == [Header(5)];
    var items := [Header(7), Proof(7)];
    assert FirstHeader(items) == Some(7) && items[1].Proof? && items[1..] == [Proof(7)];
    assert UpToProof(items) == 2;
  }

  // ----- signed and unsigned numbers -----

  /** Only numbers below 2^63 are competed for, so their signed and unsigned readings agree. */
  ghost predicate Signed(e: Election) {
    && e.shared.latest >= -1
    && (forall n | n in e.shared.winners :: n < TWO_63)
    && (forall id | id in e.sessions && e.sessions[id].phase.Electing? :: e.sessions[id].phase.candidate < TWO_63)
  }

  lemma RequestKeepsSigned(maxItems: nat, id: Id, l: Local, request: Request)
    requires l.session.phase.Reading? && l.shared.latest >= -1
    ensures var l' := OnRequest(maxItems, id, l, request);
            && l'.shared.latest == l.shared.latest && l'.shared.winners == l.shared.winners
            && (l'.session.phase.Electing? ==> l'.session.phase.candidate < TWO_63)
  {
  }

  lemma SettlingKeepsSigned(maxItems: nat, id: Id, l: Local, l': Local, signal: Signal)
    requires SessionStep(maxItems, id, l, l', signal) && Good(l.shared.winners, id, l.session)
    requires !l.session.phase.Reading? && l.shared.latest >= -1
    requires forall n | n in l.shared.winners :: n < TWO_63
    requires l.session.phase.Electing? ==> l.session.phase.candidate < TWO_63
    ensures l'.shared.latest >= -1 && !l'.session.phase.Electing?
    ensures forall n | n in l'.shared.winners :: n < TWO_63
  {
  }

  lemma StepKeepsSigned(maxItems: nat, e: Election, e': Election, signal: Signal)
    requires Sound(e) && Signed(e) && ElectionStep(maxItems, e, e', signal)
    ensures Signed(e')
  {
    if id :| Moves(maxItems, e, e', id, signal) {
      var l, l' := View(e, id), View(e', id);
      if !l.session.phase.Reading? {
        SettlingKeepsSigned(maxItems, id, l, l', signal);
      } else if l' != Terminate(id, l) {
        var request :| l' == OnRequest(maxItems, id, l, request);
        RequestKeepsSigned(maxItems, id, l, request);
      }
    }
  }
}
