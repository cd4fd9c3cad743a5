/** Every election a session wins is settled once: by an acknowledgement or by a call to resend. */
module Accounting {
  import opened Basics
  import opened Sessions
  import opened Election

  /** The session has won `n` and neither acknowledged it nor called for it again. */
  predicate Owes(winners: map<u64, Id>, id: Id, s: Session, n: u64) {
    || (Holds(winners, id, n) && !((s.phase.Acknowledged? || s.phase.Rejected?) && s.number == n))
    || (s.phase.TimedOut? && s.number == n)
    || (s.phase.Leaving? && s.phase.current == Some(n))
  }

  function Owing(e: Election, n: u64): set<Id> {
    set id | id in e.sessions && Owes(e.shared.winners, id, e.sessions[id], n)
  }

  /** What the log says is still open for `n`. */
  function Unsettled(log: multiset<Note>, n: u64): int {
    log[Won(n)] as int - log[Acked(n)] as int - log[Resent(n)] as int
  }

  ghost predicate Balanced(e: Election) {
    forall n: u64 :: Unsettled(e.shared.log, n) == |Owing(e, n)|
  }

  function One(b: bool): nat {
    if b then 1 else 0
  }

  /** A step of one session changes what it owes exactly by what it logs. */
  ghost predicate StepBalances(l: Local, l': Local, id: Id, n: u64) {
    Unsettled(l'.shared.log, n) - One(Owes(l'.shared.winners, id, l'.session, n))
    == Unsettled(l.shared.log, n) - One(Owes(l.shared.winners, id, l.session, n))
  }

  /** A request changes neither winners nor log, and releases nothing yet. */
  lemma RequestReleasesNothing(maxItems: nat, id: Id, l: Local, request: Request)
    requires l.session.phase.Reading?
    ensures var l' := OnRequest(maxItems, id, l, request);
            && l'.shared.winners == l.shared.winners && l'.shared.log == l.shared.log
            && (l'.session.phase.Reading? || l'.session.phase.Electing? || l'.session.phase.Submitting?
                || (l'.session.phase.Leaving? && l'.session.phase.current.None?))
  {
  }

  lemma RequestBalances(maxItems: nat, id: Id, l: Local, request: Request, n: u64)
    requires l.session.phase.Reading?
    ensures StepBalances(l, OnRequest(maxItems, id, l, request), id, n)
  {
    RequestReleasesNothing(maxItems, id, l, request);
  }

  lemma ElectionBalances(id: Id, l: Local, n: u64)
    requires l.session.phase.Electing? && Good(l.shared.winners, id, l.session)
    ensures StepBalances(l, OnElection(id, l), id, n)
  {
  }

  lemma SubmissionBalances(maxItems: nat, id: Id, l: Local, l': Local, signal: Signal, n: u64)
    requires Good(l.shared.winners, id, l.session) && SessionStep(maxItems, id, l, l', signal)
    requires l.session.phase.Submitting? || l.session.phase.Acknowledged?
    ensures StepBalances(l, l', id, n)
  {
  }

  lemma OutcomeBalances(maxItems: nat, id: Id, l: Local, l': Local, signal: Signal, n: u64)
    requires Good(l.shared.winners, id, l.session) && SessionStep(maxItems, id, l, l', signal)
    requires l.session.phase.Awaiting?
    ensures StepBalances(l, l', id, n)
  {
  }

  lemma LeavingBalances(maxItems: nat, id: Id, l: Local, l': Local, signal: Signal, n: u64)
    requires Good(l.shared.winners, id, l.session) && SessionStep(maxItems, id, l, l', signal)
    requires l.session.phase.Rejected? || l.session.phase.TimedOut? || l.session.phase.Leaving?
    ensures StepBalances(l, l', id, n)
  {
  }

  lemma SessionStepBalances(maxItems: nat, id: Id, l: Local, l': Local, signal: Signal, n: u64)
    requires Good(l.shared.winners, id, l.session) && SessionStep(maxItems, id, l, l', signal)
    ensures StepBalances(l, l', id, n)
  {
    if l.session.phase.Reading? {
      if l' != Terminate(id, l) {
        var request :| l' == OnRequest(maxItems, id, l, request);
        RequestBalances(maxItems, id, l, request, n);
      }
    } else if l.session.phase.Electing? {
      ElectionBalances(id, l, n);
    } else if l.session.phase.Submitting? || l.session.phase.Acknowledged? {
      SubmissionBalances(maxItems, id, l, l', signal, n);
    } else if l.session.phase.Awaiting? {
      OutcomeBalances(maxItems, id, l, l', signal, n);
    } else {
      LeavingBalances(maxItems, id, l, l', signal, n);
    }
  }

  /** Only the session that moves changes what it owes. */
  lemma OwingMoves(e: Election, e': Election, id: Id, n: u64)
    requires id in e.sessions && id in e'.sessions && e'.sessions == e.sessions[id := e'.sessions[id]]
    requires LeavesOthers(e.shared.winners, e'.shared.winners, id)
    ensures |Owing(e', n)| - One(Owes(e'.shared.winners, id, e'.sessions[id], n))
            == |Owing(e, n)| - One(Owes(e.shared.winners, id, e.sessions[id], n))
  {
    assert Owing(e', n) - {id} == Owing(e, n) - {id};
    assert |Owing(e, n) - {id}| == |Owing(e, n)| - One(id in Owing(e, n));
    assert |Owing(e', n) - {id}| == |Owing(e', n)| - One(id in Owing(e', n));
  }

  lemma MoveKeepsBalance(maxItems: nat, e: Election, e': Election, id: Id, signal: Signal)
    requires Sound(e) && Balanced(e) && Moves(maxItems, e, e', id, signal)
    ensures Balanced(e')
  {
    SessionStepKeeps(maxItems, id, View(e, id), View(e', id), signal);
    forall n: u64 ensures Unsettled(e'.shared.log, n) == |Owing(e', n)| {
      SessionStepBalances(maxItems, id, View(e, id), View(e', id), signal, n);
      OwingMoves(e, e', id, n);
    }
  }

  lemma ConnectKeepsBalance(e: Election, e': Election, id: Id)
    requires Sound(e) && Balanced(e) && Connects(e, e', id)
    ensures Balanced(e')
  {
    forall n: u64 ensures Unsettled(e'.shared.log, n) == |Owing(e', n)| {
      assert Owing(e', n) == Owing(e, n);
    }
  }

  lemma StepKeepsBalance(maxItems: nat, e: Election, e': Election, signal: Signal)
    requires Sound(e) && Balanced(e) && ElectionStep(maxItems, e, e', signal)
    ensures Balanced(e')
  {
    if id :| Moves(maxItems, e, e', id, signal) {
      MoveKeepsBalance(maxItems, e, e', id, signal);
    } else {
      var id :| Connects(e, e', id);
      ConnectKeepsBalance(e, e', id);
    }
  }

  // ----- what the other sessions hear -----

  /** What the log gains from a step, as the other sessions are told. */
  ghost predicate Announces(before: multiset<Note>, after: multiset<Note>, news: seq<Response>) {
    || (exists n: u64 :: after == before + multiset{Acked(n)} && news == [Acknowledgement(n)])
    || (exists n: u64 :: after == before + multiset{Resent(n)} && news == [ResendBlock(n)])
    || ((after == before || exists n: u64 :: after == before + multiset{Won(n)}) && news == [])
  }

  ghost predicate TellsOthers(l: Local, l': Local, t: Id, news: seq<Response>) {
    && t in l.shared.active && t in l'.shared.active && l'.shared.active[t] == l.shared.active[t] + news
    && Announces(l.shared.log, l'.shared.log, news)
  }

  lemma RequestTellsNobody(maxItems: nat, id: Id, l: Local, request: Request, t: Id)
    requires t in l.shared.active && t != id
    ensures TellsOthers(l, OnRequest(maxItems, id, l, request), t, [])
  {
  }

  /**
   * Whatever a session does, the others hear exactly of the elections it settles: an acknowledgement
   * or a call to resend, each once, and nothing else.
   */
  lemma OthersHearOfSettling(maxItems: nat, id: Id, l: Local, l': Local, signal: Signal, t: Id)
    returns (news: seq<Response>)
    requires SessionStep(maxItems, id, l, l', signal) && t in l.shared.active && t != id
    ensures TellsOthers(l, l', t, news)
  {
    news := [];
    match l.session.phase {
      case Reading =>
        if l' != Terminate(id, l) {
          var request :| l' == OnRequest(maxItems, id, l, request);
          RequestTellsNobody(maxItems, id, l, request, t);
        }
      case Awaiting(_, _) =>
        if signal.Hears? {
          news := if signal.persisted then [Acknowledgement(l.session.number)] else [ResendBlock(l.session.number)];
        }
      case TimedOut => news := [ResendBlock(l.session.number)];
      case Leaving(_, current) =>
        if current.Some? {
          news := [ResendBlock(current.value)];
        }
      case _ =>
    }
  }

  /** A header opens an election exactly if its number is free and above the latest persisted block. */
  lemma ElectionOpensIff(id: Id, l: Local, n: u64, items: seq<Item>)
    requires l.session.phase.Reading?
    ensures OnHeader(id, l, n, items).session.phase.Electing? <==> AsI64(n) > l.shared.latest && n !in l.shared.winners
    ensures OnHeader(id, l, n, items).session == FRESH <==>
              AsI64(n) > l.shared.latest && n in l.shared.winners && l.shared.winners[n] != id
    ensures OnHeader(id, l, n, items).session.phase.Electing? && l.shared.latest >= -1 ==> n < TWO_63
  {
  }
}
