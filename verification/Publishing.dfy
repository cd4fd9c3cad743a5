/** Publisher sessions and the pipeline together: what holds in every run. */
module Publishing {
  import opened Basics
  import opened Sessions
  import opened Election
  import opened Accounting
  import P = Pipeline
  import opened Tiers
  import TierTheorems

  /** The settings of a node; `verifies` says whether a verifier stands before persistence. */
  datatype Settings = Settings(store: Config, maxItems: nat, verifies: bool)

  datatype Node = Node(election: Election, pipeline: P.Pipeline)

  ghost predicate Proper(settings: Settings) {
    ValidConfig(settings.store) && Faithful(settings.store.codec)
  }

  ghost predicate Starts(settings: Settings, node: Node)
    requires Proper(settings)
  {
    Initially(node.election) && P.Empty(settings.store, node.pipeline)
  }

  /** A session moves and the pipeline follows, or the pipeline moves on its own. */
  ghost predicate NodeStep(settings: Settings, node: Node, node': Node)
    requires Proper(settings)
  {
    || (exists signal ::
          && ElectionStep(settings.maxItems, node.election, node'.election, signal)
          && P.Follows(settings.store, node.pipeline, node'.pipeline, signal))
    || (node'.election == node.election
        && P.Internal(settings.store, settings.verifies, node.pipeline, node'.pipeline))
  }

  datatype Run = Start(node: Node) | Then(before: Run, node: Node)

  ghost predicate IsRun(settings: Settings, run: Run)
    requires Proper(settings)
  {
    match run
    case Start(node) => Starts(settings, node)
    case Then(before, node) => IsRun(settings, before) && NodeStep(settings, before.node, node)
  }

  // ----- acknowledgements, from what a publisher is told to what was heard -----

  /** Whoever was told of an acknowledgement, it is in the log. */
  ghost predicate AcksLogged(shared: Shared) {
    forall t, i | t in shared.active && 0 <= i < |shared.active[t]| && shared.active[t][i].Acknowledgement? ::
      shared.log[Acked(shared.active[t][i].number)] > 0
  }

  /** The submissions under `n` that were heard to be persisted. */
  function AckedKeys(p: P.Pipeline, n: u64): set<nat> {
    set key | key in p.acked && key in p.submitted && p.submitted[key].number == n
  }

  /** The log has one acknowledgement for each of them. */
  ghost predicate AcksCounted(log: multiset<Note>, p: P.Pipeline) {
    forall n: u64 :: log[Acked(n)] == |AckedKeys(p, n)|
  }

  /** What a waiting session handed over is in the pipeline under its key, and not acknowledged yet. */
  ghost predicate HandedOver(p: P.Pipeline, id: Id, s: Session) {
    s.phase.Awaiting? ==>
      && s.phase.key in p.submitted && s.phase.key !in p.acked
      && p.submitted[s.phase.key] == P.Submission(id, s.number, s.phase.block, s.clean)
  }

  ghost predicate AllHandedOver(e: Election, p: P.Pipeline) {
    forall id | id in e.sessions :: HandedOver(p, id, e.sessions[id])
  }

  ghost predicate Acks(signal: Signal, n: u64) {
    signal.Hears? && signal.persisted && signal.number == n
  }

  /** A session logs an acknowledgement exactly when it hears of a persisted block. */
  lemma AckLoggedWhenHeard(maxItems: nat, id: Id, l: Local, l': Local, signal: Signal, n: u64)
    requires SessionStep(maxItems, id, l, l', signal)
    ensures l'.shared.log[Acked(n)] == l.shared.log[Acked(n)] + One(Acks(signal, n))
  {
  }

  lemma RequestKeepsAcksLogged(maxItems: nat, id: Id, l: Local, request: Request)
    requires AcksLogged(l.shared)
    ensures AcksLogged(OnRequest(maxItems, id, l, request).shared)
  {
  }

  lemma OutcomeKeepsAcksLogged(maxItems: nat, id: Id, l: Local, l': Local, signal: Signal)
    requires SessionStep(maxItems, id, l, l', signal) && AcksLogged(l.shared) && l.session.phase.Awaiting?
    ensures AcksLogged(l'.shared)
  {
  }

  lemma SettlingKeepsAcksLogged(maxItems: nat, id: Id, l: Local, l': Local, signal: Signal)
    requires SessionStep(maxItems, id, l, l', signal) && AcksLogged(l.shared)
    requires !l.session.phase.Reading? && !l.session.phase.Awaiting?
    ensures AcksLogged(l'.shared)
  {
  }

  lemma StepKeepsAcksLogged(maxItems: nat, e: Election, e': Election, signal: Signal)
    requires ElectionStep(maxItems, e, e', signal) && AcksLogged(e.shared)
    ensures AcksLogged(e'.shared)
  {
    if id :| Moves(maxItems, e, e', id, signal) {
      var l, l' := View(e, id), View(e', id);
      if l.session.phase.Awaiting? {
        OutcomeKeepsAcksLogged(maxItems, id, l, l', signal);
      } else if !l.session.phase.Reading? {
        SettlingKeepsAcksLogged(maxItems, id, l, l', signal);
      } else if l' != Terminate(id, l) {
        var request :| l' == OnRequest(maxItems, id, l, request);
        RequestKeepsAcksLogged(maxItems, id, l, request);
      }
    }
  }

  lemma MoveHandsOver(settings: Settings, e: Election, e': Election, p: P.Pipeline, p': P.Pipeline,
                      id: Id, signal: Signal)
    requires Moves(settings.maxItems, e, e', id, signal) && P.Follows(settings.store, p, p', signal)
    requires AllHandedOver(e, p) && P.AckedPersisted(p)
    ensures AllHandedOver(e', p')
  {
    assert HandedOver(p, id, e.sessions[id]);
    forall other | other in e'.sessions ensures HandedOver(p', other, e'.sessions[other]) {
      if other != id {
        assert HandedOver(p, other, e.sessions[other]);
      }
    }
  }

  /** A session hears once of each of its submissions, so the counts stay the same. */
  lemma MoveCountsAcks(settings: Settings, e: Election, e': Election, p: P.Pipeline, p': P.Pipeline,
                       id: Id, signal: Signal)
    requires Moves(settings.maxItems, e, e', id, signal) && P.Follows(settings.store, p, p', signal)
    requires AllHandedOver(e, p) && P.AckedPersisted(p) && AcksCounted(e.shared.log, p)
    ensures AcksCounted(e'.shared.log, p')
  {
    assert HandedOver(p, id, e.sessions[id]);
    forall n: u64 ensures e'.shared.log[Acked(n)] == |AckedKeys(p', n)| {
      AckLoggedWhenHeard(settings.maxItems, id, View(e, id), View(e', id), signal, n);
      if Acks(signal, n) {
        assert AckedKeys(p', n) == AckedKeys(p, n) + {signal.key};
      } else {
        assert AckedKeys(p', n) == AckedKeys(p, n);
      }
    }
  }

  lemma StepCountsAcks(settings: Settings, e: Election, e': Election, p: P.Pipeline, p': P.Pipeline, signal: Signal)
    requires ElectionStep(settings.maxItems, e, e', signal) && P.Follows(settings.store, p, p', signal)
    requires AllHandedOver(e, p) && P.AckedPersisted(p) && AcksCounted(e.shared.log, p)
    ensures AllHandedOver(e', p') && AcksCounted(e'.shared.log, p')
  {
    if id :| Moves(settings.maxItems, e, e', id, signal) {
      MoveHandsOver(settings, e, e', p, p', id, signal);
      MoveCountsAcks(settings, e, e', p, p', id, signal);
    }
  }

  // ----- the invariant of the node -----

  ghost predicate Sane(settings: Settings, node: Node)
    requires Proper(settings)
  {
    && Sound(node.election) && Balanced(node.election) && Signed(node.election)
    && P.Sound(settings.store, settings.verifies, node.pipeline)
    && AcksLogged(node.election.shared)
    && AllHandedOver(node.election, node.pipeline) && AcksCounted(node.election.shared.log, node.pipeline)
  }

  /** What a sound session hands over names its number exactly if the session was clean. */
  lemma SubmitsProperly(maxItems: nat, e: Election, e': Election, signal: Signal)
    requires Sound(e) && ElectionStep(maxItems, e, e', signal) && signal.Submits?
    ensures P.ProperSubmission(P.Submission(signal.author, signal.number, signal.block, signal.clean))
  {
    var id :| Moves(maxItems, e, e', id, signal);
    assert Good(e.shared.winners, id, e.sessions[id]);
  }

  lemma StartIsSane(settings: Settings, node: Node)
    requires Proper(settings) && Starts(settings, node)
    ensures Sane(settings, node)
  {
    forall n: u64 ensures Unsettled(node.election.shared.log, n) == |Owing(node.election, n)| {
      assert Owing(node.election, n) == {};
    }
    forall n: u64 ensures node.election.shared.log[Acked(n)] == |AckedKeys(node.pipeline, n)| {
      assert AckedKeys(node.pipeline, n) == {};
    }
  }

  lemma NodeStepKeepsSane(settings: Settings, node: Node, node': Node)
    requires Proper(settings) && Sane(settings, node) && NodeStep(settings, node, node')
    ensures Sane(settings, node')
  {
    var e, e', p, p' := node.election, node'.election, node.pipeline, node'.pipeline;
    if e' == e && P.Internal(settings.store, settings.verifies, p, p') {
      P.InternalKeepsSound(settings.store, settings.verifies, p, p');
      InternalKeepsCounts(settings, e, p, p');
    } else {
      var signal :| ElectionStep(settings.maxItems, e, e', signal) && P.Follows(settings.store, p, p', signal);
      StepKeepsSound(settings.maxItems, e, e', signal);
      StepKeepsBalance(settings.maxItems, e, e', signal);
      StepKeepsSigned(settings.maxItems, e, e', signal);
      if signal.Submits? {
        SubmitsProperly(settings.maxItems, e, e', signal);
      }
      P.FollowKeepsSound(settings.store, settings.verifies, p, p', signal);
      StepKeepsAcksLogged(settings.maxItems, e, e', signal);
      StepCountsAcks(settings, e, e', p, p', signal);
    }
  }

  lemma InternalKeepsCounts(settings: Settings, e: Election, p: P.Pipeline, p': P.Pipeline)
    requires Proper(settings) && P.Internal(settings.store, settings.verifies, p, p')
    requires AllHandedOver(e, p) && AcksCounted(e.shared.log, p)
    ensures AllHandedOver(e, p') && AcksCounted(e.shared.log, p')
  {
    P.InternalKeepsAcked(settings.store, settings.verifies, p, p');
    forall n: u64 ensures e.shared.log[Acked(n)] == |AckedKeys(p', n)| {
      assert AckedKeys(p', n) == AckedKeys(p, n);
    }
    forall id | id in e.sessions ensures HandedOver(p', id, e.sessions[id]) {
      assert HandedOver(p, id, e.sessions[id]);
    }
  }

  lemma {:induction false} RunIsSane(settings: Settings, run: Run)
    requires Proper(settings) && IsRun(settings, run)
    ensures Sane(settings, run.node)
  {
    match run
    case Start(node) => StartIsSane(settings, node);
    case Then(before, node) =>
      RunIsSane(settings, before);
      NodeStepKeepsSane(settings, before.node, node);
  }

  /** What the invariant says about one session. */
  lemma RunSession(settings: Settings, run: Run, id: Id)
    requires Proper(settings) && IsRun(settings, run) && id in run.node.election.sessions
    ensures Good(run.node.election.shared.winners, id, run.node.election.sessions[id])
    ensures HandedOver(run.node.pipeline, id, run.node.election.sessions[id])
    ensures run.node.election.sessions[id].phase.Gone? || id in run.node.election.shared.active
  {
    RunIsSane(settings, run);
  }

  lemma RunElection(settings: Settings, run: Run)
    requires Proper(settings) && IsRun(settings, run)
    ensures Sound(run.node.election) && Balanced(run.node.election) && Signed(run.node.election)
  {
    RunIsSane(settings, run);
  }

  lemma RunPipeline(settings: Settings, run: Run)
    requires Proper(settings) && IsRun(settings, run)
    ensures P.Sound(settings.store, settings.verifies, run.node.pipeline)
  {
    RunIsSane(settings, run);
  }

  // ----- the main results -----

  /** Between requests a session is idle, or has a block open that starts with a header it holds. */
  lemma BetweenRequests(settings: Settings, run: Run, id: Id)
    requires Proper(settings) && IsRun(settings, run)
    requires id in run.node.election.sessions && run.node.election.sessions[id].phase.Reading?
    ensures var s := run.node.election.sessions[id];
            || (s.action.None? && s.buffer == [])
            || (s.action == Some(Accept) && Holds(run.node.election.shared.winners, id, s.number)
                && Framed(run.node.election.shared.winners, id, s))
  {
    RunSession(settings, run, id);
  }

  /** Every recorded winner is a registered session that has not gone. */
  lemma WinnersAreActive(settings: Settings, run: Run, n: u64)
    requires Proper(settings) && IsRun(settings, run) && n in run.node.election.shared.winners
    ensures var id := run.node.election.shared.winners[n];
            && id in run.node.election.sessions && !run.node.election.sessions[id].phase.Gone?
            && id in run.node.election.shared.active
  {
    RunElection(settings, run);
    var e := run.node.election;
    RunSession(settings, run, e.shared.winners[n]);
    assert n in Owned(e.shared.winners, e.shared.winners[n]);
  }

  /** In every run the numbers held are below 2^63, and the latest number is at least -1. */
  lemma HeldNumbersAreSigned(settings: Settings, run: Run, n: u64)
    requires Proper(settings) && IsRun(settings, run)
    ensures run.node.election.shared.latest >= -1
    ensures n in run.node.election.shared.winners ==> AsI64(n) == n
  {
    RunElection(settings, run);
  }

  /** In no run do two sessions accept the same block at once, and the one that does is its recorded winner. */
  lemma MutualExclusion(settings: Settings, run: Run, s: Id, t: Id, n: u64)
    requires Proper(settings) && IsRun(settings, run)
    requires s in run.node.election.sessions && Accepting(run.node.election.sessions[s], n)
    requires t in run.node.election.sessions && Accepting(run.node.election.sessions[t], n)
    ensures s == t && Holds(run.node.election.shared.winners, s, n)
  {
    RunSession(settings, run, s);
    RunSession(settings, run, t);
  }

  /** Some session has let go of `n`, or is about to, but the other half of its release is still to come. */
  ghost predicate Releasing(e: Election, n: u64) {
    exists id :: id in e.sessions && ReleasingIn(e.sessions[id], n)
  }

  predicate ReleasingIn(s: Session, n: u64) {
    || ((s.phase.Acknowledged? || s.phase.Rejected? || s.phase.TimedOut?) && s.number == n)
    || (s.phase.Leaving? && s.phase.current == Some(n))
  }

  /**
   * In every run, the elections won for a number are its acknowledgements, its calls to resend and
   * those still open; between releases that is one exactly if some session holds the number.
   */
  lemma ReleaseAccounting(settings: Settings, run: Run, n: u64)
    requires Proper(settings) && IsRun(settings, run)
    ensures var log := run.node.election.shared.log;
            && log[Won(n)] == log[Acked(n)] + log[Resent(n)] + |Owing(run.node.election, n)|
            && (!Releasing(run.node.election, n) ==>
                  log[Won(n)] == log[Acked(n)] + log[Resent(n)] + One(n in run.node.election.shared.winners))
  {
    RunElection(settings, run);
    var e := run.node.election;
    assert Unsettled(e.shared.log, n) == |Owing(e, n)|;
    if !Releasing(e, n) {
      OwingIsHolder(e, n);
    }
  }

  lemma OwingIsHolder(e: Election, n: u64)
    requires Sound(e) && !Releasing(e, n)
    ensures |Owing(e, n)| == One(n in e.shared.winners)
  {
    forall id | id in e.sessions ensures id in Owing(e, n) <==> Holds(e.shared.winners, id, n) {
      assert !ReleasingIn(e.sessions[id], n);
    }
    if n in e.shared.winners {
      assert Owing(e, n) == {e.shared.winners[n]};
    } else {
      assert Owing(e, n) == {};
    }
  }

  /** The session has just heard that what it handed over was persisted. */
  ghost predicate JustAcknowledged(before: Node, after: Node, id: Id) {
    && id in before.election.sessions && before.election.sessions[id].phase.Awaiting?
    && id in after.election.sessions && after.election.sessions[id].phase.Acknowledged?
  }

  /** A session acknowledges only when the persisted event of its own submission is there. */
  lemma AckIsHeard(settings: Settings, before: Node, after: Node, id: Id)
    requires Proper(settings) && NodeStep(settings, before, after) && JustAcknowledged(before, after, id)
    ensures var s := before.election.sessions[id];
            P.Event(s.number, s.phase.key) in before.pipeline.persisted
  {
    var e, e', s := before.election, after.election, before.election.sessions[id];
    var signal :| ElectionStep(settings.maxItems, e, e', signal)
                  && P.Follows(settings.store, before.pipeline, after.pipeline, signal);
    assert signal == Hears(true, s.number, s.phase.key);
  }

  /**
   * Each acknowledgement is about the block its winner handed over: in every run, when a session
   * goes on to acknowledge, the very items it had accepted, cut after the first proof, were already
   * written, and verified if there is a verifier. They were written under its number exactly if its
   * header came while no block was open, and then the number can already be read.
   */
  lemma EachAckIsDurable(settings: Settings, run: Run, id: Id)
    requires Proper(settings) && IsRun(settings, run) && run.Then?
    requires JustAcknowledged(run.before.node, run.node, id)
    ensures var s, p := run.before.node.election.sessions[id], run.before.node.pipeline;
            var key, block := s.phase.key, s.phase.block;
            && P.IsCommitted(p, key) && (settings.verifies ==> key in p.checked)
            && p.submitted[key] == P.Submission(id, s.number, block, s.clean)
            && block.items == CutAtProof(Flatten(s.sets))
            && (s.clean <==> p.committed[key] == (s.number, block))
            && (s.clean ==> TierTheorems.Readable(settings.store, p.world.store, s.number))
  {
    var before, p := run.before.node, run.before.node.pipeline;
    var s := before.election.sessions[id];
    RunSession(settings, run.before, id);
    AckIsHeard(settings, before, run.node, id);
    RunPipeline(settings, run.before);
    P.PersistedReadable(settings.store, settings.verifies, p, P.Event(s.number, s.phase.key));
  }

  /** In every run a number has been acknowledged once for each submission under it heard to be persisted. */
  lemma AcksAreSubmissions(settings: Settings, run: Run, n: u64)
    requires Proper(settings) && IsRun(settings, run)
    ensures run.node.election.shared.log[Acked(n)] == |AckedKeys(run.node.pipeline, n)|
    ensures forall key | key in AckedKeys(run.node.pipeline, n) :: P.IsCommitted(run.node.pipeline, key)
  {
    RunIsSane(settings, run);
    forall key | key in AckedKeys(run.node.pipeline, n) ensures P.IsCommitted(run.node.pipeline, key) {
      P.AckedReadable(settings.store, settings.verifies, run.node.pipeline, key);
    }
  }

  /** So when any publisher was told of an acknowledgement of `n`, there is such a submission. */
  lemma AcknowledgedIsDurable(settings: Settings, run: Run, t: Id, n: u64) returns (key: nat)
    requires Proper(settings) && IsRun(settings, run)
    requires t in run.node.election.shared.active && Acknowledgement(n) in run.node.election.shared.active[t]
    ensures key in AckedKeys(run.node.pipeline, n) && P.IsCommitted(run.node.pipeline, key)
    ensures settings.verifies ==> key in run.node.pipeline.checked
    ensures run.node.pipeline.submitted[key].clean ==>
              TierTheorems.Readable(settings.store, run.node.pipeline.world.store, n)
  {
    RunIsSane(settings, run);
    var told := run.node.election.shared.active[t];
    var i :| 0 <= i < |told| && told[i] == Acknowledgement(n);
    AcksAreSubmissions(settings, run, n);
    key :| key in AckedKeys(run.node.pipeline, n);
    P.AckedReadable(settings.store, settings.verifies, run.node.pipeline, key);
  }

  /**
   * What a session hands over, in every run: all items it accepted since it opened the block, in order,
   * up to and including the first proof, however they were cut into sets, and whether a proof or an end
   * of block completed it. If its header came while no block was open, the block starts with the header
   * of the number the session has won.
   */
  lemma HandsOverWhatItAccepted(settings: Settings, run: Run, id: Id)
    requires Proper(settings) && IsRun(settings, run)
    requires id in run.node.election.sessions && run.node.election.sessions[id].phase.Submitting?
    ensures var s := run.node.election.sessions[id];
            && s.phase.block.items == CutAtProof(Flatten(s.sets))
            && (s.clean ==> s.phase.block.items != [] && s.phase.block.items[0] == Header(s.number))
            && Holds(run.node.election.shared.winners, id, s.number)
  {
    RunSession(settings, run, id);
  }

  /** An acknowledged submission is never forgotten. */
  lemma AckedStays(settings: Settings, node: Node, node': Node, key: nat)
    requires Proper(settings) && NodeStep(settings, node, node')
    requires key in node.pipeline.acked && key in node.pipeline.submitted
    ensures key in node'.pipeline.acked && key in node'.pipeline.submitted
    ensures node'.pipeline.submitted[key] == node.pipeline.submitted[key]
  {
    var e, e', p, p' := node.election, node'.election, node.pipeline, node'.pipeline;
    if signal :| ElectionStep(settings.maxItems, e, e', signal) && P.Follows(settings.store, p, p', signal) {
      P.FollowKeepsAcked(settings.store, p, p', signal, key);
    } else {
      P.InternalKeepsAcked(settings.store, settings.verifies, p, p');
    }
  }

  /** So what was submitted cleanly and acknowledged can be read in every later state of the run. */
  lemma {:induction false} DurableFromThenOn(settings: Settings, run: Run, later: Run, key: nat)
    requires Proper(settings) && IsRun(settings, run) && IsRun(settings, later) && Extends(later, run)
    requires key in run.node.pipeline.acked
    ensures key in run.node.pipeline.submitted && key in later.node.pipeline.acked
    ensures key in later.node.pipeline.submitted
    ensures later.node.pipeline.submitted[key] == run.node.pipeline.submitted[key]
    ensures var s := run.node.pipeline.submitted[key];
            s.clean ==> TierTheorems.Readable(settings.store, later.node.pipeline.world.store, s.number)
  {
    RunIsSane(settings, later);
    if later != run {
      DurableFromThenOn(settings, run, later.before, key);
      AckedStays(settings, later.before.node, later.node, key);
    }
    P.AckedReadable(settings.store, settings.verifies, later.node.pipeline, key);
  }

  ghost predicate Extends(later: Run, run: Run) {
    later == run || (later.Then? && Extends(later.before, run))
  }

  /** When every session has gone, no number is held and every election won was settled. */
  lemma AllSettled(settings: Settings, run: Run, n: u64)
    requires Proper(settings) && IsRun(settings, run)
    requires forall id | id in run.node.election.sessions :: run.node.election.sessions[id].phase.Gone?
    ensures var shared := run.node.election.shared;
            n !in shared.winners && shared.log[Won(n)] == shared.log[Acked(n)] + shared.log[Resent(n)]
  {
    RunElection(settings, run);
    ReleaseAccounting(settings, run, n);
    var e := run.node.election;
    forall id | id in e.sessions ensures n !in Owned(e.shared.winners, id) {
      RunSession(settings, run, id);
    }
    assert Owing(e, n) == {};
  }
}
