/**
 * The way of a complete block from its session to the store: cache, verifier, persistence and the
 * events between them. The messages of a channel are a set: they may be handled in any order.
 */
module Pipeline {
  import opened Basics
  import opened Sessions
  import opened Tiers
  import Service
  import TierSteps
  import TierTheorems

  /** What a session handed over under a cache key. */
  datatype Submission = Submission(author: Id, number: u64, block: Block, clean: bool)

  datatype Event = Event(number: u64, key: nat)

  /**
   * `cache` holds the bytes of blocks on their way, the sets the events of each kind. History is what
   * was submitted, which keys were acknowledged and verified, and what was written for each key.
   */
  datatype Pipeline = Pipeline(
    submitted: map<nat, Submission>,
    cache: map<nat, bytes>,
    received: set<Event>,
    verified: set<Event>,
    failed: set<Event>,
    persisted: set<Event>,
    acked: set<nat>,
    checked: set<nat>,
    committed: map<nat, (nat, Block)>,
    world: World)

  /** What the cache still has under a key, if it decodes. */
  function Fetch(cfg: Config, p: Pipeline, key: nat): Option<Block> {
    if key in p.cache then cfg.codec.decode(p.cache[key]) else None
  }

  // ----- steps -----

  /** A key is fresh; the block goes into the cache and its number and key to the verifier. */
  ghost predicate Submit(cfg: Config, p: Pipeline, p': Pipeline, key: nat, s: Submission) {
    && key !in p.submitted
    && p' == p.(submitted := p.submitted[key := s],
                cache := p.cache[key := cfg.codec.encode(s.block)],
                received := p.received + {Event(s.number, key)})
  }

  ghost predicate Hear(p: Pipeline, p': Pipeline, persisted: bool, event: Event) {
    if persisted then event in p.persisted && p' == p.(acked := p.acked + {event.key})
    else event in p.failed && p' == p
  }

  ghost predicate Verify(cfg: Config, p: Pipeline, p': Pipeline, event: Event) {
    && event in p.received
    && p' == if Fetch(cfg, p, event.key).Some?
             then p.(received := p.received - {event}, verified := p.verified + {event},
                     checked := p.checked + {event.key})
             else p.(received := p.received - {event}, failed := p.failed + {event})
  }

  /** Persistence writes the block under the number of its own header, and reports the event's number. */
  ghost predicate Persist(cfg: Config, verifies: bool, p: Pipeline, p': Pipeline, event: Event) {
    var block := Fetch(cfg, p, event.key);
    var rest := if verifies then p.(verified := p.verified - {event}) else p.(received := p.received - {event});
    && event in (if verifies then p.verified else p.received)
    && if block.Some? && BlockNumber(block.value).Some? then
         && LiveWrite(cfg, p.world, p'.world, BlockNumber(block.value).value, block.value)
         && p' == rest.(persisted := p.persisted + {event}, world := p'.world,
                        committed := p.committed[event.key := (BlockNumber(block.value).value, block.value)])
       else
         p' == rest
  }

  /** Cache clean-up, on request or by age. */
  ghost predicate Evict(p: Pipeline, p': Pipeline, key: nat) {
    p' == p.(cache := p.cache - {key})
  }

  /** Any other step of the store: archival, backfill, a restart of the store. */
  ghost predicate StoreStep(cfg: Config, p: Pipeline, p': Pipeline)
    requires ValidConfig(cfg)
  {
    Next(cfg, p.world, p'.world) && p' == p.(world := p'.world)
  }

  ghost predicate Internal(cfg: Config, verifies: bool, p: Pipeline, p': Pipeline)
    requires ValidConfig(cfg)
  {
    || (verifies && exists event :: Verify(cfg, p, p', event))
    || (exists event :: Persist(cfg, verifies, p, p', event))
    || (exists key :: Evict(p, p', key))
    || StoreStep(cfg, p, p')
  }

  ghost predicate Follows(cfg: Config, p: Pipeline, p': Pipeline, signal: Signal) {
    match signal
    case Silent => p' == p
    case Submits(key, author, number, block, clean) =>
      Submit(cfg, p, p', key, Submission(author, number, block, clean))
    case Hears(persisted, number, key) => Hear(p, p', persisted, Event(number, key))
  }

  ghost predicate Empty(cfg: Config, p: Pipeline)
    requires ValidConfig(cfg)
  {
    p == Pipeline(map[], map[], {}, {}, {}, {}, {}, {}, map[], p.world) && Reachable(cfg, p.world)
  }

  // ----- what holds throughout -----

  /** The number a submission is stored under. */
  function Target(s: Submission): Option<u64> {
    BlockNumber(s.block)
  }

  /** A submission has a header, and it names the submitted number exactly if the session was clean. */
  ghost predicate ProperSubmission(s: Submission) {
    Target(s).Some? && (s.clean <==> Target(s) == Some(s.number))
  }

  ghost predicate Known(p: Pipeline, event: Event) {
    event.key in p.submitted && p.submitted[event.key].number == event.number
  }

  ghost predicate EventsKnown(p: Pipeline) {
    && (forall event | event in p.received :: Known(p, event))
    && (forall event | event in p.verified :: Known(p, event))
    && (forall event | event in p.failed :: Known(p, event))
    && (forall event | event in p.persisted :: Known(p, event))
  }

  ghost predicate CacheSound(cfg: Config, p: Pipeline) {
    && (forall key | key in p.cache :: key in p.submitted && p.cache[key] == cfg.codec.encode(p.submitted[key].block))
    && (forall key | key in p.submitted :: ProperSubmission(p.submitted[key]))
  }

  ghost predicate IsStored(p: Pipeline, key: nat) {
    && key in p.submitted && Target(p.submitted[key]).Some?
    && Target(p.submitted[key]).value in p.world.history.content
  }

  /** What was submitted under the key was written, unchanged, under the number of its header. */
  ghost predicate IsCommitted(p: Pipeline, key: nat) {
    && key in p.submitted && Target(p.submitted[key]).Some?
    && key in p.committed && p.committed[key] == (Target(p.submitted[key]).value, p.submitted[key].block)
  }

  ghost predicate PersistedStored(p: Pipeline) {
    forall event | event in p.persisted :: IsStored(p, event.key) && IsCommitted(p, event.key)
  }

  /** With a verifier, nothing is persisted that it has not passed. */
  ghost predicate PersistedChecked(verifies: bool, p: Pipeline) {
    verifies ==>
      && (forall event | event in p.verified :: event.key in p.checked)
      && (forall event | event in p.persisted :: event.key in p.checked)
  }

  ghost predicate AckedPersisted(p: Pipeline) {
    forall key | key in p.acked :: key in p.submitted && Event(p.submitted[key].number, key) in p.persisted
  }

  ghost predicate Records(cfg: Config, verifies: bool, p: Pipeline) {
    && EventsKnown(p) && CacheSound(cfg, p) && PersistedStored(p) && AckedPersisted(p)
    && PersistedChecked(verifies, p)
  }

  ghost predicate Sound(cfg: Config, verifies: bool, p: Pipeline)
    requires ValidConfig(cfg)
  {
    Reachable(cfg, p.world) && Records(cfg, verifies, p)
  }

  /** No step of the store forgets a number. */
  lemma ContentGrows(cfg: Config, w: World, w': World)
    requires ValidConfig(cfg) && Next(cfg, w, w')
    ensures w.history.content.Keys <= w'.history.content.Keys
  {
  }

  lemma SubmitKeepsRecords(cfg: Config, verifies: bool, p: Pipeline, p': Pipeline, key: nat, s: Submission)
    requires Records(cfg, verifies, p) && Submit(cfg, p, p', key, s) && ProperSubmission(s)
    ensures Records(cfg, verifies, p')
  {
  }

  lemma HearKeepsRecords(cfg: Config, verifies: bool, p: Pipeline, p': Pipeline, persisted: bool, event: Event)
    requires Records(cfg, verifies, p) && Hear(p, p', persisted, event)
    ensures Records(cfg, verifies, p')
  {
  }

  lemma FollowKeepsSound(cfg: Config, verifies: bool, p: Pipeline, p': Pipeline, signal: Signal)
    requires ValidConfig(cfg) && Sound(cfg, verifies, p) && Follows(cfg, p, p', signal)
    requires signal.Submits? ==>
               ProperSubmission(Submission(signal.author, signal.number, signal.block, signal.clean))
    ensures Sound(cfg, verifies, p')
  {
    match signal
    case Silent =>
    case Submits(key, author, number, block, clean) =>
      SubmitKeepsRecords(cfg, verifies, p, p', key, Submission(author, number, block, clean));
    case Hears(persisted, number, key) =>
      HearKeepsRecords(cfg, verifies, p, p', persisted, Event(number, key));
  }

  lemma VerifyKeepsRecords(cfg: Config, verifies: bool, p: Pipeline, p': Pipeline, event: Event)
    requires Records(cfg, verifies, p) && Verify(cfg, p, p', event)
    ensures Records(cfg, verifies, p')
  {
  }

  /** The verifier settles every event once: it passes on what is still in the cache and fails the rest. */
  lemma VerifyDecides(cfg: Config, verifies: bool, p: Pipeline, p': Pipeline, event: Event)
    requires Faithful(cfg.codec) && Records(cfg, verifies, p) && Verify(cfg, p, p', event)
    ensures event !in p'.received && p'.cache == p.cache && p'.persisted == p.persisted && p'.world == p.world
    ensures event.key in p.cache ==> p'.verified == p.verified + {event} && p'.failed == p.failed
    ensures event.key !in p.cache ==> p'.failed == p.failed + {event} && p'.verified == p.verified
  {
    assert Known(p, event);
  }

  /** Persistence reports exactly what is still in the cache, once it is written under its own number. */
  lemma PersistDecides(cfg: Config, verifies: bool, p: Pipeline, p': Pipeline, event: Event)
    requires Faithful(cfg.codec) && Records(cfg, verifies, p) && Persist(cfg, verifies, p, p', event)
    ensures event.key in p.submitted && p'.cache == p.cache && p'.failed == p.failed
    ensures event.key in p.cache ==>
              var s := p.submitted[event.key];
              && p'.persisted == p.persisted + {event} && Target(s).Some?
              && LiveWrite(cfg, p.world, p'.world, Target(s).value, s.block)
    ensures event.key !in p.cache ==> p'.persisted == p.persisted && p'.world == p.world
    ensures verifies ==> event in p.verified && p'.verified == p.verified - {event} && p'.received == p.received
    ensures !verifies ==> event in p.received && p'.received == p.received - {event} && p'.verified == p.verified
  {
    assert Known(p, event);
  }

  lemma PersistKeepsStored(cfg: Config, verifies: bool, p: Pipeline, p': Pipeline, event: Event)
    requires Faithful(cfg.codec) && Records(cfg, verifies, p) && Persist(cfg, verifies, p, p', event)
    ensures PersistedStored(p')
  {
    assert Known(p, event);
  }

  lemma PersistKeepsEvents(cfg: Config, verifies: bool, p: Pipeline, p': Pipeline, event: Event)
    requires Records(cfg, verifies, p) && Persist(cfg, verifies, p, p', event)
    ensures EventsKnown(p') && CacheSound(cfg, p') && AckedPersisted(p') && PersistedChecked(verifies, p')
  {
    assert Known(p, event);
  }

  lemma PersistKeepsRecords(cfg: Config, verifies: bool, p: Pipeline, p': Pipeline, event: Event)
    requires Faithful(cfg.codec) && Records(cfg, verifies, p) && Persist(cfg, verifies, p, p', event)
    ensures Records(cfg, verifies, p')
  {
    PersistKeepsStored(cfg, verifies, p, p', event);
    PersistKeepsEvents(cfg, verifies, p, p', event);
  }

  lemma PersistKeepsSound(cfg: Config, verifies: bool, p: Pipeline, p': Pipeline, event: Event)
    requires ValidConfig(cfg) && Faithful(cfg.codec) && Sound(cfg, verifies, p) && Persist(cfg, verifies, p, p', event)
    ensures Sound(cfg, verifies, p')
  {
    PersistKeepsRecords(cfg, verifies, p, p', event);
    var block := Fetch(cfg, p, event.key);
    if block.Some? && BlockNumber(block.value).Some? {
      Service.LiveWriteReachable(cfg, p.world, p'.world, BlockNumber(block.value).value, block.value);
    }
  }

  lemma StoreStepKeepsSound(cfg: Config, verifies: bool, p: Pipeline, p': Pipeline)
    requires ValidConfig(cfg) && Sound(cfg, verifies, p) && StoreStep(cfg, p, p')
    ensures Sound(cfg, verifies, p')
  {
    TierSteps.StepReachable(cfg, p.world, p'.world);
    ContentGrows(cfg, p.world, p'.world);
  }

  lemma InternalKeepsSound(cfg: Config, verifies: bool, p: Pipeline, p': Pipeline)
    requires ValidConfig(cfg) && Faithful(cfg.codec) && Sound(cfg, verifies, p) && Internal(cfg, verifies, p, p')
    ensures Sound(cfg, verifies, p')
  {
    if verifies && exists event :: Verify(cfg, p, p', event) {
      var event :| Verify(cfg, p, p', event);
      VerifyKeepsRecords(cfg, verifies, p, p', event);
    } else if event :| Persist(cfg, verifies, p, p', event) {
      PersistKeepsSound(cfg, verifies, p, p', event);
    } else if StoreStep(cfg, p, p') {
      StoreStepKeepsSound(cfg, verifies, p, p');
    }
  }

  lemma InternalKeepsAcked(cfg: Config, verifies: bool, p: Pipeline, p': Pipeline)
    requires ValidConfig(cfg) && Internal(cfg, verifies, p, p')
    ensures p'.acked == p.acked && p'.submitted == p.submitted
  {
  }

  lemma FollowKeepsAcked(cfg: Config, p: Pipeline, p': Pipeline, signal: Signal, key: nat)
    requires Follows(cfg, p, p', signal) && key in p.acked && key in p.submitted
    ensures key in p'.acked && key in p'.submitted && p'.submitted[key] == p.submitted[key]
  {
  }

  /** What was reported persisted was written as submitted, and can be read if it was submitted cleanly. */
  lemma PersistedReadable(cfg: Config, verifies: bool, p: Pipeline, event: Event)
    requires ValidConfig(cfg) && Faithful(cfg.codec) && Sound(cfg, verifies, p) && event in p.persisted
    ensures Known(p, event) && IsCommitted(p, event.key) && (verifies ==> event.key in p.checked)
    ensures ProperSubmission(p.submitted[event.key])
    ensures p.submitted[event.key].clean ==> TierTheorems.Readable(cfg, p.world.store, event.number)
  {
    assert Known(p, event) && IsStored(p, event.key);
    TierTheorems.StoreRefinesMap(cfg, p.world, Target(p.submitted[event.key]).value);
  }

  lemma AckedReadable(cfg: Config, verifies: bool, p: Pipeline, key: nat)
    requires ValidConfig(cfg) && Faithful(cfg.codec) && Sound(cfg, verifies, p) && key in p.acked
    ensures key in p.submitted && IsCommitted(p, key) && (verifies ==> key in p.checked)
    ensures p.submitted[key].clean ==> TierTheorems.Readable(cfg, p.world.store, p.submitted[key].number)
  {
    PersistedReadable(cfg, verifies, p, Event(p.submitted[key].number, key));
  }

  /**
   * A block reported as persisted under a number that was not stored before can be read under that
   * number exactly if its session was clean.
   */
  lemma ReportedReadableIff(cfg: Config, verifies: bool, p: Pipeline, p': Pipeline, event: Event)
    requires ValidConfig(cfg) && Faithful(cfg.codec) && Sound(cfg, verifies, p) && Persist(cfg, verifies, p, p', event)
    requires event !in p.persisted && event in p'.persisted && event.number !in p.world.history.content
    ensures event.key in p.submitted
    ensures TierTheorems.Readable(cfg, p'.world.store, event.number) <==> p.submitted[event.key].clean
  {
    assert Known(p, event);
    PersistKeepsSound(cfg, verifies, p, p', event);
    TierTheorems.StoreRefinesMap(cfg, p'.world, event.number);
  }
}
