/** The two event handlers between a publisher session and the store. */
module Handlers {
  import opened Basics
  import opened Pipeline
  import opened Service
  import opened Tiers

  /**
   * The verifier passes on every submission that is still in the cache, and what it looked at is the
   * block that was submitted: a block fails only because it was evicted before its turn.
   */
  method VerifyEvent(cfg: Config, cache: map<nat, bytes>, event: Event, ghost verifies: bool, ghost p: Pipeline)
    returns (verified: bool, ghost p': Pipeline)
    requires Faithful(cfg.codec) && Records(cfg, verifies, p) && p.cache == cache && event in p.received
    ensures verified <==> event.key in cache
    ensures verified ==> Fetch(cfg, p, event.key) == Some(p.submitted[event.key].block)
    ensures Verify(cfg, p, p', event) && event in (if verified then p'.verified else p'.failed)
  {
    assert Known(p, event);
    verified := false;
    if event.key in cache {
      var block := cfg.codec.decode(cache[event.key]);
      verified := block.Some?;
    }
    p' := if verified
          then p.(received := p.received - {event}, verified := p.verified + {event},
                  checked := p.checked + {event.key})
          else p.(received := p.received - {event}, failed := p.failed + {event});
  }

  /** Persistence writes what the cache has for an event, and announces the event only after the write. */
  method ProcessEvent(service: PersistenceService, cache: map<nat, bytes>, event: Event,
                      ghost verifies: bool, ghost p: Pipeline)
    returns (announced: Option<Event>, ghost p': Pipeline)
    requires service.Sound() && p.world == service.Now() && p.cache == cache
    requires event in (if verifies then p.verified else p.received)
    requires forall block: Block, n: u64 | event.key in cache && Numbered(block, n)
                                           && service.cfg.codec.decode(cache[event.key]) == Some(block) ::
               CanWrite(service.cfg, service.Now(), n)
    modifies service
    ensures service.Sound()
    ensures announced.None? ==> service.Now() == old(service.Now())
    ensures announced.Some? ==>
              announced == Some(event) && Wrote(service.cfg, old(service.Now()), service.Now(), cache, event)
    ensures announced.None? <==> Undeliverable(service.cfg, cache, event)
    ensures Persist(service.cfg, verifies, p, p', event) && p'.world == service.Now()
    ensures announced.Some? ==> event in p'.persisted
  {
    announced := None;
    p' := if verifies then p.(verified := p.verified - {event}) else p.(received := p.received - {event});
    if event.key in cache {
      var block := service.cfg.codec.decode(cache[event.key]);
      if block.Some? {
        var written := service.WriteBlock(block.value);
        if written.Ok? {
          announced := Some(event);
          p' := p'.(persisted := p.persisted + {event}, world := service.Now(),
                    committed := p.committed[event.key := (BlockNumber(block.value).value, block.value)]);
        }
      }
    }
  }

  ghost predicate Undeliverable(cfg: Config, cache: map<nat, bytes>, event: Event) {
    || event.key !in cache || cfg.codec.decode(cache[event.key]).None?
    || BlockNumber(cfg.codec.decode(cache[event.key]).value).None?
  }

  ghost predicate Wrote(cfg: Config, w: World, w': World, cache: map<nat, bytes>, event: Event) {
    && !Undeliverable(cfg, cache, event)
    && var block := cfg.codec.decode(cache[event.key]).value;
    LiveWrite(cfg, w, w', BlockNumber(block).value, block)
  }
}
