/** What a publisher is told for every request and outcome, in terms of what its session saw before. */
module Replies {
  import opened Basics
  import opened Sessions
  import Election

  /** Session `id` is sent `own` in addition to what it was sent before, every other session `others`. */
  ghost predicate Heard(before: map<Id, seq<Response>>, after: map<Id, seq<Response>>, id: Id,
                        own: seq<Response>, others: seq<Response>)
  {
    && after.Keys == before.Keys
    && (forall t | t in before :: after[t] == before[t] + if t == id then own else others)
  }

  /** The session itself is sent `news`, and nobody else anything. */
  ghost predicate Told(l: Local, l': Local, id: Id, news: seq<Response>) {
    id in l.shared.active && Heard(l.shared.active, l'.shared.active, id, news, [])
  }

  /** A set is refused unseen if it is empty, too long, or has a header that does not come first. */
  ghost predicate Malformed(maxItems: nat, items: seq<Item>) {
    || items == [] || |items| > maxItems
    || (!items[0].Header? && exists i :: 0 <= i < |items| && items[i].Header?)
  }

  ghost predicate IsFirstHeader(items: seq<Item>, i: nat) {
    i < |items| && items[i].Header? && forall j | 0 <= j < i :: !items[j].Header?
  }

  /** The items join the block; the first proof among them completes it, and what follows is dropped. */
  ghost predicate TakesIn(s: Session, s': Session, items: seq<Item>) {
    if exists k :: IsFirstProof(items, k) then
      exists k :: IsFirstProof(items, k) && s'.phase == Submitting(Block(s.buffer + items[..k + 1])) && s'.buffer == []
    else
      s'.phase.Reading? && s'.buffer == s.buffer + items
  }

  ghost predicate IsFirstProof(items: seq<Item>, k: nat) {
    k < |items| && items[k].Proof? && forall j | 0 <= j < k :: !items[j].Proof?
  }

  /** Nothing that is shared changes but what sessions are sent. */
  ghost predicate OnlyTells(l: Local, l': Local) {
    l'.shared == l.shared.(active := l'.shared.active)
  }

  /**
   * A header for `n`: the session is behind exactly below the latest number, and told how far; a duplicate
   * exactly at it or if it holds `n` itself; told to skip exactly if another session holds `n`; and told
   * nothing exactly if `n` is above the latest and free.
   */
  ghost predicate HeaderAnswered(l: Local, l': Local, id: Id, n: u64) {
    var latest, winners := l.shared.latest, l.shared.winners;
    && (Told(l, l', id, [EndOfStream(Behind, AsU64(latest))]) <==> AsI64(n) < latest)
    && (Told(l, l', id, [EndOfStream(DuplicateBlock, n)]) <==>
          AsI64(n) == latest || (AsI64(n) > latest && n in winners && winners[n] == id))
    && (Told(l, l', id, [SkipBlock(n)]) <==> AsI64(n) > latest && n in winners && winners[n] != id)
    && (Told(l, l', id, []) <==> AsI64(n) > latest && n !in winners)
    && (l'.session.phase.Leaving? <==> AsI64(n) <= latest || (n in winners && winners[n] == id))
    && (AsI64(n) > latest && n in winners && winners[n] != id ==> l'.session == FRESH)
  }

  /** There is only one answer. */
  lemma ToldOnce(l: Local, l': Local, id: Id, news: seq<Response>, other: seq<Response>)
    requires Told(l, l', id, news)
    ensures Told(l, l', id, other) <==> other == news
  {
    if Told(l, l', id, other) {
      var sent := l'.shared.active[id];
      assert sent == l.shared.active[id] + news && sent == l.shared.active[id] + other;
      assert news == sent[|l.shared.active[id]|..] && other == sent[|l.shared.active[id]|..];
    }
  }

  lemma SendTells(l: Local, l': Local, id: Id, response: Response)
    requires id in l.shared.active && l'.shared == Send(l.shared, id, response)
    ensures Told(l, l', id, [response])
  {
    forall t | t in l.shared.active ensures l.shared.active[t] + [] == l.shared.active[t] { }
  }

  lemma SilenceTells(l: Local, l': Local, id: Id)
    requires id in l.shared.active && l'.shared.active == l.shared.active
    ensures Told(l, l', id, [])
  {
    forall t | t in l.shared.active ensures l.shared.active[t] + [] == l.shared.active[t] { }
  }

  /** Who is told one thing is told none of the others. */
  lemma HeaderAnswersDiffer(l: Local, l': Local, id: Id, n: u64, news: seq<Response>)
    requires Told(l, l', id, news)
    ensures Told(l, l', id, [EndOfStream(Behind, AsU64(l.shared.latest))]) <==>
              news == [EndOfStream(Behind, AsU64(l.shared.latest))]
    ensures Told(l, l', id, [EndOfStream(DuplicateBlock, n)]) <==> news == [EndOfStream(DuplicateBlock, n)]
    ensures Told(l, l', id, [SkipBlock(n)]) <==> news == [SkipBlock(n)]
    ensures Told(l, l', id, []) <==> news == []
  {
    ToldOnce(l, l', id, news, [EndOfStream(Behind, AsU64(l.shared.latest))]);
    ToldOnce(l, l', id, news, [EndOfStream(DuplicateBlock, n)]);
    ToldOnce(l, l', id, news, [SkipBlock(n)]);
    ToldOnce(l, l', id, news, []);
  }

  lemma HeaderIsAnswered(id: Id, l: Local, n: u64, items: seq<Item>)
    requires l.session.phase.Reading? && id in l.shared.active
    ensures var l' := OnHeader(id, l, n, items);
            && HeaderAnswered(l, l', id, n) && OnlyTells(l, l')
            && (AsI64(n) > l.shared.latest && n !in l.shared.winners ==>
                  l' == l.(session := l.session.(phase := Electing(n, items))))
  {
    var l' := OnHeader(id, l, n, items);
    if l'.session.phase.Electing? {
      SilenceTells(l, l', id);
      HeaderAnswersDiffer(l, l', id, n, []);
    } else {
      var response := if AsI64(n) < l.shared.latest then EndOfStream(Behind, AsU64(l.shared.latest))
                      else if AsI64(n) > l.shared.latest && n in l.shared.winners && l.shared.winners[n] != id
                      then SkipBlock(n)
                      else EndOfStream(DuplicateBlock, n);
      SendTells(l, l', id, response);
      HeaderAnswersDiffer(l, l', id, n, [response]);
    }
  }

  // ----- whole requests -----

  /** The number is taken, and the items are the first of its block or join the block that was open. */
  ghost predicate Wins(l: Local, l': Local, id: Id, n: u64, items: seq<Item>) {
    && l'.shared == l.shared.(winners := l.shared.winners[n := id], log := l.shared.log + multiset{Won(n)})
    && l'.session.number == n && l'.session.action == Some(Accept) && TakesIn(l.session, l'.session, items)
  }

  /** Items without a header join the block exactly if the session was accepted for it and still holds it. */
  ghost predicate ItemsAnswered(l: Local, l': Local, id: Id, items: seq<Item>) {
    var number, winners, accepted := l.session.number, l.shared.winners, l.session.action == Some(Accept);
    && OnlyTells(l, l')
    && (Told(l, l', id, []) <==> accepted && number in winners && winners[number] == id)
    && (Told(l, l', id, [ResendBlock(number)]) <==> accepted && number in winners && winners[number] != id)
    && (Told(l, l', id, [EndOfStream(Error, number)]) <==> !accepted || number !in winners)
    && (l'.session.phase.Leaving? <==> !accepted || number !in winners)
    && (accepted && number in winners && winners[number] == id ==>
          && l'.session.number == number && l'.session.action == Some(Accept)
          && TakesIn(l.session, l'.session, items))
  }

  /** An end of block is taken exactly for the number the session was accepted for, and completes its block. */
  ghost predicate EndAnswered(l: Local, l': Local, id: Id, n: u64) {
    var accepted := l.session.action == Some(Accept) && l.session.number == n;
    && OnlyTells(l, l')
    && (Told(l, l', id, []) <==> accepted)
    && (Told(l, l', id, [EndOfStream(Error, l.session.number)]) <==> !accepted)
    && (l'.session.phase.Leaving? <==> !accepted)
    && (accepted ==> l'.session.phase == Submitting(Block(l.session.buffer)) && l'.session.buffer == [])
  }

  /** A set refused unseen: the error names its first header, or else the session's number. */
  ghost predicate Refused(l: Local, l': Local, id: Id, items: seq<Item>) {
    && OnlyTells(l, l') && l'.session.phase.Leaving?
    && exists told :: && Told(l, l', id, [EndOfStream(Error, told)])
                      && (forall i: nat | IsFirstHeader(items, i) :: told == items[i].number)
                      && ((forall i | 0 <= i < |items| :: !items[i].Header?) ==> told == l.session.number)
  }

  /** What a request comes to when nobody else moves between the two halves of an election. */
  ghost predicate Answered(maxItems: nat, id: Id, l: Local, l': Local, request: Request) {
    match request
    case EndStream => OnlyTells(l, l') && Told(l, l', id, []) && l'.session.phase.Leaving?
    case EndOfBlock(n) => EndAnswered(l, l', id, n)
    case BlockItems(items) =>
      if Malformed(maxItems, items) then Refused(l, l', id, items)
      else if items[0].Header? then
        && HeaderAnswered(l, l', id, items[0].number)
        && if Told(l, l', id, []) then Wins(l, l', id, items[0].number, items) else OnlyTells(l, l')
      else ItemsAnswered(l, l', id, items)
  }

  lemma AcceptTakesIn(s: Session, items: seq<Item>)
    requires s.phase.Reading?
    ensures TakesIn(s, AcceptItems(s, items), items)
    ensures AcceptItems(s, items).number == s.number && AcceptItems(s, items).action == s.action
  {
    Election.UpToProofIsFirst(items);
    if HasProof(items) {
      var k := UpToProof(items) - 1;
      forall j | 0 <= j < k ensures !items[j].Proof? {
        assert items[..k][j] == items[j];
      }
      assert IsFirstProof(items, k);
    } else {
      assert CutAtProof(items) == items;
    }
  }

  lemma ItemsAreAnswered(id: Id, l: Local, items: seq<Item>)
    requires l.session.phase.Reading? && id in l.shared.active
    ensures ItemsAnswered(l, OnContinuation(id, l, items), id, items)
  {
    var l', number := OnContinuation(id, l, items), l.session.number;
    AcceptTakesIn(l.session, items);
    if l.session.action == Some(Accept) && Holds(l.shared.winners, id, number) {
      SilenceTells(l, l', id);
      ToldOnce(l, l', id, [], [ResendBlock(number)]);
      ToldOnce(l, l', id, [], [EndOfStream(Error, number)]);
    } else {
      var response := if l.session.action == Some(Accept) && number in l.shared.winners then ResendBlock(number)
                      else EndOfStream(Error, number);
      SendTells(l, l', id, response);
      ToldOnce(l, l', id, [response], []);
      ToldOnce(l, l', id, [response], [ResendBlock(number)]);
      ToldOnce(l, l', id, [response], [EndOfStream(Error, number)]);
    }
  }

  lemma EndIsAnswered(id: Id, l: Local, n: u64)
    requires l.session.phase.Reading? && id in l.shared.active
    ensures EndAnswered(l, OnEndOfBlock(id, l, n), id, n)
  {
    var l', response := OnEndOfBlock(id, l, n), EndOfStream(Error, l.session.number);
    if l.session.action == Some(Accept) && l.session.number == n {
      SilenceTells(l, l', id);
      ToldOnce(l, l', id, [], [response]);
    } else {
      SendTells(l, l', id, response);
      ToldOnce(l, l', id, [response], []);
    }
  }

  lemma {:induction false} FirstHeaderIs(items: seq<Item>)
    ensures FirstHeader(items).None? <==> forall i | 0 <= i < |items| :: !items[i].Header?
    ensures forall i: nat | IsFirstHeader(items, i) :: FirstHeader(items) == Some(items[i].number)
  {
    if items == [] || items[0].Header? {
    } else {
      var rest := items[1..];
      FirstHeaderIs(rest);
      forall i: nat | IsFirstHeader(items, i) ensures FirstHeader(items) == Some(items[i].number) {
        assert rest[i - 1] == items[i];
        forall j | 0 <= j < i - 1 ensures !rest[j].Header? {
          assert rest[j] == items[j + 1];
        }
        assert IsFirstHeader(rest, i - 1);
      }
      forall i | 0 <= i < |rest| ensures rest[i] == items[i + 1] { }
      assert (forall i | 0 <= i < |items| :: !items[i].Header?) ==> forall i | 0 <= i < |rest| :: !rest[i].Header?;
      forall i | 0 < i < |items| ensures items[i] == rest[i - 1] { }
    }
  }

  lemma WinIsAnswered(id: Id, l: Local, n: u64, items: seq<Item>)
    requires l.session.phase.Reading? && id in l.shared.active
    ensures var l' := Elect(id, OnHeader(id, l, n, items));
            && HeaderAnswered(l, l', id, n)
            && if Told(l, l', id, []) then Wins(l, l', id, n, items) else OnlyTells(l, l')
  {
    HeaderIsAnswered(id, l, n, items);
    var l' := Elect(id, OnHeader(id, l, n, items));
    if AsI64(n) > l.shared.latest && n !in l.shared.winners {
      SilenceTells(l, l', id);
      HeaderAnswersDiffer(l, l', id, n, []);
      AcceptTakesIn(l.session.(phase := Reading, number := n, action := Some(Accept),
                               clean := l.session.buffer == []), items);
    }
  }

  lemma SetIsAnswered(maxItems: nat, id: Id, l: Local, items: seq<Item>)
    requires l.session.phase.Reading? && id in l.shared.active
    ensures Answered(maxItems, id, l, Elect(id, OnItems(maxItems, id, l, items)), BlockItems(items))
  {
    FirstHeaderIs(items);
    var l' := Elect(id, OnItems(maxItems, id, l, items));
    if Malformed(maxItems, items) {
      var told := if FirstHeader(items).Some? then FirstHeader(items).value else l.session.number;
      SendTells(l, l', id, EndOfStream(Error, told));
    } else if items[0].Header? {
      assert FirstHeader(items) == Some(items[0].number);
      WinIsAnswered(id, l, items[0].number, items);
    } else {
      ItemsAreAnswered(id, l, items);
    }
  }

  /** Every request is answered so, whatever state the session and the others are in. */
  lemma RequestIsAnswered(maxItems: nat, id: Id, l: Local, request: Request)
    requires l.session.phase.Reading? && id in l.shared.active
    ensures Answered(maxItems, id, l, Elect(id, OnRequest(maxItems, id, l, request)), request)
  {
    match request
    case BlockItems(items) => SetIsAnswered(maxItems, id, l, items);
    case EndOfBlock(n) => EndIsAnswered(id, l, n);
    case EndStream => SilenceTells(l, Terminate(id, l), id);
  }

  // ----- outcomes -----

  /** A persisted block is acknowledged to all, its own publisher included. */
  lemma PersistedIsHeard(l: Local, id: Id)
    ensures var l', n := OnPersisted(l), l.session.number;
            && Heard(l.shared.active, l'.shared.active, id, [Acknowledgement(n)], [Acknowledgement(n)])
            && l'.shared.latest == AsI64(n) && l'.shared.winners == l.shared.winners
  {
  }

  /** A block that fails verification ends its publisher's stream and is asked of all others. */
  lemma FailureIsHeard(l: Local, id: Id)
    ensures var l', n := OnVerificationFailed(id, l), l.session.number;
            && Heard(l.shared.active, l'.shared.active, id, [EndOfStream(BadProof, n)], [ResendBlock(n)])
            && l'.shared.latest == l.shared.latest && l'.shared.winners == l.shared.winners
  {
  }

  /** A time-out, or an entry released on leaving, is heard of by all others and not by the publisher. */
  lemma ResendIsHeard(shared: Shared, id: Id, n: u64)
    ensures Heard(shared.active, CallForResend(shared, id, n).active, id, [], [ResendBlock(n)])
  {
    forall t | t in shared.active ensures shared.active[t] + [] == shared.active[t] { }
  }

  lemma HeardMore(a: map<Id, seq<Response>>, b: map<Id, seq<Response>>, c: map<Id, seq<Response>>, id: Id,
                  own: seq<Response>, others: seq<Response>, own': seq<Response>, others': seq<Response>)
    requires Heard(a, b, id, own, others) && Heard(b, c, id, own', others')
    ensures Heard(a, c, id, own + own', others + others')
  {
    forall t | t in a ensures c[t] == a[t] + if t == id then own + own' else others + others' {
      assert a[t] + own + own' == a[t] + (own + own') && a[t] + others + others' == a[t] + (others + others');
    }
  }

  /** The signed and the unsigned reading of a number determine each other. */
  lemma SignedRoundTrip(n: u64)
    ensures AsU64(AsI64(n)) == n && (AsI64(n) >= 0 <==> n < TWO_63) && (n < TWO_63 ==> AsI64(n) == n)
  {
  }
}
