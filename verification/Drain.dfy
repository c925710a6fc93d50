/**
 The drain loop. While it waits, for the network or for the store, new operations may commit; the
 loop is shown to be a run of the link protocol, so everything proved of the protocol holds of it.
 */
module Drain {
  import opened Prelude
  import opened Kitchen
  import opened Outbox
  import opened OfflineStore
  import opened SyncLink

  // ---------------------------------------------------------------- replies

  /** What became of one request, and whether it had reached the receiver when the loop went on. */
  datatype Reply =
    | Answered(status: int, retryable: bool, detail: string, delivered: bool)
    | Unreachable(delivered: bool)

  predicate Ok2xx(status: int) {
    200 <= status < 300
  }

  predicate IsPermanentClientFailure(status: int, retryable: bool) {
    if retryable then false
    else if status in {401, 403, 408, 425, 429} then false
    else 400 <= status < 500
  }

  datatype Verdict = Accepted | Permanent | Transient

  function VerdictOf(reply: Reply): Verdict {
    match reply
    case Unreachable(_) => Transient
    case Answered(status, retryable, _, _) =>
      if Ok2xx(status) then Accepted
      else if IsPermanentClientFailure(status, retryable) then Permanent
      else Transient
  }

  predicate Reached(reply: Reply) {
    reply.delivered || VerdictOf(reply) == Accepted
  }

  function Message(reply: Reply): string {
    if reply.Unreachable? then "The outlet edge could not be reached" else reply.detail
  }

  // ---------------------------------------------------------------- commits during the drain

  datatype Arrival = Arrival(snapshot: Snapshot, event: OutboxEvent)

  function ArrivalIds(commits: seq<Arrival>): set<Id> {
    set c | c in commits :: c.event.id
  }

  function AllArrivalIds(arrivals: seq<seq<Arrival>>): set<Id> {
    if arrivals == [] then {} else AllArrivalIds(arrivals[..|arrivals| - 1]) + ArrivalIds(arrivals[|arrivals| - 1])
  }

  function Total(arrivals: seq<seq<Arrival>>): nat {
    if arrivals == [] then 0 else Total(arrivals[..|arrivals| - 1]) + |arrivals[|arrivals| - 1]|
  }

  /** Every new event is pending and has an id no event ever had. */
  ghost predicate FreshCommits(commits: seq<Arrival>, used: set<Id>) {
    && (forall c | c in commits :: IsPending(c.event) && c.event.id !in used)
    && (forall i, j :: 0 <= i < j < |commits| ==> commits[i].event.id != commits[j].event.id)
  }

  ghost predicate FreshArrivals(arrivals: seq<seq<Arrival>>, used: set<Id>) {
    forall k :: 0 <= k < |arrivals| ==> FreshCommits(arrivals[k], used + AllArrivalIds(arrivals[..k]))
  }

  /** The commits that fall into the k-th wait; none once the list is used up. */
  function CommitsAt(arrivals: seq<seq<Arrival>>, k: nat): seq<Arrival> {
    if k < |arrivals| then arrivals[k] else []
  }

  function NextWait(arrivals: seq<seq<Arrival>>, k: nat): nat {
    if k < |arrivals| then k + 1 else k
  }

  lemma {:induction false} TotalGrows(arrivals: seq<seq<Arrival>>, k: nat)
    requires k <= |arrivals|
    ensures Total(arrivals[..k]) <= Total(arrivals)
    decreases |arrivals|
  {
    if k == |arrivals| {
      assert arrivals[..k] == arrivals;
    } else {
      TotalGrows(arrivals[..|arrivals| - 1], k);
      assert arrivals[..|arrivals| - 1][..k] == arrivals[..k];
    }
  }

  // ---------------------------------------------------------------- the loop as a run of the protocol

  function LoggedIds(log: seq<SyncLink.Message>): set<Id> {
    set m | m in log :: m.id
  }

  function Waiting(s: Store): set<Id> {
    set e | e in s.events && IsPending(e) :: e.id
  }

  lemma WaitingAfterAck(s: Store, id: Id, at: Stamp)
    ensures Waiting(Acknowledge(s, id, at)) == Waiting(s) - {id}
  {
    FilterElements((e: OutboxEvent) => e.id != id, s.events);
    var s' := Acknowledge(s, id, at);
    assert forall e :: e in s'.events <==> e in s.events && e.id != id;
  }

  lemma WaitingAfterQuarantine(s: Store, id: Id, reason: string)
    ensures Waiting(Quarantine(s, id, reason)) == Waiting(s) - {id}
  {
    var events, events' := s.events, Quarantine(s, id, reason).events;
    forall e | e in events && IsPending(e) && e.id != id
      ensures e in events'
    {
      var i :| 0 <= i < |events| && events[i] == e;
      assert events'[i] == e;
    }
    forall e | e in events' && IsPending(e)
      ensures e in events && e.id != id
    {
      var i :| 0 <= i < |events'| && events'[i] == e;
      assert events[i] in events;
    }
  }

  lemma WaitingAfterAttempt(s: Store, id: Id, error: Option<string>)
    ensures Waiting(IncrementAttempt(s, id, error)) == Waiting(s)
  {
    var events, events' := s.events, IncrementAttempt(s, id, error).events;
    forall e | e in events && IsPending(e)
      ensures exists e' :: e' in events' && IsPending(e') && e'.id == e.id
    {
      var i :| 0 <= i < |events| && events[i] == e;
      assert events'[i] in events' && IsPending(events'[i]) && events'[i].id == e.id;
    }
    forall e' | e' in events' && IsPending(e')
      ensures exists e :: e in events && IsPending(e) && e'.id == e.id
    {
      var i :| 0 <= i < |events'| && events'[i] == e';
      assert events[i] in events && IsPending(events[i]) && events[i].id == e'.id;
    }
  }

  lemma WaitingAfterCommit(s: Store, snapshot: Snapshot, event: OutboxEvent)
    requires !HasEvent(s, event.id) && IsPending(event)
    ensures Waiting(Commit(s, snapshot, Some(event))) == Waiting(s) + {event.id}
  {
  }

  /** The last number sent, and with it every number sent, is below everything that waits. */
  ghost predicate SentBelow(sent: seq<SyncLink.Message>, l: Link) {
    sent != [] ==>
      var last := sent[|sent| - 1].number;
      && last <= l.store.counter
      && forall e | e in l.store.events && IsPending(e) :: last < Sequence(e)
  }

  lemma UnusedIsNew(l: Link, id: Id)
    requires Invariant(l) && id !in LoggedIds(l.log)
    ensures !HasEvent(l.store, id) && !Logged(l.log, id)
  {
  }

  function CommitOf(c: Arrival): Step {
    CommitStep(c.snapshot, Some(c.event))
  }

  lemma CommitArrival(l: Link, c: Arrival, sent: seq<SyncLink.Message>)
    requires Invariant(l) && IsPending(c.event) && c.event.id !in LoggedIds(l.log)
    requires l.store.counter < MAX_SAFE_INTEGER && SentBelow(sent, l)
    ensures var l' := After(l, CommitOf(c));
            && Enabled(l, CommitOf(c)) && Invariant(l') && SentBelow(sent, l')
            && l' == l.(store := l'.store, log := l'.log)
            && l'.store == Commit(l.store, c.snapshot, Some(c.event)) && l'.store.counter == l.store.counter + 1
            && LoggedIds(l'.log) == LoggedIds(l.log) + {c.event.id}
            && Waiting(l'.store) == Waiting(l.store) + {c.event.id}
  {
    UnusedIsNew(l, c.event.id);
    StepKeepsInvariant(l, CommitOf(c));
    WaitingAfterCommit(l.store, c.snapshot, c.event);
    LoggedAfterCommit(l.log, MessageOf(Stamped(c.event, l.store.counter + 1)));
  }

  lemma LoggedAfterCommit(log: seq<SyncLink.Message>, m: SyncLink.Message)
    ensures LoggedIds(log + [m]) == LoggedIds(log) + {m.id}
  {
  }

  lemma NextCommit(commits: seq<Arrival>, used: set<Id>, i: nat)
    requires FreshCommits(commits, used) && i < |commits|
    ensures var id := commits[i].event.id;
            && IsPending(commits[i].event) && id !in used + ArrivalIds(commits[..i])
            && ArrivalIds(commits[..i + 1]) == ArrivalIds(commits[..i]) + {id}
  {
  }

  ghost function CommitAll(s: Store, commits: seq<Arrival>): Store {
    if commits == [] then s
    else
      var last := commits[|commits| - 1];
      Commit(CommitAll(s, commits[..|commits| - 1]), last.snapshot, Some(last.event))
  }

  /** What commits during a wait leave as it was, and what they add. */
  ghost predicate Grown(l: Link, l': Link, commits: seq<Arrival>) {
    && l' == l.(store := l'.store, log := l'.log)
    && l'.store == CommitAll(l.store, commits)
    && l'.store.counter == l.store.counter + |commits|
    && LoggedIds(l'.log) == LoggedIds(l.log) + ArrivalIds(commits)
    && Waiting(l'.store) == Waiting(l.store) + ArrivalIds(commits)
  }

  lemma FreshPrefix(commits: seq<Arrival>, used: set<Id>, i: nat)
    requires FreshCommits(commits, used) && i <= |commits|
    ensures FreshCommits(commits[..i], used)
  {
  }

  lemma GrownByOne(l: Link, l1: Link, l': Link, commits: seq<Arrival>)
    requires commits != []
    requires var before, last := commits[..|commits| - 1], commits[|commits| - 1];
             && Grown(l, l1, before)
             && l' == l1.(store := l'.store, log := l'.log)
             && l'.store == Commit(l1.store, last.snapshot, Some(last.event))
             && l'.store.counter == l1.store.counter + 1
             && LoggedIds(l'.log) == LoggedIds(l1.log) + {last.event.id}
             && Waiting(l'.store) == Waiting(l1.store) + {last.event.id}
             && ArrivalIds(commits) == ArrivalIds(before) + {last.event.id}
    ensures Grown(l, l', commits)
  {
  }

  ghost function AfterCommits(l: Link, commits: seq<Arrival>): Link {
    if commits == [] then l
    else After(AfterCommits(l, commits[..|commits| - 1]), CommitOf(commits[|commits| - 1]))
  }

  lemma {:induction false} CommitArrivals(l: Link, commits: seq<Arrival>, sent: seq<SyncLink.Message>)
    requires Invariant(l) && SentBelow(sent, l) && FreshCommits(commits, LoggedIds(l.log))
    requires l.store.counter + |commits| <= MAX_SAFE_INTEGER
    ensures Invariant(AfterCommits(l, commits)) && SentBelow(sent, AfterCommits(l, commits))
    ensures Grown(l, AfterCommits(l, commits), commits)
    decreases |commits|
  {
    if commits != [] {
      var before, last := commits[..|commits| - 1], commits[|commits| - 1];
      NextCommit(commits, LoggedIds(l.log), |commits| - 1);
      FreshPrefix(commits, LoggedIds(l.log), |commits| - 1);
      assert commits[..|commits|] == commits;
      CommitArrivals(l, before, sent);
      CommitArrival(AfterCommits(l, before), last, sent);
      GrownByOne(l, AfterCommits(l, before), AfterCommits(l, commits), commits);
    }
  }

  /** Operations committed while the loop waits. */
  method Await(store: OfflineStore, commits: seq<Arrival>)
    requires store.Valid() && store.Contents.counter + |commits| <= MAX_SAFE_INTEGER
    modifies store
    ensures store.Valid() && store.Contents == CommitAll(old(store.Contents), commits)
    ensures store.Contents.counter <= old(store.Contents.counter) + |commits|
  {
    ghost var c := store.Contents;
    for i := 0 to |commits|
      invariant store.Valid() && store.Contents == CommitAll(c, commits[..i])
      invariant store.Contents.counter <= c.counter + i
    {
      assert commits[..i + 1][..i] == commits[..i];
      store.CommitSnapshot(commits[i].snapshot, Some(commits[i].event));
    }
    assert commits[..|commits|] == commits;
  }

  // ---------------------------------------------------------------- one drain

  /** One transmission: its reply, and the error the store reports if it cannot take an acknowledgement. */
  datatype Attempt = Attempt(reply: Reply, ackError: Option<string>)

  function Fate(a: Attempt): Verdict {
    if VerdictOf(a.reply) == Accepted && a.ackError.Some? then Transient else VerdictOf(a.reply)
  }

  /** What is recorded when the event could not be settled, or was refused. */
  function Reason(a: Attempt): string {
    if VerdictOf(a.reply) == Accepted then a.ackError.GetOr("") else Message(a.reply)
  }

  /** `sent` lists what was transmitted and settled, `failed` the transmission that ended the drain. */
  datatype Progress = Progress(
    now: Link, sent: seq<SyncLink.Message>, failed: Option<SyncLink.Message>, acked: set<Id>, held: set<Id>, k: nat)

  /** The drain's surroundings, fixed when it starts. */
  datatype Setting = Setting(attempts: nat -> Attempt, arrivals: seq<seq<Arrival>>, at: Stamp, start: Link)

  ghost predicate SettingOk(s: Setting) {
    && Waiting(s.start.store) <= LoggedIds(s.start.log)
    && FreshArrivals(s.arrivals, LoggedIds(s.start.log))
    && s.start.store.counter + Total(s.arrivals) <= MAX_SAFE_INTEGER
  }

  /** The transmitted events whose attempt met the given fate; the i-th transmission is the i-th attempt. */
  function SentWith(attempts: nat -> Attempt, sent: seq<SyncLink.Message>, fate: Verdict): set<Id> {
    if sent == [] then {}
    else
      var n := |sent| - 1;
      SentWith(attempts, sent[..n], fate) + if Fate(attempts(n)) == fate then {sent[n].id} else {}
  }

  function AllOf(s: Setting, k: nat): set<Id>
    requires k <= |s.arrivals|
  {
    Waiting(s.start.store) + AllArrivalIds(s.arrivals[..k])
  }

  /** Nothing is lost and nothing counted twice. */
  ghost predicate Balanced(total: set<Id>, acked: set<Id>, held: set<Id>, waiting: set<Id>) {
    total == acked + held + waiting && acked !! held !! waiting
  }

  ghost predicate BatchWaits(l: Link) {
    forall b | b in l.batch :: b.id in Waiting(l.store)
  }

  /** The arrivals taken so far are exactly what the log and the counter grew by. */
  ghost predicate Supplied(s: Setting, p: Progress) {
    && p.k <= |s.arrivals|
    && LoggedIds(p.now.log) == LoggedIds(s.start.log) + AllArrivalIds(s.arrivals[..p.k])
    && p.now.store.counter == s.start.store.counter + Total(s.arrivals[..p.k])
  }

  ghost predicate Tallied(s: Setting, p: Progress) {
    && Rising(p.sent)
    && p.acked == SentWith(s.attempts, p.sent, Accepted)
    && p.held == SentWith(s.attempts, p.sent, Permanent)
    && |p.acked| + |p.held| == |p.sent|
  }

  ghost predicate Books(s: Setting, p: Progress) {
    && SentBelow(p.sent, p.now) && BatchWaits(p.now)
    && Supplied(s, p)
    && Balanced(AllOf(s, p.k), p.acked, p.held, Waiting(p.now.store))
    && Tallied(s, p)
  }

  lemma WaitingIsLogged(l: Link)
    requires Invariant(l)
    ensures Waiting(l.store) <= LoggedIds(l.log)
  {
  }

  lemma MoreSupplied(s: Setting, p: Progress, p': Progress)
    requires FreshArrivals(s.arrivals, LoggedIds(s.start.log)) && Waiting(s.start.store) <= LoggedIds(s.start.log)
    requires Supplied(s, p) && Grown(p.now, p'.now, CommitsAt(s.arrivals, p.k)) && p'.k == NextWait(s.arrivals, p.k)
    requires Balanced(AllOf(s, p.k), p.acked, p.held, Waiting(p.now.store)) && p'.acked == p.acked && p'.held == p.held
    ensures Supplied(s, p') && Balanced(AllOf(s, p'.k), p'.acked, p'.held, Waiting(p'.now.store))
  {
    var commits := CommitsAt(s.arrivals, p.k);
    if p.k < |s.arrivals| {
      assert s.arrivals[..p.k + 1][..p.k] == s.arrivals[..p.k];
      assert FreshCommits(commits, LoggedIds(s.start.log) + AllArrivalIds(s.arrivals[..p.k]));
      assert AllOf(s, p'.k) == AllOf(s, p.k) + ArrivalIds(commits);
      assert ArrivalIds(commits) !! AllOf(s, p.k);
    }
  }

  lemma CommitsFit(s: Setting, p: Progress)
    requires FreshArrivals(s.arrivals, LoggedIds(s.start.log))
    requires s.start.store.counter + Total(s.arrivals) <= MAX_SAFE_INTEGER && Supplied(s, p)
    ensures FreshCommits(CommitsAt(s.arrivals, p.k), LoggedIds(p.now.log))
    ensures p.now.store.counter + |CommitsAt(s.arrivals, p.k)| <= MAX_SAFE_INTEGER
  {
    if p.k < |s.arrivals| {
      assert s.arrivals[..p.k + 1][..p.k] == s.arrivals[..p.k];
      TotalGrows(s.arrivals, p.k + 1);
    } else {
      TotalGrows(s.arrivals, p.k);
    }
  }

  // ---------------------------------------------------------------- the loop, one turn at a time

  ghost function Wait(s: Setting, p: Progress): Progress {
    p.(now := AfterCommits(p.now, CommitsAt(s.arrivals, p.k)), k := NextWait(s.arrivals, p.k))
  }

  ghost function List(p: Progress): Progress {
    p.(now := After(p.now, ListStep))
  }

  /** The head is transmitted, and delivered if the reply says so. */
  ghost function Transmit(p: Progress, b: OutboxEvent, reached: bool): Progress {
    var l := After(p.now, TransmitStep);
    p.(now := if reached then After(l, DeliverStep(MessageOf(b))) else l)
  }

  /** Where the steps that follow the reply for event b, the head of the batch, lead. */
  ghost function Outcome(l: Link, b: OutboxEvent, attempt: Attempt, at: Stamp): Link {
    var rest, reason := if l.batch == [] then [] else l.batch[1..], Reason(attempt);
    match Fate(attempt)
    case Accepted =>
      l.(store := Acknowledge(l.store, b.id, at), acked := l.acked + {b.id}, batch := rest, phase := Phase.Listed)
    case Permanent =>
      l.(store := Quarantine(l.store, b.id, reason), held := l.held + {b.id}, batch := rest, phase := Phase.Listed)
    case Transient => l.(store := IncrementAttempt(l.store, b.id, Some(reason)), batch := [], phase := Idle)
  }

  ghost function Settle(p: Progress, b: OutboxEvent, attempt: Attempt, at: Stamp): Progress {
    var head, fate := MessageOf(b), Fate(attempt);
    Progress(
      Outcome(p.now, b, attempt, at),
      if fate == Transient then p.sent else p.sent + [head],
      if fate == Transient then Some(head) else p.failed,
      if fate == Accepted then p.acked + {head.id} else p.acked,
      if fate == Permanent then p.held + {head.id} else p.held,
      p.k)
  }

  /** List when there is nothing left to send, and otherwise send the head; commits fall into every wait. */
  ghost function Work(s: Setting, p: Progress): Progress {
    if p.now.batch == [] then Wait(s, List(p))
    else
      var b, attempt := p.now.batch[0], s.attempts(|p.sent|);
      Settle(Wait(s, Transmit(p, b, Reached(attempt.reply))), b, attempt, s.at)
  }

  /** A failed transmission is the last thing the loop does. */
  ghost function Turn(s: Setting, p: Progress): Progress {
    if p.failed.Some? then p else Work(s, p)
  }

  ghost function Turns(s: Setting, m: nat): Progress {
    if m == 0 then Progress(s.start, [], None, {}, {}, 0) else Turn(s, Turns(s, m - 1))
  }

  /** Everything the loop has transmitted, in order. */
  function AllSent(p: Progress): seq<SyncLink.Message> {
    p.sent + if p.failed.Some? then [p.failed.value] else []
  }

  function SentIn(p: Progress): seq<SyncLink.Message> {
    if p.failed.Some? || p.now.batch == [] then [] else [MessageOf(p.now.batch[0])]
  }

  lemma TurnSends(s: Setting, p: Progress)
    ensures AllSent(Turn(s, p)) == AllSent(p) + SentIn(p)
  {
  }

  lemma Waited(s: Setting, p: Progress)
    requires SettingOk(s) && Invariant(p.now) && Books(s, p)
    ensures Invariant(Wait(s, p).now) && Books(s, Wait(s, p))
              && Grown(p.now, Wait(s, p).now, CommitsAt(s.arrivals, p.k))
    ensures p.now.store.counter + |CommitsAt(s.arrivals, p.k)| <= MAX_SAFE_INTEGER
  {
    CommitsFit(s, p);
    CommitArrivals(p.now, CommitsAt(s.arrivals, p.k), p.sent);
    MoreSupplied(s, p, Wait(s, p));
  }

  lemma ListedNow(s: Setting, p: Progress)
    requires Books(s, p) && Enabled(p.now, ListStep)
    ensures Books(s, List(p))
  {
    FilterElements(IsPending, p.now.store.events);
  }

  lemma Transmitted(s: Setting, p: Progress, reached: bool)
    requires Invariant(p.now) && p.now.phase == Phase.Listed && p.now.batch != []
    ensures var p' := Transmit(p, p.now.batch[0], reached);
            && Invariant(p'.now)
            && p'.now == p.now.(phase := Sending, network := p'.now.network, seen := p'.now.seen)
            && (reached ==> p.now.batch[0].id in SeenIds(p'.now.seen))
  {
    StepKeepsInvariant(p.now, TransmitStep);
    if reached {
      var l, head := After(p.now, TransmitStep), MessageOf(p.now.batch[0]);
      StepKeepsInvariant(l, DeliverStep(head));
      SeenAfterDelivery(l, head);
    }
  }

  lemma SeenAfterDelivery(l: Link, m: SyncLink.Message)
    ensures m.id in SeenIds(After(l, DeliverStep(m)).seen)
  {
  }

  /** Nothing else that waits is numbered at or below the head. */
  lemma HeadLowest(
    batch: seq<OutboxEvent>, events: seq<OutboxEvent>, log: seq<SyncLink.Message>, counter: int, e: OutboxEvent)
    requires LogOk(log, counter) && BatchOk(batch, events, log) && batch != []
    requires e in events && IsPending(e) && e.id != batch[0].id && MessageOf(e) in log
    ensures Sequence(batch[0]) < Sequence(e)
  {
    assert batch[0] in batch;
    assert !Earlier(batch, 0, MessageOf(e));
    if Sequence(e) == Sequence(batch[0]) {
      SameMessage(log, counter, MessageOf(e), MessageOf(batch[0]));
    }
  }

  lemma RestDiffers(
    batch: seq<OutboxEvent>, events: seq<OutboxEvent>, log: seq<SyncLink.Message>, counter: int, c: OutboxEvent)
    requires LogOk(log, counter) && BatchOk(batch, events, log) && batch != [] && c in batch[1..]
    ensures c.id != batch[0].id
  {
    var i :| 0 <= i < |batch[1..]| && batch[1..][i] == c;
    assert Sequence(batch[0]) < Sequence(batch[i + 1]);
    assert batch[i + 1] in batch && batch[0] in batch;
    if c.id == batch[0].id {
      SameMessage(log, counter, MessageOf(c), MessageOf(batch[0]));
    }
  }

  /** The head is one of the waiting events, as it was logged. */
  lemma HeadWaits(l: Link) returns (w: OutboxEvent)
    requires LogOk(l.log, l.store.counter) && StoreLogged(l.store.events, l.log, l.held, l.acked)
    requires BatchOk(l.batch, l.store.events, l.log) && BatchWaits(l) && l.batch != []
    ensures w in l.store.events && IsPending(w) && MessageOf(w) == MessageOf(l.batch[0])
    ensures l.batch[0].id in Waiting(l.store)
  {
    var b := l.batch[0];
    assert b in l.batch && b.id in Waiting(l.store);
    w :| w in l.store.events && IsPending(w) && w.id == b.id;
    SameMessage(l.log, l.store.counter, MessageOf(w), MessageOf(b));
  }

  /** The head leaves the waiting events; what else was sent or waits stays in place. */
  lemma HeadGone(l: Link, l': Link, sent: seq<SyncLink.Message>)
    requires LogOk(l.log, l.store.counter) && StoreLogged(l.store.events, l.log, l.held, l.acked)
    requires BatchOk(l.batch, l.store.events, l.log)
    requires SentBelow(sent, l) && BatchWaits(l) && l.batch != [] && Rising(sent)
    requires l'.batch == l.batch[1..] && l'.store.counter == l.store.counter
    requires Waiting(l'.store) == Waiting(l.store) - {l.batch[0].id}
    requires forall e | e in l'.store.events && IsPending(e) :: e in l.store.events && e.id != l.batch[0].id
    ensures SentBelow(sent + [MessageOf(l.batch[0])], l') && BatchWaits(l')
    ensures Rising(sent + [MessageOf(l.batch[0])])
    ensures l.batch[0].id in Waiting(l.store)
  {
    var w := HeadWaits(l);
    forall e | e in l'.store.events && IsPending(e)
      ensures Sequence(l.batch[0]) < Sequence(e)
    {
      HeadLowest(l.batch, l.store.events, l.log, l.store.counter, e);
    }
    forall b | b in l'.batch
      ensures b.id in Waiting(l'.store)
    {
      RestDiffers(l.batch, l.store.events, l.log, l.store.counter, b);
      assert b in l.batch;
    }
  }

  lemma AckRemoves(s: Store, id: Id, at: Stamp)
    ensures Waiting(Acknowledge(s, id, at)) == Waiting(s) - {id}
    ensures forall e | e in Acknowledge(s, id, at).events && IsPending(e) :: e in s.events && e.id != id
  {
    WaitingAfterAck(s, id, at);
    FilterElements((e: OutboxEvent) => e.id != id, s.events);
  }

  lemma QuarantineRemoves(s: Store, id: Id, reason: string)
    ensures Waiting(Quarantine(s, id, reason)) == Waiting(s) - {id}
    ensures forall e | e in Quarantine(s, id, reason).events && IsPending(e) :: e in s.events && e.id != id
  {
    WaitingAfterQuarantine(s, id, reason);
    var events, events' := s.events, Quarantine(s, id, reason).events;
    forall e | e in events' && IsPending(e)
      ensures e in events && e.id != id
    {
      var i :| 0 <= i < |events'| && events'[i] == e;
      assert events[i] in events;
    }
  }

  ghost predicate InFlight(s: Setting, p: Progress, attempt: Attempt) {
    && p.now.phase == Sending && p.now.batch != [] && attempt == s.attempts(|p.sent|)
    && (Reached(attempt.reply) ==> p.now.batch[0].id in SeenIds(p.now.seen))
  }

  /** What the books rely on of the protocol's invariant. */
  ghost predicate Grounded(l: Link) {
    LogOk(l.log, l.store.counter) && StoreLogged(l.store.events, l.log, l.held, l.acked)
        && BatchOk(l.batch, l.store.events, l.log)
  }

  /** The head has left the batch and no longer waits; nothing else of the link's books changed. */
  ghost predicate HeadSettled(l: Link, l': Link)
    requires l.batch != []
  {
    && l'.phase == Phase.Listed && l'.batch == l.batch[1..] && l'.log == l.log && l'.store.counter == l.store.counter
    && Waiting(l'.store) == Waiting(l.store) - {l.batch[0].id}
    && (forall e | e in l'.store.events && IsPending(e) :: e in l.store.events && e.id != l.batch[0].id)
  }

  ghost predicate Recorded(p: Progress, p': Progress, head: SyncLink.Message, fate: Verdict) {
    && p'.sent == p.sent + [head] && p'.k == p.k && fate != Transient
    && p'.acked == p.acked + (if fate == Accepted then {head.id} else {})
    && p'.held == p.held + (if fate == Permanent then {head.id} else {})
  }

  lemma SettledTally(s: Setting, p: Progress, p': Progress, head: SyncLink.Message)
    requires Tallied(s, p) && Recorded(p, p', head, Fate(s.attempts(|p.sent|))) && Rising(p'.sent)
    requires head.id !in p.acked && head.id !in p.held
    ensures Tallied(s, p')
  {
  }

  lemma SettledBalance(
    p: Progress, p': Progress, head: SyncLink.Message, fate: Verdict, total: set<Id>, waiting: set<Id>)
    requires Recorded(p, p', head, fate) && Balanced(total, p.acked, p.held, waiting) && head.id in waiting
    ensures Balanced(total, p'.acked, p'.held, waiting - {head.id}) && head.id !in p.acked && head.id !in p.held
  {
  }

  lemma SettledBooks(s: Setting, p: Progress, p': Progress, head: SyncLink.Message)
    requires Books(s, p) && Grounded(p.now) && p.now.batch != [] && HeadSettled(p.now, p'.now)
    requires head == MessageOf(p.now.batch[0]) && Recorded(p, p', head, Fate(s.attempts(|p.sent|)))
    ensures Books(s, p') && head.id in Waiting(p.now.store) && head.id !in p.acked && head.id !in p.held
  {
    HeadGone(p.now, p'.now, p.sent);
    SettledBalance(p, p', head, Fate(s.attempts(|p.sent|)), AllOf(s, p.k), Waiting(p.now.store));
    SettledTally(s, p, p', head);
  }

  lemma AckLink(l: Link, attempt: Attempt, at: Stamp)
    requires l.batch != []
    ensures Fate(attempt) == Accepted ==> HeadSettled(l, Outcome(l, l.batch[0], attempt, at))
  {
    AckRemoves(l.store, l.batch[0].id, at);
  }

  lemma HoldLink(l: Link, attempt: Attempt, at: Stamp)
    requires l.batch != []
    ensures Fate(attempt) == Permanent ==> HeadSettled(l, Outcome(l, l.batch[0], attempt, at))
  {
    QuarantineRemoves(l.store, l.batch[0].id, Reason(attempt));
  }

  lemma SettleRecords(s: Setting, p: Progress, b: OutboxEvent, attempt: Attempt, at: Stamp)
    requires attempt == s.attempts(|p.sent|) && Fate(attempt) != Transient
    ensures Recorded(p, Settle(p, b, attempt, at), MessageOf(b), Fate(s.attempts(|p.sent|)))
  {
  }

  lemma SettledHead(s: Setting, p: Progress, attempt: Attempt, at: Stamp)
    requires Books(s, p) && InFlight(s, p, attempt) && Grounded(p.now) && Fate(attempt) != Transient
    ensures Books(s, Settle(p, p.now.batch[0], attempt, at))
  {
    var b := p.now.batch[0];
    var p' := Settle(p, b, attempt, at);
    SettleRecords(s, p, b, attempt, at);
    if Fate(attempt) == Accepted {
      AckLink(p.now, attempt, at);
    } else {
      HoldLink(p.now, attempt, at);
    }
    SettledBooks(s, p, p', MessageOf(b));
  }

  lemma StillBelow(l: Link, l': Link, sent: seq<SyncLink.Message>, id: Id, error: Option<string>)
    requires SentBelow(sent, l) && l'.store == IncrementAttempt(l.store, id, error)
    ensures SentBelow(sent, l')
  {
    var events, events' := l.store.events, l'.store.events;
    forall e | e in events' && IsPending(e)
      ensures sent != [] ==> sent[|sent| - 1].number < Sequence(e)
    {
      var i :| 0 <= i < |events'| && events'[i] == e;
      assert events[i] in events && IsPending(events[i]);
    }
  }

  /** A transient failure is recorded, and the event goes on waiting. */
  lemma FailedHead(s: Setting, p: Progress, attempt: Attempt, at: Stamp)
    requires Books(s, p) && InFlight(s, p, attempt) && Fate(attempt) == Transient
    ensures Books(s, Settle(p, p.now.batch[0], attempt, at))
  {
    var l, p' := p.now, Settle(p, p.now.batch[0], attempt, at);
    var error := Some(Reason(attempt));
    WaitingAfterAttempt(l.store, l.batch[0].id, error);
    StillBelow(l, p'.now, p.sent, l.batch[0].id, error);
  }

  lemma SettledKeeps(s: Setting, p: Progress, attempt: Attempt)
    requires Books(s, p) && InFlight(s, p, attempt) && Grounded(p.now)
    ensures Books(s, Settle(p, p.now.batch[0], attempt, s.at))
  {
    match Fate(attempt)
    case Transient => FailedHead(s, p, attempt, s.at);
    case _ => SettledHead(s, p, attempt, s.at);
  }

  /** The protocol steps of a reply. */
  function SettleSteps(attempt: Attempt, at: Stamp): seq<Step> {
    var reason := Reason(attempt);
    match Fate(attempt)
    case Accepted => [ReplyOk, AckStep(at)]
    case Permanent => [ReplyRefused, QuarantineStep(reason)]
    case Transient =>
      if VerdictOf(attempt.reply) == Accepted then [ReplyOk, AckFails, RecordFailure(Some(reason))]
      else [ReplyLost, RecordFailure(Some(reason))]
  }

  lemma TwoSteps(l: Link, a: Step, b: Step)
    requires Enabled(l, a) && Enabled(After(l, a), b)
    ensures EnabledRun(l, [a, b]) && RunLink(l, [a, b]) == After(After(l, a), b)
  {
    OneStepRun(After(l, a), b, []);
    OneStepRun(l, a, [b] + []);
    assert [a] + ([b] + []) == [a, b];
  }

  lemma ThreeSteps(l: Link, a: Step, b: Step, c: Step)
    requires Enabled(l, a) && Enabled(After(l, a), b) && Enabled(After(After(l, a), b), c)
    ensures EnabledRun(l, [a, b, c]) && RunLink(l, [a, b, c]) == After(After(After(l, a), b), c)
  {
    TwoSteps(After(l, a), b, c);
    OneStepRun(l, a, [b, c]);
    assert [a] + [b, c] == [a, b, c];
  }

  lemma SettleRun(l: Link, attempt: Attempt, at: Stamp)
    requires l.phase == Sending && l.batch != [] && (Reached(attempt.reply) ==> l.batch[0].id in SeenIds(l.seen))
    ensures EnabledRun(l, SettleSteps(attempt, at))
    ensures RunLink(l, SettleSteps(attempt, at)) == Outcome(l, l.batch[0], attempt, at)
  {
    var error := Some(Reason(attempt));
    match Fate(attempt)
    case Accepted => TwoSteps(l, ReplyOk, AckStep(at));
    case Permanent => TwoSteps(l, ReplyRefused, QuarantineStep(Reason(attempt)));
    case Transient =>
      if VerdictOf(attempt.reply) == Accepted {
        ThreeSteps(l, ReplyOk, AckFails, RecordFailure(error));
      } else {
        TwoSteps(l, ReplyLost, RecordFailure(error));
      }
  }

  function CommitSteps(commits: seq<Arrival>): seq<Step> {
    seq(|commits|, i requires 0 <= i < |commits| => CommitOf(commits[i]))
  }

  lemma LastCommitStep(commits: seq<Arrival>)
    requires commits != []
    ensures CommitSteps(commits) == CommitSteps(commits[..|commits| - 1]) + ([CommitOf(commits[|commits| - 1])] + [])
  {
  }

  lemma {:induction false} CommitsRun(l: Link, commits: seq<Arrival>)
    requires Invariant(l) && FreshCommits(commits, LoggedIds(l.log)) && l.store.counter + |commits| <= MAX_SAFE_INTEGER
    ensures EnabledRun(l, CommitSteps(commits)) && RunLink(l, CommitSteps(commits)) == AfterCommits(l, commits)
    decreases |commits|
  {
    if commits != [] {
      var before, last := commits[..|commits| - 1], commits[|commits| - 1];
      NextCommit(commits, LoggedIds(l.log), |commits| - 1);
      FreshPrefix(commits, LoggedIds(l.log), |commits| - 1);
      CommitsRun(l, before);
      CommitArrivals(l, before, []);
      CommitArrival(AfterCommits(l, before), last, []);
      OneStepRun(AfterCommits(l, before), CommitOf(last), []);
      RunInTwoParts(l, CommitSteps(before), [CommitOf(last)] + []);
      LastCommitStep(commits);
    }
  }

  // ---------------------------------------------------------------- what a run transmits

  /** The messages a run of the protocol transmits, in order. */
  ghost function Transmissions(l: Link, steps: seq<Step>): seq<SyncLink.Message>
    decreases |steps|
  {
    if steps == [] then []
    else
      (if steps[0].TransmitStep? && l.batch != [] then [MessageOf(l.batch[0])] else [])
      + Transmissions(After(l, steps[0]), steps[1..])
  }

  lemma {:induction false} TransmissionsInParts(l: Link, first: seq<Step>, second: seq<Step>)
    ensures Transmissions(l, first + second) == Transmissions(l, first) + Transmissions(RunLink(l, first), second)
    decreases |first|
  {
    if first == [] {
      assert first + second == second;
    } else {
      assert (first + second)[1..] == first[1..] + second;
      TransmissionsInParts(After(l, first[0]), first[1..], second);
    }
  }

  lemma {:induction false} QuietSteps(l: Link, steps: seq<Step>)
    requires forall step | step in steps :: !step.TransmitStep?
    ensures Transmissions(l, steps) == []
    decreases |steps|
  {
    if steps != [] {
      QuietSteps(After(l, steps[0]), steps[1..]);
    }
  }

  /** What a run transmits is on the network when it ends. */
  lemma {:induction false} TransmittedIsSent(l: Link, steps: seq<Step>)
    ensures l.network <= RunLink(l, steps).network
    ensures forall m | m in Transmissions(l, steps) :: m in RunLink(l, steps).network
    decreases |steps|
  {
    if steps != [] {
      TransmittedIsSent(After(l, steps[0]), steps[1..]);
    }
  }

  /** A run from l to l' that transmits exactly the given messages. */
  ghost predicate Leads(l: Link, steps: seq<Step>, l': Link, messages: seq<SyncLink.Message>) {
    EnabledRun(l, steps) && RunLink(l, steps) == l' && Transmissions(l, steps) == messages
  }

  lemma Onwards(
    l: Link, first: seq<Step>, l1: Link, a: seq<SyncLink.Message>, second: seq<Step>, l2: Link,
    b: seq<SyncLink.Message>)
    requires Leads(l, first, l1, a) && Leads(l1, second, l2, b)
    ensures Leads(l, first + second, l2, a + b)
  {
    RunInTwoParts(l, first, second);
    TransmissionsInParts(l, first, second);
  }

  lemma CommitsAreQuiet(l: Link, commits: seq<Arrival>)
    ensures Transmissions(l, CommitSteps(commits)) == []
  {
    QuietSteps(l, CommitSteps(commits));
  }

  lemma SettleIsQuiet(l: Link, attempt: Attempt, at: Stamp)
    ensures Transmissions(l, SettleSteps(attempt, at)) == []
  {
    QuietSteps(l, SettleSteps(attempt, at));
  }

  /** Between two turns nothing is in flight. */
  ghost predicate BetweenTurns(l: Link) {
    l.phase == Phase.Listed || (l.phase == Idle && l.batch == [])
  }

  lemma WaitLeads(s: Setting, p: Progress) returns (steps: seq<Step>)
    requires SettingOk(s) && Invariant(p.now) && Books(s, p)
    ensures Leads(p.now, steps, Wait(s, p).now, [])
  {
    CommitsFit(s, p);
    CommitsRun(p.now, CommitsAt(s.arrivals, p.k));
    steps := CommitSteps(CommitsAt(s.arrivals, p.k));
    CommitsAreQuiet(p.now, CommitsAt(s.arrivals, p.k));
  }

  lemma TransmitLeads(p: Progress, reached: bool) returns (steps: seq<Step>)
    requires Invariant(p.now) && p.now.phase == Phase.Listed && p.now.batch != []
    ensures Leads(p.now, steps, Transmit(p, p.now.batch[0], reached).now, [MessageOf(p.now.batch[0])])
  {
    var l, deliver := After(p.now, TransmitStep), DeliverStep(MessageOf(p.now.batch[0]));
    if reached {
      TwoSteps(p.now, TransmitStep, deliver);
      steps := [TransmitStep, deliver];
    } else {
      OneStepRun(p.now, TransmitStep, []);
      steps := [TransmitStep] + [];
    }
    QuietSteps(l, steps[1..]);
  }

  lemma ListLeads(p: Progress)
    requires Invariant(p.now) && BetweenTurns(p.now) && p.now.batch == []
    ensures Leads(p.now, [ListStep] + [], List(p).now, [])
  {
    hide Invariant, After;
    OneStepRun(p.now, ListStep, []);
    QuietSteps(p.now, [ListStep] + []);
  }

  /** A listing and the wait after it are steps of the protocol and keep the books. */
  lemma ListingTurn(s: Setting, p: Progress) returns (steps: seq<Step>)
    requires SettingOk(s) && Invariant(p.now) && Books(s, p) && BetweenTurns(p.now) && p.now.batch == []
    ensures Leads(p.now, steps, Work(s, p).now, []) && Books(s, Work(s, p)) && BetweenTurns(Work(s, p).now)
  {
    hide Leads, Invariant, Books, SettingOk;
    var q := List(p);
    StepKeepsInvariant(p.now, ListStep);
    ListedNow(s, p);
    Waited(s, q);
    ListLeads(p);
    var waiting := WaitLeads(s, q);
    steps := ([ListStep] + []) + waiting;
    Onwards(p.now, [ListStep] + [], q.now, [], waiting, Work(s, p).now, []);
  }

  lemma TransmitBooks(s: Setting, p: Progress, reached: bool)
    requires Books(s, p) && p.now.batch != []
    requires var q := Transmit(p, p.now.batch[0], reached);
             q.now == p.now.(phase := Sending, network := q.now.network, seen := q.now.seen)
    ensures Books(s, Transmit(p, p.now.batch[0], reached))
  {
  }

  lemma SettleLeads(l: Link, attempt: Attempt, at: Stamp)
    requires l.phase == Sending && l.batch != [] && (Reached(attempt.reply) ==> l.batch[0].id in SeenIds(l.seen))
    ensures Leads(l, SettleSteps(attempt, at), Outcome(l, l.batch[0], attempt, at), [])
  {
    SettleRun(l, attempt, at);
    SettleIsQuiet(l, attempt, at);
  }

  /** So are the transmission of the head, the wait for its reply and what follows it. */
  lemma SendingLeads(s: Setting, p: Progress) returns (steps: seq<Step>)
    requires SettingOk(s) && Invariant(p.now) && Books(s, p) && BetweenTurns(p.now) && p.now.batch != []
    ensures Leads(p.now, steps, Work(s, p).now, [MessageOf(p.now.batch[0])])
  {
    hide Leads, Invariant, Books, Outcome, SettleSteps, SettingOk;
    var b, attempt := p.now.batch[0], s.attempts(|p.sent|);
    var q := Transmit(p, b, Reached(attempt.reply));
    var r := Wait(s, q);
    Transmitted(s, p, Reached(attempt.reply));
    TransmitBooks(s, p, Reached(attempt.reply));
    var sending := TransmitLeads(p, Reached(attempt.reply));
    Waited(s, q);
    var waiting := WaitLeads(s, q);
    Onwards(p.now, sending, q.now, [MessageOf(b)], waiting, r.now, []);
    SettleLeads(r.now, attempt, s.at);
    steps := sending + waiting + SettleSteps(attempt, s.at);
    Onwards(p.now, sending + waiting, r.now, [MessageOf(b)] + [], SettleSteps(attempt, s.at), Work(s, p).now, []);
    assert [MessageOf(b)] + [] + [] == [MessageOf(b)];
  }

  lemma GroundedBy(l: Link)
    requires Invariant(l)
    ensures Grounded(l)
  {
  }

  /** The transmission that failed waits in front of everything else that does. */
  ghost predicate FirstWaiting(events: seq<OutboxEvent>, m: SyncLink.Message) {
    && PendingIn(events, m)
    && forall e | e in events && IsPending(e) :: m.number <= Sequence(e)
  }

  ghost predicate Stopped(s: Setting, p: Progress) {
    p.failed.Some? ==> Fate(s.attempts(|p.sent|)) == Transient && FirstWaiting(p.now.store.events, p.failed.value)
  }

  lemma AttemptKeepsFirst(s: Store, id: Id, error: Option<string>, m: SyncLink.Message)
    requires FirstWaiting(s.events, m)
    ensures FirstWaiting(IncrementAttempt(s, id, error).events, m)
  {
    var events, events' := s.events, IncrementAttempt(s, id, error).events;
    var e :| e in events && IsPending(e) && MessageOf(e) == m;
    var k :| 0 <= k < |events| && events[k] == e;
    assert events'[k] in events' && IsPending(events'[k]) && MessageOf(events'[k]) == m;
    forall e' | e' in events' && IsPending(e')
      ensures m.number <= Sequence(e')
    {
      var i :| 0 <= i < |events'| && events'[i] == e';
      assert events[i] in events && IsPending(events[i]);
    }
  }

  lemma HeadIsFirst(l: Link)
    requires Grounded(l) && BatchWaits(l) && l.batch != []
    ensures FirstWaiting(l.store.events, MessageOf(l.batch[0]))
  {
    var w := HeadWaits(l);
    forall e | e in l.store.events && IsPending(e)
      ensures Sequence(l.batch[0]) <= Sequence(e)
    {
      if e.id == l.batch[0].id {
        SameMessage(l.log, l.store.counter, MessageOf(e), MessageOf(w));
      } else {
        HeadLowest(l.batch, l.store.events, l.log, l.store.counter, e);
      }
    }
  }

  lemma SettledStops(s: Setting, p: Progress, attempt: Attempt)
    requires Grounded(p.now) && BatchWaits(p.now) && p.now.batch != []
    requires p.failed.None? && attempt == s.attempts(|p.sent|)
    ensures Stopped(s, Settle(p, p.now.batch[0], attempt, s.at))
  {
    hide FirstWaiting, Grounded, BatchWaits;
    var b := p.now.batch[0];
    HeadIsFirst(p.now);
    AttemptKeepsFirst(p.now.store, b.id, Some(Reason(attempt)), MessageOf(b));
  }

  lemma SendingBooks(s: Setting, p: Progress)
    requires SettingOk(s) && Invariant(p.now) && Books(s, p) && BetweenTurns(p.now) && p.now.batch != []
    ensures Books(s, Work(s, p)) && (p.failed.None? ==> Stopped(s, Work(s, p)))
  {
    hide Stopped;
    var attempt := s.attempts(|p.sent|);
    var q := Transmit(p, p.now.batch[0], Reached(attempt.reply));
    var r := Wait(s, q);
    Transmitted(s, p, Reached(attempt.reply));
    TransmitBooks(s, p, Reached(attempt.reply));
    Waited(s, q);
    GroundedBy(r.now);
    SettledKeeps(s, r, attempt);
    if p.failed.None? {
      SettledStops(s, r, attempt);
    }
  }

  lemma BetweenAfter(s: Setting, p: Progress)
    requires p.now.batch != []
    ensures BetweenTurns(Work(s, p).now)
  {
  }

  lemma NothingYet(s: Setting)
    requires s.start.batch == []
    ensures Books(s, Progress(s.start, [], None, {}, {}, 0))
  {
    assert s.arrivals[..0] == [];
    assert AllOf(s, 0) == Waiting(s.start.store);
  }

  lemma OneTurn(s: Setting, p: Progress) returns (steps: seq<Step>)
    requires SettingOk(s) && Invariant(p.now) && Books(s, p) && BetweenTurns(p.now) && Stopped(s, p)
    ensures Leads(p.now, steps, Turn(s, p).now, SentIn(p)) && Invariant(Turn(s, p).now)
    ensures Books(s, Turn(s, p)) && BetweenTurns(Turn(s, p).now) && Stopped(s, Turn(s, p))
  {
    hide Work, Wait, Books, FirstWaiting;
    if p.failed.Some? {
      steps := [];
    } else if p.now.batch == [] {
      steps := ListingTurn(s, p);
      assert Work(s, p).failed == None by {
        ListingFails(s, p);
      }
    } else {
      steps := SendingLeads(s, p);
      SendingBooks(s, p);
      BetweenAfter(s, p);
    }
    RunKeepsInvariant(p.now, steps);
  }

  lemma ListingFails(s: Setting, p: Progress)
    requires p.now.batch == []
    ensures Work(s, p).failed == p.failed
  {
  }

  lemma ExtendRun(s: Setting, before: seq<Step>, p: Progress) returns (steps: seq<Step>)
    requires SettingOk(s) && Leads(s.start, before, p.now, AllSent(p))
    requires Invariant(p.now) && Books(s, p) && BetweenTurns(p.now) && Stopped(s, p)
    ensures Leads(s.start, steps, Turn(s, p).now, AllSent(Turn(s, p))) && Invariant(Turn(s, p).now)
    ensures Books(s, Turn(s, p)) && BetweenTurns(Turn(s, p).now) && Stopped(s, Turn(s, p))
  {
    var turn := OneTurn(s, p);
    Onwards(s.start, before, p.now, AllSent(p), turn, Turn(s, p).now, SentIn(p));
    TurnSends(s, p);
    steps := before + turn;
  }

  /** Where a drain may begin: anywhere the protocol can reach, with no other drain under way. */
  ghost predicate CanStart(s: Setting) {
    && Invariant(s.start) && s.start.phase == Idle && s.start.batch == []
    && FreshArrivals(s.arrivals, LoggedIds(s.start.log))
    && s.start.store.counter + Total(s.arrivals) <= MAX_SAFE_INTEGER
  }

  /** Whether the loop is still a run of the protocol with its books in order. */
  datatype Soundness = Unsound | Sound

  ghost function SoundnessOf(s: Setting, p: Progress): Soundness {
    if && (exists steps :: Leads(s.start, steps, p.now, AllSent(p)))
       && Invariant(p.now) && Books(s, p) && BetweenTurns(p.now) && Stopped(s, p)
    then Sound else Unsound
  }

  ghost predicate AlwaysSound(s: Setting) {
    SettingOk(s) && forall m: nat {:trigger SoundnessOf(s, Turns(s, m))} :: SoundnessOf(s, Turns(s, m)) == Sound
  }

  lemma SoundParts(s: Setting, p: Progress) returns (steps: seq<Step>)
    requires SoundnessOf(s, p) == Sound
    ensures Leads(s.start, steps, p.now, AllSent(p))
    ensures Invariant(p.now) && Books(s, p) && BetweenTurns(p.now) && Stopped(s, p)
  {
    hide Leads, Invariant, Books, BetweenTurns, Stopped, AllSent;
    steps :| Leads(s.start, steps, p.now, AllSent(p));
  }

  lemma PartsSound(s: Setting, p: Progress, steps: seq<Step>)
    requires Leads(s.start, steps, p.now, AllSent(p))
    requires Invariant(p.now) && Books(s, p) && BetweenTurns(p.now) && Stopped(s, p)
    ensures SoundnessOf(s, p) == Sound
  {
    hide Leads, Invariant, Books, BetweenTurns, Stopped, AllSent;
  }

  lemma TurnSound(s: Setting, p: Progress)
    requires SettingOk(s) && SoundnessOf(s, p) == Sound
    ensures SoundnessOf(s, Turn(s, p)) == Sound
  {
    hide SoundnessOf, Invariant, Books, Turn;
    var before := SoundParts(s, p);
    var steps := ExtendRun(s, before, p);
    PartsSound(s, Turn(s, p), steps);
  }

  lemma StartSound(s: Setting)
    requires CanStart(s)
    ensures SoundnessOf(s, Progress(s.start, [], None, {}, {}, 0)) == Sound
  {
    hide SoundnessOf, Invariant, Books;
    NothingYet(s);
    PartsSound(s, Progress(s.start, [], None, {}, {}, 0), []);
  }

  lemma {:induction false} TurnsSound(s: Setting, m: nat) returns (p: Progress)
    requires CanStart(s) && SettingOk(s)
    ensures p == Turns(s, m) && SoundnessOf(s, p) == Sound
  {
    hide SoundnessOf, Turn, CanStart, SettingOk;
    if m == 0 {
      p := Progress(s.start, [], None, {}, {}, 0);
      StartSound(s);
    } else {
      var before := TurnsSound(s, m - 1);
      p := Turn(s, before);
      TurnSound(s, before);
    }
  }

  /** However many turns it takes, the loop is a run of the protocol and its books stay in order. */
  lemma LoopIsRun(s: Setting)
    requires CanStart(s)
    ensures AlwaysSound(s)
  {
    WaitingIsLogged(s.start);
    forall m: nat
      ensures SoundnessOf(s, Turns(s, m)) == Sound
    {
      var p := TurnsSound(s, m);
    }
  }

  // ---------------------------------------------------------------- which replies do what

  /** The server took the event, and the acknowledgement was stored. */
  ghost predicate Taken(a: Attempt) {
    a.reply.Answered? && 200 <= a.reply.status <= 299 && a.ackError.None?
  }

  /** A refusal for good: a client error that is neither retryable nor one that may pass by itself. */
  ghost predicate TurnedDown(a: Attempt) {
    && a.reply.Answered? && !a.reply.retryable && 400 <= a.reply.status <= 499
    && a.reply.status != 401 && a.reply.status != 403 && a.reply.status != 408
    && a.reply.status != 425 && a.reply.status != 429
  }

  /** What the failure of an attempt is recorded as. */
  ghost predicate Explains(a: Attempt, message: string) {
    match a.reply
    case Unreachable(_) => message == "The outlet edge could not be reached"
    case Answered(status, _, detail, _) =>
      if 200 <= status <= 299 then a.ackError == Some(message) else message == detail
  }

  lemma FateByStatus(a: Attempt)
    ensures Fate(a) == Accepted <==> Taken(a)
    ensures Fate(a) == Permanent <==> TurnedDown(a)
    ensures !Taken(a) ==> Explains(a, Reason(a))
  {
  }

  /** The event after one more attempt, which failed: counted, explained, and held back if refused for good. */
  ghost predicate Retried(e: OutboxEvent, e': OutboxEvent, a: Attempt) {
    && e'.id == e.id && e'.localSequence == e.localSequence && e'.mutation == e.mutation
    && e'.occurredAt == e.occurredAt && e'.sourceId == e.sourceId && e'.attempts == e.attempts + 1
    && e'.lastError.Some? && Explains(a, e'.lastError.value)
    && e'.disposition == if TurnedDown(a) then Some(Quarantined) else e.disposition
  }

  /** What an attempt to send the event with the id makes of the store's events. */
  ghost predicate SettledFrom(before: seq<OutboxEvent>, after: seq<OutboxEvent>, id: Id, a: Attempt) {
    && (forall e | e in before && e.id != id :: e in after)
    && (forall e | e in before && e.id == id && !Taken(a) :: exists e' | e' in after :: Retried(e, e', a))
    && (Taken(a) ==> forall e | e in after :: e.id != id)
  }

  lemma UpdatedFrom(c: Store, id: Id, update: OutboxEvent -> OutboxEvent, a: Attempt)
    requires !Taken(a) && forall e: OutboxEvent | e.id == id :: Retried(e, update(e), a)
    ensures SettledFrom(c.events, UpdateEvent(c, id, update).events, id, a)
  {
    hide Retried, Taken;
    var after := UpdateEvent(c, id, update).events;
    forall e | e in c.events
      ensures (if e.id == id then update(e) else e) in after
    {
      var i :| 0 <= i < |c.events| && c.events[i] == e;
      assert after[i] in after;
    }
  }

  // ---------------------------------------------------------------- the loop as it runs

  /** What the loop itself keeps of where it stands. */
  datatype Standing = Standing(
    store: Store, batch: seq<OutboxEvent>, sent: nat, stopped: bool, acked: nat, held: nat, k: nat)

  ghost function StandingOf(p: Progress): Standing {
    Standing(p.now.store, p.now.batch, |p.sent|, p.failed.Some?, |p.acked|, |p.held|, p.k)
  }

  /** What one turn of the inner loop does to the store. */
  ghost function TurnOf(c: Store, id: Id, attempt: Attempt, commits: seq<Arrival>, at: Stamp): Store {
    var c' := CommitAll(c, commits);
    match Fate(attempt)
    case Accepted => Acknowledge(c', id, at)
    case Permanent => Quarantine(c', id, Reason(attempt))
    case Transient => IncrementAttempt(c', id, Some(Reason(attempt)))
  }

  /** A turn settles the event as the status of the reply says, and leaves the others alone. */
  lemma TurnByStatus(c: Store, id: Id, attempt: Attempt, commits: seq<Arrival>, at: Stamp)
    ensures SettledFrom(CommitAll(c, commits).events, TurnOf(c, id, attempt, commits, at).events, id, attempt)
    ensures Taken(attempt) ==> TurnOf(c, id, attempt, commits, at).lastSynced == Some(at)
  {
    hide CommitAll, Taken, TurnedDown, Explains, SettledFrom;
    var c' := CommitAll(c, commits);
    FateByStatus(attempt);
    match Fate(attempt)
    case Accepted => AcknowledgedFrom(c', id, attempt, at);
    case Permanent =>
      UpdatedFrom(c', id, Held(Reason(attempt)), attempt);
    case Transient =>
      UpdatedFrom(c', id, Attempted(Some(Reason(attempt))), attempt);
  }

  lemma AcknowledgedFrom(c: Store, id: Id, a: Attempt, at: Stamp)
    requires Taken(a)
    ensures SettledFrom(c.events, Acknowledge(c, id, at).events, id, a)
  {
    FilterElements((e: OutboxEvent) => e.id != id, c.events);
  }

  function AfterFate(batch: seq<OutboxEvent>, fate: Verdict): seq<OutboxEvent> {
    if fate == Transient || batch == [] then [] else batch[1..]
  }

  lemma ListingStanding(s: Setting, p: Progress)
    requires SettingOk(s) && Invariant(p.now) && Books(s, p) && BetweenTurns(p.now) && p.now.batch == []
    ensures var st, commits := StandingOf(p), CommitsAt(s.arrivals, p.k);
            && StandingOf(Work(s, p)) == st.(store := CommitAll(st.store, commits), batch := Listing(st.store, false),
                                             k := NextWait(s.arrivals, st.k))
            && st.store.counter + |commits| <= MAX_SAFE_INTEGER && st.k <= |s.arrivals|
            && (commits == [] ==> Waiting(CommitAll(st.store, commits)) == Waiting(st.store))
  {
    StepKeepsInvariant(p.now, ListStep);
    ListedNow(s, p);
    Waited(s, List(p));
  }

  lemma SettledCounts(s: Setting, p: Progress, b: OutboxEvent, attempt: Attempt, at: Stamp)
    requires attempt == s.attempts(|p.sent|) && Tallied(s, p) && Tallied(s, Settle(p, b, attempt, at))
    ensures var p', fate := Settle(p, b, attempt, at), Fate(attempt);
            && |p'.sent| == |p.sent| + (if fate == Transient then 0 else 1)
            && |p'.acked| == |p.acked| + (if fate == Accepted then 1 else 0)
            && |p'.held| == |p.held| + (if fate == Permanent then 1 else 0)
            && p'.k == p.k
  {
  }

  lemma SettledStore(l: Link, b: OutboxEvent, attempt: Attempt, at: Stamp)
    ensures Outcome(l, b, attempt, at).store == TurnOf(l.store, b.id, attempt, [], at)
    ensures Outcome(l, b, attempt, at).batch == AfterFate(l.batch, Fate(attempt))
  {
  }

  lemma TurnAfter(c: Store, id: Id, attempt: Attempt, commits: seq<Arrival>, at: Stamp)
    ensures TurnOf(CommitAll(c, commits), id, attempt, [], at) == TurnOf(c, id, attempt, commits, at)
  {
  }

  /** The standing after a transmission, in terms of the one before it. */
  ghost function Sent(st: Standing, s: Setting): Standing
    requires st.batch != []
  {
    var attempt := s.attempts(st.sent);
    var fate := Fate(attempt);
    Standing(
      TurnOf(st.store, st.batch[0].id, attempt, CommitsAt(s.arrivals, st.k), s.at), AfterFate(st.batch, fate),
      st.sent + (if fate == Transient then 0 else 1), st.stopped || fate == Transient,
      st.acked + (if fate == Accepted then 1 else 0),
      st.held + (if fate == Permanent then 1 else 0), NextWait(s.arrivals, st.k))
  }

  lemma StandingAssembled(s: Setting, p: Progress, r: Progress, p': Progress)
    requires p.now.batch != [] && r == Progress(r.now, p.sent, p.failed, p.acked, p.held, NextWait(s.arrivals, p.k))
    requires r.now.batch == p.now.batch && r.now.store == CommitAll(p.now.store, CommitsAt(s.arrivals, p.k))
    requires p' == Settle(r, p.now.batch[0], s.attempts(|p.sent|), s.at) && Tallied(s, r) && Tallied(s, p')
    ensures StandingOf(p') == Sent(StandingOf(p), s)
  {
    var b, attempt := p.now.batch[0], s.attempts(|p.sent|);
    SettledCounts(s, r, b, attempt, s.at);
    SettledStore(r.now, b, attempt, s.at);
    TurnAfter(p.now.store, b.id, attempt, CommitsAt(s.arrivals, p.k), s.at);
  }

  lemma SendingStanding(s: Setting, p: Progress)
    requires SettingOk(s) && Invariant(p.now) && Books(s, p) && BetweenTurns(p.now) && p.now.batch != []
    ensures StandingOf(Work(s, p)) == Sent(StandingOf(p), s)
    ensures p.now.store.counter + |CommitsAt(s.arrivals, p.k)| <= MAX_SAFE_INTEGER && p.k <= |s.arrivals|
  {
    var b, attempt := p.now.batch[0], s.attempts(|p.sent|);
    var q := Transmit(p, b, Reached(attempt.reply));
    var r := Wait(s, q);
    SendingBooks(s, p);
    Transmitted(s, p, Reached(attempt.reply));
    TransmitBooks(s, p, Reached(attempt.reply));
    Waited(s, q);
    StandingAssembled(s, p, r, Work(s, p));
  }

  ghost function ListedAndWaited(st: Standing, s: Setting): Standing {
    st.(store := CommitAll(st.store, CommitsAt(s.arrivals, st.k)),
        batch := Listing(st.store, false),
        k := NextWait(s.arrivals, st.k))
  }

  /** The loop in terms of what it keeps: list when nothing is left to send, otherwise send the head. */
  ghost function NextStanding(s: Setting, st: Standing): Standing {
    if st.stopped then st else if st.batch == [] then ListedAndWaited(st, s) else Sent(st, s)
  }

  ghost function StandingAt(s: Setting, m: nat): Standing {
    if m == 0 then Standing(s.start.store, s.start.batch, 0, false, 0, 0, 0) else NextStanding(s, StandingAt(s, m - 1))
  }

  /** Room for the commits of the next wait. */
  ghost predicate RoomAt(s: Setting, st: Standing) {
    st.k <= |s.arrivals| && st.store.counter + |CommitsAt(s.arrivals, st.k)| <= MAX_SAFE_INTEGER
  }

  lemma NextAgrees(s: Setting, p: Progress)
    requires SettingOk(s) && Invariant(p.now) && Books(s, p) && BetweenTurns(p.now)
    ensures StandingOf(Turn(s, p)) == NextStanding(s, StandingOf(p))
  {
    if p.failed.None? {
      if p.now.batch == [] {
        ListingStanding(s, p);
      } else {
        SendingStanding(s, p);
      }
    }
  }

  lemma {:induction false} StandingsAgree(s: Setting, m: nat) returns (p: Progress)
    requires AlwaysSound(s)
    ensures p == Turns(s, m) && StandingAt(s, m) == StandingOf(p) && SoundnessOf(s, p) == Sound
  {
    hide Turn, NextStanding, Invariant, Books, BetweenTurns, SettingOk, Leads;
    p := Turns(s, m);
    assert SoundnessOf(s, p) == Sound;
    if m > 0 {
      var before := StandingsAgree(s, m - 1);
      NextAgrees(s, before);
      assert p == Turn(s, before);
    }
  }

  lemma ListingWorkable(s: Setting, p: Progress)
    requires SettingOk(s) && Invariant(p.now) && Books(s, p) && BetweenTurns(p.now) && p.now.batch == []
    ensures Workable(s, StandingOf(p))
  {
    hide Work, Invariant, Books, SettingOk;
    ListingStanding(s, p);
  }

  function Backlog(c: Store): nat {
    |Waiting(c)|
  }

  lemma WaitingAfterTurn(c: Store, id: Id, attempt: Attempt, at: Stamp)
    requires id in Waiting(c)
    ensures Backlog(c) > 0
    ensures Backlog(TurnOf(c, id, attempt, [], at)) == Backlog(c) - if Fate(attempt) == Transient then 0 else 1
  {
    match Fate(attempt)
    case Accepted => WaitingAfterAck(c, id, at);
    case Permanent => WaitingAfterQuarantine(c, id, Reason(attempt));
    case Transient => WaitingAfterAttempt(c, id, Some(Reason(attempt)));
  }

  lemma HeadStillWaits(s: Setting, p: Progress)
    requires SettingOk(s) && Invariant(p.now) && Books(s, p) && BetweenTurns(p.now) && p.now.batch != []
    ensures p.now.batch[0].id in Waiting(CommitAll(p.now.store, CommitsAt(s.arrivals, p.k)))
    ensures p.now.batch[0].id in Waiting(p.now.store)
  {
    Waited(s, p);
    assert p.now.batch[0] in p.now.batch;
  }

  lemma SendingWorkable(s: Setting, p: Progress)
    requires SettingOk(s) && Invariant(p.now) && Books(s, p) && BetweenTurns(p.now) && p.now.batch != []
    ensures Workable(s, StandingOf(p))
  {
    var b, attempt, commits := p.now.batch[0], s.attempts(|p.sent|), CommitsAt(s.arrivals, p.k);
    SendingStanding(s, p);
    HeadStillWaits(s, p);
    TurnAfter(p.now.store, b.id, attempt, commits, s.at);
    WaitingAfterTurn(CommitAll(p.now.store, commits), b.id, attempt, s.at);
  }

  /** What the loop needs to know of a standing: room for commits, and that sending makes headway. */
  ghost predicate Workable(s: Setting, st: Standing) {
    && RoomAt(s, st)
    && (st.batch != [] ==>
          var fate := Fate(s.attempts(st.sent));
          && (fate == Transient ==> Backlog(Sent(st, s).store) > 0)
          && (fate != Transient && st.k == |s.arrivals| ==> Backlog(Sent(st, s).store) < Backlog(st.store)))
    && (st.batch == [] && st.k == |s.arrivals| ==> Backlog(ListedAndWaited(st, s).store) == Backlog(st.store))
  }

  /** The m-th standing lets the loop go on, to the next. */
  ghost predicate GoesOn(s: Setting, course: nat -> Standing, m: nat) {
    Workable(s, course(m)) && course(m + 1) == NextStanding(s, course(m))
  }

  ghost predicate AlwaysGoesOn(s: Setting, course: nat -> Standing) {
    forall m: nat {:trigger GoesOn(s, course, m)} :: GoesOn(s, course, m)
  }

  lemma NextWorkable(s: Setting, m: nat)
    requires AlwaysSound(s)
    ensures Workable(s, StandingAt(s, m))
  {
    hide Workable, SoundnessOf, Invariant, Books;
    var p := StandingsAgree(s, m);
    var steps := SoundParts(s, p);
    if p.now.batch == [] {
      ListingWorkable(s, p);
    } else {
      SendingWorkable(s, p);
    }
  }

  lemma CourseOf(s: Setting) returns (course: nat -> Standing)
    requires AlwaysSound(s)
    ensures AlwaysGoesOn(s, course) && forall m: nat :: course(m) == StandingAt(s, m)
  {
    hide AlwaysSound, Workable, NextStanding;
    course := (m: nat) => StandingAt(s, m);
    forall m: nat
      ensures GoesOn(s, course, m)
    {
      NextWorkable(s, m);
      assert course(m + 1) == NextStanding(s, course(m));
    }
  }

  /** The body of the inner loop. */
  method SendHead(store: OfflineStore, event: OutboxEvent, attempt: Attempt, commits: seq<Arrival>, at: Stamp)
    requires store.Valid() && store.Contents.counter + |commits| <= MAX_SAFE_INTEGER
    modifies store
    ensures store.Valid() && store.Contents == TurnOf(old(store.Contents), event.id, attempt, commits, at)
    ensures SettledFrom(CommitAll(old(store.Contents), commits).events, store.Contents.events, event.id, attempt)
  {
    hide SettledFrom, CommitAll;
    TurnByStatus(store.Contents, event.id, attempt, commits, at);
    Await(store, commits);
    match Fate(attempt) {
      case Accepted => store.AcknowledgeOutboxEvent(event.id, at);
      case Permanent => store.QuarantineOutboxEvent(event.id, Reason(attempt));
      case Transient => store.IncrementOutboxAttempt(event.id, Some(Reason(attempt)));
    }
  }

  datatype DrainResult = DrainResult(acknowledged: nat, quarantined: nat, transientError: Option<string>)

  /** The inner loop: one listing, front to back, up to the first transient failure. */
  method SendBatch(
    store: OfflineStore, events: seq<OutboxEvent>, attempts: nat -> Attempt, arrivals: seq<seq<Arrival>>, at: Stamp,
    n: nat, start: nat, ghost s: Setting, ghost course: nat -> Standing, ghost first: nat)
    returns (batch: DrainResult, k: nat, ghost m: nat)
    requires store.Valid() && AlwaysGoesOn(s, course) && s == Setting(attempts, arrivals, at, s.start)
              && start <= |arrivals|
    requires var st := course(first);
             !st.stopped && st.store == store.Contents && st.batch == events && st.sent == n && st.k == start
    modifies store
    ensures store.Valid() && start <= k <= |arrivals|
    ensures var st, st' := course(first), course(m);
            && st'.store == store.Contents && st'.batch == [] && st'.k == k
            && st'.acked == st.acked + batch.acknowledged && st'.held == st.held + batch.quarantined
            && (if batch.transientError.None? then !st'.stopped && st'.sent == n + |events|
                else st'.stopped && batch.transientError == Some(Reason(attempts(st'.sent))))
    ensures batch.transientError.None? && start == |arrivals| && events != [] ==>
              Backlog(store.Contents) < Backlog(old(store.Contents))
  {
    hide TurnOf, CommitAll, Backlog, Waiting;
    k, m := start, first;
    var acknowledged: nat, quarantined: nat := 0, 0;
    ghost var st := course(first);
    for i := 0 to |events|
      invariant store.Valid() && start <= k <= |arrivals|
      invariant course(m)
                == Standing(store.Contents, events[i..], n + i, false, st.acked + acknowledged,
                    st.held + quarantined, k)
      invariant start == |arrivals| ==>
                  if i == 0 then Backlog(store.Contents) == Backlog(st.store)
                  else Backlog(store.Contents) < Backlog(st.store)
    {
      var attempt := attempts(n + i);
      var fate := Fate(attempt);
      assert GoesOn(s, course, m);
      SendHead(store, events[i], attempt, CommitsAt(arrivals, k), at);
      k, m := NextWait(arrivals, k), m + 1;
      assert events[i..][1..] == events[i + 1..];
      assert course(m) == Standing(
          store.Contents, if fate == Transient then [] else events[i + 1..],
          n + i + (if fate == Transient then 0 else 1), fate == Transient,
          st.acked + acknowledged + (if fate == Accepted then 1 else 0),
          st.held + quarantined + (if fate == Permanent then 1 else 0), k);
      match fate {
        case Accepted => acknowledged := acknowledged + 1;
        case Permanent => quarantined := quarantined + 1;
        case Transient => return DrainResult(acknowledged, quarantined, Some(Reason(attempt))), k, m;
      }
    }
    batch := DrainResult(acknowledged, quarantined, None);
  }

  /** The outer loop: list, send, and list again until a listing is empty or a transmission fails. */
  method DrainLoop(
    store: OfflineStore, attempts: nat -> Attempt, arrivals: seq<seq<Arrival>>, at: Stamp,
    ghost s: Setting, ghost course: nat -> Standing)
    returns (result: DrainResult, ghost m: nat)
    requires store.Valid() && AlwaysGoesOn(s, course) && s == Setting(attempts, arrivals, at, s.start)
    requires course(0) == Standing(store.Contents, [], 0, false, 0, 0, 0)
    modifies store
    ensures store.Valid()
    ensures var st := course(m);
            && st.store == store.Contents && st.batch == []
            && st.acked == result.acknowledged && st.held == result.quarantined
            && (if st.stopped then result.transientError == Some(Reason(attempts(st.sent)))
                else result.transientError == None && Listing(st.store, false) == [])
  {
    hide TurnOf, CommitAll, Backlog, Waiting, Listing, Sent, WellFormed, DatabaseHolds, LocalHolds;
    m := 0;
    var acknowledged: nat, quarantined: nat, k: nat, n: nat := 0, 0, 0, 0;
    while true
      invariant store.Valid() && k <= |arrivals|
      invariant course(m) == Standing(store.Contents, [], n, false, acknowledged, quarantined, k)
      decreases |arrivals| - k, Backlog(store.Contents)
    {
      var events := store.ListOutbox(false);
      if |events| == 0 {
        return DrainResult(acknowledged, quarantined, None), m;
      }
      assert GoesOn(s, course, m);
      Await(store, CommitsAt(arrivals, k));
      k, m := NextWait(arrivals, k), m + 1;
      var batch;
      batch, k, m := SendBatch(store, events, attempts, arrivals, at, n, k, s, course, m);
      acknowledged, quarantined := acknowledged + batch.acknowledged, quarantined + batch.quarantined;
      if batch.transientError.Some? {
        return DrainResult(acknowledged, quarantined, batch.transientError), m;
      }
      n := n + |events|;
    }
  }

  lemma SentIsLogged(start: Link, steps: seq<Step>, l: Link, messages: seq<SyncLink.Message>)
    requires Leads(start, steps, l, messages) && NetworkOk(l.network, l.log, l.acked, l.held)
    ensures forall m | m in messages :: m in l.log
  {
    TransmittedIsSent(start, steps);
  }

  lemma SentRises(p: Progress)
    requires SentBelow(p.sent, p.now) && Rising(p.sent)
    requires p.failed.Some? ==> PendingIn(p.now.store.events, p.failed.value)
    ensures Rising(AllSent(p))
  {
  }

  // ---------------------------------------------------------------- what a drain settles

  ghost predicate DistinctIds(messages: seq<SyncLink.Message>) {
    forall i, j :: 0 <= i < j < |messages| ==> messages[i].id != messages[j].id
  }

  ghost predicate AmongIds(messages: seq<SyncLink.Message>, id: Id) {
    exists i :: 0 <= i < |messages| && messages[i].id == id
  }

  lemma {:induction false} SentWithIds(attempts: nat -> Attempt, sent: seq<SyncLink.Message>, fate: Verdict, id: Id)
    requires id in SentWith(attempts, sent, fate)
    ensures AmongIds(sent, id)
  {
    var n := |sent| - 1;
    if id != sent[n].id {
      SentWithIds(attempts, sent[..n], fate, id);
      var i :| 0 <= i < n && sent[..n][i].id == id;
      assert sent[i].id == id;
    }
  }

  lemma {:induction false} SentWithAt(attempts: nat -> Attempt, sent: seq<SyncLink.Message>, fate: Verdict, i: nat)
    requires DistinctIds(sent) && i < |sent|
    ensures sent[i].id in SentWith(attempts, sent, fate) <==> Fate(attempts(i)) == fate
  {
    var n := |sent| - 1;
    var before := sent[..n];
    if i < n {
      assert before[i] == sent[i];
      SentWithAt(attempts, before, fate, i);
    } else if sent[n].id in SentWith(attempts, before, fate) {
      SentWithIds(attempts, before, fate, sent[n].id);
    }
  }

  /** Two fates account for everything sent only if nothing met the third. */
  lemma {:induction false} NoneTransient(attempts: nat -> Attempt, sent: seq<SyncLink.Message>)
    ensures |SentWith(attempts, sent, Accepted)| + |SentWith(attempts, sent, Permanent)| <= |sent|
    ensures |SentWith(attempts, sent, Accepted)| + |SentWith(attempts, sent, Permanent)| == |sent| ==>
              forall i | 0 <= i < |sent| :: Fate(attempts(i)) != Transient
  {
    if sent != [] {
      NoneTransient(attempts, sent[..|sent| - 1]);
    }
  }

  lemma RisingIdsDiffer(messages: seq<SyncLink.Message>, log: seq<SyncLink.Message>, counter: int)
    requires Rising(messages) && LogOk(log, counter) && forall m | m in messages :: m in log
    ensures DistinctIds(messages)
  {
    forall i, j | 0 <= i < j < |messages|
      ensures messages[i].id != messages[j].id
    {
      assert messages[i] in messages && messages[j] in messages;
      if messages[i].id == messages[j].id {
        SameMessage(log, counter, messages[i], messages[j]);
      }
    }
  }

  /** The i-th transmission is acknowledged or held back as the status of the i-th reply says. */
  ghost predicate SettledByStatus(attempts: nat -> Attempt, p: Progress) {
    && (forall i | 0 <= i < |p.sent| ::
          && (p.sent[i].id in p.acked <==> Taken(attempts(i)))
          && (p.sent[i].id in p.held <==> TurnedDown(attempts(i)))
          && (Taken(attempts(i)) || TurnedDown(attempts(i))))
    && (forall id | id in p.acked + p.held :: AmongIds(p.sent, id))
  }

  lemma StatusesSettle(attempts: nat -> Attempt, p: Progress)
    requires p.acked == SentWith(attempts, p.sent, Accepted) && p.held == SentWith(attempts, p.sent, Permanent)
    requires |p.acked| + |p.held| == |p.sent|
    requires DistinctIds(p.sent)
    ensures SettledByStatus(attempts, p)
  {
    hide Taken, TurnedDown, Fate, SentWith, DistinctIds, AmongIds;
    NoneTransient(attempts, p.sent);
    forall i | 0 <= i < |p.sent|
      ensures p.sent[i].id in p.acked <==> Taken(attempts(i))
      ensures p.sent[i].id in p.held <==> TurnedDown(attempts(i))
      ensures Taken(attempts(i)) || TurnedDown(attempts(i))
    {
      SentWithAt(attempts, p.sent, Accepted, i);
      SentWithAt(attempts, p.sent, Permanent, i);
      FateByStatus(attempts(i));
      assert Fate(attempts(i)) != Transient;
    }
    forall id | id in p.acked + p.held
      ensures AmongIds(p.sent, id)
    {
      SentWithIds(attempts, p.sent, if id in p.acked then Accepted else Permanent, id);
    }
  }

  /** The receiver has seen each request that was answered with success, and any other that got there. */
  ghost predicate ReachedAreSeen(attempts: nat -> Attempt, p: Progress) {
    forall i | 0 <= i < |AllSent(p)| ::
      attempts(i).reply.delivered
      || (attempts(i).reply.Answered? && 200 <= attempts(i).reply.status <= 299) ==>
        AllSent(p)[i].id in SeenIds(p.now.seen)
  }

  lemma WaitSeesNothing(s: Setting, p: Progress)
    requires SettingOk(s) && Invariant(p.now) && Books(s, p)
    ensures Wait(s, p).now.seen == p.now.seen
  {
    Waited(s, p);
  }

  lemma SendingSees(s: Setting, p: Progress)
    requires SettingOk(s) && Invariant(p.now) && Books(s, p) && BetweenTurns(p.now) && p.now.batch != []
    ensures SeenIds(p.now.seen) <= SeenIds(Work(s, p).now.seen)
    ensures Reached(s.attempts(|p.sent|).reply) ==> p.now.batch[0].id in SeenIds(Work(s, p).now.seen)
  {
    hide Invariant, Books, SettingOk;
    var reached := Reached(s.attempts(|p.sent|).reply);
    var q := Transmit(p, p.now.batch[0], reached);
    Transmitted(s, p, reached);
    TransmitBooks(s, p, reached);
    WaitSeesNothing(s, q);
    SettleSees(Wait(s, q).now, p.now.batch[0], s.attempts(|p.sent|), s.at);
  }

  lemma SettleSees(l: Link, b: OutboxEvent, attempt: Attempt, at: Stamp)
    ensures Outcome(l, b, attempt, at).seen == l.seen
  {
  }

  lemma ListingSees(s: Setting, p: Progress)
    requires SettingOk(s) && Invariant(p.now) && Books(s, p) && BetweenTurns(p.now) && p.now.batch == []
    ensures Work(s, p).now.seen == p.now.seen
  {
    hide Invariant, Books, SettingOk;
    StepKeepsInvariant(p.now, ListStep);
    ListedNow(s, p);
    WaitSeesNothing(s, List(p));
  }

  lemma TurnSees(s: Setting, p: Progress)
    requires SettingOk(s) && Invariant(p.now) && Books(s, p) && BetweenTurns(p.now)
    requires ReachedAreSeen(s.attempts, p)
    ensures ReachedAreSeen(s.attempts, Turn(s, p))
  {
    hide Invariant, Books, SettingOk, BetweenTurns, Work, SeenIds;
    TurnSends(s, p);
    if p.failed.None? {
      if p.now.batch == [] {
        ListingSees(s, p);
      } else {
        SendingSees(s, p);
      }
    }
  }

  lemma SoundTurnSees(s: Setting, p: Progress)
    requires SettingOk(s) && SoundnessOf(s, p) == Sound && ReachedAreSeen(s.attempts, p)
    ensures ReachedAreSeen(s.attempts, Turn(s, p))
  {
    hide SettingOk, SoundnessOf, ReachedAreSeen, Invariant, Books, BetweenTurns, Stopped, Leads, Turn;
    var steps := SoundParts(s, p);
    TurnSees(s, p);
  }

  lemma SettingAtAll(s: Setting)
    requires AlwaysSound(s)
    ensures SettingOk(s)
  {
  }

  lemma {:induction false} ReachedAlong(s: Setting, m: nat)
    requires AlwaysSound(s)
    ensures ReachedAreSeen(s.attempts, Turns(s, m))
  {
    hide AlwaysSound, SettingOk, SoundnessOf, Turn;
    if m > 0 {
      hide ReachedAreSeen;
      ReachedAlong(s, m - 1);
      SettingAtAll(s);
      var before := StandingsAgree(s, m - 1);
      SoundTurnSees(s, before);
    }
  }

  /** No answer, a server error, one of the statuses that pass by themselves, or a problem marked as retryable. */
  ghost predicate Outage(a: Attempt) {
    match a.reply
    case Unreachable(_) => true
    case Answered(status, retryable, _, _) =>
      || 500 <= status || status in {401, 403, 408, 425, 429}
      || (retryable && !(200 <= status <= 299))
  }

  lemma SentIsNoOutage(attempts: nat -> Attempt, p: Progress, i: nat)
    requires SettledByStatus(attempts, p) && i < |p.sent|
    ensures !Outage(attempts(i))
  {
    assert Taken(attempts(i)) || TurnedDown(attempts(i));
  }

  /** An outage ends the drain: nothing is held back from then on, and nothing that still waits is lost. */
  lemma OutageLosesNothing(s: Setting, p: Progress, i: nat)
    requires SettledByStatus(s.attempts, p) && p.k <= |s.arrivals|
    requires Balanced(AllOf(s, p.k), p.acked, p.held, Waiting(p.now.store))
    requires Outage(s.attempts(i))
    ensures |p.sent| <= i
    ensures forall id | id in Waiting(s.start.store) && id !in Waiting(p.now.store) ::
              exists j :: 0 <= j < i && j < |p.sent| && p.sent[j].id == id
  {
    hide Taken, TurnedDown, Outage;
    if i < |p.sent| {
      SentIsNoOutage(s.attempts, p, i);
    }
    forall id | id in Waiting(s.start.store) && id !in Waiting(p.now.store)
      ensures exists j :: 0 <= j < i && j < |p.sent| && p.sent[j].id == id
    {
      assert id in AllOf(s, p.k) && id in p.acked + p.held;
      var j :| 0 <= j < |p.sent| && p.sent[j].id == id;
    }
  }

  /**
   One drain, on either backend. It is a run of the protocol that transmits committed events in the
   order of their numbers and each once: those of `p.sent`, each acknowledged if its reply was a success
   and held back if it was a refusal for good, and after them at most one more, whose failure is neither
   of them, ends the drain and leaves it waiting in front of all the others. Otherwise it ends at an empty
   outbox.
   Nothing of what waited when it began or was committed meanwhile is lost or counted twice.
   */
  method DrainPendingOutbox(
    store: OfflineStore, attempts: nat -> Attempt, arrivals: seq<seq<Arrival>>, at: Stamp, ghost start: Link)
    returns (result: DrainResult, ghost p: Progress, ghost steps: seq<Step>, ghost m: nat)
    requires store.Valid() && start.store == store.Contents
    requires CanStart(Setting(attempts, arrivals, at, start))
    modifies store
    ensures store.Valid() && p.now.store == store.Contents && p == Turns(Setting(attempts, arrivals, at, start), m)
    ensures EnabledRun(start, steps) && RunLink(start, steps) == p.now && Transmissions(start, steps) == AllSent(p)
    ensures Rising(AllSent(p)) && forall message | message in AllSent(p) :: message in p.now.log
    ensures Books(Setting(attempts, arrivals, at, start), p) && SettledByStatus(attempts, p)
    ensures ReachedAreSeen(attempts, p)
    ensures result.acknowledged == |p.acked| && result.quarantined == |p.held|
    ensures if p.failed.None? then result.transientError == None && Listing(store.Contents, false) == []
            else
              && result.transientError.Some? && Explains(attempts(|p.sent|), result.transientError.value)
              && !Taken(attempts(|p.sent|)) && !TurnedDown(attempts(|p.sent|))
              && FirstWaiting(store.Contents.events, p.failed.value)
  {
    hide Taken, TurnedDown, Explains;
    ghost var s := Setting(attempts, arrivals, at, start);
    LoopIsRun(s);
    ghost var course := CourseOf(s);
    result, m := DrainLoop(store, attempts, arrivals, at, s, course);
    p := StandingsAgree(s, m);
    steps := SoundParts(s, p);
    SentIsLogged(start, steps, p.now, AllSent(p));
    SentRises(p);
    RisingIdsDiffer(p.sent, p.now.log, p.now.store.counter);
    StatusesSettle(attempts, p);
    ReachedAlong(s, m);
    FateByStatus(attempts(|p.sent|));
  }
}
