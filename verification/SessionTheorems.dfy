/** What holds in every run of the session, against a firmware that may do anything. */
module SessionTheorems {
  import opened Layouts
  import opened Slots
  import opened SessionModel
  import opened SessionTokens
  import opened SessionSlots
  import opened SessionImport

  // ---------------------------------------------------------------- tokens

  /** A token that was issued is pending, or it has exactly one fate. */
  lemma EachTokenHasOneFate(cfg: Config, outputs: nat, h: seq<Action>, token: nat)
    requires Legal(cfg, outputs, h) && 1 <= token < Replay(cfg, outputs, h).ledger.next
    ensures var l := Replay(cfg, outputs, h).ledger;
            && (token in l.pending <==> !Logged(l.log, token))
            && (token !in l.pending ==> exists e :: e in l.log && e.token == token)
            && (forall i, j :: 0 <= i < |l.log| && 0 <= j < |l.log| && l.log[i].token == l.log[j].token == token ==>
               i == j)
  {
    TokensAreConserved(cfg, outputs, h);
    hide Replay;
    var l := Replay(cfg, outputs, h).ledger;
    if token !in l.pending {
      var i :| 0 <= i < |l.log| && l.log[i].token == token;
      assert l.log[i] in l.log;
    }
    forall i, j | 0 <= i < |l.log| && 0 <= j < |l.log| && l.log[i].token == l.log[j].token == token
      ensures i == j
    {
      assert i < j || j < i || i == j;
    }
  }

  /** Every pending target that wants a copy or an import has a buffer for it. */
  ghost predicate Equipped(l: Ledger) {
    forall t :: t in l.pending ==>
      l.Get(l.pending[t]).publish.Direct? || l.Get(l.pending[t]).destination.Buffer?
  }

  ghost predicate Unstranded(l: Ledger) {
    && Equipped(l)
    && forall t :: Event(t, Stranded) !in l.log
  }

  ghost predicate CallersEquip(h: seq<Action>) {
    forall i :: 0 <= i < |h| && h[i].Submit? ==> h[i].publish.Direct? || h[i].destination.Buffer?
  }

  lemma SettleUnstranded(l: Ledger, token: nat, fate: Fate, after: Target)
    requires Conserved(l) && Unstranded(l) && token in l.pending && fate != Stranded
    ensures Unstranded(l.Settle(token, fate, after))
  {
    var l' := l.Settle(token, fate, after);
    forall t | t in l'.pending
      ensures l'.Get(l'.pending[t]) == l.Get(l.pending[t])
    {
      assert l.Get(l.pending[t]).token == t && l.Get(l.pending[token]).token == token;
    }
  }

  lemma FailUnstranded(l: Ledger, token: nat)
    requires Conserved(l) && Unstranded(l)
    ensures Unstranded(l.Fail(token))
  {
    hide Conserved, Unstranded;
    if token in l.pending {
      SettleUnstranded(l, token, Errored, l.Get(l.pending[token]).(pending := false, error := true));
    }
  }

  lemma {:induction false} FailExceptUnstranded(l: Ledger, keep: set<nat>, n: nat)
    requires Conserved(l) && Unstranded(l)
    ensures Unstranded(l.FailExcept(keep, n))
  {
    hide Conserved, Unstranded;
    if n > 0 {
      FailExceptUnstranded(l, keep, n - 1);
      FailExceptConserves(l, keep, n - 1);
      FailUnstranded(l.FailExcept(keep, n - 1), n - 1);
    }
  }

  lemma {:induction false} QueueNextUnstranded(s: State)
    requires Conserved(s.ledger) && Unstranded(s.ledger)
    ensures Unstranded(QueueNext(s).ledger)
    decreases |s.backlog|
  {
    hide Conserved, Unstranded, Idle;
    if s.pool.memory == Dmabuf && s.backlog != [] && Idle(s.pool.capture) {
      var e := s.backlog[0];
      if e.fd < 0 {
        QueueNextUnstranded(s.(backlog := s.backlog[1..]));
      } else if Bufferless(s.ledger, e.token) {
        FailConserves(s.ledger, e.token);
        FailUnstranded(s.ledger, e.token);
        QueueNextUnstranded(CountError(s.(backlog := s.backlog[1..], ledger := s.ledger.Fail(e.token))));
      }
    }
  }

  lemma ReleaseUnstranded(l: Ledger, id: nat)
    requires Conserved(l) && Unstranded(l)
    ensures Unstranded(l.Release(id))
  {
    var l' := l.Release(id);
    forall t | t in l'.pending
      ensures l'.Get(l'.pending[t]) == l.Get(l.pending[t])
    {
      assert l.Get(l.pending[t]).token == t && l.Get(l.pending[t]).pending;
    }
  }

  /** A target that is not in the map changes. */
  lemma AbandonUnstranded(l: Ledger, id: nat, after: Target)
    requires Conserved(l) && Unstranded(l) && !Owns(l, id)
    ensures Unstranded(l.(targets := l.targets[id := after]))
  {
    var l' := l.(targets := l.targets[id := after]);
    forall t | t in l'.pending
      ensures l'.Get(l'.pending[t]) == l.Get(l.pending[t])
    {
      assert l.Get(l.pending[t]).token == t;
    }
  }

  lemma IssueUnstranded(l: Ledger, id: nat, publish: Publish, destination: Destination)
    requires Conserved(l) && Unstranded(l) && !l.Get(id).pending
    requires publish.Direct? || destination.Buffer?
    ensures Unstranded(l.Issue(id, publish, destination))
  {
    var l' := l.Issue(id, publish, destination);
    forall t | t in l.pending
      ensures l'.Get(l'.pending[t]) == l.Get(l.pending[t])
    {
      assert l.Get(l.pending[t]).pending && l.Get(l.pending[t]).token == t;
      assert Logged(l.log, t) || t in l.pending;
    }
  }

  lemma PublishUnstranded(cfg: Config, s: State, token: nat, index: nat, copyFails: bool)
    requires cfg.copier && Conserved(s.ledger) && Unstranded(s.ledger) && token in s.ledger.pending
    ensures Unstranded(PublishStep(cfg, s, token, index, copyFails).ledger)
  {
    var t := s.ledger.Get(s.ledger.pending[token]);
    assert t.publish.Direct? || t.destination.Buffer?;
    hide Conserved, Unstranded;
    SettleUnstranded(s.ledger, token, Errored, t.(publish := Copy, pending := false, error := true));
    SettleUnstranded(s.ledger, token, Published, Delivered(s, t, index));
  }

  lemma CaptureUnstranded(cfg: Config, s: State, d: Completion, copyFails: bool)
    requires cfg.copier && Conserved(s.ledger) && Unstranded(s.ledger) && d.index < |s.pool.capture|
    ensures Unstranded(CaptureStep(cfg, s, d, copyFails).ledger)
  {
    hide Conserved, Unstranded, QueueNext, Deliver;
    var taken := Taken(s, d.index);
    QueueNextUnstranded(taken);
    QueueNextConserves(taken);
    var next := NextIfStreaming(taken);
    DeliverUnstranded(cfg, NoteLast(next, d.last), d, s.pool.capture[d.index].importToken, copyFails);
  }

  lemma DeliverUnstranded(cfg: Config, s: State, d: Completion, owner: nat, copyFails: bool)
    requires cfg.copier && Conserved(s.ledger) && Unstranded(s.ledger)
    ensures Unstranded(Deliver(cfg, s, d, owner, copyFails).ledger)
  {
    hide Conserved, Unstranded, PublishStep;
    FailConserves(s.ledger, d.timestamp);
    FailUnstranded(s.ledger, d.timestamp);
    FailUnstranded(s.ledger.Fail(d.timestamp), owner);
    if d.timestamp in s.ledger.pending {
      PublishUnstranded(cfg, s, d.timestamp, d.index, copyFails);
    }
  }

  lemma SubmitUnstranded(s: State, id: nat, publish: Publish, destination: Destination, fd: int)
    requires Conserved(s.ledger) && Unstranded(s.ledger) && !s.ledger.Get(id).pending
    requires (publish.Direct? || destination.Buffer?) && FreeOutput(s.pool.outputs, 0) < |s.pool.outputs|
    ensures Unstranded(SubmitStep(s, id, publish, destination, fd).ledger)
  {
    hide Conserved, Unstranded, QueueNext;
    IssueUnstranded(s.ledger, id, publish, destination);
    IssueConserves(s.ledger, id, publish, destination);
    forall s': State | s'.ledger == s.ledger.Issue(id, publish, destination)
      ensures Unstranded(QueueNext(s').ledger)
    {
      QueueNextUnstranded(s');
    }
  }

  lemma StepUnstranded(cfg: Config, s: State, a: Action)
    requires Enabled(cfg, s, a) && cfg.copier && Conserved(s.ledger) && Unstranded(s.ledger)
    requires a.Submit? ==> a.publish.Direct? || a.destination.Buffer?
    ensures Unstranded(Step(cfg, s, a).ledger)
  {
    hide Conserved, Unstranded, QueueNext, QueueScratch, Requeued, SubmitStep, CaptureStep, NewPool, Gathered;
    match a
    case Release(id) => ReleaseUnstranded(s.ledger, id);
    case Submit(id, publish, destination, fd) => SubmitUnstranded(s, id, publish, destination, fd);
    case OutputReturn(index, error) => FailUnstranded(s.ledger, s.pool.outputs[index].token);
    case CaptureReturn(d, copyFails) => CaptureUnstranded(cfg, s, d, copyFails);
    case ConfigureCapture(layout, count, fds) =>
      var p := NewPool(cfg, s, layout, count);
      NewPoolKeeps(cfg, s, layout, count);
      QueueNextUnstranded(p.(backlog := Gathered(p.ledger, p.backlog, fds, p.ledger.next)));
    case DrainFeed(scratch) =>
      QueueNextUnstranded(s);
      ScratchKeepsLedger(QueueNext(s), scratch);
    case DrainEnd => FailExceptUnstranded(s.ledger, Owed(s.pool.outputs), s.ledger.next);
    case Timeout(id) =>
      FailUnstranded(s.ledger, s.ledger.Get(id).token);
      if !Owns(s.ledger, id) {
        AbandonUnstranded(s.ledger, id, s.ledger.Get(id).(pending := false, error := true));
      }
    case Fail => FailExceptUnstranded(s.ledger, {}, s.ledger.next);
    case _ =>
  }

  /** With a copy engine, and a buffer with every target that is not Direct, no token is ever stranded. */
  lemma {:induction false} NothingIsStranded(cfg: Config, outputs: nat, h: seq<Action>)
    requires Legal(cfg, outputs, h) && cfg.copier && CallersEquip(h)
    ensures Unstranded(Replay(cfg, outputs, h).ledger)
    decreases |h|
  {
    if h != [] {
      var n := |h| - 1;
      NothingIsStranded(cfg, outputs, h[..n]);
      TokensAreConserved(cfg, outputs, h[..n]);
      hide Unstranded, Conserved, Step, Enabled;
      StepUnstranded(cfg, Replay(cfg, outputs, h[..n]), h[n]);
    }
  }

  // ---------------------------------------------------------------- failure

  lemma {:induction false} FailExceptPending(l: Ledger, keep: set<nat>, n: nat)
    ensures forall t :: t in l.FailExcept(keep, n).pending <==> t in l.pending && (t >= n || t in keep)
    ensures forall t :: t in l.FailExcept(keep, n).pending ==> l.FailExcept(keep, n).pending[t] == l.pending[t]
    ensures forall t: nat :: Event(t, Errored) in l.log || (t < n && t in l.pending && t !in keep) ==>
              Event(t, Errored) in l.FailExcept(keep, n).log
  {
    if n > 0 {
      FailExceptPending(l, keep, n - 1);
    }
  }

  /** A failed session has nothing pending and nothing waiting for a buffer. */
  lemma {:induction false} FailedHoldsNothing(cfg: Config, outputs: nat, h: seq<Action>)
    requires Legal(cfg, outputs, h) && Replay(cfg, outputs, h).phase.Failed?
    ensures Replay(cfg, outputs, h).ledger.pending == map[] && Replay(cfg, outputs, h).backlog == []
    decreases |h|
  {
    if h != [] {
      var n := |h| - 1;
      var s := Replay(cfg, outputs, h[..n]);
      TokensAreConserved(cfg, outputs, h[..n]);
      if s.phase.Failed? {
        FailedHoldsNothing(cfg, outputs, h[..n]);
        assert h[n].Release?;
      } else {
        hide Replay, Legal;
        OnlyFailFails(cfg, s, h[n]);
        FailExceptPending(s.ledger, {}, s.ledger.next);
        PendingBelow(s.ledger);
      }
    }
  }

  lemma OnlyFailFails(cfg: Config, s: State, a: Action)
    requires Enabled(cfg, s, a) && Step(cfg, s, a).phase.Failed?
    ensures s.phase.Failed? || a.Fail?
  {
    hide QueueNext, Deliver, Requeued, Ledger.FailExcept, Gathered, NewPool;
    if a.CaptureReturn? {
      KeepsMemory(Taken(s, a.d.index));
      var next := NextIfStreaming(Taken(s, a.d.index));
      DeliverKeeps(cfg, NoteLast(next, a.d.last), a.d, s.pool.capture[a.d.index].importToken,
                   a.copyFails);
    } else if a.DrainFeed? {
      KeepsMemory(s);
    } else if a.Submit? {
      SubmitPhase(s, a.id, a.publish, a.destination, a.fd);
    }
  }

  lemma SubmitPhase(s: State, id: nat, publish: Publish, destination: Destination, fd: int)
    requires FreeOutput(s.pool.outputs, 0) < |s.pool.outputs|
    ensures var s' := SubmitStep(s, id, publish, destination, fd);
            s'.phase == s.phase && s'.spent == s.spent && s'.generation == s.generation
  {
    hide QueueNext;
    forall s': State
      ensures QueueNext(s').phase == s'.phase && QueueNext(s').spent == s'.spent
           && QueueNext(s').generation == s'.generation
    {
      KeepsMemory(s');
    }
  }

  // ---------------------------------------------------------------- slots

  /** A slot of an Mmap pool is with the firmware, with exactly one target, or free. */
  lemma SlotHasOneOwner(cfg: Config, outputs: nat, h: seq<Action>, i: nat)
    requires Legal(cfg, outputs, h) && i < |Replay(cfg, outputs, h).pool.capture|
    ensures var s := Replay(cfg, outputs, h);
            var hold := Holding(Hold(s.generation, i));
            && s.kernel.capture[i] <= 1
            && (i in s.kernel.capture <==> s.pool.capture[i].queued)
            && (i in s.kernel.capture ==> forall id :: s.ledger.Get(id).frame != hold)
            && (forall a, b :: s.ledger.Get(a).frame == hold && s.ledger.Get(b).frame == hold ==> a == b)
            && (i in s.ledger.HeldSlots(s.generation) <==> exists id :: s.ledger.Get(id).frame == hold)
  {
    RunsAreOwned(cfg, outputs, h);
    hide Replay, Legal, Conserved, Pooled;
    var s := Replay(cfg, outputs, h);
    var hold := Holding(Hold(s.generation, i));
    forall id | s.ledger.Get(id).frame == hold
      ensures !s.pool.capture[i].queued && i in s.ledger.HeldSlots(s.generation)
    {
      assert Sound(s, id);
      HeldBy(s.ledger, s.generation, id);
    }
    HolderOf(s.ledger, s.generation, i);
  }

  lemma HolderOf(l: Ledger, generation: nat, i: nat)
    ensures i in l.HeldSlots(generation) ==> exists id :: l.Get(id).frame == Holding(Hold(generation, i))
  {
    if i in l.HeldSlots(generation) {
      var id :| id in l.targets && l.targets[id].frame.Holding? && l.targets[id].frame.hold.generation == generation
             && l.targets[id].frame.hold.index == i;
      assert l.Get(id).frame == Holding(Hold(generation, i));
    }
  }

  /** No frame of a torn-down pool is ever held: a pool goes only when nothing holds a frame of any pool. */
  lemma HeldFramesAreCurrent(cfg: Config, outputs: nat, h: seq<Action>)
    requires Legal(cfg, outputs, h)
    ensures var s := Replay(cfg, outputs, h);
            && (forall id :: s.ledger.Get(id).frame.Holding? ==> s.ledger.Get(id).frame.hold.generation == s.generation)
            && (Enabled(cfg, s, Teardown) ==> forall id :: s.ledger.Get(id).frame == Nothing)
            && (s.pool.memory == Dmabuf || s.phase.Configured? ==> forall id :: s.ledger.Get(id).frame == Nothing)
  {
    RunsAreOwned(cfg, outputs, h);
    hide Replay, Legal, Conserved;
    var s := Replay(cfg, outputs, h);
    forall id | s.ledger.Get(id).frame.Holding?
      ensures s.ledger.Get(id).frame.hold.generation == s.generation && !Enabled(cfg, s, Teardown)
      ensures s.pool.memory == Mmap && !s.phase.Configured?
    {
      assert Sound(s, id);
      HeldBy(s.ledger, s.generation, id);
    }
  }

  /** After a drain exactly the tokens whose OUTPUT buffer is still queued are pending; the rest have failed. */
  lemma DrainKeepsOwed(cfg: Config, outputs: nat, h: seq<Action>)
    requires Legal(cfg, outputs, h) && Enabled(cfg, Replay(cfg, outputs, h), DrainEnd)
    ensures var s := Replay(cfg, outputs, h);
            var s' := Step(cfg, s, DrainEnd);
            && (forall t :: t in s'.ledger.pending <==> t in s.ledger.pending && t in Owed(s.pool.outputs))
            && (forall t :: t in s'.ledger.pending ==> s'.ledger.pending[t] == s.ledger.pending[t])
            && (forall t :: t in s.ledger.pending && t !in Owed(s.pool.outputs) ==> Event(t, Errored) in s'.ledger.log)
  {
    hide Replay, Legal, Conserved, Ledger.FailExcept, Returned, LostBelow, Owed;
    TokensAreConserved(cfg, outputs, h);
    var s := Replay(cfg, outputs, h);
    FailExceptPending(s.ledger, Owed(s.pool.outputs), s.ledger.next);
    PendingBelow(s.ledger);
  }

  lemma PendingBelow(l: Ledger)
    requires Conserved(l)
    ensures l.next >= 1 && 0 !in l.pending && forall t :: t in l.pending ==> t < l.next
  {
  }

  // ---------------------------------------------------------------- Import fails closed

  lemma LegalPrefix(cfg: Config, outputs: nat, h: seq<Action>, k: nat)
    requires Legal(cfg, outputs, h) && k <= |h|
    ensures Legal(cfg, outputs, h[..k])
    decreases |h|
  {
    if k == |h| {
      assert h[..k] == h;
    } else {
      LegalPrefix(cfg, outputs, h[..|h| - 1], k);
      assert h[..|h| - 1][..k] == h[..k];
    }
  }

  /** What a completion does in an Import pool, case by case: it is published exactly when it is undamaged and
      in the buffer of its own token; in the buffer of another it fails both targets and is counted; for an
      unknown token nothing happens. `next` is the state after the next client buffer was handed out. */
  lemma ImportCompletion(cfg: Config, s: State, d: Completion, copyFails: bool)
    requires s.pool.memory == Dmabuf && Conserved(s.ledger) && d.index < |s.pool.capture|
    ensures var next, s' := NextIfStreaming(Taken(s, d.index)), CaptureStep(cfg, s, d, copyFails);
            var t, owner := d.timestamp, s.pool.capture[d.index].importToken;
            && (IsPublished(s'.ledger, t) && !IsPublished(s.ledger, t) <==>
                  d.payload && !d.error && t in next.ledger.pending && owner == t)
            && (d.payload && !d.error && t in next.ledger.pending && owner != t ==>
                  && s'.stats.misplaced == next.stats.misplaced + 1 && t !in s'.ledger.pending
                     && owner !in s'.ledger.pending
                  && Event(t, Errored) in s'.ledger.log
                     && (owner in next.ledger.pending ==> Event(owner, Errored) in s'.ledger.log))
            && (d.payload && !(d.error && t == 0) && t !in next.ledger.pending ==>
                  s'.ledger == next.ledger && s'.stats.drops == next.stats.drops + 1)
  {
    hide QueueNext, Conserved, Deliver, IsPublished;
    var taken := Taken(s, d.index);
    var next := NextIfStreaming(taken);
    var last := NoteLast(next, d.last);
    QueueNextConserves(taken);
    QueueNextQuiet(taken);
    KeepsMemory(taken);
    QueueNextLog(taken, d.timestamp);
    ImportDelivery(cfg, last, d, s.pool.capture[d.index].importToken, copyFails);
  }

  /** queue_import_next publishes nothing and forgets nothing. */
  lemma {:induction false} QueueNextLog(s: State, token: nat)
    ensures IsPublished(s.ledger, token) ==> IsPublished(QueueNext(s).ledger, token)
    decreases |s.backlog|
  {
    hide Idle;
    if s.pool.memory == Dmabuf && s.backlog != [] && Idle(s.pool.capture) {
      var e := s.backlog[0];
      if e.fd < 0 {
        QueueNextLog(s.(backlog := s.backlog[1..]), token);
      } else if Bufferless(s.ledger, e.token) {
        QueueNextLog(CountError(s.(backlog := s.backlog[1..], ledger := s.ledger.Fail(e.token))), token);
      }
    }
  }

  lemma ImportDelivery(cfg: Config, s: State, d: Completion, owner: nat, copyFails: bool)
    requires s.pool.memory == Dmabuf && Conserved(s.ledger)
    ensures var s', t := Deliver(cfg, s, d, owner, copyFails), d.timestamp;
            && (IsPublished(s'.ledger, t) && !IsPublished(s.ledger, t) <==>
                  d.payload && !d.error && t in s.ledger.pending && owner == t)
            && (d.payload && !d.error && t in s.ledger.pending && owner != t ==>
                  && s'.stats.misplaced == s.stats.misplaced + 1 && t !in s'.ledger.pending
                     && owner !in s'.ledger.pending
                  && Event(t, Errored) in s'.ledger.log
                     && (owner in s.ledger.pending ==> Event(owner, Errored) in s'.ledger.log))
            && (d.payload && !(d.error && t == 0) && t !in s.ledger.pending ==>
                  s'.ledger == s.ledger && s'.stats.drops == s.stats.drops + 1)
  {
    var t := d.timestamp;
    if t in s.ledger.pending {
      StrandedIsSettled(s.ledger, t);
    }
    hide Conserved, MisplacedStep, PublishStep;
    FailQuiet(s.ledger, t);
  }

  /** Tokens stay spent for as long as the pool lives. */
  lemma StepSpent(cfg: Config, s: State, a: Action)
    requires Enabled(cfg, s, a) && Single(s)
    ensures var s' := Step(cfg, s, a);
            s'.generation >= s.generation && (s'.generation == s.generation ==> s.spent <= s'.spent)
  {
    hide QueueNext, Requeued, CaptureStep, SubmitStep, Single, Gathered, Ledger.FailExcept, NewPool;
    match a
    case Submit(id, publish, destination, fd) => SubmitPhase(s, id, publish, destination, fd);
    case CaptureReturn(d, copyFails) => CaptureSingle(cfg, s, d, copyFails);
    case ConfigureCapture(layout, count, fds) =>
      var p := NewPool(cfg, s, layout, count);
      NewPoolSpent(cfg, s, layout, count);
      KeepsMemory(p.(backlog := Gathered(p.ledger, p.backlog, fds, p.ledger.next)));
    case DrainFeed(scratch) => KeepsMemory(s);
    case _ =>
  }

  lemma NewPoolSpent(cfg: Config, s: State, layout: Layout, count: nat)
    ensures NewPool(cfg, s, layout, count).spent == s.spent && NewPool(cfg, s, layout, count).generation == s.generation
  {
  }

  /** A token whose buffer has come back can no longer be published from this pool. */
  lemma SpentStepUnpublished(cfg: Config, s: State, a: Action, token: nat)
    requires Enabled(cfg, s, a) && Conserved(s.ledger) && Single(s) && token in s.spent
    ensures IsPublished(Step(cfg, s, a).ledger, token) ==> IsPublished(s.ledger, token)
  {
    hide Step, Conserved, IsPublished;
    forall i | 0 <= i < |s.pool.capture|
      ensures s.pool.capture[i].importToken != token && s.pool.memory == Dmabuf
    {
      assert SlotSound(s, s.pool.capture[i]);
    }
    if IsPublished(Step(cfg, s, a).ledger, token) && !IsPublished(s.ledger, token) {
      PublishedByItsCompletion(cfg, s, a, token);
    }
  }

  lemma {:induction false} SpentStaysUnpublished(cfg: Config, outputs: nat, h: seq<Action>, k: nat, token: nat)
    requires Legal(cfg, outputs, h) && k <= |h| && Legal(cfg, outputs, h[..k])
    ensures Replay(cfg, outputs, h[..k]).generation <= Replay(cfg, outputs, h).generation
    ensures var s, s' := Replay(cfg, outputs, h[..k]), Replay(cfg, outputs, h);
            s.generation == s'.generation && token in s.spent ==>
              token in s'.spent && (IsPublished(s'.ledger, token) ==> IsPublished(s.ledger, token))
    decreases |h|
  {
    hide Step, Enabled, IsPublished;
    if k == |h| {
      assert h[..k] == h;
    } else {
      var n := |h| - 1;
      assert h[..n][..k] == h[..k];
      SpentStaysUnpublished(cfg, outputs, h[..n], k, token);
      RunsAreSingle(cfg, outputs, h[..n]);
      hide Conserved, Owned, Single;
      var s := Replay(cfg, outputs, h[..n]);
      StepSpent(cfg, s, h[n]);
      if token in s.spent {
        SpentStepUnpublished(cfg, s, h[n], token);
      }
    }
  }

  /** Import is fail-closed. Once the buffer queued for `token` has come back with anything but its picture,
      the token is not published by this pool, whatever follows. */
  lemma ImportFailsClosed(cfg: Config, outputs: nat, h: seq<Action>, k: nat, token: nat)
    requires Legal(cfg, outputs, h) && k < |h| && h[k].CaptureReturn? && token != 0
    requires Legal(cfg, outputs, h[..k]) && Legal(cfg, outputs, h[..k + 1])
    requires var s := Replay(cfg, outputs, h[..k]);
             && h[k].d.index < |s.pool.capture| && s.pool.capture[h[k].d.index].importToken == token
             && s.generation == Replay(cfg, outputs, h).generation
    requires !IsPublished(Replay(cfg, outputs, h[..k + 1]).ledger, token)
    ensures !IsPublished(Replay(cfg, outputs, h).ledger, token)
  {
    hide Replay, Legal, Step, Enabled, Conserved, Owned, Single, IsPublished;
    StepAt(cfg, outputs, h, k);
    RunsAreSingle(cfg, outputs, h[..k]);
    CaptureSpends(cfg, Replay(cfg, outputs, h[..k]), h[k]);
    SpentStaysUnpublished(cfg, outputs, h, k, 0);
    SpentStaysUnpublished(cfg, outputs, h, k + 1, token);
  }

  lemma StepAt(cfg: Config, outputs: nat, h: seq<Action>, k: nat)
    requires k < |h| && Legal(cfg, outputs, h[..k + 1])
    ensures Legal(cfg, outputs, h[..k]) && Enabled(cfg, Replay(cfg, outputs, h[..k]), h[k])
    ensures Replay(cfg, outputs, h[..k + 1]) == Step(cfg, Replay(cfg, outputs, h[..k]), h[k])
  {
    hide Step, Enabled;
    assert h[..k + 1][..k] == h[..k] && h[..k + 1][k] == h[k];
  }

  /** The token that a buffer was queued for is spent once the buffer is back. */
  lemma CaptureSpends(cfg: Config, s: State, a: Action)
    requires a.CaptureReturn? && Enabled(cfg, s, a) && Single(s)
    ensures a.d.index < |s.pool.capture| && Step(cfg, s, a).generation == s.generation
    ensures s.pool.capture[a.d.index].importToken != 0 ==>
            s.pool.capture[a.d.index].importToken in Step(cfg, s, a).spent
  {
    hide CaptureStep, Single;
    CaptureSingle(cfg, s, a.d, a.copyFails);
  }
}
