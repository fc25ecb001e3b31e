/** What each action of a run does to tokens, targets and slots, field by field. */
module SessionEffects {
  import opened Layouts
  import opened Slots
  import opened SessionModel
  import opened SessionTokens
  import opened SessionSlots
  import opened SessionImport
  import opened SessionTheorems
  import opened SessionLockstep

  /** Exactly one token leaves the map, with its fate on record; exactly its target changes. */
  ghost predicate OneSettled(l: Ledger, l': Ledger, token: nat, fate: Fate, after: Target) {
    && token in l.pending && l'.next == l.next
    && (forall t :: t in l'.pending <==> t in l.pending && t != token)
    && (forall t :: t in l'.pending ==> l'.pending[t] == l.pending[t])
    && l'.log == l.log + [Event(token, fate)]
    && (forall id :: l'.Get(id) == if id == l.pending[token] then after else l.Get(id))
  }

  lemma SettlesOne(l: Ledger, token: nat, fate: Fate, after: Target)
    requires token in l.pending
    ensures OneSettled(l, l.Settle(token, fate, after), token, fate, after)
  {
  }

  // ---------------------------------------------------------------- OUTPUT returns

  /** A returned OUTPUT buffer frees its slot. If the firmware rejected its bitstream, and the token in it is still
      pending, the token leaves the map as failed and its target is told at once; otherwise nothing else happens. */
  lemma OutputReturned(cfg: Config, outputs: nat, h: seq<Action>, index: nat, error: bool)
    requires Legal(cfg, outputs, h) && Enabled(cfg, Replay(cfg, outputs, h), OutputReturn(index, error))
    ensures var s := Replay(cfg, outputs, h);
            var s' := Step(cfg, s, OutputReturn(index, error));
            var token := s.pool.outputs[index].token;
            && s'.pool == s.pool.(outputs := s.pool.outputs[index := OutputSlot(false, 0)])
            && s'.kernel == s.kernel.(output := s.kernel.output - multiset{index})
            && s' == s.(pool := s'.pool, kernel := s'.kernel, ledger := s'.ledger, stats := s'.stats)
            && if error && token in s.ledger.pending then
                 var t := s.ledger.Get(s.ledger.pending[token]);
                 && t.token == token && t.pending
                 && OneSettled(s.ledger, s'.ledger, token, Errored, t.(pending := false, error := true))
                 && s'.stats == s.stats.(errors := s.stats.errors + 1)
               else s'.ledger == s.ledger && s'.stats == s.stats
  {
    hide Replay, Legal;
    TokensAreConserved(cfg, outputs, h);
    var s := Replay(cfg, outputs, h);
    var token := s.pool.outputs[index].token;
    if token in s.ledger.pending {
      var t := s.ledger.Get(s.ledger.pending[token]);
      SettlesOne(s.ledger, token, Errored, t.(pending := false, error := true));
    }
  }

  // ---------------------------------------------------------------- release and timeout

  /** A released target keeps nothing but its policy and buffer, and its token can no longer be published. */
  lemma ReleasedTarget(cfg: Config, outputs: nat, h: seq<Action>, id: nat)
    requires Legal(cfg, outputs, h)
    ensures var s := Replay(cfg, outputs, h);
            var s' := Step(cfg, s, Action.Release(id));
            var t := s.ledger.Get(id);
            var blank := Target(0, false, false, false, t.publish, t.destination, Nothing);
            && s' == s.(ledger := s'.ledger)
            && if Owns(s.ledger, id) && t.pending then
                 OneSettled(s.ledger, s'.ledger, t.token, Fate.Released, blank)
               else
                 && s'.ledger == s.ledger.(targets := s'.ledger.targets)
                 && forall x :: s'.ledger.Get(x) == if x == id then blank else s.ledger.Get(x)
  {
    hide Replay, Legal;
    TokensAreConserved(cfg, outputs, h);
    var s := Replay(cfg, outputs, h);
    if s.ledger.Get(id).pending && s.ledger.Get(id).token in s.ledger.pending {
      StrandedIsSettled(s.ledger, s.ledger.Get(id).token);
      assert Owns(s.ledger, id);
    }
  }

  /** A target whose wait timed out is told, and its token can no longer be published. */
  lemma TimedOutTarget(cfg: Config, outputs: nat, h: seq<Action>, id: nat)
    requires Legal(cfg, outputs, h) && Enabled(cfg, Replay(cfg, outputs, h), Action.Timeout(id))
    ensures var s := Replay(cfg, outputs, h);
            var s' := Step(cfg, s, Action.Timeout(id));
            var t := s.ledger.Get(id);
            var told := t.(pending := false, error := true);
            && s' == s.(ledger := s'.ledger, stats := s.stats.(timeouts := s.stats.timeouts + 1))
            && t.token !in s'.ledger.pending && s'.ledger.Get(id) == told
            && if Owns(s.ledger, id) then OneSettled(s.ledger, s'.ledger, t.token, Errored, told)
               else
                 && s'.ledger == s.ledger.(targets := s'.ledger.targets)
                 && forall x :: x != id ==> s'.ledger.Get(x) == s.ledger.Get(x)
  {
    hide Replay, Legal;
    TokensAreConserved(cfg, outputs, h);
    var s := Replay(cfg, outputs, h);
    var t := s.ledger.Get(id);
    if t.token in s.ledger.pending {
      StrandedIsSettled(s.ledger, t.token);
      assert Owns(s.ledger, id);
      SettlesOne(s.ledger, t.token, Errored, t.(pending := false, error := true));
    }
  }

  lemma TimedOutOthers(cfg: Config, outputs: nat, h: seq<Action>, id: nat)
    requires Legal(cfg, outputs, h) && Enabled(cfg, Replay(cfg, outputs, h), Action.Timeout(id))
    ensures var s := Replay(cfg, outputs, h);
            forall x :: x != id ==> Step(cfg, s, Action.Timeout(id)).ledger.Get(x) == s.ledger.Get(x)
  {
    hide Replay, Legal;
    TimedOutTarget(cfg, outputs, h, id);
  }

  // ---------------------------------------------------------------- completions

  /** What the completion of a pending token's picture makes of its target. */
  ghost predicate Completed(cfg: Config, s: State, next: State, s': State, d: Completion, copyFails: bool)
    requires d.timestamp in next.ledger.pending && d.index < |s.pool.capture|
  {
    var l, l', token := next.ledger, s'.ledger, d.timestamp;
    var t := l.Get(l.pending[token]);
    var told, done := t.(pending := false, error := true), t.(pending := false, completed := true, error := false);
    if d.error then
      OneSettled(l, l', token, Errored, told) && s'.stats == next.stats.(errors := next.stats.errors + 1)
    else if s.pool.memory == Dmabuf then
      s.pool.capture[d.index].importToken == token ==>
        && OneSettled(l, l', token, Published, done.(publish := Import, frame := Nothing))
        && s'.stats == next.stats.(completed := next.stats.completed + 1)
    else if t.publish == Direct then
      && OneSettled(l, l', token, Published, done.(frame := Holding(Hold(s.generation, d.index))))
      && s'.stats == next.stats.(completed := next.stats.completed + 1)
    else if t.destination == NoBuffer || !cfg.copier then
      OneSettled(l, l', token, Stranded, t.(publish := Copy)) && s'.stats == next.stats
    else if copyFails then
      && OneSettled(l, l', token, Errored, told.(publish := Copy))
      && s'.stats == next.stats.(errors := next.stats.errors + 1)
    else
      && OneSettled(l, l', token, Published, done.(publish := Copy, frame := Nothing))
      && s'.stats == next.stats.(completed := next.stats.completed + 1)
  }

  /** A completion frees its slot. An error marker, an empty buffer and an unknown token change no target; any
      other completion settles the token that it names. From an Mmap pool nothing else happens; an Import pool may
      have handed out the next buffer first, which leads to `next`. */
  lemma CompletionTaken(cfg: Config, outputs: nat, h: seq<Action>, d: Completion, copyFails: bool)
    requires Legal(cfg, outputs, h) && Enabled(cfg, Replay(cfg, outputs, h), CaptureReturn(d, copyFails))
    ensures var s := Replay(cfg, outputs, h);
            var next, s' := NextIfStreaming(Taken(s, d.index)), Step(cfg, s, CaptureReturn(d, copyFails));
            && (s.pool.memory == Mmap ==> SlotBack(s, next, d.index))
            && s' == next.(ledger := s'.ledger, stats := s'.stats, sawLast := next.sawLast || d.last)
            && (d.error && d.timestamp == 0 ==>
                  s'.ledger == next.ledger && s'.stats == next.stats.(errors := next.stats.errors + 1))
            && (!d.payload && !(d.error && d.timestamp == 0) ==>
                  s'.ledger == next.ledger && s'.stats == next.stats)
            && (d.payload && !(d.error && d.timestamp == 0) && d.timestamp !in next.ledger.pending ==>
                  s'.ledger == next.ledger && s'.stats == next.stats.(drops := next.stats.drops + 1))
            && (d.payload && !(d.error && d.timestamp == 0) && d.timestamp in next.ledger.pending ==>
                  Completed(cfg, s, next, s', d, copyFails))
  {
    hide Replay, Legal, QueueNext, Conserved, Deliver, Completed;
    TokensAreConserved(cfg, outputs, h);
    RunsAreOwned(cfg, outputs, h);
    hide Owned;
    var s := Replay(cfg, outputs, h);
    var taken := Taken(s, d.index);
    KeepsMemory(taken);
    MmapHandsNothing(taken);
    var next := NextIfStreaming(taken);
    DeliveryTold(cfg, s, next, NoteLast(next, d.last), d, copyFails);
  }

  /** The slot is free, and the rest of the session as it was. */
  ghost predicate SlotBack(s: State, next: State, index: nat)
    requires index < |s.pool.capture|
  {
    && next.pool == s.pool.(capture := s.pool.capture[index := Frame(false, 0, s.pool.capture[index].importFd)])
    && next.kernel == s.kernel.(capture := s.kernel.capture - multiset{index})
    && next == s.(pool := next.pool, kernel := next.kernel, spent := next.spent)
  }

  lemma MmapHandsNothing(s: State)
    ensures s.pool.memory == Mmap ==> QueueNext(s) == s
  {
  }

  lemma DeliveryTold(cfg: Config, s: State, next: State, last: State, d: Completion, copyFails: bool)
    requires d.index < |s.pool.capture| && next.pool.memory == s.pool.memory && next.generation == s.generation
    requires last == NoteLast(next, d.last)
    ensures var s' := Deliver(cfg, last, d, s.pool.capture[d.index].importToken, copyFails);
            && s' == next.(ledger := s'.ledger, stats := s'.stats, sawLast := next.sawLast || d.last)
            && (d.error && d.timestamp == 0 ==>
                  s'.ledger == next.ledger && s'.stats == next.stats.(errors := next.stats.errors + 1))
            && (!d.payload && !(d.error && d.timestamp == 0) ==>
                  s'.ledger == next.ledger && s'.stats == next.stats)
            && (d.payload && !(d.error && d.timestamp == 0) && d.timestamp !in next.ledger.pending ==>
                  s'.ledger == next.ledger && s'.stats == next.stats.(drops := next.stats.drops + 1))
            && (d.payload && !(d.error && d.timestamp == 0) && d.timestamp in next.ledger.pending ==>
                  Completed(cfg, s, next, s', d, copyFails))
  {
    hide OneSettled, MisplacedStep, Ledger.Settle;
    DeliverKeeps(cfg, last, d, s.pool.capture[d.index].importToken, copyFails);
    if d.timestamp in next.ledger.pending {
      forall fate, after
        ensures OneSettled(next.ledger, next.ledger.Settle(d.timestamp, fate, after), d.timestamp, fate, after)
      {
        SettlesOne(next.ledger, d.timestamp, fate, after);
      }
    }
  }

  /** A picture in the buffer of another token: both targets are told, nobody else is affected, and the error is
      counted once for each and once as a misplaced picture. `l` is the ledger when the completion is looked at. */
  lemma MisplacedTold(cfg: Config, outputs: nat, h: seq<Action>, d: Completion, copyFails: bool)
    requires Legal(cfg, outputs, h) && Enabled(cfg, Replay(cfg, outputs, h), CaptureReturn(d, copyFails))
    requires Replay(cfg, outputs, h).pool.memory == Dmabuf && d.payload && !d.error
    requires d.timestamp in NextIfStreaming(Taken(Replay(cfg, outputs, h), d.index)).ledger.pending
    requires d.timestamp != Replay(cfg, outputs, h).pool.capture[d.index].importToken
    ensures var s := Replay(cfg, outputs, h);
            var next, s' := NextIfStreaming(Taken(s, d.index)), Step(cfg, s, CaptureReturn(d, copyFails));
            var l, l', owner := next.ledger, s'.ledger, s.pool.capture[d.index].importToken;
            && l'.pending == l.pending - {d.timestamp, owner}
            && (forall id :: l'.Get(id) == if l.Get(id).token in {d.timestamp, owner} && Owns(l, id)
                                           then l.Get(id).(pending := false, error := true) else l.Get(id))
            && s'.stats == next.stats.(misplaced := next.stats.misplaced + 1,
                                       errors := next.stats.errors + if owner in l.pending then 2 else 1)
  {
    hide Replay, Legal, QueueNext, Conserved;
    TokensAreConserved(cfg, outputs, h);
    var s := Replay(cfg, outputs, h);
    var taken := Taken(s, d.index);
    QueueNextConserves(taken);
    KeepsMemory(taken);
    BothTold(NextIfStreaming(taken).ledger, d.timestamp, s.pool.capture[d.index].importToken);
  }

  lemma BothTold(l: Ledger, token: nat, owner: nat)
    requires Conserved(l) && token in l.pending && owner != token
    ensures var l' := l.Fail(token).Fail(owner);
            && l'.pending == l.pending - {token, owner}
            && (owner in l.Fail(token).pending <==> owner in l.pending)
            && forall id :: l'.Get(id) == if l.Get(id).token in {token, owner} && Owns(l, id)
                                          then l.Get(id).(pending := false, error := true) else l.Get(id)
  {
    var m := l.Fail(token);
    assert l.Get(l.pending[token]).token == token;
    assert owner in l.pending ==> l.Get(l.pending[owner]).token == owner;
  }

  // ---------------------------------------------------------------- slots

  /** Every slot of an Mmap pool that is neither with the firmware nor held goes to it, with nothing else changed;
      of an Import pool none does. */
  lemma SlotsRequeued(cfg: Config, outputs: nat, h: seq<Action>)
    requires Legal(cfg, outputs, h) && Enabled(cfg, Replay(cfg, outputs, h), Requeue)
    ensures var s := Replay(cfg, outputs, h);
            var s' := Step(cfg, s, Requeue);
            && s' == s.(pool := s.pool.(capture := s'.pool.capture), kernel := s'.kernel)
            && (s.pool.memory == Dmabuf ==> s' == s)
            && (s.pool.memory == Mmap ==> AllOut(s.pool.capture, s'.pool.capture, s.ledger, s.generation)
                                          && Mirrors(s'))
  {
    hide Replay, Legal, Requeued, Owned, Mirrors;
    RunsAreOwned(cfg, outputs, h);
    var s := Replay(cfg, outputs, h);
    RequeueOwned(cfg, s);
    MirrorsOf(cfg, RequeueStep(s));
    RequeuedExactly(s.pool.capture, s.kernel.capture, s.ledger.HeldSlots(s.generation), 0);
    forall i
      ensures i in s.ledger.HeldSlots(s.generation) <==>
              exists id :: s.ledger.Get(id).frame == Holding(Hold(s.generation, i))
    {
      HolderOf(s.ledger, s.generation, i);
      forall id | s.ledger.Get(id).frame == Holding(Hold(s.generation, i))
        ensures i in s.ledger.HeldSlots(s.generation)
      {
        HeldBy(s.ledger, s.generation, id);
      }
    }
  }

  lemma MirrorsOf(cfg: Config, s: State)
    requires Owned(cfg, s)
    ensures Mirrors(s)
  {
  }

  /** Each slot is queued unless a target holds it. */
  ghost predicate AllOut(capture: seq<Frame>, capture': seq<Frame>, l: Ledger, generation: nat) {
    && |capture'| == |capture|
    && forall i: nat :: i < |capture| ==>
         capture'[i] == capture[i].(queued := capture[i].queued
                                              || !exists id :: l.Get(id).frame == Holding(Hold(generation, i)))
  }

  /** While a drain of an Import pool is fed, the firmware always has a buffer to write into. */
  lemma DrainIsFed(cfg: Config, outputs: nat, h: seq<Action>, scratch: int)
    requires Legal(cfg, outputs, h) && Enabled(cfg, Replay(cfg, outputs, h), DrainFeed(scratch))
    requires Replay(cfg, outputs, h).pool.memory == Dmabuf
    ensures exists i :: i in Step(cfg, Replay(cfg, outputs, h), DrainFeed(scratch)).kernel.capture
  {
    hide Replay, Legal, QueueNext, Owned;
    RunsAreOwned(cfg, outputs, h);
    var s := Replay(cfg, outputs, h);
    PooledOf(cfg, s);
    QueueNextOwned(cfg, s);
    ScratchOwned(cfg, QueueNext(s), scratch);
    var fed := QueueScratch(QueueNext(s), scratch);
    var i: nat :| i < |fed.pool.capture| && fed.pool.capture[i].queued;
    KernelHasSlot(cfg, fed, i);
  }

  /** Stopping the CAPTURE stream takes every buffer back, with its token; tearing the pool down leaves none, and the
      format has to be negotiated again. */
  lemma PoolStopped(cfg: Config, outputs: nat, h: seq<Action>, a: Action)
    requires Legal(cfg, outputs, h) && Enabled(cfg, Replay(cfg, outputs, h), a) && (a.StreamOff? || a.Teardown?)
    ensures var s := Replay(cfg, outputs, h);
            var s' := Step(cfg, s, a);
            && s'.kernel == Kernel(multiset{}, s.kernel.output)
            && s'.ledger == s.ledger && s'.backlog == s.backlog && s'.stats == s.stats
            && s'.pool.outputs == s.pool.outputs
            && (forall i :: 0 <= i < |s'.pool.capture| ==> !s'.pool.capture[i].queued)
            && (a.StreamOff? ==>
                  && s'.phase == Reconfiguring && s'.pool.memory == s.pool.memory
                  && |s'.pool.capture| == |s.pool.capture|
                  && forall i :: 0 <= i < |s'.pool.capture| ==>
                       s'.pool.capture[i] == Frame(false, 0, s.pool.capture[i].importFd))
            && (a.Teardown? ==>
                  && s'.phase == Configured && s'.sourceChange && s'.pool.memory == Mmap && s'.pool.capture == []
                  && s'.generation == s.generation + 1 && s'.spent == {})
  {
    hide Replay, Legal;
  }

  // ---------------------------------------------------------------- submission

  lemma {:induction false} HandingOutKeeps(s: State)
    ensures var q := QueueNext(s);
            && q == s.(pool := s.pool.(capture := q.pool.capture), kernel := s.kernel.(capture := q.kernel.capture),
                       ledger := q.ledger, backlog := q.backlog, stats := s.stats.(errors := q.stats.errors))
            && q.ledger.next == s.ledger.next
    decreases |s.backlog|
  {
    hide Idle, ImportSlot;
    if s.pool.memory == Dmabuf && s.backlog != [] && Idle(s.pool.capture) {
      var e := s.backlog[0];
      if e.fd < 0 {
        HandingOutKeeps(s.(backlog := s.backlog[1..]));
      } else if Bufferless(s.ledger, e.token) {
        HandingOutKeeps(CountError(s.(backlog := s.backlog[1..], ledger := s.ledger.Fail(e.token))));
      }
    }
  }

  /** A target is as it was, or its token was lost and it was told. */
  ghost predicate KeptOrTold(l: Ledger, l': Ledger, id: nat) {
    || l'.Get(id) == l.Get(id)
    || (Owns(l, id) && l.Get(id).token !in l'.pending && l'.Get(id) == l.Get(id).(pending := false, error := true))
  }

  lemma {:induction false} HandingOutTells(s: State, id: nat)
    requires Conserved(s.ledger)
    ensures KeptOrTold(s.ledger, QueueNext(s).ledger, id)
    ensures s.ledger.Get(id).token in QueueNext(s).ledger.pending ==> QueueNext(s).ledger.Get(id) == s.ledger.Get(id)
    ensures Owns(s.ledger, id) ==> Owns(QueueNext(s).ledger, id) || !QueueNext(s).ledger.Get(id).pending
    decreases |s.backlog|
  {
    hide Conserved, Idle, ImportSlot;
    if s.pool.memory == Dmabuf && s.backlog != [] && Idle(s.pool.capture) {
      var e := s.backlog[0];
      if e.fd < 0 {
        HandingOutTells(s.(backlog := s.backlog[1..]), id);
      } else if Bufferless(s.ledger, e.token) {
        var failed := CountError(s.(backlog := s.backlog[1..], ledger := s.ledger.Fail(e.token)));
        FailConserves(s.ledger, e.token);
        FailTells(s.ledger, e.token, id);
        HandingOutTells(failed, id);
        QueueNextPending(failed);
      }
    }
  }

  lemma FailTells(l: Ledger, token: nat, id: nat)
    requires Conserved(l)
    ensures if token in l.pending && l.pending[token] == id then
              && Owns(l, id) && l.Get(id).token == token
              && l.Fail(token).Get(id) == l.Get(id).(pending := false, error := true)
            else l.Fail(token).Get(id) == l.Get(id) && (Owns(l, id) ==> Owns(l.Fail(token), id))
    ensures token !in l.Fail(token).pending
  {
    assert token in l.pending ==> l.Get(l.pending[token]).token == token;
  }

  /** A pending target that was submitted for a copy or an import and with a buffer; or nobody waits any more. */
  ghost predicate CanTake(l: Ledger, token: nat) {
    token in l.pending ==>
      var t := l.Get(l.pending[token]);
      t.publish != Direct && t.destination != NoBuffer
  }

  /** The entry's picture still has a target, and the target's buffer does not fit the pool. */
  ghost predicate WaitsForItsPool(s: State, e: Entry) {
    && e.token in s.ledger.pending
    && var destination := s.ledger.Get(s.ledger.pending[e.token]).destination;
       destination.Buffer? && !LaidOutAs(destination.layout, s.pool.layout)
  }

  /** The entry's buffer is in a free slot, preferably the one that last carried it. */
  ghost predicate HandedOver(s: State, q: State, e: Entry) {
    exists slot: nat :: TakesSlot(s.pool.capture, e.fd, slot) && slot < |s.pool.capture|
      && q.pool.capture == s.pool.capture[slot := Frame(true, e.token, e.fd)]
      && q.kernel.capture == s.kernel.capture + multiset{slot}
  }

  /** The first `k` entries of the backlog are gone: they have no descriptor, or nobody waits for their pictures now. Of
      the next one the buffer is handed over, unless its picture is of another geometry, for which everything waits. */
  ghost predicate NextHanded(s: State, q: State, k: nat) {
    && k <= |s.backlog|
    && (forall i :: 0 <= i < k ==> s.backlog[i].fd < 0 || s.backlog[i].token !in q.ledger.pending)
    && if k == |s.backlog| then q.backlog == [] && q.pool == s.pool && q.kernel == s.kernel
       else
         var e := s.backlog[k];
         && e.fd >= 0 && CanTake(q.ledger, e.token)
         && if WaitsForItsPool(q, e) then q.backlog == s.backlog[k..] && q.pool == s.pool && q.kernel == s.kernel
            else q.backlog == s.backlog[k + 1..] && HandedOver(s, q, e)
  }

  /** What becomes of the backlog when nothing is with the firmware. */
  lemma {:induction false} HandsOverNext(s: State) returns (k: nat)
    requires s.pool.memory == Dmabuf && s.pool.capture != []
    ensures !Idle(s.pool.capture) ==> QueueNext(s) == s
    ensures Idle(s.pool.capture) ==> NextHanded(s, QueueNext(s), k)
    decreases |s.backlog|
  {
    hide Ledger.Fail, NextHanded, Misfit, ImportSlot;
    k := 0;
    if !Idle(s.pool.capture) {
    } else if s.backlog == [] {
      NothingToHand(s);
    } else {
      var e := s.backlog[0];
      if e.fd < 0 {
        k := HandsOverNext(s.(backlog := s.backlog[1..]));
        OneDropped(s, s.(backlog := s.backlog[1..]), QueueNext(s), k);
        k := k + 1;
      } else if Bufferless(s.ledger, e.token) {
        var failed := CountError(s.(backlog := s.backlog[1..], ledger := s.ledger.Fail(e.token)));
        k := HandsOverNext(failed);
        FailedIsGone(s.ledger, e.token);
        QueueNextPending(failed);
        OneDropped(s, failed, QueueNext(s), k);
        k := k + 1;
      } else {
        HeadHanded(s);
      }
    }
  }

  lemma NothingToHand(s: State)
    requires s.backlog == []
    ensures NextHanded(s, s, 0)
  {
  }

  lemma OneDropped(s: State, rest: State, q: State, k: nat)
    requires s.backlog != [] && rest.backlog == s.backlog[1..] && rest.pool == s.pool && rest.kernel == s.kernel
    requires s.backlog[0].fd < 0 || s.backlog[0].token !in q.ledger.pending
    requires NextHanded(rest, q, k)
    ensures NextHanded(s, q, k + 1)
  {
    hide CanTake, WaitsForItsPool, TakesSlot;
    assert forall i :: 0 < i <= k ==> s.backlog[i] == rest.backlog[i - 1];
    if k < |rest.backlog| {
      assert s.backlog[k + 1] == rest.backlog[k];
      assert s.backlog[k + 1..] == rest.backlog[k..] && s.backlog[k + 2..] == rest.backlog[k + 1..];
    }
  }

  lemma HeadHanded(s: State)
    requires s.backlog != [] && s.backlog[0].fd >= 0 && !Bufferless(s.ledger, s.backlog[0].token)
    requires s.pool.capture != [] && Idle(s.pool.capture)
    ensures NextHanded(s, if Misfit(s.ledger, s.backlog[0].token, s.pool.layout) then s else GiveBuffer(s), 0)
  {
    hide TakesSlot, ImportSlot;
    var e := s.backlog[0];
    SlotTaken(s.pool.capture, e.fd);
    assert Misfit(s.ledger, e.token, s.pool.layout) <==> WaitsForItsPool(s, e);
    if !Misfit(s.ledger, e.token, s.pool.layout) {
      assert GiveBuffer(s).ledger == s.ledger && GiveBuffer(s).pool.layout == s.pool.layout;
    }
  }

  lemma FailedIsGone(l: Ledger, token: nat)
    ensures token !in l.Fail(token).pending
  {
  }

  lemma SlotTaken(capture: seq<Frame>, fd: int)
    requires Idle(capture) && capture != []
    ensures TakesSlot(capture, fd, ImportSlot(capture, fd)) && ImportSlot(capture, fd) < |capture|
  {
  }

  /** Handing out buffers costs no target its picture that can take one. */
  lemma {:induction false} TakersAreSpared(s: State, token: nat)
    requires Conserved(s.ledger) && token in s.ledger.pending && CanTake(s.ledger, token)
    ensures token in QueueNext(s).ledger.pending
    decreases |s.backlog|
  {
    hide Conserved, Idle, Ledger.Fail;
    if s.pool.memory == Dmabuf && s.backlog != [] && Idle(s.pool.capture) {
      var e := s.backlog[0];
      if e.fd < 0 {
        TakersAreSpared(s.(backlog := s.backlog[1..]), token);
      } else if Bufferless(s.ledger, e.token) {
        FailSpares(s.ledger, e.token, token);
        FailConserves(s.ledger, e.token);
        TakersAreSpared(CountError(s.(backlog := s.backlog[1..], ledger := s.ledger.Fail(e.token))), token);
      }
    }
  }

  /** A submitted access unit is in the first free OUTPUT slot, under a new token, and its target waits for it with
      the policy and buffer it was given; an Import pool that has no buffer for it may have told it at once. */
  lemma Submitted(cfg: Config, outputs: nat, h: seq<Action>, id: nat, publish: Publish, destination: Destination,
                  fd: int)
    requires Legal(cfg, outputs, h) && Enabled(cfg, Replay(cfg, outputs, h), Submit(id, publish, destination, fd))
    ensures var s := Replay(cfg, outputs, h);
            var s' := Step(cfg, s, Submit(id, publish, destination, fd));
            var token, t := s.ledger.next, Target(s.ledger.next, true, false, false, publish, destination, Nothing);
            && s'.ledger.next == token + 1 && s'.stats.submitted == s.stats.submitted + 1 && s'.phase == s.phase
            && (exists slot :: InFirstFree(s, s', slot, token))
            && (if token in s'.ledger.pending then s'.ledger.pending[token] == id && s'.ledger.Get(id) == t
                else s.pool.memory == Dmabuf && s'.ledger.Get(id) == t.(pending := false, error := true))
            && (forall x :: x != id ==> KeptOrTold(s.ledger, s'.ledger, x))
            && (s.pool.memory == Mmap ==>
                  && (forall x :: x != id ==> s'.ledger.Get(x) == s.ledger.Get(x))
                  && s'.ledger.pending == s.ledger.pending[token := id] && s'.backlog == s.backlog
                  && s'.ledger.log == s.ledger.log && s'.stats.errors == s.stats.errors)
  {
    hide Replay, Legal, QueueNext, Conserved;
    TokensAreConserved(cfg, outputs, h);
    var s := Replay(cfg, outputs, h);
    var token, slot := s.ledger.next, FreeOutput(s.pool.outputs, 0);
    var issued := s.ledger.Issue(id, publish, destination);
    IssueConserves(s.ledger, id, publish, destination);
    IssuedOwns(s.ledger, id, publish, destination);
    forall q: State | q.ledger == issued
      ensures QueueNext(q).pool.outputs == q.pool.outputs && QueueNext(q).kernel.output == q.kernel.output
      ensures QueueNext(q).stats.submitted == q.stats.submitted && QueueNext(q).phase == q.phase
      ensures QueueNext(q).ledger.next == token + 1
      ensures forall x :: KeptOrTold(issued, QueueNext(q).ledger, x)
      ensures if token in QueueNext(q).ledger.pending then
                QueueNext(q).ledger.pending[token] == id && QueueNext(q).ledger.Get(id) == issued.Get(id)
              else QueueNext(q).ledger.Get(id) == issued.Get(id).(pending := false, error := true)
    {
      HandingOutKeeps(q);
      QueueNextPending(q);
      forall x
        ensures KeptOrTold(issued, QueueNext(q).ledger, x)
      {
        HandingOutTells(q, x);
      }
      HandingOutTells(q, id);
    }
    assert InFirstFree(s, Step(cfg, s, Submit(id, publish, destination, fd)), slot, token);
  }

  lemma IssuedOwns(l: Ledger, id: nat, publish: Publish, destination: Destination)
    requires Conserved(l) && !l.Get(id).pending
    ensures Owns(l.Issue(id, publish, destination), id)
    ensures forall x, l' :: x != id && KeptOrTold(l.Issue(id, publish, destination), l', x) ==> KeptOrTold(l, l', x)
  {
  }

  ghost predicate InFirstFree(s: State, s': State, slot: nat, token: nat) {
    && slot < |s.pool.outputs| && !s.pool.outputs[slot].queued
    && (forall j :: 0 <= j < slot ==> s.pool.outputs[j].queued)
    && s'.pool.outputs == s.pool.outputs[slot := OutputSlot(true, token)]
    && s'.kernel.output == s.kernel.output + multiset{slot}
  }

  // ---------------------------------------------------------------- a new pool

  /** `t` is the oldest pending token, and its target was submitted for Import. */
  ghost predicate OldestAsks(l: Ledger, t: nat) {
    t in l.pending && (forall u :: u in l.pending ==> t <= u) && l.Get(l.pending[t]).publish == Import
  }

  /** The client's buffer is laid out as the firmware writes a frame of the pool, and large enough. */
  predicate LaidOutAs(client: Layout, capture: Layout) {
    && client.fourcc == capture.fourcc && client.stride == capture.stride
    && client.dataOffset + client.stride * client.storageHeight
       == capture.dataOffset + capture.stride * capture.storageHeight
    && client.size >= capture.size
  }

  /** The contract for Import: a qualified codec, output in decode order, and a first picture that asks for it and
      brings a buffer with the layout of the pool. */
  ghost predicate ImportContract(cfg: Config, l: Ledger, layout: Layout) {
    && cfg.importAllowed && cfg.decodeOrder
    && exists t :: OldestAsks(l, t) && FitsPool(l.Get(l.pending[t]).destination, layout)
  }

  predicate FitsPool(destination: Destination, layout: Layout) {
    destination.Buffer? && LaidOutAs(destination.layout, layout)
  }

  lemma {:induction false} FirstIsOldest(pending: map<nat, nat>, t: nat, bound: nat)
    requires t <= bound
    ensures forall u :: t <= u < FirstPending(pending, t, bound) ==> u !in pending
    decreases bound - t
  {
    if t < bound && t !in pending {
      FirstIsOldest(pending, t + 1, bound);
    }
  }

  lemma ContractGrants(cfg: Config, l: Ledger, layout: Layout)
    requires Conserved(l)
    ensures AsksImport(l) <==> exists t :: OldestAsks(l, t)
    ensures GrantsImport(cfg, l, layout) <==> ImportContract(cfg, l, layout)
  {
    PendingBelow(l);
    hide Conserved;
    var first := FirstPending(l.pending, 0, l.next);
    FirstIsOldest(l.pending, 0, l.next);
    assert forall t :: t in l.pending ==> t < l.next;
    forall t | OldestAsks(l, t)
      ensures t == first
    {
      assert first in l.pending;
    }
    assert AsksImport(l) ==> OldestAsks(l, first);
  }

  /** The new pool is one of client buffers exactly if the contract holds; a first picture that asks in vain is put on
      record. Every slot of any other pool goes to the firmware, and no target is affected. */
  lemma PoolBuilt(cfg: Config, outputs: nat, h: seq<Action>, layout: Layout, count: nat, fds: map<nat, int>)
    requires Legal(cfg, outputs, h) && Enabled(cfg, Replay(cfg, outputs, h), ConfigureCapture(layout, count, fds))
    ensures var s := Replay(cfg, outputs, h);
            var s' := Step(cfg, s, ConfigureCapture(layout, count, fds));
            && s'.phase == Streaming && !s'.sourceChange && !s'.sawLast
            && s'.pool.layout == layout && |s'.pool.capture| == count && s'.pool.outputs == s.pool.outputs
            && (s'.pool.memory == Dmabuf <==> ImportContract(cfg, s.ledger, layout))
            && (s'.importRejected <==>
                  s.importRejected || (s'.pool.memory == Mmap && exists t :: OldestAsks(s.ledger, t)))
            && (s'.pool.memory == Mmap ==>
                  && s'.ledger == s.ledger && s'.backlog == s.backlog && s'.stats == s.stats
                  && forall i :: 0 <= i < count ==> s'.pool.capture[i] == Frame(true, 0, -1))
            && (forall id :: KeptOrTold(s.ledger, s'.ledger, id))
  {
    hide Replay, Legal, QueueNext, Conserved, Requeued, Gathered, GrantsImport, AsksImport, Owned;
    TokensAreConserved(cfg, outputs, h);
    HeldFramesAreCurrent(cfg, outputs, h);
    var s := Replay(cfg, outputs, h);
    ContractGrants(cfg, s.ledger, layout);
    var p := NewPool(cfg, s, layout, count);
    var g := p.(backlog := Gathered(p.ledger, p.backlog, fds, p.ledger.next));
    HandingOutKeeps(g);
    forall id
      ensures KeptOrTold(s.ledger, QueueNext(g).ledger, id)
    {
      HandingOutTells(g, id);
    }
    KeepsSlots(g);
    NothingHeld(p);
    RequeuedExactly(p.pool.capture, p.kernel.capture, p.ledger.HeldSlots(p.generation), 0);
  }

  lemma {:induction false} KeepsSlots(s: State)
    ensures |QueueNext(s).pool.capture| == |s.pool.capture|
    decreases |s.backlog|
  {
    hide Idle;
    if s.pool.memory == Dmabuf && s.backlog != [] && Idle(s.pool.capture) {
      var e := s.backlog[0];
      if e.fd < 0 {
        KeepsSlots(s.(backlog := s.backlog[1..]));
      } else if Bufferless(s.ledger, e.token) {
        KeepsSlots(CountError(s.(backlog := s.backlog[1..], ledger := s.ledger.Fail(e.token))));
      }
    }
  }

  lemma NothingHeld(s: State)
    requires forall id :: s.ledger.Get(id).frame == Nothing
    ensures s.ledger.HeldSlots(s.generation) == {}
  {
    forall id | id in s.ledger.targets
      ensures !s.ledger.targets[id].frame.Holding?
    {
      assert s.ledger.Get(id).frame == Nothing;
    }
  }

  /** The token belongs into the backlog of a new pool: it is pending, its target has a buffer, and it is not there. */
  ghost predicate Missing(l: Ledger, backlog: seq<Entry>, t: nat) {
    t in l.pending && l.Get(l.pending[t]).destination.Buffer? && forall e :: e in backlog ==> e.token != t
  }

  /** What is in the backlog stays in front; every missing token follows once, oldest first, with its descriptor. */
  lemma {:induction false} GatheredExactly(l: Ledger, backlog: seq<Entry>, fds: map<nat, int>, n: nat)
    ensures var g := Gathered(l, backlog, fds, n);
            && backlog <= g
            && (forall i, j :: |backlog| <= i < j < |g| ==> g[i].token < g[j].token)
            && (forall i :: |backlog| <= i < |g| ==>
                  && g[i].token < n && Missing(l, backlog, g[i].token)
                  && g[i].fd == if g[i].token in fds then fds[g[i].token] else -1)
            && (forall t: nat :: t < n && Missing(l, backlog, t) ==> exists e :: e in g && e.token == t)
  {
    if n > 0 {
      GatheredExactly(l, backlog, fds, n - 1);
      var b, g := Gathered(l, backlog, fds, n - 1), Gathered(l, backlog, fds, n);
      ListedMeans(b, n - 1);
      assert b <= g;
      forall t: nat | t < n && Missing(l, backlog, t)
        ensures exists e :: e in g && e.token == t
      {
        if t < n - 1 {
          var e :| e in b && e.token == t;
          assert e in g;
        } else if g != b {
          assert g[|b|] in g;
        }
      }
    }
  }

  lemma ListedMeans(backlog: seq<Entry>, t: nat)
    ensures Listed(backlog, t) <==> exists e :: e in backlog && e.token == t
  {
    forall e | e in backlog && e.token == t
      ensures Listed(backlog, t)
    {
      var i :| 0 <= i < |backlog| && backlog[i] == e;
    }
  }

  // ---------------------------------------------------------------- the end of a drain, and failure

  lemma {:induction false} FailExceptTells(l: Ledger, keep: set<nat>, n: nat, id: nat)
    requires Conserved(l)
    ensures l.FailExcept(keep, n).Get(id)
         == if Owns(l, id) && l.Get(id).token < n && l.Get(id).token !in keep
            then l.Get(id).(pending := false, error := true) else l.Get(id)
  {
    hide Conserved;
    if n > 0 {
      var m := l.FailExcept(keep, n - 1);
      FailExceptTells(l, keep, n - 1, id);
      FailExceptConserves(l, keep, n - 1);
      FailExceptPending(l, keep, n - 1);
      FailTells(m, n - 1, id);
      TokensMatch(l);
    }
  }

  lemma TokensMatch(l: Ledger)
    requires Conserved(l)
    ensures forall t :: t in l.pending ==> l.Get(l.pending[t]).token == t && l.Get(l.pending[t]).pending
  {
  }

  /** The pending tokens below `n` that are not in `keep`. */
  function Lost(pending: map<nat, nat>, keep: set<nat>, n: nat): set<nat> {
    set t | t in pending && t < n && t !in keep
  }

  lemma {:induction false} LostCount(pending: map<nat, nat>, keep: set<nat>, n: nat)
    ensures LostBelow(pending, keep, n) == |Lost(pending, keep, n)|
  {
    if n > 0 {
      LostCount(pending, keep, n - 1);
      if n - 1 in pending && n - 1 !in keep {
        assert Lost(pending, keep, n) == Lost(pending, keep, n - 1) + {n - 1};
      } else {
        assert Lost(pending, keep, n) == Lost(pending, keep, n - 1);
      }
    } else {
      assert Lost(pending, keep, n) == {};
    }
  }

  /** The firmware has not given the token's OUTPUT buffer back. */
  ghost predicate StillQueued(outputs: seq<OutputSlot>, token: nat) {
    exists i :: 0 <= i < |outputs| && outputs[i].queued && outputs[i].token == token
  }

  /** At the end of a drain exactly the targets are told whose OUTPUT buffer is back, and each is counted once. */
  lemma DrainEnded(cfg: Config, outputs: nat, h: seq<Action>)
    requires Legal(cfg, outputs, h) && Enabled(cfg, Replay(cfg, outputs, h), DrainEnd)
    ensures var s := Replay(cfg, outputs, h);
            var s', l := Step(cfg, s, DrainEnd), s.ledger;
            && s'.phase == RestartPending && s'.pool == s.pool && s'.kernel == s.kernel && s'.backlog == s.backlog
            && (forall id :: s'.ledger.Get(id) ==
                  if Owns(l, id) && !StillQueued(s.pool.outputs, l.Get(id).token)
                  then l.Get(id).(pending := false, error := true) else l.Get(id))
            && (forall t :: t in s'.ledger.pending <==> t in l.pending && StillQueued(s.pool.outputs, t))
            && s'.stats == s.stats.(errors := s.stats.errors
                 + |set t | t in l.pending && !StillQueued(s.pool.outputs, t)|)
  {
    hide Replay, Legal, Conserved, Ledger.FailExcept, LostBelow, Owed;
    TokensAreConserved(cfg, outputs, h);
    var s := Replay(cfg, outputs, h);
    var l, owed := s.ledger, Owed(s.pool.outputs);
    OwedAreQueued(s.pool.outputs);
    PendingBelow(l);
    FailExceptPending(l, owed, l.next);
    LostCount(l.pending, owed, l.next);
    assert (set t | t in l.pending && !StillQueued(s.pool.outputs, t)) == Lost(l.pending, owed, l.next);
    forall id
      ensures l.FailExcept(owed, l.next).Get(id) ==
              if Owns(l, id) && !StillQueued(s.pool.outputs, l.Get(id).token)
              then l.Get(id).(pending := false, error := true) else l.Get(id)
    {
      FailExceptTells(l, owed, l.next, id);
    }
  }

  lemma OwedAreQueued(outputs: seq<OutputSlot>)
    ensures forall t :: t in Owed(outputs) <==> StillQueued(outputs, t)
  {
  }

  /** When the session fails, every target that is waiting is told, and nothing is pending any more. */
  lemma SessionFailed(cfg: Config, outputs: nat, h: seq<Action>)
    requires Legal(cfg, outputs, h) && Enabled(cfg, Replay(cfg, outputs, h), Action.Fail)
    ensures var s := Replay(cfg, outputs, h);
            var s', l := Step(cfg, s, Action.Fail), s.ledger;
            && s' == s.(phase := Failed, ledger := s'.ledger, backlog := [])
            && s'.ledger.pending == map[]
            && forall id :: s'.ledger.Get(id) ==
                 if Owns(l, id) then l.Get(id).(pending := false, error := true) else l.Get(id)
  {
    hide Replay, Legal, Conserved, Ledger.FailExcept;
    TokensAreConserved(cfg, outputs, h);
    var s := Replay(cfg, outputs, h);
    var l := s.ledger;
    PendingBelow(l);
    FailExceptPending(l, {}, l.next);
    forall id
      ensures l.FailExcept({}, l.next).Get(id) ==
              if Owns(l, id) then l.Get(id).(pending := false, error := true) else l.Get(id)
    {
      FailExceptTells(l, {}, l.next, id);
    }
  }

  // ---------------------------------------------------------------- the counters

  function CountOf(log: seq<Event>, fate: Fate): nat {
    if log == [] then 0 else CountOf(log[..|log| - 1], fate) + (if log[|log| - 1].fate == fate then 1 else 0)
  }

  /** Every submitted picture is pending or has had its fate, and the published ones are the completed ones. */
  ghost predicate Balanced(l: Ledger, submitted: nat, completed: nat) {
    && l.next == submitted + 1 && Tokens(l) == submitted
    && completed == CountOf(l.log, Published)
  }

  /** The tokens that are pending and those that have had their fate. */
  function Tokens(l: Ledger): nat {
    |l.pending| + |l.log|
  }

  /** Nothing was submitted or published in between. */
  ghost predicate SameBalance(l: Ledger, l': Ledger) {
    && l'.next == l.next && Tokens(l') == Tokens(l)
    && CountOf(l'.log, Published) == CountOf(l.log, Published)
  }

  lemma SettleBalance(l: Ledger, token: nat, fate: Fate, after: Target)
    requires token in l.pending
    ensures var l' := l.Settle(token, fate, after);
            && l'.next == l.next && Tokens(l') == Tokens(l)
            && CountOf(l'.log, Published) == CountOf(l.log, Published) + (if fate == Published then 1 else 0)
  {
    var e := Event(token, fate);
    assert (l.log + [e])[..|l.log|] == l.log && (l.log + [e])[|l.log|] == e;
    FewerPending(l.pending, token);
  }

  lemma FewerPending(pending: map<nat, nat>, token: nat)
    requires token in pending
    ensures |pending - {token}| + 1 == |pending|
  {
    var less := pending - {token};
    assert less.Keys == pending.Keys - {token};
  }

  lemma FailBalance(l: Ledger, token: nat)
    ensures SameBalance(l, l.Fail(token))
  {
    hide Ledger.Settle;
    if token in l.pending {
      SettleBalance(l, token, Errored, l.Get(l.pending[token]).(pending := false, error := true));
    }
  }

  lemma {:induction false} FailExceptBalance(l: Ledger, keep: set<nat>, n: nat)
    ensures SameBalance(l, l.FailExcept(keep, n))
  {
    hide Ledger.Fail, CountOf;
    if n > 0 {
      FailExceptBalance(l, keep, n - 1);
      FailBalance(l.FailExcept(keep, n - 1), n - 1);
    }
  }

  lemma {:induction false} HandingOutBalance(s: State)
    ensures SameBalance(s.ledger, QueueNext(s).ledger)
    decreases |s.backlog|
  {
    hide Idle, Ledger.Fail, CountOf;
    if s.pool.memory == Dmabuf && s.backlog != [] && Idle(s.pool.capture) {
      var e := s.backlog[0];
      if e.fd < 0 {
        HandingOutBalance(s.(backlog := s.backlog[1..]));
      } else if Bufferless(s.ledger, e.token) {
        FailBalance(s.ledger, e.token);
        HandingOutBalance(CountError(s.(backlog := s.backlog[1..], ledger := s.ledger.Fail(e.token))));
      }
    }
  }

  lemma ReleaseBalance(l: Ledger, id: nat)
    requires Conserved(l)
    ensures SameBalance(l, l.Release(id))
  {
    var t := l.Get(id);
    if t.pending && t.token in l.pending {
      StrandedIsSettled(l, t.token);
      hide Conserved;
      assert l.pending[t.token] == id;
      var cleared := t.(pending := false, frame := Nothing, completed := false, error := false, token := 0);
      SettleBalance(l, t.token, Fate.Released, cleared);
    }
  }

  lemma IssueBalance(l: Ledger, id: nat, publish: Publish, destination: Destination)
    requires Conserved(l)
    ensures var l' := l.Issue(id, publish, destination);
            && l'.next == l.next + 1 && Tokens(l') == Tokens(l) + 1 && l'.log == l.log
  {
    PendingBelow(l);
    var l' := l.Issue(id, publish, destination);
    assert l'.pending - {l.next} == l.pending;
    FewerPending(l'.pending, l.next);
  }

  /** What a completion adds to the counter is what it publishes. */
  ghost predicate Counted(s: State, s': State) {
    && s'.ledger.next == s.ledger.next && s'.stats.submitted == s.stats.submitted
    && Tokens(s'.ledger) == Tokens(s.ledger)
    && s'.stats.completed - s.stats.completed
       == CountOf(s'.ledger.log, Published) - CountOf(s.ledger.log, Published)
  }

  lemma PublishCounted(cfg: Config, s: State, token: nat, index: nat, copyFails: bool)
    requires token in s.ledger.pending
    ensures Counted(s, PublishStep(cfg, s, token, index, copyFails))
  {
    hide Ledger.Settle, CountOf, Tokens, Delivered, Copies;
    var t := s.ledger.Get(s.ledger.pending[token]);
    SettleBalance(s.ledger, token, Stranded, t.(publish := Copy));
    SettleBalance(s.ledger, token, Errored, t.(publish := Copy, pending := false, error := true));
    SettleBalance(s.ledger, token, Published, Delivered(s, t, index));
  }

  lemma DeliverCounted(cfg: Config, s: State, d: Completion, owner: nat, copyFails: bool)
    ensures Counted(s, Deliver(cfg, s, d, owner, copyFails))
  {
    hide Ledger.Fail, CountOf, Tokens, PublishStep;
    FailBalance(s.ledger, d.timestamp);
    FailBalance(s.ledger.Fail(d.timestamp), owner);
    if d.timestamp in s.ledger.pending {
      PublishCounted(cfg, s, d.timestamp, d.index, copyFails);
    }
  }

  lemma CaptureCounted(cfg: Config, s: State, d: Completion, copyFails: bool)
    requires d.index < |s.pool.capture|
    ensures Counted(s, CaptureStep(cfg, s, d, copyFails))
  {
    hide QueueNext, Deliver, CountOf, Tokens;
    var taken := Taken(s, d.index);
    HandingOutBalance(taken);
    HandingOutKeeps(taken);
    DeliverCounted(cfg, NoteLast(NextIfStreaming(taken), d.last), d, s.pool.capture[d.index].importToken, copyFails);
  }

  lemma SubmitCounted(s: State, id: nat, publish: Publish, destination: Destination, fd: int)
    requires Conserved(s.ledger) && FreeOutput(s.pool.outputs, 0) < |s.pool.outputs|
    ensures var s' := SubmitStep(s, id, publish, destination, fd);
            && s'.ledger.next == s.ledger.next + 1 && Tokens(s'.ledger) == Tokens(s.ledger) + 1
            && CountOf(s'.ledger.log, Published) == CountOf(s.ledger.log, Published)
            && s'.stats.submitted == s.stats.submitted + 1 && s'.stats.completed == s.stats.completed
  {
    hide QueueNext, CountOf, Tokens, Conserved, Ledger.Issue, FreeOutput;
    var issued := s.ledger.Issue(id, publish, destination);
    IssueBalance(s.ledger, id, publish, destination);
    forall q: State | q.ledger == issued
      ensures Counted(q, QueueNext(q)) && QueueNext(q).stats.completed == q.stats.completed
    {
      HandedCounted(q);
    }
  }

  lemma HandedCounted(s: State)
    ensures Counted(s, QueueNext(s)) && QueueNext(s).stats.completed == s.stats.completed
  {
    hide QueueNext, CountOf, Tokens;
    HandingOutBalance(s);
    HandingOutKeeps(s);
  }

  lemma ConfigureCounted(cfg: Config, s: State, layout: Layout, count: nat, fds: map<nat, int>)
    ensures Counted(s, ConfigureStep(cfg, s, layout, count, fds))
  {
    hide QueueNext, CountOf, Tokens, Gathered, Requeued, NewPool;
    var p := NewPool(cfg, s, layout, count);
    NewPoolBalance(cfg, s, layout, count);
    HandingOutBalance(p.(backlog := Gathered(p.ledger, p.backlog, fds, p.ledger.next)));
    HandingOutKeeps(p.(backlog := Gathered(p.ledger, p.backlog, fds, p.ledger.next)));
  }

  lemma FeedCounted(s: State, scratch: int)
    ensures Counted(s, DrainFeedStep(s, scratch))
  {
    hide QueueNext, CountOf, Tokens, Requeued, QueueScratch;
    HandingOutBalance(s);
    HandingOutKeeps(s);
    ScratchBalance(QueueNext(s), scratch);
  }

  lemma StepBalanced(cfg: Config, s: State, a: Action)
    requires Enabled(cfg, s, a) && Conserved(s.ledger)
    requires Balanced(s.ledger, s.stats.submitted, s.stats.completed)
    ensures var s' := Step(cfg, s, a); Balanced(s'.ledger, s'.stats.submitted, s'.stats.completed)
  {
    hide Conserved, SubmitStep, CaptureStep, ConfigureStep, DrainFeedStep, Requeued, Ledger.Fail, Ledger.FailExcept,
         Ledger.Release, CountOf, Tokens, LostBelow, Returned;
    match a
    case Release(id) => ReleaseBalance(s.ledger, id);
    case Submit(id, publish, destination, fd) => SubmitCounted(s, id, publish, destination, fd);
    case OutputReturn(index, error) => FailBalance(s.ledger, s.pool.outputs[index].token);
    case CaptureReturn(d, copyFails) => CaptureCounted(cfg, s, d, copyFails);
    case ConfigureCapture(layout, count, fds) => ConfigureCounted(cfg, s, layout, count, fds);
    case DrainFeed(scratch) => FeedCounted(s, scratch);
    case DrainEnd => FailExceptBalance(s.ledger, Owed(s.pool.outputs), s.ledger.next);
    case Timeout(id) =>
      FailBalance(s.ledger, s.ledger.Get(id).token);
      TargetsBalance(s.ledger, Step(cfg, s, a).ledger.targets);
    case Fail => FailExceptBalance(s.ledger, {}, s.ledger.next);
    case _ =>
  }

  lemma TargetsBalance(l: Ledger, targets: map<nat, Target>)
    ensures SameBalance(l, l.(targets := targets))
  {
  }

  lemma NewPoolBalance(cfg: Config, s: State, layout: Layout, count: nat)
    ensures NewPool(cfg, s, layout, count).ledger == s.ledger && NewPool(cfg, s, layout, count).stats == s.stats
  {
  }

  lemma ScratchBalance(s: State, scratch: int)
    ensures QueueScratch(s, scratch).ledger == s.ledger && QueueScratch(s, scratch).stats == s.stats
  {
  }

  /** The counters that the session reports are exact in every run: what was submitted is what is pending and what
      has had its fate, and what was completed is what was published. */
  lemma {:induction false} CountersAreExact(cfg: Config, outputs: nat, h: seq<Action>)
    requires Legal(cfg, outputs, h)
    ensures var s := Replay(cfg, outputs, h); Balanced(s.ledger, s.stats.submitted, s.stats.completed)
    decreases |h|
  {
    if h != [] {
      var n := |h| - 1;
      CountersAreExact(cfg, outputs, h[..n]);
      TokensAreConserved(cfg, outputs, h[..n]);
      hide Conserved, Step, Enabled, Balanced;
      StepBalanced(cfg, Replay(cfg, outputs, h[..n]), h[n]);
    }
  }
}
