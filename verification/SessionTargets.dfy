/** What a caller can rely on for its own target between handing it in and taking it back. */
module SessionTargets {
  import opened Slots
  import opened SessionModel
  import opened SessionTokens
  import opened SessionImport

  /** The target waits for its own token. */
  predicate Waits(l: Ledger, id: nat) {
    Owns(l, id) && l.Get(id).pending
  }

  /** It was told what became of its token; a success is one that is on record. Or it was stranded. */
  ghost predicate Resolved(l: Ledger, id: nat) {
    var t := l.Get(id);
    || (!t.pending && t.error)
    || (!t.pending && !t.error && t.completed && IsPublished(l, t.token))
    || (t.pending && t.token !in l.pending)
  }

  /** A waiting target is left alone or told; any other is left alone. */
  ghost predicate Follows(l: Ledger, l': Ledger, id: nat) {
    && (forall t :: IsPublished(l, t) ==> IsPublished(l', t))
    && l'.Get(id).token == l.Get(id).token
    && if Waits(l, id) then (Waits(l', id) && l'.Get(id) == l.Get(id)) || Resolved(l', id)
       else l'.Get(id) == l.Get(id) || (l.Get(id).pending && Resolved(l', id))
  }

  /** An action by which the caller itself takes the target back or reuses it. */
  predicate Concerns(a: Action, id: nat) {
    (a.Release? || a.Submit?) && a.id == id
  }

  lemma FollowsItself(l: Ledger, id: nat)
    ensures Follows(l, l, id)
  {
  }

  lemma FollowsOn(a: Ledger, b: Ledger, c: Ledger, id: nat)
    requires Follows(a, b, id) && Follows(b, c, id)
    requires forall t :: t in b.pending || t !in c.pending || t >= b.next
    requires b.Get(id).pending ==> b.Get(id).token < b.next
    ensures Follows(a, c, id)
  {
  }

  lemma SettleFollows(l: Ledger, token: nat, fate: Fate, after: Target, id: nat)
    requires Conserved(l) && token in l.pending
    requires after.token == token && (!after.pending ==> after.error || (after.completed && fate == Published))
    ensures Follows(l, l.Settle(token, fate, after), id)
  {
    assert l.Get(l.pending[token]).token == token;
    var l' := l.Settle(token, fate, after);
    assert l'.log[|l.log|] == Event(token, fate);
    forall t | IsPublished(l, t)
      ensures IsPublished(l', t)
    {
    }
  }

  lemma FailFollows(l: Ledger, token: nat, id: nat)
    requires Conserved(l)
    ensures Follows(l, l.Fail(token), id)
    ensures l.Fail(token).next == l.next && forall t :: t in l.Fail(token).pending ==> t in l.pending
  {
    FollowsItself(l, id);
    if token in l.pending {
      assert l.Get(l.pending[token]).token == token;
      hide Conserved, Follows;
      SettleFollows(l, token, Errored, l.Get(l.pending[token]).(pending := false, error := true), id);
    }
  }

  /** A pending target's token was issued. */
  lemma TokenIssued(l: Ledger, id: nat)
    requires Conserved(l)
    ensures l.Get(id).pending ==> l.Get(id).token < l.next
  {
    if l.Get(id).pending && Event(l.Get(id).token, Stranded) in l.log {
      var i :| 0 <= i < |l.log| && l.log[i] == Event(l.Get(id).token, Stranded);
      assert Logged(l.log, l.log[i].token);
    }
  }

  lemma {:induction false} FailExceptFollows(l: Ledger, keep: set<nat>, n: nat, id: nat)
    requires Conserved(l)
    ensures Follows(l, l.FailExcept(keep, n), id)
    ensures l.FailExcept(keep, n).next == l.next && forall t :: t in l.FailExcept(keep, n).pending ==> t in l.pending
  {
    hide Conserved, Follows;
    if n == 0 {
      FollowsItself(l, id);
    } else {
      var m := l.FailExcept(keep, n - 1);
      FailExceptFollows(l, keep, n - 1, id);
      FailExceptConserves(l, keep, n - 1);
      TokenIssued(m, id);
      FailFollows(m, n - 1, id);
      if n - 1 !in keep {
        FollowsOn(l, m, m.Fail(n - 1), id);
      }
    }
  }

  lemma {:induction false} QueueNextFollows(s: State, id: nat)
    requires Conserved(s.ledger)
    ensures Follows(s.ledger, QueueNext(s).ledger, id)
    decreases |s.backlog|
  {
    hide Conserved, Follows, Idle;
    FollowsItself(s.ledger, id);
    if s.pool.memory == Dmabuf && s.backlog != [] && Idle(s.pool.capture) {
      var e := s.backlog[0];
      if e.fd < 0 {
        QueueNextFollows(s.(backlog := s.backlog[1..]), id);
      } else if Bufferless(s.ledger, e.token) {
        var failed := CountError(s.(backlog := s.backlog[1..], ledger := s.ledger.Fail(e.token)));
        FailConserves(s.ledger, e.token);
        FailFollows(s.ledger, e.token, id);
        QueueNextFollows(failed, id);
        QueueNextPending(failed);
        TokenIssued(failed.ledger, id);
        FollowsOn(s.ledger, failed.ledger, QueueNext(failed).ledger, id);
      }
    }
  }

  lemma PublishFollows(cfg: Config, s: State, token: nat, index: nat, copyFails: bool, id: nat)
    requires Conserved(s.ledger) && token in s.ledger.pending
    ensures Follows(s.ledger, PublishStep(cfg, s, token, index, copyFails).ledger, id)
  {
    var t := s.ledger.Get(s.ledger.pending[token]);
    assert t.token == token && t.pending;
    hide Conserved, Follows, Copies;
    if PublishStep(cfg, s, token, index, copyFails).ledger
        == s.ledger.Settle(token, Published, Delivered(s, t, index)) {
      SettleFollows(s.ledger, token, Published, Delivered(s, t, index), id);
    } else if copyFails {
      SettleFollows(s.ledger, token, Errored, t.(publish := Copy, pending := false, error := true), id);
    }
    SettleFollows(s.ledger, token, Stranded, t.(publish := Copy), id);
  }

  lemma DeliverFollows(cfg: Config, s: State, d: Completion, owner: nat, copyFails: bool, id: nat)
    requires Conserved(s.ledger)
    ensures Follows(s.ledger, Deliver(cfg, s, d, owner, copyFails).ledger, id)
    ensures forall t :: t in Deliver(cfg, s, d, owner, copyFails).ledger.pending ==> t in s.ledger.pending
  {
    hide Conserved, Follows, PublishStep;
    FollowsItself(s.ledger, id);
    FailFollows(s.ledger, d.timestamp, id);
    FailConserves(s.ledger, d.timestamp);
    TokenIssued(s.ledger.Fail(d.timestamp), id);
    FailFollows(s.ledger.Fail(d.timestamp), owner, id);
    FollowsOn(s.ledger, s.ledger.Fail(d.timestamp), s.ledger.Fail(d.timestamp).Fail(owner), id);
    if d.timestamp in s.ledger.pending {
      PublishFollows(cfg, s, d.timestamp, d.index, copyFails, id);
      PublishPending(cfg, s, d.timestamp, d.index, copyFails);
    }
  }

  lemma PublishPending(cfg: Config, s: State, token: nat, index: nat, copyFails: bool)
    requires token in s.ledger.pending
    ensures forall t :: t in PublishStep(cfg, s, token, index, copyFails).ledger.pending ==> t in s.ledger.pending
  {
  }

  lemma CaptureFollows(cfg: Config, s: State, d: Completion, copyFails: bool, id: nat)
    requires Conserved(s.ledger) && d.index < |s.pool.capture|
    ensures Follows(s.ledger, CaptureStep(cfg, s, d, copyFails).ledger, id)
  {
    hide Conserved, Follows, QueueNext, Deliver;
    var taken := Taken(s, d.index);
    QueueNextFollows(taken, id);
    QueueNextConserves(taken);
    QueueNextPending(taken);
    FollowsItself(s.ledger, id);
    var next := NextIfStreaming(taken);
    var last := NoteLast(next, d.last);
    TokenIssued(next.ledger, id);
    DeliverFollows(cfg, last, d, s.pool.capture[d.index].importToken, copyFails, id);
    FollowsOn(s.ledger, next.ledger, CaptureStep(cfg, s, d, copyFails).ledger, id);
  }

  lemma SubmitFollows(s: State, x: nat, publish: Publish, destination: Destination, fd: int, id: nat)
    requires Conserved(s.ledger) && !s.ledger.Get(x).pending && x != id
    requires FreeOutput(s.pool.outputs, 0) < |s.pool.outputs|
    ensures Follows(s.ledger, SubmitStep(s, x, publish, destination, fd).ledger, id)
  {
    IssueConserves(s.ledger, x, publish, destination);
    TokenIssued(s.ledger, id);
    TokenIssued(s.ledger.Issue(x, publish, destination), id);
    hide Conserved, QueueNext;
    var issued := s.ledger.Issue(x, publish, destination);
    assert Follows(s.ledger, issued, id);
    hide Follows;
    forall s': State | s'.ledger == issued
      ensures Follows(issued, QueueNext(s').ledger, id) && Follows(s.ledger, QueueNext(s').ledger, id)
    {
      QueueNextFollows(s', id);
      QueueNextPending(s');
      FollowsOn(s.ledger, issued, QueueNext(s').ledger, id);
    }
  }

  lemma ReleaseFollows(l: Ledger, x: nat, id: nat)
    requires Conserved(l) && x != id
    ensures Follows(l, l.Release(x), id)
  {
    assert forall t :: t in l.pending ==> l.Get(l.pending[t]).token == t;
  }

  lemma TimeoutFollows(s: State, x: nat, id: nat)
    requires Conserved(s.ledger) && s.ledger.Get(x).pending
    ensures Follows(s.ledger, TimeoutStep(s, x).ledger, id)
  {
    FailFollows(s.ledger, s.ledger.Get(x).token, id);
  }

  lemma StepFollows(cfg: Config, s: State, a: Action, id: nat)
    requires Enabled(cfg, s, a) && Conserved(s.ledger) && !Concerns(a, id)
    ensures Follows(s.ledger, Step(cfg, s, a).ledger, id)
  {
    hide Conserved, Follows, QueueNext, QueueScratch, Requeued, SubmitStep, CaptureStep, NewPool, Gathered, TimeoutStep;
    FollowsItself(s.ledger, id);
    match a
    case Release(x) => ReleaseFollows(s.ledger, x, id);
    case Submit(x, publish, destination, fd) => SubmitFollows(s, x, publish, destination, fd, id);
    case OutputReturn(index, error) => FailFollows(s.ledger, s.pool.outputs[index].token, id);
    case CaptureReturn(d, copyFails) => CaptureFollows(cfg, s, d, copyFails, id);
    case ConfigureCapture(layout, count, fds) =>
      var p := NewPool(cfg, s, layout, count);
      NewPoolKeeps(cfg, s, layout, count);
      QueueNextFollows(p.(backlog := Gathered(p.ledger, p.backlog, fds, p.ledger.next)), id);
    case DrainFeed(scratch) =>
      QueueNextFollows(s, id);
      ScratchKeepsLedger(QueueNext(s), scratch);
    case DrainEnd => FailExceptFollows(s.ledger, Owed(s.pool.outputs), s.ledger.next, id);
    case Timeout(x) => TimeoutFollows(s, x, id);
    case Fail => FailExceptFollows(s.ledger, {}, s.ledger.next, id);
    case _ =>
  }

  /** No action brings an old token back. */
  lemma StepPending(cfg: Config, s: State, a: Action)
    requires Enabled(cfg, s, a) && Conserved(s.ledger)
    ensures Step(cfg, s, a).ledger.next >= s.ledger.next
    ensures forall t :: t in Step(cfg, s, a).ledger.pending ==> t in s.ledger.pending || t >= s.ledger.next
  {
    hide Conserved, QueueNext, QueueScratch, Requeued, SubmitStep, CaptureStep, NewPool, Gathered;
    match a
    case Submit(id, publish, destination, fd) => SubmitPending(s, id, publish, destination, fd);
    case OutputReturn(index, error) => FailFollows(s.ledger, s.pool.outputs[index].token, 0);
    case CaptureReturn(d, copyFails) => CapturePending(cfg, s, d, copyFails);
    case ConfigureCapture(layout, count, fds) =>
      var p := NewPool(cfg, s, layout, count);
      NewPoolKeeps(cfg, s, layout, count);
      QueueNextPending(p.(backlog := Gathered(p.ledger, p.backlog, fds, p.ledger.next)));
    case DrainFeed(scratch) =>
      QueueNextPending(s);
      ScratchKeepsLedger(QueueNext(s), scratch);
    case DrainEnd => FailExceptFollows(s.ledger, Owed(s.pool.outputs), s.ledger.next, 0);
    case Timeout(x) => FailFollows(s.ledger, s.ledger.Get(x).token, 0);
    case Fail => FailExceptFollows(s.ledger, {}, s.ledger.next, 0);
    case _ =>
  }

  lemma SubmitPending(s: State, id: nat, publish: Publish, destination: Destination, fd: int)
    requires FreeOutput(s.pool.outputs, 0) < |s.pool.outputs|
    ensures SubmitStep(s, id, publish, destination, fd).ledger.next == s.ledger.next + 1
    ensures forall t :: t in SubmitStep(s, id, publish, destination, fd).ledger.pending ==>
              t in s.ledger.pending || t >= s.ledger.next
  {
    hide QueueNext;
    forall s': State
      ensures QueueNext(s').ledger.next == s'.ledger.next
      ensures forall t :: t in QueueNext(s').ledger.pending ==> t in s'.ledger.pending
    {
      QueueNextPending(s');
    }
  }

  lemma CapturePending(cfg: Config, s: State, d: Completion, copyFails: bool)
    requires Conserved(s.ledger) && d.index < |s.pool.capture|
    ensures CaptureStep(cfg, s, d, copyFails).ledger.next == s.ledger.next
    ensures forall t :: t in CaptureStep(cfg, s, d, copyFails).ledger.pending ==> t in s.ledger.pending
  {
    hide Conserved, QueueNext, Deliver;
    var taken := Taken(s, d.index);
    QueueNextConserves(taken);
    QueueNextPending(taken);
    var next := NextIfStreaming(taken);
    var last := NoteLast(next, d.last);
    DeliverFollows(cfg, last, d, s.pool.capture[d.index].importToken, copyFails, 0);
    DeliverKeeps(cfg, last, d, s.pool.capture[d.index].importToken, copyFails);
  }

  /** From any point of a run on, as long as its caller neither releases nor reuses it: a waiting target stays
      as it is until it is told, a success being a published token; and a target that is not waiting, because
      it was released, reused or told, is never touched, however late a completion comes. */
  lemma {:induction false} TargetsAreTold(cfg: Config, outputs: nat, h: seq<Action>, k: nat, id: nat)
    requires Legal(cfg, outputs, h) && k <= |h| && Legal(cfg, outputs, h[..k])
    requires forall i :: k <= i < |h| ==> !Concerns(h[i], id)
    ensures Follows(Replay(cfg, outputs, h[..k]).ledger, Replay(cfg, outputs, h).ledger, id)
    decreases |h|
  {
    hide Follows, Step, Enabled, Concerns;
    if k == |h| {
      assert h[..k] == h;
      FollowsItself(Replay(cfg, outputs, h).ledger, id);
    } else {
      var n := |h| - 1;
      assert h[..n][..k] == h[..k];
      TargetsAreTold(cfg, outputs, h[..n], k, id);
      TokensAreConserved(cfg, outputs, h[..n]);
      hide Conserved;
      var s := Replay(cfg, outputs, h[..n]);
      StepFollows(cfg, s, h[n], id);
      StepPending(cfg, s, h[n]);
      TokenIssued(s.ledger, id);
      FollowsOn(Replay(cfg, outputs, h[..k]).ledger, s.ledger, Replay(cfg, outputs, h).ledger, id);
    }
  }
}
