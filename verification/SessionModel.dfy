/** The decode session (src/iris/session.cc) as a state machine. An `Action` is one indivisible piece of work:
    a caller's request, one buffer coming back from the kernel, or one state transition. `Enabled` says when
    the code can perform it; what the firmware returns, and in what order, is not restricted. */
module SessionModel {
  import opened Layouts
  import opened Slots

  /** Fixed for the session: capability table, decode-order controls, and whether there is a copy engine. */
  datatype Config = Config(importAllowed: bool, decodeOrder: bool, copier: bool)

  datatype Phase = Configured | Streaming | Draining | RestartPending | Reconfiguring | Finished | Failed

  datatype Publish = Direct | Copy | Import

  /** A CAPTURE frame, by the pool it belongs to and its index there. */
  datatype Hold = Hold(generation: nat, index: nat)

  datatype Held = Nothing | Holding(hold: Hold)

  datatype Destination = NoBuffer | Buffer(layout: Layout)

  datatype Target = Target(
    token: nat, pending: bool, completed: bool, error: bool,
    publish: Publish, destination: Destination, frame: Held)

  const BLANK := Target(0, false, false, false, Direct, NoBuffer, Nothing)

  /** How a token stopped being pending. `Stranded`: the map forgot it, its target was never told. */
  datatype Fate = Published | Errored | Released | Stranded

  datatype Event = Event(token: nat, fate: Fate)

  /** Tokens and the callers' targets, which are known here by number. */
  datatype Ledger = Ledger(next: nat, pending: map<nat, nat>, targets: map<nat, Target>, log: seq<Event>) {
    function Get(id: nat): Target {
      if id in targets then targets[id] else BLANK
    }

    /** `token` leaves the map and its target becomes `after`. */
    function Settle(token: nat, fate: Fate, after: Target): Ledger
      requires token in pending
    {
      Ledger(next, pending - {token}, targets[pending[token] := after], log + [Event(token, fate)])
    }

    function Fail(token: nat): Ledger {
      if token in pending then
        Settle(token, Errored, Get(pending[token]).(pending := false, error := true))
      else this
    }

    /** Fails the tokens below `n`, in order, except those in `keep`. */
    function FailExcept(keep: set<nat>, n: nat): Ledger {
      if n == 0 then this
      else
        var l := FailExcept(keep, n - 1);
        if n - 1 in keep then l else l.Fail(n - 1)
    }

    /** release_locked */
    function Release(id: nat): Ledger {
      var t := Get(id);
      var cleared := t.(pending := false, frame := Nothing, completed := false, error := false, token := 0);
      if t.pending && t.token in pending then
        Ledger(next, pending - {t.token}, targets[id := cleared], log + [Event(t.token, Fate.Released)])
      else this.(targets := targets[id := cleared])
    }

    function Issue(id: nat, publish: Publish, destination: Destination): Ledger {
      Ledger(next + 1, pending[next := id],
             targets[id := Target(next, true, false, false, publish, destination, Nothing)], log)
    }

    function HeldSlots(generation: nat): set<nat> {
      HeldIn(targets, generation)
    }
  }

  /** Slots of pool `generation` that a target holds: those with a use count above one. */
  function HeldIn(targets: map<nat, Target>, generation: nat): set<nat> {
    set id | id in targets && targets[id].frame.Holding? && targets[id].frame.hold.generation == generation
      :: targets[id].frame.hold.index
  }

  datatype Stats = Stats(
    submitted: nat, completed: nat, errors: nat, drops: nat,
    timeouts: nat, drains: nat, reconfigures: nat, misplaced: nat)

  /** A picture whose client buffer has not been handed over; `fd` is an owned duplicate, or -1. */
  datatype Entry = Entry(token: nat, fd: int)

  /** `spent` and `generation` are bookkeeping for the theorems: the tokens whose buffers have come back since
      the pool was built, and the number of pools torn down. */
  datatype State = State(
    phase: Phase, pool: Pool, kernel: Kernel, ledger: Ledger, backlog: seq<Entry>,
    sourceChange: bool, sawLast: bool, importRejected: bool, stats: Stats,
    spent: set<nat>, generation: nat)

  const NO_STATS := Stats(0, 0, 0, 0, 0, 0, 0, 0)

  function Initial(outputs: nat): State {
    State(Configured, Pool([], seq(outputs, _ => OutputSlot(false, 0)), Mmap, NO_LAYOUT),
        Kernel(multiset{}, multiset{}),
          Ledger(1, map[], map[], []), [], false, false, false, NO_STATS, {}, 0)
  }

  datatype Reason = OnTimeout | OnChange | OnFinish

  datatype Action =
    | Release(id: nat)
    | Submit(id: nat, publish: Publish, destination: Destination, fd: int)
    | OutputReturn(index: nat, error: bool)
    | CaptureReturn(d: Completion, copyFails: bool)
    | Requeue
    | SourceChange
    | ConfigureCapture(layout: Layout, count: nat, fds: map<nat, int>)
    | RejectImport
    | DrainBegin(reason: Reason)
    | DrainFeed(scratch: int)
    | DrainEnd
    | Restart
    | StreamOff
    | Teardown
    | Timeout(id: nat)
    | Fail
    | Finish

  // ---------------------------------------------------------------- handing buffers to the firmware

  function RequeueStep(s: State): State {
    if s.pool.memory == Dmabuf then s
    else
      var (capture, queue) := Requeued(s.pool.capture, s.kernel.capture, s.ledger.HeldSlots(s.generation), 0);
      s.(pool := s.pool.(capture := capture), kernel := s.kernel.(capture := queue))
  }

  /** import_compatible */
  predicate Compatible(client: Layout, capture: Layout) {
    && client.fourcc == capture.fourcc && client.stride == capture.stride
    && client.ChromaOffset() == capture.ChromaOffset() && client.size >= capture.size
  }

  function QueueSlot(s: State, index: nat, frame: Frame): State
    requires index < |s.pool.capture|
  {
    s.(pool := s.pool.(capture := s.pool.capture[index := frame]),
       kernel := s.kernel.(capture := s.kernel.capture + multiset{index}))
  }

  /** The head of the backlog goes into a slot; with no free slot the code's own check would fail. */
  function GiveBuffer(s: State): State
    requires s.backlog != []
  {
    var e := s.backlog[0];
    var index := ImportSlot(s.pool.capture, e.fd);
    if index == |s.pool.capture| then s
    else QueueSlot(s, index, Frame(true, e.token, e.fd)).(backlog := s.backlog[1..])
  }

  /** A pending target that cannot take a decoded picture. */
  predicate Bufferless(l: Ledger, token: nat) {
    token in l.pending && (l.Get(l.pending[token]).publish.Direct? || l.Get(l.pending[token]).destination.NoBuffer?)
  }

  predicate Misfit(l: Ledger, token: nat, layout: Layout) {
    && token in l.pending
    && var t := l.Get(l.pending[token]);
       t.destination.Buffer? && !Compatible(t.destination.layout, layout)
  }

  function CountError(s: State): State {
    s.(stats := s.stats.(errors := s.stats.errors + 1))
  }

  /** queue_import_next */
  function QueueNext(s: State): State
    decreases |s.backlog|
  {
    if s.pool.memory != Dmabuf || s.backlog == [] || !Idle(s.pool.capture) then s
    else
      var e := s.backlog[0];
      if e.fd < 0 then QueueNext(s.(backlog := s.backlog[1..]))
      else if Bufferless(s.ledger, e.token) then
        QueueNext(CountError(s.(backlog := s.backlog[1..], ledger := s.ledger.Fail(e.token))))
      else if Misfit(s.ledger, e.token, s.pool.layout) then s
      else GiveBuffer(s)
  }

  /** The driver's own buffer, for the firmware to return as LAST. */
  function QueueScratch(s: State, scratch: int): State {
    var index := FirstFree(s.pool.capture, 0);
    if !Idle(s.pool.capture) || index == |s.pool.capture| then s
    else QueueSlot(s, index, Frame(true, 0, scratch))
  }

  function DrainFeedStep(s: State, scratch: int): State {
    if s.pool.memory == Dmabuf then QueueScratch(QueueNext(s), scratch) else RequeueStep(s)
  }

  // ---------------------------------------------------------------- submission

  function SubmitStep(s: State, id: nat, publish: Publish, destination: Destination, fd: int): State
    requires FreeOutput(s.pool.outputs, 0) < |s.pool.outputs|
  {
    var slot := FreeOutput(s.pool.outputs, 0);
    var token := s.ledger.next;
    var s := s.(pool := s.pool.(outputs := s.pool.outputs[slot := OutputSlot(true, token)]),
                kernel := s.kernel.(output := s.kernel.output + multiset{slot}),
                ledger := s.ledger.Issue(id, publish, destination),
                stats := s.stats.(submitted := s.stats.submitted + 1));
    if s.pool.memory == Dmabuf then
      QueueNext(s.(backlog := s.backlog + [Entry(token, if destination.Buffer? then fd else -1)]))
    else s
  }

  // ---------------------------------------------------------------- completions

  function OutputStep(s: State, index: nat, error: bool): State
    requires index < |s.pool.outputs|
  {
    var token := s.pool.outputs[index].token;
    var failed := if error && token in s.ledger.pending then CountError(s.(ledger := s.ledger.Fail(token))) else s;
    failed.(pool := s.pool.(outputs := s.pool.outputs[index := OutputSlot(false, 0)]),
            kernel := s.kernel.(output := s.kernel.output - multiset{index}))
  }

  /** take_capture, take_import_token */
  function Taken(s: State, index: nat): State
    requires index < |s.pool.capture|
  {
    var frame := s.pool.capture[index];
    s.(pool := s.pool.(capture := s.pool.capture[index := Frame(false, 0, frame.importFd)]),
       kernel := s.kernel.(capture := s.kernel.capture - multiset{index}),
       spent := if frame.importToken == 0 then s.spent else s.spent + {frame.importToken})
  }

  /** The target after its picture has been published in slot `index`. */
  function Delivered(s: State, t: Target, index: nat): Target {
    var done := t.(pending := false, completed := true, error := false);
    if s.pool.memory == Dmabuf then done.(publish := Import, frame := Nothing)
    else if t.publish.Direct? then done.(frame := Holding(Hold(s.generation, index)))
    else done.(publish := Copy, frame := Nothing)
  }

  predicate Copies(s: State, t: Target) {
    s.pool.memory == Mmap && !t.publish.Direct?
  }

  /** publish */
  function PublishStep(cfg: Config, s: State, token: nat, index: nat, copyFails: bool): State
    requires token in s.ledger.pending
  {
    var t := s.ledger.Get(s.ledger.pending[token]);
    if Copies(s, t) && (t.destination.NoBuffer? || !cfg.copier) then
      s.(ledger := s.ledger.Settle(token, Stranded, t.(publish := Copy)))
    else if Copies(s, t) && copyFails then
      CountError(s.(ledger := s.ledger.Settle(token, Errored, t.(publish := Copy, pending := false, error := true))))
    else
      s.(ledger := s.ledger.Settle(token, Published, Delivered(s, t, index)),
         stats := s.stats.(completed := s.stats.completed + 1))
  }

  /** Both surfaces are failed; neither can be trusted. */
  function MisplacedStep(s: State, token: nat, owner: nat): State {
    var l := s.ledger.Fail(token);
    var errors := if owner in l.pending then 2 else 1;
    s.(ledger := l.Fail(owner),
        stats := s.stats.(errors := s.stats.errors + errors, misplaced := s.stats.misplaced + 1))
  }

  /** What a completion does once its slot is back; `owner` is the token the slot was queued for. */
  function Deliver(cfg: Config, s: State, d: Completion, owner: nat, copyFails: bool): State {
    if d.error && d.timestamp == 0 then CountError(s)
    else if !d.payload then s
    else if d.timestamp !in s.ledger.pending then s.(stats := s.stats.(drops := s.stats.drops + 1))
    else if d.error then CountError(s.(ledger := s.ledger.Fail(d.timestamp)))
    else if s.pool.memory == Dmabuf && owner != d.timestamp then MisplacedStep(s, d.timestamp, owner)
    else PublishStep(cfg, s, d.timestamp, d.index, copyFails)
  }

  function NextIfStreaming(s: State): State {
    if s.phase.Streaming? then QueueNext(s) else s
  }

  function NoteLast(s: State, last: bool): State {
    s.(sawLast := s.sawLast || last)
  }

  function CaptureStep(cfg: Config, s: State, d: Completion, copyFails: bool): State
    requires d.index < |s.pool.capture|
  {
    var owner := s.pool.capture[d.index].importToken;
    var s := NextIfStreaming(Taken(s, d.index));
    Deliver(cfg, NoteLast(s, d.last), d, owner, copyFails)
  }

  // ---------------------------------------------------------------- pools

  /** The oldest pending token from `t` on, or `bound`. */
  function FirstPending(pending: map<nat, nat>, t: nat, bound: nat): (r: nat)
    requires t <= bound
    ensures t <= r <= bound && (r < bound ==> r in pending)
    decreases bound - t
  {
    if t == bound || t in pending then t else FirstPending(pending, t + 1, bound)
  }

  /** The first picture asks for Import. */
  predicate AsksImport(l: Ledger) {
    var first := FirstPending(l.pending, 0, l.next);
    first in l.pending && l.Get(l.pending[first]).publish.Import?
  }

  /** ... and the contract for it holds. */
  predicate GrantsImport(cfg: Config, l: Ledger, layout: Layout) {
    && AsksImport(l)
    && cfg.importAllowed && cfg.decodeOrder
    && var first := FirstPending(l.pending, 0, l.next);
       var destination := l.Get(l.pending[first]).destination;
       destination.Buffer? && Compatible(destination.layout, layout)
  }

  predicate Listed(backlog: seq<Entry>, token: nat) {
    exists i :: 0 <= i < |backlog| && backlog[i].token == token
  }

  function FdOf(fds: map<nat, int>, token: nat): int {
    if token in fds then fds[token] else -1
  }

  /** Pending pictures below `n` that have a buffer and no entry yet join the backlog, oldest first. */
  function Gathered(l: Ledger, backlog: seq<Entry>, fds: map<nat, int>, n: nat): seq<Entry> {
    if n == 0 then backlog
    else
      var b := Gathered(l, backlog, fds, n - 1);
      if n - 1 in l.pending && !Listed(b, n - 1) && l.Get(l.pending[n - 1]).destination.Buffer? then
        b + [Entry(n - 1, FdOf(fds, n - 1))]
      else b
  }

  /** enter_streaming */
  function EnterStreaming(s: State, fds: map<nat, int>): State {
    var s := if s.pool.memory == Dmabuf then
               QueueNext(s.(backlog := Gathered(s.ledger, s.backlog, fds, s.ledger.next)))
             else RequeueStep(s);
    s.(sourceChange := false, sawLast := false, phase := Streaming)
  }

  function NewPool(cfg: Config, s: State, layout: Layout, count: nat): State {
    var granted := GrantsImport(cfg, s.ledger, layout);
    s.(pool := Pool(seq(count, _ => IDLE_FRAME), s.pool.outputs, if granted then Dmabuf else Mmap, layout),
       importRejected := s.importRejected || (AsksImport(s.ledger) && !granted))
  }

  function ConfigureStep(cfg: Config, s: State, layout: Layout, count: nat, fds: map<nat, int>): State {
    EnterStreaming(NewPool(cfg, s, layout, count), fds)
  }

  /** release_capture, and back to where the pool is built. */
  function TeardownStep(s: State): State {
    s.(pool := s.pool.(capture := [], memory := Mmap), kernel := s.kernel.(capture := multiset{}),
       sourceChange := true, phase := Configured, spent := {}, generation := s.generation + 1)
  }

  function StreamOffStep(s: State): State {
    s.(phase := Reconfiguring, pool := s.pool.(capture := Returned(s.pool.capture)),
       kernel := s.kernel.(capture := multiset{}))
  }

  // ---------------------------------------------------------------- drain, timeout, end

  /** Tokens whose OUTPUT buffer the firmware has not given back. */
  function Owed(outputs: seq<OutputSlot>): set<nat> {
    set i | 0 <= i < |outputs| && outputs[i].queued :: outputs[i].token
  }

  /** How many pending tokens below `n` are not in `keep`. */
  function LostBelow(pending: map<nat, nat>, keep: set<nat>, n: nat): nat {
    if n == 0 then 0
    else LostBelow(pending, keep, n - 1) + (if n - 1 in pending && n - 1 !in keep then 1 else 0)
  }

  /** fail_unrecoverable_tokens, then ready for START or for the new pool. */
  function DrainEndStep(s: State): State {
    s.(ledger := s.ledger.FailExcept(Owed(s.pool.outputs), s.ledger.next), phase := RestartPending,
       stats := s.stats.(errors := s.stats.errors + LostBelow(s.ledger.pending, Owed(s.pool.outputs), s.ledger.next)))
  }

  function TimeoutStep(s: State, id: nat): State {
    var t := s.ledger.Get(id);
    var l := if t.token in s.ledger.pending && s.ledger.pending[t.token] == id then s.ledger.Fail(t.token)
             else s.ledger.(targets := s.ledger.targets[id := t.(pending := false, error := true)]);
    s.(ledger := l, stats := s.stats.(timeouts := s.stats.timeouts + 1))
  }

  /** fail_all_pending */
  function FailStep(s: State): State {
    s.(phase := Failed, ledger := s.ledger.FailExcept({}, s.ledger.next), backlog := [])
  }

  // ---------------------------------------------------------------- the machine

  predicate Enabled(cfg: Config, s: State, a: Action) {
    match a
    case Release(_) => true
    case Submit(id, _, _, _) =>
      // A drain is only interrupted in wait(), for a display-order session.
      && (s.phase.Configured? || s.phase.Streaming? || s.phase.Reconfiguring?
          || ((s.phase.Draining? || s.phase.RestartPending?) && !cfg.decodeOrder))
      && !s.ledger.Get(id).pending
      && FreeOutput(s.pool.outputs, 0) < |s.pool.outputs|
    case OutputReturn(index, _) => !s.phase.Failed? && index in s.kernel.output && index < |s.pool.outputs|
    case CaptureReturn(d, _) =>
      (s.phase.Streaming? || s.phase.Draining?) && d.index in s.kernel.capture && d.index < |s.pool.capture|
    case Requeue => !s.phase.Failed?
    case SourceChange => !s.phase.Failed?
    case ConfigureCapture(_, count, _) => s.phase.Configured? && s.sourceChange && 0 < count <= 64
    // The contract for Import is judged before the buffers are allocated, and the allocation may fail.
    case RejectImport => s.phase.Configured? && s.sourceChange
    case DrainBegin(_) => s.phase.Streaming?
    case DrainFeed(_) => s.phase.Draining?
    case DrainEnd => s.phase.Draining? && s.sawLast
    case Restart => s.phase.RestartPending? && !cfg.decodeOrder
    case StreamOff => s.phase.RestartPending?
    case Teardown => s.phase.Reconfiguring? && s.ledger.HeldSlots(s.generation) == {}
    case Timeout(id) => !s.phase.Failed? && s.ledger.Get(id).pending
    case Fail => !s.phase.Failed?
    case Finish => !s.phase.Failed? && !s.phase.Finished?
  }

  function Step(cfg: Config, s: State, a: Action): State
    requires Enabled(cfg, s, a)
  {
    match a
    case Release(id) => s.(ledger := s.ledger.Release(id))
    case Submit(id, publish, destination, fd) => SubmitStep(s, id, publish, destination, fd)
    case OutputReturn(index, error) => OutputStep(s, index, error)
    case CaptureReturn(d, copyFails) => CaptureStep(cfg, s, d, copyFails)
    case Requeue => RequeueStep(s)
    case SourceChange => s.(sourceChange := true)
    case ConfigureCapture(layout, count, fds) => ConfigureStep(cfg, s, layout, count, fds)
    case RejectImport => s.(importRejected := true)
    case DrainBegin(reason) =>
      s.(phase := Draining, sawLast := false,
         stats := s.stats.(drains := s.stats.drains + 1,
                           timeouts := s.stats.timeouts + (if reason.OnTimeout? then 1 else 0),
                           reconfigures := s.stats.reconfigures + (if reason.OnChange? then 1 else 0)))
    case DrainFeed(scratch) => DrainFeedStep(s, scratch)
    case DrainEnd => DrainEndStep(s)
    case Restart => s.(sawLast := false, phase := Streaming)
    case StreamOff => StreamOffStep(s)
    case Teardown => TeardownStep(s)
    case Timeout(id) => TimeoutStep(s, id)
    case Fail => FailStep(s)
    case Finish => s.(phase := Finished)
  }

  /** The runs of the session. */
  predicate Legal(cfg: Config, outputs: nat, h: seq<Action>)
    decreases |h|, 0
  {
    h == [] || (var n := |h| - 1; Legal(cfg, outputs, h[..n]) && Enabled(cfg, Replay(cfg, outputs, h[..n]), h[n]))
  }

  function Replay(cfg: Config, outputs: nat, h: seq<Action>): State
    requires Legal(cfg, outputs, h)
    decreases |h|, 1
  {
    if h == [] then Initial(outputs)
    else var n := |h| - 1; Step(cfg, Replay(cfg, outputs, h[..n]), h[n])
  }

  /** A run and one more action. */
  lemma RunExtends(cfg: Config, outputs: nat, h: seq<Action>, a: Action)
    requires Legal(cfg, outputs, h) && Enabled(cfg, Replay(cfg, outputs, h), a)
    ensures Legal(cfg, outputs, h + [a])
    ensures Replay(cfg, outputs, h + [a]) == Step(cfg, Replay(cfg, outputs, h), a)
  {
    hide Step, Enabled;
    assert (h + [a])[..|h|] == h;
  }
}
