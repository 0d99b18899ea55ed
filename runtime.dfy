/**
 * `AnimationRuntime`: status changes start the groups whose StatusChange
 * activation matches, delayed status pushes wait in a queue, and each tick
 * advances every running animation, its synchronous effects one after the
 * other and its asynchronous effects side by side.
 *
 * The clock (`Environment.TickCount`) is the parameter `now`.  The cells
 * the runtime reads (Enabled, Async, the timing cells, EffectTiming, the
 * StatusChange and SetState statuses, Call timings, action names) are
 * given as a `Reads` record: within one call no cell the runtime reads is
 * written.  A group's effects are named by their position in the group.
 */
module Runtime {
  import opened Wrappers
  import opened Statuses
  import opened Effects
  import opened Cells
  import opened Groups
  import opened Hooks

  /** What the runtime reads from cells: Exists, and the value as a flag, a number, a status or a text. */
  datatype Reads = Reads(present: CellId -> bool, flag: CellId -> bool, number: CellId -> real,
                         status: CellId -> Option<nat>, text: CellId -> string, actions: set<string>)

  /** A started asynchronous effect (position in its group) with its own runtime data. */
  datatype Animating = Animating(effect: nat, data: RunState)

  /** A `RunningAnimation`: the group, its start tick and timing, the shared data of its synchronous effects, and its effect lists. */
  datatype Running = Running(group: GroupId, startTime: int, timing: real, data: RunState,
                             sync: seq<nat>, async: seq<nat>, animating: seq<Animating>, syncIndex: int)

  /** A `StatusPushInfo`: the status, its delay, and the tick its clock started at, if it has. */
  datatype Push = Push(status: Option<nat>, delay: int, started: Option<int>)

  /** What an AnimAction or PlaySound effect hands off when it starts (background work the runtime does not wait for). */
  datatype Request = ActionRequest(group: GroupId, effect: nat) | SoundRequest(group: GroupId, effect: nat)

  /** The part of the runtime a tick changes; `notified` lists the StatusChanged events raised. */
  datatype State = State(running: seq<Running>, current: Option<nat>,
                         notified: seq<(Option<nat>, Option<nat>)>, requests: seq<Request>)

  /** Everything a runtime step depends on and does not change. */
  datatype Ctx = Ctx(cat: seq<StatusNode>, gs: seq<Group>, anims: seq<GroupId>, rd: Reads, now: int, sound: bool)

  // ---------------------------------------------------------------------
  // Well-formedness
  // ---------------------------------------------------------------------

  /** Every Call effect starts a group of the store. */
  predicate CallsIn(gs: seq<Group>)
  {
    forall g, j :: 0 <= g < |gs| && 0 <= j < |gs[g].effects| && gs[g].effects[j].kind.Call? ==>
      gs[g].effects[j].kind.group < |gs|
  }

  /** Every AfterAnimation activation waits for a group of the store. */
  predicate TargetsIn(gs: seq<Group>)
  {
    forall g :: 0 <= g < |gs| ==> TargetsBelow(gs[g].activations, |gs|)
  }

  /** The status catalog, the group references and the hooks are consistent. */
  ghost predicate StoreOk(cat: seq<StatusNode>, gs: seq<Group>)
  {
    Ordered(cat) && CallsIn(gs) && TargetsIn(gs) && HooksValid(gs)
  }

  /** No element occurs twice. */
  predicate NoDup(s: seq<GroupId>)
  {
    forall a, b :: 0 <= a < b < |s| ==> s[a] != s[b]
  }

  /** The registered groups exist and are registered once each. */
  predicate AnimsOk(anims: seq<GroupId>, n: nat)
  {
    (forall i :: 0 <= i < |anims| ==> anims[i] < n) && NoDup(anims)
  }

  /** Every status the cells hold is a status of the catalog. */
  ghost predicate ReadsOk(cat: seq<StatusNode>, rd: Reads)
  {
    forall x :: IsRef(cat, rd.status(x))
  }

  /** Every hook names an activation of a group of the store. */
  predicate HooksInRange(gs: seq<Group>)
  {
    forall t, k :: 0 <= t < |gs| && 0 <= k < |gs[t].hooked| ==>
      gs[t].hooked[k].owner < |gs| && gs[t].hooked[k].index < |gs[gs[t].hooked[k].owner].activations|
  }

  /** What a tick relies on: catalog statuses, Call targets and hooks that exist, registered groups that exist. */
  ghost predicate CtxOk(c: Ctx)
  {
    Ordered(c.cat) && CallsIn(c.gs) && HooksInRange(c.gs) && AnimsOk(c.anims, |c.gs|) && ReadsOk(c.cat, c.rd)
  }

  /**
   * A running animation of an existing group, naming effects of that group;
   * its synchronous index lies between -1 and the last synchronous effect,
   * and names a started effect whenever the shared data is running.
   */
  predicate RunOk(gs: seq<Group>, r: Running)
  {
    r.group < |gs|
    && (forall i :: 0 <= i < |r.sync| ==> r.sync[i] < |gs[r.group].effects|)
    && (forall i :: 0 <= i < |r.async| ==> r.async[i] < |gs[r.group].effects|)
    && (forall i :: 0 <= i < |r.animating| ==> r.animating[i].effect < |gs[r.group].effects|)
    && -1 <= r.syncIndex < |r.sync|
    && (r.data.canAnimate ==> 0 <= r.syncIndex)
  }

  predicate AllRunsOk(gs: seq<Group>, rs: seq<Running>)
  {
    forall i :: 0 <= i < |rs| ==> RunOk(gs, rs[i])
  }

  /** The pending pushes name statuses of the catalog. */
  predicate QueueOk(cat: seq<StatusNode>, q: seq<Push>)
  {
    forall i :: 0 <= i < |q| ==> IsRef(cat, q[i].status)
  }

  /** The state `st` fits the context: its runs are well formed and its status is a catalog status. */
  ghost predicate StateOk(c: Ctx, st: State)
  {
    CtxOk(c) && IsRef(c.cat, st.current) && AllRunsOk(c.gs, st.running)
  }

  // ---------------------------------------------------------------------
  // ExecuteAnimation
  // ---------------------------------------------------------------------

  /** The timing cells and Enable flag of an effect, as read. */
  function TimingOf(rd: Reads, e: Effect): Timing
  {
    var b := e.base;
    Timing(Reading(rd.present(b.timeStart), rd.number(b.timeStart)), Reading(rd.present(b.timeOffset), rd.number(b.timeOffset)),
           Reading(rd.present(b.timeFinish), rd.number(b.timeFinish)), Reading(rd.present(b.timeDuration), rd.number(b.timeDuration)),
           rd.flag(b.enable))
  }

  /** The positions, below `k`, of the effects whose Async flag is `async`, in order. */
  function WithAsync(rd: Reads, effs: seq<Effect>, k: nat, async: bool): (r: seq<nat>)
    requires k <= |effs|
    ensures forall i :: 0 <= i < |r| ==> r[i] < k
  {
    if k == 0 then [] else WithAsync(rd, effs, k - 1, async) + (if rd.flag(effs[k - 1].base.async) == async then [k - 1] else [])
  }

  /** `b` is `a` with runs appended. */
  predicate Extends(a: seq<Running>, b: seq<Running>)
  {
    |a| <= |b| && b[..|a|] == a
  }

  predicate Increasing(s: seq<nat>)
  {
    forall a, b :: 0 <= a < b < |s| ==> s[a] < s[b]
  }

  /** An effect is listed exactly when its Async flag is the one asked for, and the list keeps the group's order. */
  lemma {:induction false} WithAsyncMeaning(rd: Reads, effs: seq<Effect>, k: nat, async: bool)
    requires k <= |effs|
    ensures forall j :: 0 <= j < k ==> (j in WithAsync(rd, effs, k, async) <==> rd.flag(effs[j].base.async) == async)
    ensures Increasing(WithAsync(rd, effs, k, async))
  {
    if k > 0 {
      WithAsyncMeaning(rd, effs, k - 1, async);
    }
  }

  /** The synchronous and asynchronous lists together hold every effect once. */
  lemma {:induction false} SplitByAsync(rd: Reads, effs: seq<Effect>, k: nat)
    requires k <= |effs|
    ensures |WithAsync(rd, effs, k, false)| + |WithAsync(rd, effs, k, true)| == k
  {
    if k > 0 {
      SplitByAsync(rd, effs, k - 1);
    }
  }

  /** The `RunningAnimation` ExecuteAnimation appends: a non-positive timing becomes 1. */
  function NewRun(c: Ctx, g: GroupId, timing: real): (r: Running)
    requires g < |c.gs|
    ensures RunOk(c.gs, r) && r.syncIndex == -1 && !r.data.canAnimate
  {
    var effs := c.gs[g].effects;
    Running(g, c.now, if timing <= 0.0 then 1.0 else timing, RunState(0.0, 0.0, 0.0, false),
            WithAsync(c.rd, effs, |effs|, false), WithAsync(c.rd, effs, |effs|, true), [], -1)
  }

  // ---------------------------------------------------------------------
  // CurrentStatus
  // ---------------------------------------------------------------------

  /** Activation `a` is an enabled StatusChange whose New is below `value` and whose Old is below `prev`. */
  ghost predicate Matches(c: Ctx, a: Activation, prev: Option<nat>, value: Option<nat>)
    requires CtxOk(c) && IsRef(c.cat, prev) && IsRef(c.cat, value)
  {
    a.StatusChange? && c.rd.flag(a.enabled)
    && IsPrefix(OptPath(c.cat, c.rd.status(a.newStatus)), OptPath(c.cat, value))
    && IsPrefix(OptPath(c.cat, c.rd.status(a.oldStatus)), OptPath(c.cat, prev))
  }

  /** Some activation of group `g` matches the change from `prev` to `value`. */
  ghost predicate Triggered(c: Ctx, g: GroupId, prev: Option<nat>, value: Option<nat>)
    requires CtxOk(c) && g < |c.gs| && IsRef(c.cat, prev) && IsRef(c.cat, value)
  {
    exists i :: 0 <= i < |c.gs[g].activations| && Matches(c, c.gs[g].activations[i], prev, value)
  }

  /** The first `k` registered groups that the change starts, in registration order. */
  ghost function TriggeredGroups(c: Ctx, prev: Option<nat>, value: Option<nat>, k: nat): (r: seq<GroupId>)
    requires CtxOk(c) && k <= |c.anims| && IsRef(c.cat, prev) && IsRef(c.cat, value)
    ensures forall i :: 0 <= i < |r| ==> r[i] < |c.gs|
  {
    if k == 0 then []
    else
      var g := c.anims[k - 1];
      TriggeredGroups(c, prev, value, k - 1) + (if Triggered(c, g, prev, value) then [g] else [])
  }

  /** The animations ExecuteAnimation appends for these groups, with the default timing. */
  function NewRuns(c: Ctx, gs: seq<GroupId>): (r: seq<Running>)
    requires forall i :: 0 <= i < |gs| ==> gs[i] < |c.gs|
    ensures |r| == |gs| && AllRunsOk(c.gs, r)
  {
    if |gs| == 0 then [] else NewRuns(c, gs[..|gs| - 1]) + [NewRun(c, gs[|gs| - 1], 1.0)]
  }

  /**
   * The CurrentStatus setter: a value `==` to the current one changes
   * nothing; otherwise the triggered groups start, StatusChanged fires with
   * the old and new status, and the new status is committed.
   */
  ghost function SetStatus(c: Ctx, st: State, value: Option<nat>): (r: State)
    requires StateOk(c, st) && IsRef(c.cat, value)
    ensures StateOk(c, r) && Extends(st.running, r.running) && r.requests == st.requests
  {
    if Equal(c.cat, st.current, value) then st
    else
      var runs := NewRuns(c, TriggeredGroups(c, st.current, value, |c.anims|));
      assert (st.running + runs)[..|st.running|] == st.running;
      st.(running := st.running + runs, notified := st.notified + [(st.current, value)], current := value)
  }

  /**
   * A status change starts exactly the registered groups with a matching
   * activation, each once, in registration order.
   */
  lemma {:induction false} TriggeredExactly(c: Ctx, prev: Option<nat>, value: Option<nat>, k: nat)
    requires CtxOk(c) && k <= |c.anims| && IsRef(c.cat, prev) && IsRef(c.cat, value)
    ensures forall g :: g in TriggeredGroups(c, prev, value, k) <==>
      g in c.anims[..k] && g < |c.gs| && Triggered(c, g, prev, value)
    ensures NoDup(TriggeredGroups(c, prev, value, k))
  {
    if k > 0 {
      TriggeredExactly(c, prev, value, k - 1);
      assert c.anims[..k] == c.anims[..k - 1] + [c.anims[k - 1]];
      var g := c.anims[k - 1];
      assert g !in c.anims[..k - 1] by {
        forall i | 0 <= i < k - 1
          ensures c.anims[i] != g
        {
        }
      }
    }
  }

  /** A change to a status `==` to the current one changes nothing and raises no event. */
  lemma SetSameStatus(c: Ctx, st: State, value: Option<nat>)
    requires StateOk(c, st) && IsRef(c.cat, value) && OptPath(c.cat, st.current) == OptPath(c.cat, value)
    ensures SetStatus(c, st, value) == st
  {
    EqualIffSamePath(c.cat, st.current, value);
  }

  /** A real change raises exactly one StatusChanged event, with the old and the new status, and commits the new one. */
  lemma SetNewStatus(c: Ctx, st: State, value: Option<nat>)
    requires StateOk(c, st) && IsRef(c.cat, value) && OptPath(c.cat, st.current) != OptPath(c.cat, value)
    ensures SetStatus(c, st, value).notified == st.notified + [(st.current, value)]
    ensures SetStatus(c, st, value).current == value
    ensures SetStatus(c, st, value).running ==
      st.running + NewRuns(c, TriggeredGroups(c, st.current, value, |c.anims|))
  {
    EqualIffSamePath(c.cat, st.current, value);
  }

  // ---------------------------------------------------------------------
  // Delayed status pushes
  // ---------------------------------------------------------------------

  /** FlushStatusQueue: every pending status is applied in order, whatever its delay. */
  ghost function Flush(c: Ctx, st: State, q: seq<Push>): (r: State)
    requires StateOk(c, st) && QueueOk(c.cat, q)
    ensures StateOk(c, r)
    decreases |q|
  {
    if |q| == 0 then st else Flush(c, SetStatus(c, st, q[0].status), q[1..])
  }

  /** The tick a push's clock starts at: its recorded start, else `from`. */
  function StartOf(p: Push, from: int): int
  {
    if p.started.Some? then p.started.value else from
  }

  /**
   * PerformStatus from the point where the head's clock would start at
   * `from`: a due head is applied and removed and the next head's clock
   * starts at its due tick; the first head not yet due keeps its start.
   */
  ghost function Drain(c: Ctx, st: State, q: seq<Push>, from: int): (r: (State, seq<Push>))
    requires StateOk(c, st) && QueueOk(c.cat, q)
    ensures StateOk(c, r.0) && QueueOk(c.cat, r.1)
    decreases |q|
  {
    if |q| == 0 then (st, q)
    else
      var start := StartOf(q[0], from);
      if start + q[0].delay <= c.now then Drain(c, SetStatus(c, st, q[0].status), q[1..], start + q[0].delay)
      else (st, [q[0].(started := Some(start))] + q[1..])
  }

  /** How many heads are due in one PerformStatus. */
  function Applied(q: seq<Push>, from: int, now: int): (n: nat)
    ensures n <= |q|
    decreases |q|
  {
    if |q| == 0 then 0
    else
      var due := StartOf(q[0], from) + q[0].delay;
      if due <= now then 1 + Applied(q[1..], due, now) else 0
  }

  /** The tick from which head `i`'s clock would start: the due tick of the head before it, `from` for the first. */
  function ChainFrom(q: seq<Push>, from: int, i: nat): int
    requires i <= |q|
  {
    if i == 0 then from else StartOf(q[i - 1], ChainFrom(q, from, i - 1)) + q[i - 1].delay
  }

  /** Only the head of the queue may have started its clock. */
  predicate QueueFresh(q: seq<Push>)
  {
    forall i :: 1 <= i < |q| ==> q[i].started.None?
  }

  /**
   * PerformStatus applies, in order and through the status setter, exactly
   * the heads that are due, and leaves the rest of the queue in its order
   * with the first remaining head's clock started.
   */
  lemma {:induction false} DrainAppliesDuePrefix(c: Ctx, st: State, q: seq<Push>, from: int)
    requires StateOk(c, st) && QueueOk(c.cat, q)
    ensures var n := Applied(q, from, c.now);
      && Drain(c, st, q, from).0 == Flush(c, st, q[..n])
      && Drain(c, st, q, from).1 ==
           (if n == |q| then [] else [q[n].(started := Some(StartOf(q[n], ChainFrom(q, from, n))))] + q[n + 1..])
    decreases |q|
  {
    if |q| > 0 {
      var start := StartOf(q[0], from);
      var due := start + q[0].delay;
      if due <= c.now {
        var st' := SetStatus(c, st, q[0].status);
        DrainAppliesDuePrefix(c, st', q[1..], due);
        var n := Applied(q, from, c.now);
        assert q[..n][1..] == q[1..][..n - 1];
        ChainFromShift(q, from, n);
        if n < |q| {
          assert q[1..][n - 1] == q[n] && q[1..][n..] == q[n + 1..];
        }
      }
    }
  }

  /** Chaining from the second head onwards starts at the first head's due tick. */
  lemma {:induction false} ChainFromShift(q: seq<Push>, from: int, i: nat)
    requires 1 <= i <= |q|
    ensures ChainFrom(q, from, i) == ChainFrom(q[1..], StartOf(q[0], from) + q[0].delay, i - 1)
  {
    if i > 1 {
      ChainFromShift(q, from, i - 1);
      assert q[1..][i - 2] == q[i - 1];
    }
  }

  /**
   * Every applied head was due: its clock, started at the previous head's
   * due tick when it had not started, has run for its delay; the first head
   * left in the queue is not due yet.
   */
  lemma {:induction false} AppliedAreDue(q: seq<Push>, from: int, now: int)
    ensures var n := Applied(q, from, now);
      && (forall i :: 0 <= i < n ==> StartOf(q[i], ChainFrom(q, from, i)) + q[i].delay <= now)
      && (n < |q| ==> StartOf(q[n], ChainFrom(q, from, n)) + q[n].delay > now)
    decreases |q|
  {
    if |q| > 0 {
      var due := StartOf(q[0], from) + q[0].delay;
      if due <= now {
        AppliedAreDue(q[1..], due, now);
        var n := Applied(q, from, now);
        forall i | 1 <= i <= n && i < |q|
          ensures ChainFrom(q, from, i) == ChainFrom(q[1..], due, i - 1)
        {
          ChainFromShift(q, from, i);
        }
        assert forall i :: 1 <= i < n ==> q[i] == q[1..][i - 1];
      }
    }
  }

  /** In a fresh queue every head after the first starts its clock exactly at the previous head's due tick. */
  lemma ChainStartsAtDue(q: seq<Push>, from: int, i: nat)
    requires QueueFresh(q) && 1 <= i < |q|
    ensures StartOf(q[i], ChainFrom(q, from, i)) == StartOf(q[i - 1], ChainFrom(q, from, i - 1)) + q[i - 1].delay
  {
  }

  /** PerformStatus keeps a fresh queue fresh. */
  lemma DrainKeepsFresh(c: Ctx, st: State, q: seq<Push>, from: int)
    requires StateOk(c, st) && QueueOk(c.cat, q) && QueueFresh(q)
    ensures QueueFresh(Drain(c, st, q, from).1)
  {
    DrainAppliesDuePrefix(c, st, q, from);
  }

  /** After a flush of a non-empty queue, the current status has the last pushed status's path. */
  lemma {:induction false} FlushEndsAtLast(c: Ctx, st: State, q: seq<Push>)
    requires StateOk(c, st) && QueueOk(c.cat, q) && |q| > 0
    ensures OptPath(c.cat, Flush(c, st, q).current) == OptPath(c.cat, q[|q| - 1].status)
    decreases |q|
  {
    var st' := SetStatus(c, st, q[0].status);
    EqualIffSamePath(c.cat, st.current, q[0].status);
    if |q| > 1 {
      FlushEndsAtLast(c, st', q[1..]);
    }
  }

  // ---------------------------------------------------------------------
  // Starting effects
  // ---------------------------------------------------------------------

  /**
   * `StartAnimate` of effect `j` of group `g`, as far as the runtime sees
   * it: a Call starts its group with its timing, a SetState sets the
   * status, an AnimAction with a registered action and a PlaySound with a
   * sound player hand off a request.  Typed effects only record their start
   * value, which the effect itself keeps.
   */
  ghost function Start(c: Ctx, st: State, g: GroupId, j: nat): (r: State)
    requires StateOk(c, st) && g < |c.gs| && j < |c.gs[g].effects|
    ensures StateOk(c, r) && Extends(st.running, r.running)
  {
    match c.gs[g].effects[j].kind
    case Call(t, timing) =>
      assert (st.running + [NewRun(c, t, c.rd.number(timing))])[..|st.running|] == st.running;
      st.(running := st.running + [NewRun(c, t, c.rd.number(timing))])
    case SetState(s) => SetStatus(c, st, c.rd.status(s))
    case AnimAction(name) =>
      if c.rd.text(name) in c.rd.actions then st.(requests := st.requests + [ActionRequest(g, j)]) else st
    case PlaySound(_, _) =>
      if c.sound then st.(requests := st.requests + [SoundRequest(g, j)]) else st
    case _ => st
  }

  // ---------------------------------------------------------------------
  // PerformAnimation
  // ---------------------------------------------------------------------

  /** The clock of a running animation: elapsed ticks times its timing (scaled by EffectTiming when that is positive), in seconds. */
  function Clock(c: Ctx, r: Running): real
    requires r.group < |c.gs|
  {
    var scaled := r.timing * c.rd.number(c.gs[r.group].effectTiming);
    var timing := if scaled <= 0.0 then r.timing else scaled;
    (c.now - r.startTime) as real * timing * 0.001
  }

  /** The start gate of asynchronous effect `j`, on a fresh runtime record at `clock`. */
  function AsyncGate(c: Ctx, g: GroupId, j: nat, clock: real): RunState
    requires g < |c.gs| && j < |c.gs[g].effects|
  {
    CanStart(TimingOf(c.rd, c.gs[g].effects[j]), RunState(clock, 0.0, 0.0, false))
  }

  /** The same running animation, apart from its asynchronous lists. */
  predicate SameSync(a: Running, b: Running)
  {
    a.group == b.group && a.startTime == b.startTime && a.timing == b.timing && a.data == b.data
    && a.sync == b.sync && a.syncIndex == b.syncIndex
  }

  /** Positions of effects of group `g`. */
  predicate EffectsOf(c: Ctx, g: GroupId, js: seq<nat>)
  {
    g < |c.gs| && forall i :: 0 <= i < |js| ==> js[i] < |c.gs[g].effects|
  }

  /** The waiting effects among `js` whose gate opens at `clock`, in order, each with its fresh runtime record. */
  function Opening(c: Ctx, g: GroupId, js: seq<nat>, clock: real): (r: seq<Animating>)
    requires EffectsOf(c, g, js)
    ensures forall i :: 0 <= i < |r| ==> r[i].effect in js && r[i].data == AsyncGate(c, g, r[i].effect, clock)
    ensures forall i :: 0 <= i < |r| ==> r[i].data.canAnimate
  {
    if |js| == 0 then []
    else
      var j := js[|js| - 1];
      var d := AsyncGate(c, g, j, clock);
      Opening(c, g, js[..|js| - 1], clock) + (if d.canAnimate then [Animating(j, d)] else [])
  }

  /** The waiting effects among `js` whose gate stays closed at `clock`, in order. */
  function StillWaiting(c: Ctx, g: GroupId, js: seq<nat>, clock: real): (r: seq<nat>)
    requires EffectsOf(c, g, js)
    ensures forall i :: 0 <= i < |r| ==> r[i] in js && !AsyncGate(c, g, r[i], clock).canAnimate
  {
    if |js| == 0 then []
    else
      var j := js[|js| - 1];
      StillWaiting(c, g, js[..|js| - 1], clock) + (if AsyncGate(c, g, j, clock).canAnimate then [] else [j])
  }

  /** Every waiting effect either opens or stays closed, and no other. */
  lemma {:induction false} OpeningSplit(c: Ctx, g: GroupId, js: seq<nat>, clock: real)
    requires EffectsOf(c, g, js)
    ensures |Opening(c, g, js, clock)| + |StillWaiting(c, g, js, clock)| == |js|
    ensures forall j :: j in js ==> (j in StillWaiting(c, g, js, clock) <==> !AsyncGate(c, g, j, clock).canAnimate)
  {
    if |js| > 0 {
      var init := js[..|js| - 1];
      OpeningSplit(c, g, init, clock);
      assert js == init + [js[|js| - 1]];
    }
  }

  /** The lists of the waiting loop, after one more effect of `js` was looked at. */
  lemma WaitingStep(c: Ctx, g: GroupId, js: seq<nat>, m: nat, clock: real, before: seq<Animating>,
                    async: seq<nat>, animating: seq<Animating>, i: nat, async': seq<nat>, animating': seq<Animating>, opens: bool)
    requires EffectsOf(c, g, js) && m < |js|
    requires async == StillWaiting(c, g, js[..m], clock) + js[m..] && i == |StillWaiting(c, g, js[..m], clock)|
    requires animating == before + Opening(c, g, js[..m], clock)
    requires opens == AsyncGate(c, g, js[m], clock).canAnimate
    requires async' == if opens then async[..i] + async[i + 1..] else async
    requires animating' == if opens then animating + [Animating(async[i], AsyncGate(c, g, async[i], clock))] else animating
    ensures async' == StillWaiting(c, g, js[..m + 1], clock) + js[m + 1..]
    ensures (if opens then i else i + 1) == |StillWaiting(c, g, js[..m + 1], clock)|
    ensures animating' == before + Opening(c, g, js[..m + 1], clock)
  {
    WaitingStepAsync(c, g, js, m, clock, async, i, async', opens);
    WaitingStepOpens(c, g, js, m, clock, before, async, animating, i, animating', opens);
  }

  /** The waiting list of `WaitingStep`, after one more effect. */
  lemma WaitingStepAsync(c: Ctx, g: GroupId, js: seq<nat>, m: nat, clock: real,
                         async: seq<nat>, i: nat, async': seq<nat>, opens: bool)
    requires EffectsOf(c, g, js) && m < |js|
    requires async == StillWaiting(c, g, js[..m], clock) + js[m..] && i == |StillWaiting(c, g, js[..m], clock)|
    requires opens == AsyncGate(c, g, js[m], clock).canAnimate
    requires async' == if opens then async[..i] + async[i + 1..] else async
    ensures async' == StillWaiting(c, g, js[..m + 1], clock) + js[m + 1..]
    ensures (if opens then i else i + 1) == |StillWaiting(c, g, js[..m + 1], clock)|
  {
    var waiting := StillWaiting(c, g, js[..m], clock);
    var waiting' := StillWaiting(c, g, js[..m + 1], clock);
    WaitingSplit(waiting, js, m);
    PrefixOpens(c, g, js, m, clock);
    if opens {
      assert waiting' == waiting;
      assert async' == waiting + js[m + 1..];
    } else {
      assert waiting' == waiting + [js[m]];
      assert async' == waiting' + js[m + 1..];
    }
  }

  /** The started list of `WaitingStep`, after one more effect. */
  lemma WaitingStepOpens(c: Ctx, g: GroupId, js: seq<nat>, m: nat, clock: real, before: seq<Animating>,
                         async: seq<nat>, animating: seq<Animating>, i: nat, animating': seq<Animating>, opens: bool)
    requires EffectsOf(c, g, js) && m < |js|
    requires async == StillWaiting(c, g, js[..m], clock) + js[m..] && i == |StillWaiting(c, g, js[..m], clock)|
    requires animating == before + Opening(c, g, js[..m], clock)
    requires opens == AsyncGate(c, g, js[m], clock).canAnimate
    requires animating' == if opens then animating + [Animating(async[i], AsyncGate(c, g, async[i], clock))] else animating
    ensures animating' == before + Opening(c, g, js[..m + 1], clock)
  {
    var waiting := StillWaiting(c, g, js[..m], clock);
    WaitingSplit(waiting, js, m);
    PrefixOpens(c, g, js, m, clock);
    assert async[i] == js[m];
  }

  /** The waiting list split at position `m` of the effects it came from. */
  lemma WaitingSplit(waiting: seq<nat>, js: seq<nat>, m: nat)
    requires m < |js|
    ensures var a := waiting + js[m..];
      && a[|waiting|] == js[m]
      && a[..|waiting|] + a[|waiting| + 1..] == waiting + js[m + 1..]
      && a == (waiting + [js[m]]) + js[m + 1..]
  {
    var a := waiting + js[m..];
    assert js[m..] == [js[m]] + js[m + 1..];
    assert a[..|waiting|] == waiting;
    assert a[|waiting| + 1..] == js[m + 1..];
  }

  /** Appending runs to runs appended to `a` appends to `a`. */
  lemma ExtendsTrans(a: seq<Running>, b: seq<Running>, d: seq<Running>)
    requires Extends(a, b) && Extends(b, d)
    ensures Extends(a, d)
  {
    assert d[..|b|][..|a|] == d[..|a|];
  }

  /** The effects among `js` whose gate opens, started in order when enabled. */
  ghost function StartOpened(c: Ctx, st: State, g: GroupId, js: seq<nat>, clock: real): (r: State)
    requires StateOk(c, st) && EffectsOf(c, g, js)
    ensures StateOk(c, r) && Extends(st.running, r.running)
  {
    if |js| == 0 then st
    else
      var j := js[|js| - 1];
      var st' := StartOpened(c, st, g, js[..|js| - 1], clock);
      if AsyncGate(c, g, j, clock).canAnimate && TimingOf(c.rd, c.gs[g].effects[j]).enable then
        var st'' := Start(c, st', g, j);
        ExtendsTrans(st.running, st'.running, st''.running);
        st''
      else st'
  }

  /** One more waiting effect: it either opens or keeps waiting. */
  lemma PrefixOpens(c: Ctx, g: GroupId, js: seq<nat>, m: nat, clock: real)
    requires EffectsOf(c, g, js) && m < |js|
    ensures var j := js[m];
      var open := AsyncGate(c, g, j, clock).canAnimate;
      && StillWaiting(c, g, js[..m + 1], clock) == StillWaiting(c, g, js[..m], clock) + (if open then [] else [j])
      && Opening(c, g, js[..m + 1], clock) == Opening(c, g, js[..m], clock) + (if open then [Animating(j, AsyncGate(c, g, j, clock))] else [])
  {
    assert js[..m + 1][..m] == js[..m] && js[..m + 1][m] == js[m];
  }

  /** One more waiting effect: when it opens and is enabled, it starts. */
  lemma PrefixStarts(c: Ctx, st: State, g: GroupId, js: seq<nat>, m: nat, clock: real)
    requires StateOk(c, st) && EffectsOf(c, g, js) && m < |js|
    ensures var j := js[m];
      StartOpened(c, st, g, js[..m + 1], clock) ==
        (if AsyncGate(c, g, j, clock).canAnimate && TimingOf(c.rd, c.gs[g].effects[j]).enable
         then Start(c, StartOpened(c, st, g, js[..m], clock), g, j)
         else StartOpened(c, st, g, js[..m], clock))
  {
    assert js[..m + 1][..m] == js[..m] && js[..m + 1][m] == js[m];
  }

  /** The running animation after the loop over its waiting effects: the opened ones animate, the others keep waiting. */
  function AsyncStep(c: Ctx, r: Running, clock: real): (res: Running)
    requires RunOk(c.gs, r)
    ensures RunOk(c.gs, res) && SameSync(res, r)
  {
    r.(animating := r.animating + Opening(c, r.group, r.async, clock), async := StillWaiting(c, r.group, r.async, clock))
  }

  /** Each animating asynchronous effect runs its end gate at `clock`. */
  function StepAll(c: Ctx, g: GroupId, xs: seq<Animating>, clock: real): (r: seq<Animating>)
    requires g < |c.gs| && forall i :: 0 <= i < |xs| ==> xs[i].effect < |c.gs[g].effects|
    ensures |r| == |xs| && forall i :: 0 <= i < |r| ==> r[i].effect == xs[i].effect
  {
    if |xs| == 0 then []
    else
      var x := xs[|xs| - 1];
      StepAll(c, g, xs[..|xs| - 1], clock) +
        [Animating(x.effect, EndGate(TimingOf(c.rd, c.gs[g].effects[x.effect]), x.data.(currentTime := clock)))]
  }

  /** `RemoveAll`: the animating effects still running, in order. */
  function KeepRunning(xs: seq<Animating>): (r: seq<Animating>)
    ensures forall i :: 0 <= i < |r| ==> r[i].data.canAnimate && r[i] in xs
  {
    if |xs| == 0 then []
    else KeepRunning(xs[..|xs| - 1]) + (if xs[|xs| - 1].data.canAnimate then [xs[|xs| - 1]] else [])
  }

  /**
   * The synchronous start: when the shared data is not running, the index
   * moves to the next synchronous effect and its start gate runs; if it
   * does not open (or there is no next effect) the index moves back.
   */
  ghost function SyncStart(c: Ctx, st: State, r: Running): (res: (State, Running))
    requires StateOk(c, st) && RunOk(c.gs, r)
    ensures StateOk(c, res.0) && Extends(st.running, res.0.running) && RunOk(c.gs, res.1)
  {
    if r.data.canAnimate then (st, r)
    else
      var idx := r.syncIndex + 1;
      if idx < |r.sync| then
        var t := TimingOf(c.rd, c.gs[r.group].effects[r.sync[idx]]);
        var d := CanStart(t, r.data);
        var st' := if Fires(t, r.data) then Start(c, st, r.group, r.sync[idx]) else st;
        (st', r.(data := d, syncIndex := if d.canAnimate then idx else r.syncIndex))
      else (st, r)
  }

  /** The running synchronous effect runs its end gate on the shared data. */
  function SyncAnimate(c: Ctx, r: Running): (res: Running)
    requires RunOk(c.gs, r)
    ensures RunOk(c.gs, res) && res.syncIndex == r.syncIndex
  {
    if r.data.canAnimate then r.(data := EndGate(TimingOf(c.rd, c.gs[r.group].effects[r.sync[r.syncIndex]]), r.data))
    else r
  }

  /**
   * The synchronous effects start strictly one at a time in list order: the
   * index advances by one only when the shared data was not running and the
   * next effect's gate opens; otherwise it stays.
   */
  lemma SyncOneAtATime(c: Ctx, st: State, r: Running)
    requires StateOk(c, st) && RunOk(c.gs, r)
    ensures var r' := SyncStart(c, st, r).1;
      && (r'.syncIndex == r.syncIndex || r'.syncIndex == r.syncIndex + 1)
      && (r'.syncIndex == r.syncIndex + 1 <==>
            !r.data.canAnimate && r.syncIndex + 1 < |r.sync| &&
            CanStart(TimingOf(c.rd, c.gs[r.group].effects[r.sync[r.syncIndex + 1]]), r.data).canAnimate)
      && (r'.syncIndex == r.syncIndex + 1 ==> r'.data.canAnimate)
  {
  }

  /**
   * The completion test as written: nothing asynchronous left and the
   * synchronous index past the end of the list.
   */
  predicate FinishedAsWritten(r: Running)
  {
    |r.animating| == 0 && |r.async| == 0 && r.syncIndex >= |r.sync|
  }

  /** The index never passes the last synchronous effect, so the completion test as written never holds. */
  lemma NeverFinishedAsWritten(gs: seq<Group>, r: Running)
    requires RunOk(gs, r)
    ensures !FinishedAsWritten(r)
  {
  }

  /**
   * The intended completion test: nothing asynchronous left, the last
   * synchronous effect (if any) started, and the shared data stopped.
   */
  predicate Finished(r: Running)
  {
    |r.animating| == 0 && |r.async| == 0 && r.syncIndex == |r.sync| - 1 && !r.data.canAnimate
  }

  /** A finished animation has nothing left to do: another tick would start and animate nothing. */
  lemma FinishedIsIdle(c: Ctx, st: State, r: Running, clock: real)
    requires StateOk(c, st) && RunOk(c.gs, r) && Finished(r)
    ensures StartOpened(c, st, r.group, r.async, clock) == st && AsyncStep(c, r, clock) == r
    ensures KeepRunning(StepAll(c, r.group, r.animating, clock)) == []
    ensures SyncStart(c, st, r) == (st, r) && SyncAnimate(c, r) == r
  {
  }

  /**
   * An enabled hook of group `g` starts, by the code as written, the group
   * its AfterAnimation waits for, which is `g` itself.
   */
  function HookGroupAsWritten(gs: seq<Group>, h: Hook): GroupId
    requires h.owner < |gs| && h.index < |gs[h.owner].activations| && gs[h.owner].activations[h.index].AfterAnimation?
  {
    gs[h.owner].activations[h.index].effect
  }

  /** Every hook of a finished group, as written, re-runs that same group. */
  lemma HookRerunsFinished(gs: seq<Group>, g: GroupId, k: nat)
    requires HooksValid(gs) && g < |gs| && k < |gs[g].hooked|
    ensures HookGroupAsWritten(gs, gs[g].hooked[k]) == g
  {
  }

  /** The intended chaining: each enabled hook of a finished group starts the group that owns the hook. */
  ghost function HookRuns(c: Ctx, hooks: seq<Hook>): (r: seq<Running>)
    requires CtxOk(c) && forall k :: 0 <= k < |hooks| ==>
      hooks[k].owner < |c.gs| && hooks[k].index < |c.gs[hooks[k].owner].activations|
    ensures AllRunsOk(c.gs, r)
  {
    if |hooks| == 0 then []
    else
      var h := hooks[|hooks| - 1];
      HookRuns(c, hooks[..|hooks| - 1]) +
        (if c.rd.flag(c.gs[h.owner].activations[h.index].enabled) then [NewRun(c, h.owner, 1.0)] else [])
  }

  /** The groups the intended chaining starts are exactly the owners of enabled hooks, whose AfterAnimation waits for the finished group. */
  lemma {:induction false} HookRunsOwners(c: Ctx, g: GroupId, n: nat)
    requires CtxOk(c) && HooksValid(c.gs) && g < |c.gs| && n <= |c.gs[g].hooked|
    ensures forall i :: 0 <= i < |HookRuns(c, c.gs[g].hooked[..n])| ==>
      var o := HookRuns(c, c.gs[g].hooked[..n])[i].group;
      exists k :: 0 <= k < n && c.gs[g].hooked[k].owner == o && WaitsFor(c.gs[o].activations, c.gs[g].hooked[k].index, g)
  {
    var hs := c.gs[g].hooked;
    if n > 0 {
      HookRunsOwners(c, g, n - 1);
      assert hs[..n][..n - 1] == hs[..n - 1];
      assert hs[..n][n - 1] == hs[n - 1];
    }
  }

  /**
   * `PerformAnimation` of running animation `k`: set its clock, start the
   * waiting asynchronous effects whose gate opens, advance and prune the
   * animating ones, start or advance the synchronous effect, and, once the
   * animation is finished, drop it and start the owners of its enabled hooks.
   */
  ghost function Perform(c: Ctx, st: State, k: nat): (r: State)
    requires StateOk(c, st) && k < |st.running|
    ensures StateOk(c, r)
  {
    var r0 := st.running[k];
    var clock := Clock(c, r0);
    var r1 := r0.(data := r0.data.(currentTime := clock));
    var st1 := StartOpened(c, st, r1.group, r1.async, clock);
    var r2 := AsyncStep(c, r1, clock);
    var r3 := r2.(animating := KeepRunning(StepAll(c, r2.group, r2.animating, clock)));
    var s := SyncStart(c, st1, r3);
    var r4 := SyncAnimate(c, s.1);
    var st2 := s.0;
    if Finished(r4) then st2.(running := Dropped(c.gs, st2.running, k, HookRuns(c, c.gs[r4.group].hooked)))
    else st2.(running := Replaced(c.gs, st2.running, k, r4))
  }

  /** The running list with animation `k` removed and `extra` appended. */
  function Dropped(gs: seq<Group>, rs: seq<Running>, k: nat, extra: seq<Running>): (res: seq<Running>)
    requires AllRunsOk(gs, rs) && AllRunsOk(gs, extra) && k < |rs|
    ensures AllRunsOk(gs, res) && |res| == |rs| - 1 + |extra|
  {
    rs[..k] + rs[k + 1..] + extra
  }

  /** The running list with animation `k` replaced by `r`. */
  function Replaced(gs: seq<Group>, rs: seq<Running>, k: nat, r: Running): (res: seq<Running>)
    requires AllRunsOk(gs, rs) && RunOk(gs, r) && k < |rs|
    ensures AllRunsOk(gs, res) && |res| == |rs|
  {
    rs[k := r]
  }

  /**
   * One tick keeps every running animation well formed, so the synchronous
   * index never passes the last synchronous effect.
   */
  lemma PerformKeepsRunsOk(c: Ctx, st: State, k: nat)
    requires StateOk(c, st) && k < |st.running|
    ensures AllRunsOk(c.gs, Perform(c, st, k).running)
    ensures forall i :: 0 <= i < |Perform(c, st, k).running| ==> !FinishedAsWritten(Perform(c, st, k).running[i])
  {
  }

  /**
   * A one-effect group that starts at once and ends at once: the intended
   * test finishes it on its first tick, the test as written never does.
   */
  lemma OneEffectFinishes(c: Ctx)
    requires CtxOk(c) && |c.gs| == 1 && |c.gs[0].effects| == 1 && |c.gs[0].hooked| == 0
    requires forall x :: !c.rd.present(x) && !c.rd.flag(x)
    ensures var st := State([NewRun(c, 0, 1.0)], None, [], []);
      Perform(c, st, 0).running == [] && !FinishedAsWritten(st.running[0])
  {
    var st := State([NewRun(c, 0, 1.0)], None, [], []);
    OneEffectRun(c);
    var t := TimingOf(c.rd, c.gs[0].effects[0]);
    assert !t.timeStart.present && !t.timeOffset.present && !t.timeFinish.present && !t.timeDuration.present;
    assert !t.enable;
    var r1 := st.running[0].(data := st.running[0].data.(currentTime := Clock(c, st.running[0])));
    assert r1.async == [] && r1.animating == [] && r1.sync == [0] && r1.syncIndex == -1;
    assert AsyncStep(c, r1, r1.data.currentTime) == r1;
    var d := CanStart(t, r1.data);
    assert d.canAnimate;
    var r2 := r1.(data := d, syncIndex := 0);
    assert SyncStart(c, st, r1) == (st, r2);
    var r3 := r2.(data := EndGate(t, d));
    assert SyncAnimate(c, r2) == r3 && Finished(r3);
  }

  /** The running record of a one-effect group whose effect is not asynchronous. */
  lemma OneEffectRun(c: Ctx)
    requires |c.gs| == 1 && |c.gs[0].effects| == 1
    requires forall x :: !c.rd.flag(x)
    ensures NewRun(c, 0, 1.0) == Running(0, c.now, 1.0, RunState(0.0, 0.0, 0.0, false), [0], [], [], -1)
  {
    var effs := c.gs[0].effects;
    assert WithAsync(c.rd, effs, 1, false) == [0];
    assert WithAsync(c.rd, effs, 1, true) == [];
  }

  // ---------------------------------------------------------------------
  // The runtime's steps, on the state they change
  // ---------------------------------------------------------------------

  /** The `RunningAnimation` ExecuteAnimation builds: the loop splitting the effects by their Async flag. */
  method NewRunning(c: Ctx, g: GroupId, timing: real) returns (r: Running)
    requires g < |c.gs|
    ensures r == NewRun(c, g, timing)
  {
    var t := if timing <= 0.0 then 1.0 else timing;
    var effs := c.gs[g].effects;
    var sync, async := [], [];
    var i := 0;
    while i < |effs|
      invariant i <= |effs|
      invariant sync == WithAsync(c.rd, effs, i, false) && async == WithAsync(c.rd, effs, i, true)
    {
      if c.rd.flag(effs[i].base.async) {
        async := async + [i];
      } else {
        sync := sync + [i];
      }
      i := i + 1;
    }
    r := Running(g, c.now, t, RunState(0.0, 0.0, 0.0, false), sync, async, [], -1);
  }

  /** Looks for an activation of group `g` that matches the change from `prev` to `value`, stopping at the first. */
  method FindMatch(c: Ctx, g: GroupId, prev: Option<nat>, value: Option<nat>) returns (found: bool)
    requires CtxOk(c) && g < |c.gs| && IsRef(c.cat, prev) && IsRef(c.cat, value)
    ensures found <==> Triggered(c, g, prev, value)
  {
    var acts := c.gs[g].activations;
    var j := 0;
    while j < |acts|
      invariant j <= |acts|
      invariant forall m :: 0 <= m < j ==> !Matches(c, acts[m], prev, value)
    {
      if acts[j].StatusChange? && c.rd.flag(acts[j].enabled) {
        var isNew := IsSubsetOrEqualFrom(c.cat, c.rd.status(acts[j].newStatus), value);
        if isNew {
          var isOld := IsSubsetOrEqualFrom(c.cat, c.rd.status(acts[j].oldStatus), prev);
          if isOld {
            return true;
          }
        }
      }
      j := j + 1;
    }
    return false;
  }

  /** The loop of the CurrentStatus setter: the registered groups with a matching activation, in order. */
  method FindTriggered(c: Ctx, prev: Option<nat>, value: Option<nat>) returns (ts: seq<GroupId>)
    requires CtxOk(c) && IsRef(c.cat, prev) && IsRef(c.cat, value)
    ensures ts == TriggeredGroups(c, prev, value, |c.anims|)
  {
    ts := [];
    var i := 0;
    while i < |c.anims|
      invariant i <= |c.anims|
      invariant ts == TriggeredGroups(c, prev, value, i)
    {
      var found := FindMatch(c, c.anims[i], prev, value);
      if found {
        ts := ts + [c.anims[i]];
      }
      i := i + 1;
    }
  }

  /** The runs ExecuteAnimation appends for the groups `gs`, one after the other. */
  method NewRunsFor(c: Ctx, gs: seq<GroupId>) returns (rs: seq<Running>)
    requires forall i :: 0 <= i < |gs| ==> gs[i] < |c.gs|
    ensures rs == NewRuns(c, gs)
  {
    rs := [];
    var i := 0;
    while i < |gs|
      invariant i <= |gs| && rs == NewRuns(c, gs[..i])
    {
      var r := NewRunning(c, gs[i], 1.0);
      assert gs[..i + 1][..i] == gs[..i];
      rs := rs + [r];
      i := i + 1;
    }
    assert gs[..i] == gs;
  }

  /** The CurrentStatus setter, on the state it changes. */
  method ChangeStatus(c: Ctx, st: State, value: Option<nat>) returns (st': State)
    requires StateOk(c, st) && IsRef(c.cat, value)
    ensures st' == SetStatus(c, st, value)
  {
    if Equal(c.cat, st.current, value) {
      return st;
    }
    var ts := FindTriggered(c, st.current, value);
    var runs := NewRunsFor(c, ts);
    st' := st.(running := st.running + runs, notified := st.notified + [(st.current, value)], current := value);
  }

  /** `FlushStatusQueue`, on the state it changes: every pending status is applied, in order. */
  method FlushOn(c: Ctx, st0: State, q0: seq<Push>) returns (st: State)
    requires StateOk(c, st0) && QueueOk(c.cat, q0)
    ensures st == Flush(c, st0, q0)
  {
    st := st0;
    var q := q0;
    while |q| > 0
      invariant StateOk(c, st) && QueueOk(c.cat, q)
      invariant Flush(c, st, q) == Flush(c, st0, q0)
      decreases |q|
    {
      var info := q[0];
      q := q[1..];
      st := ChangeStatus(c, st, info.status);
    }
  }

  /** `PerformStatus`, on the state and queue it changes. */
  method DrainOn(c: Ctx, st0: State, q0: seq<Push>) returns (st: State, q: seq<Push>)
    requires StateOk(c, st0) && QueueOk(c.cat, q0)
    ensures (st, q) == Drain(c, st0, q0, c.now)
  {
    st, q := st0, q0;
    if |q| == 0 {
      return;
    }
    var dif := 0;
    while |q| > 0
      invariant StateOk(c, st) && QueueOk(c.cat, q)
      invariant Drain(c, st, q, c.now - dif) == Drain(c, st0, q0, c.now)
      decreases |q|
    {
      var first := q[0];
      if first.started.None? {
        first := first.(started := Some(c.now - dif));
      }
      dif := c.now - (first.started.value + first.delay);
      if dif < 0 {
        q := [first] + q[1..];
        return;
      }
      st := ChangeStatus(c, st, first.status);
      q := q[1..];
    }
  }

  /** `StartAnimate` of effect `j` of group `g`, as the runtime sees it. */
  method StartOn(c: Ctx, st: State, g: GroupId, j: nat) returns (st': State)
    requires StateOk(c, st) && g < |c.gs| && j < |c.gs[g].effects|
    ensures st' == Start(c, st, g, j)
  {
    st' := st;
    match c.gs[g].effects[j].kind
    case Call(t, timing) =>
      var r := NewRunning(c, t, c.rd.number(timing));
      st' := st.(running := st.running + [r]);
    case SetState(s) =>
      st' := ChangeStatus(c, st, c.rd.status(s));
    case AnimAction(name) =>
      if c.rd.text(name) in c.rd.actions {
        st' := st.(requests := st.requests + [ActionRequest(g, j)]);
      }
    case PlaySound(_, _) =>
      if c.sound {
        st' := st.(requests := st.requests + [SoundRequest(g, j)]);
      }
    case _ =>
  }

  /** One step of the loop over the waiting asynchronous effects, at position `i` of the waiting list. */
  method OpenWaiting(c: Ctx, st0: State, r0: Running, i: nat, clock: real) returns (st: State, r: Running, opens: bool)
    requires StateOk(c, st0) && RunOk(c.gs, r0) && i < |r0.async|
    ensures var j := r0.async[i];
      var d := AsyncGate(c, r0.group, j, clock);
      && opens == d.canAnimate
      && r == (if opens then r0.(animating := r0.animating + [Animating(j, d)], async := r0.async[..i] + r0.async[i + 1..])
               else r0)
      && st == (if opens && TimingOf(c.rd, c.gs[r0.group].effects[j]).enable then Start(c, st0, r0.group, j) else st0)
    ensures StateOk(c, st) && RunOk(c.gs, r)
  {
    var j := r0.async[i];
    var t := TimingOf(c.rd, c.gs[r0.group].effects[j]);
    var d := CanStart(t, RunState(clock, 0.0, 0.0, false));
    opens := d.canAnimate;
    st, r := st0, r0;
    if opens {
      if t.enable {
        st := StartOn(c, st0, r0.group, j);
      }
      r := r0.(animating := r0.animating + [Animating(j, d)], async := r0.async[..i] + r0.async[i + 1..]);
    }
  }

  /**
   * The loop over the waiting asynchronous effects of `r0`: an effect
   * whose gate opens is started when enabled, moves to the animating list
   * and is removed, and the loop looks at the same position again.
   */
  method StartAsync(c: Ctx, st0: State, r0: Running, clock: real) returns (st: State, r: Running)
    requires StateOk(c, st0) && RunOk(c.gs, r0)
    ensures r == AsyncStep(c, r0, clock)
    ensures st == StartOpened(c, st0, r0.group, r0.async, clock)
  {
    ghost var m: nat := 0;
    st, r := st0, r0;
    var i: nat := 0;
    while i < |r.async|
      invariant AsyncLoop(c, st0, r0, clock, st, r, i, m)
      decreases |r.async| - i
    {
      st, r, i := StartNext(c, st0, r0, clock, st, r, i, m);
      m := m + 1;
    }
    assert m == |r0.async| && r0.async[..m] == r0.async;
  }

  /**
   * What the loop of `StartAsync` keeps after looking at the first `m`
   * waiting effects of `r0`, with `i` the position it looks at next.
   */
  ghost predicate AsyncLoop(c: Ctx, st0: State, r0: Running, clock: real, st: State, r: Running, i: nat, m: nat)
    requires StateOk(c, st0) && RunOk(c.gs, r0)
  {
    var g, js := r0.group, r0.async;
    && m <= |js| && RunOk(c.gs, r)
    && r.async == StillWaiting(c, g, js[..m], clock) + js[m..] && i == |StillWaiting(c, g, js[..m], clock)|
    && SameSync(r, r0) && r.animating == r0.animating + Opening(c, g, js[..m], clock)
    && st == StartOpened(c, st0, g, js[..m], clock)
  }

  /** One pass of the loop of `StartAsync`. */
  method StartNext(c: Ctx, st0: State, r0: Running, clock: real, st: State, r: Running, i: nat, ghost m: nat)
    returns (st': State, r': Running, i': nat)
    requires StateOk(c, st0) && RunOk(c.gs, r0)
    requires AsyncLoop(c, st0, r0, clock, st, r, i, m) && i < |r.async|
    ensures AsyncLoop(c, st0, r0, clock, st', r', i', m + 1)
    ensures |r'.async| - i' == |r.async| - i - 1
  {
    ghost var g := r0.group;
    ghost var js := r0.async;
    PrefixStarts(c, st0, g, js, m, clock);
    WaitingSplit(StillWaiting(c, g, js[..m], clock), js, m);
    var opens;
    st', r', opens := OpenWaiting(c, st, r, i, clock);
    WaitingStep(c, g, js, m, clock, r0.animating, r.async, r.animating, i, r'.async, r'.animating, opens);
    i' := if opens then i else i + 1;
  }

  /** The end gates of the animating asynchronous effects, at `clock`. */
  method Advance(c: Ctx, r: Running, clock: real) returns (xs: seq<Animating>)
    requires RunOk(c.gs, r)
    ensures xs == StepAll(c, r.group, r.animating, clock)
  {
    var effs := c.gs[r.group].effects;
    xs := [];
    var i := 0;
    while i < |r.animating|
      invariant i <= |r.animating|
      invariant xs == StepAll(c, r.group, r.animating[..i], clock)
    {
      var x := r.animating[i];
      xs := xs + [Animating(x.effect, EndGate(TimingOf(c.rd, effs[x.effect]), x.data.(currentTime := clock)))];
      assert r.animating[..i + 1][..i] == r.animating[..i];
      i := i + 1;
    }
    assert r.animating[..i] == r.animating;
  }

  /** `RemoveAll` of the stopped animating effects. */
  method Prune(xs: seq<Animating>) returns (kept: seq<Animating>)
    ensures kept == KeepRunning(xs)
  {
    kept := [];
    var i := 0;
    while i < |xs|
      invariant i <= |xs| && kept == KeepRunning(xs[..i])
    {
      if xs[i].data.canAnimate {
        kept := kept + [xs[i]];
      }
      assert xs[..i + 1][..i] == xs[..i];
      i := i + 1;
    }
    assert xs[..i] == xs;
  }

  /** The synchronous start of `r0`. */
  method StepSync(c: Ctx, st0: State, r0: Running) returns (st: State, r: Running)
    requires StateOk(c, st0) && RunOk(c.gs, r0)
    ensures (st, r) == SyncStart(c, st0, r0)
  {
    st, r := st0, r0;
    if !r.data.canAnimate {
      r := r.(syncIndex := r.syncIndex + 1);
      if r.syncIndex < |r.sync| {
        var j := r.sync[r.syncIndex];
        var t := TimingOf(c.rd, c.gs[r.group].effects[j]);
        var d := CanStart(t, r.data);
        if d.canAnimate && t.enable {
          st := StartOn(c, st0, r.group, j);
        }
        r := r.(data := d);
      }
      if !r.data.canAnimate {
        r := r.(syncIndex := r.syncIndex - 1);
      }
    }
  }

  /** The running synchronous effect's end gate. */
  method SyncEnd(c: Ctx, r0: Running) returns (r: Running)
    requires RunOk(c.gs, r0)
    ensures r == SyncAnimate(c, r0)
  {
    r := r0;
    if r.data.canAnimate {
      r := r.(data := EndGate(TimingOf(c.rd, c.gs[r.group].effects[r.sync[r.syncIndex]]), r.data));
    }
  }

  /** The runs started by the enabled hooks of a finished group. */
  method HookRunsFor(c: Ctx, hooks: seq<Hook>) returns (rs: seq<Running>)
    requires CtxOk(c) && forall k :: 0 <= k < |hooks| ==>
      hooks[k].owner < |c.gs| && hooks[k].index < |c.gs[hooks[k].owner].activations|
    ensures rs == HookRuns(c, hooks)
  {
    rs := [];
    var i := 0;
    while i < |hooks|
      invariant i <= |hooks|
      invariant rs == HookRuns(c, hooks[..i])
    {
      var h := hooks[i];
      if c.rd.flag(c.gs[h.owner].activations[h.index].enabled) {
        var r := NewRunning(c, h.owner, 1.0);
        rs := rs + [r];
      }
      assert hooks[..i + 1][..i] == hooks[..i];
      i := i + 1;
    }
    assert hooks[..i] == hooks;
  }

  /** `PerformAnimation` of the running animation at position `k`, on the state it changes. */
  method PerformOn(c: Ctx, st0: State, k: nat) returns (st: State)
    requires StateOk(c, st0) && k < |st0.running|
    ensures st == Perform(c, st0, k)
  {
    var r := st0.running[k];
    var clock := Clock(c, r);
    r := r.(data := r.data.(currentTime := clock));
    st, r := StartAsync(c, st0, r, clock);
    var stepped := Advance(c, r, clock);
    var kept := Prune(stepped);
    r := r.(animating := kept);
    st, r := StepSync(c, st, r);
    r := SyncEnd(c, r);
    if Finished(r) {
      var hooked := HookRunsFor(c, c.gs[r.group].hooked);
      st := st.(running := Dropped(c.gs, st.running, k, hooked));
    } else {
      st := st.(running := Replaced(c.gs, st.running, k, r));
    }
  }

  // ---------------------------------------------------------------------
  // The runtime object
  // ---------------------------------------------------------------------

  class AnimationRuntime {
    const cat: seq<StatusNode>
    const store: GroupStore
    var animations: seq<GroupId>
    var running: seq<Running>
    var current: Option<nat>
    var queue: seq<Push>
    var timer: int
    var soundPlayer: bool
    var notified: seq<(Option<nat>, Option<nat>)>
    var requests: seq<Request>

    /** The part a tick changes. */
    function Snapshot(): State
      reads this`running, this`current, this`notified, this`requests
    {
      State(running, current, notified, requests)
    }

    /** What a tick reads and does not change, with the cells as read and the clock. */
    function Context(rd: Reads, now: int): Ctx
      reads this`animations, this`soundPlayer, store`groups
    {
      Ctx(cat, store.groups, animations, rd, now, soundPlayer)
    }

    /** The parts a tick does not change are consistent. */
    ghost predicate Settled()
      reads this`animations, this`queue, this`timer, store`groups
    {
      StoreOk(cat, store.groups) && AnimsOk(animations, |store.groups|) && QueueOk(cat, queue) && QueueFresh(queue) && timer > 0
    }

    ghost predicate Valid()
      reads this, store
    {
      Settled() && IsRef(cat, current) && AllRunsOk(store.groups, running)
    }

    /** What a tick needs of the runtime, with the cells as read. */
    ghost predicate Ready(rd: Reads, now: int)
      reads this, store
    {
      StateOk(Context(rd, now), Snapshot())
    }

    /** A runtime with nothing registered, running or queued, no status, and a 40 ms timer. */
    constructor (cat: seq<StatusNode>, store: GroupStore)
      requires StoreOk(cat, store.groups)
      ensures Valid() && this.cat == cat && this.store == store
      ensures animations == [] && running == [] && current == None && queue == [] && timer == 40
      ensures !soundPlayer && notified == [] && requests == []
    {
      this.cat := cat;
      this.store := store;
      animations := [];
      running := [];
      current := None;
      queue := [];
      timer := 40;
      soundPlayer := false;
      notified := [];
      requests := [];
    }

    /** Stores the state a step computed. */
    method Commit(st: State)
      modifies this`running, this`current, this`notified, this`requests
      ensures Snapshot() == st
    {
      running, current, notified, requests := st.running, st.current, st.notified, st.requests;
    }

    /** The AnimationTimer setter: only a positive period is taken. */
    method SetAnimationTimer(value: int)
      requires Valid()
      modifies this`timer
      ensures timer == (if value > 0 then value else old(timer))
      ensures Valid()
    {
      if value > 0 {
        timer := value;
      }
    }

    /** `ExecuteAnimation(g, timing)`: appends a running animation whose effects are split by their Async flag. */
    method ExecuteAnimation(g: GroupId, timing: real, rd: Reads, now: int)
      requires g < |store.groups|
      modifies this`running
      ensures running == old(running) + [NewRun(Context(rd, now), g, timing)]
    {
      var r := NewRunning(Context(rd, now), g, timing);
      running := running + [r];
    }

    /** The CurrentStatus setter. */
    method SetCurrentStatus(value: Option<nat>, rd: Reads, now: int)
      requires Ready(rd, now) && IsRef(cat, value)
      modifies this`running, this`current, this`notified, this`requests
      ensures Snapshot() == SetStatus(Context(rd, now), old(Snapshot()), value)
      ensures Ready(rd, now)
    {
      var st := ChangeStatus(Context(rd, now), Snapshot(), value);
      Commit(st);
    }

    /** `PushStatus`: queues a status with its delay; its clock has not started. */
    method PushStatus(status: Option<nat>, delay: int)
      requires Valid() && IsRef(cat, status)
      modifies this`queue
      ensures queue == old(queue) + [Push(status, delay, None)]
      ensures Valid()
    {
      queue := queue + [Push(status, delay, None)];
    }

    /** `ClearStatusQueue`. */
    method ClearStatusQueue()
      requires Valid()
      modifies this`queue
      ensures queue == []
      ensures Valid()
    {
      queue := [];
    }

    /** `FlushStatusQueue`: applies every pending status in order, ignoring delays. */
    method FlushStatusQueue(rd: Reads, now: int)
      requires Ready(rd, now) && QueueOk(cat, queue)
      modifies this`running, this`current, this`notified, this`requests, this`queue
      ensures queue == []
      ensures Snapshot() == Flush(Context(rd, now), old(Snapshot()), old(queue))
      ensures Ready(rd, now)
    {
      var st := FlushOn(Context(rd, now), Snapshot(), queue);
      Commit(st);
      queue := [];
    }

    /** `PerformStatus` at tick `now`. */
    method PerformStatus(rd: Reads, now: int)
      requires Ready(rd, now) && QueueOk(cat, queue) && QueueFresh(queue)
      modifies this`running, this`current, this`notified, this`requests, this`queue
      ensures (Snapshot(), queue) == Drain(Context(rd, now), old(Snapshot()), old(queue), now)
      ensures Ready(rd, now) && QueueOk(cat, queue) && QueueFresh(queue)
    {
      DrainKeepsFresh(Context(rd, now), Snapshot(), queue, now);
      var st, q := DrainOn(Context(rd, now), Snapshot(), queue);
      Commit(st);
      queue := q;
    }

    /** `Register`: a group not yet registered is added and its AfterAnimation activations hook themselves on their targets. */
    method Register(g: GroupId)
      requires Valid() && g < |store.groups|
      modifies this`animations, store`groups
      ensures animations == if g in old(animations) then old(animations) else old(animations) + [g]
      ensures store.groups == if g in old(animations) then old(store.groups)
        else Hooked(old(store.groups), old(store.groups)[g].activations, g, |old(store.groups)[g].activations|)
      ensures Valid()
    {
      if g !in animations {
        animations := animations + [g];
        ghost var gs := store.groups;
        HookGroup(store, g);
        HookedValid(gs, g, |gs[g].activations|);
        forall t | 0 <= t < |gs|
          ensures SameButHooks(store.groups[t], gs[t])
        {
          HookedAt(gs, gs[g].activations, g, |gs[g].activations|, t);
        }
        KeepsShape(gs, store.groups, running);
      }
    }

    /** `UnRegister`: the group is removed and its AfterAnimation activations unhook themselves. */
    method UnRegister(g: GroupId)
      requires Valid() && g < |store.groups|
      modifies this`animations, store`groups
      ensures animations == RemoveFirst(old(animations), g)
      ensures store.groups == Unhooked(old(store.groups), old(store.groups)[g].activations, g, |old(store.groups)[g].activations|)
      ensures Valid()
    {
      RemoveFirstKeeps(animations, g, |store.groups|);
      animations := RemoveFirst(animations, g);
      ghost var gs := store.groups;
      UnhookGroup(store, g);
      UnhookedValid(gs, gs[g].activations, g, |gs[g].activations|);
      KeepsShape(gs, store.groups, running);
    }

    /** `PerformAnimation` of the running animation at position `k`. */
    method PerformAnimation(k: nat, rd: Reads, now: int)
      requires Ready(rd, now) && k < |running|
      modifies this`running, this`current, this`notified, this`requests
      ensures Snapshot() == Perform(Context(rd, now), old(Snapshot()), k)
      ensures Ready(rd, now)
    {
      var st := PerformOn(Context(rd, now), Snapshot(), k);
      Commit(st);
    }
  }

  /** Changing only hooks keeps the store consistent for the running animations. */
  lemma KeepsShape(a: seq<Group>, b: seq<Group>, rs: seq<Running>)
    requires |a| == |b| && forall t :: 0 <= t < |a| ==> SameButHooks(b[t], a[t])
    requires CallsIn(a) && TargetsIn(a) && AllRunsOk(a, rs)
    ensures CallsIn(b) && TargetsIn(b) && AllRunsOk(b, rs)
  {
  }

  /** Removing a group from the registration list keeps it duplicate-free and within the store. */
  lemma {:induction false} RemoveFirstKeeps(anims: seq<GroupId>, g: GroupId, n: nat)
    requires AnimsOk(anims, n)
    ensures AnimsOk(RemoveFirst(anims, g), n) && g !in RemoveFirst(anims, g)
  {
    if |anims| > 0 {
      RemoveFirstKeeps(anims[1..], g, n);
      if anims[0] != g {
        var r := RemoveFirst(anims[1..], g);
        forall y | y in r
          ensures y in anims[1..]
        {
          RemoveFirstSubset(anims[1..], g, y);
        }
        assert anims[0] !in anims[1..];
      } else {
        assert g !in anims[1..];
      }
    }
  }
}
