/** The mutation watcher (`ObserverService` in
    `src/content/services/observer.service.ts`): an observer that is either
    absent or present, attached to `document.body` once there is one, and a
    single "frame requested" flag that coalesces bursts of mutation batches
    into one animation-frame callback. Browser activity arrives as events. */
module Observer {
  import opened Seqs
  import opened Dom
  import opened PostParser

  /** The watcher's state. `callback` names the stored `processCallback`;
      `pollers` counts the `setInterval` loops still waiting for a body;
      `pendingFrames` counts the `requestAnimationFrame` callbacks the
      browser has not yet run (the service itself never cancels one). */
  datatype Watcher = Watcher(
    observing: bool,
    attached: bool,
    pollers: nat,
    callback: Option<nat>,
    frameRequested: bool,
    pendingFrames: nat)

  /** A new service: no observer, no callback, no frame. */
  const Idle: Watcher := Watcher(false, false, 0, None, false, 0)

  /** What can happen: `start`, a body appearing for the waiting pollers, a
      batch of mutation records (each given by its added nodes), an animation
      frame running, `stop`. */
  datatype Event =
    | Start(cb: nat, bodyPresent: bool)
    | BodyAppears
    | Mutations(batch: seq<seq<Node>>)
    | FrameFires
    | Stop

  /** An added node that signals new content: an element that is a `DIV`, or
      that matches or contains `[role="article"]`. */
  predicate SignalsContent(n: Node) {
    && n.Element?
    && (n.tag == "DIV" || Matches([], n, ArticleSelector) || QuerySelector(n, ArticleSelector).Some?)
  }

  /** The inner loop over one record's added nodes. */
  function NodesSignal(nodes: seq<Node>): (r: bool)
    ensures r <==> exists i :: 0 <= i < |nodes| && SignalsContent(nodes[i])
  {
    if |nodes| == 0 then false
    else if SignalsContent(nodes[0]) then true
    else
      var rest := NodesSignal(nodes[1..]);
      assert forall i :: 1 <= i < |nodes| ==> nodes[1..][i - 1] == nodes[i];
      rest
  }

  /** `hasNewContent`: the outer loop over the batch, which stops at the
      first record with a signalling node. */
  function BatchQualifies(batch: seq<seq<Node>>): (r: bool)
    ensures r <==> exists i :: 0 <= i < |batch| && NodesSignal(batch[i])
  {
    if |batch| == 0 then false
    else if NodesSignal(batch[0]) then true
    else
      var rest := BatchQualifies(batch[1..]);
      assert forall i :: 1 <= i < |batch| ==> batch[1..][i - 1] == batch[i];
      rest
  }

  /** Text nodes and other non-elements never make a batch qualify. */
  lemma {:induction false} NonElementsNeverQualify(batch: seq<seq<Node>>)
    requires forall i, j :: 0 <= i < |batch| && 0 <= j < |batch[i]| ==> !batch[i][j].Element?
    ensures !BatchQualifies(batch)
  {
    forall i | 0 <= i < |batch| ensures !NodesSignal(batch[i]) {
      assert forall j :: 0 <= j < |batch[i]| ==> !SignalsContent(batch[i][j]);
    }
  }

  /** The result of one event: the new state and the callback run, if any. */
  datatype StepResult = StepResult(next: Watcher, invoked: Option<nat>)

  /** `start(onNewContent)`: a no-op while an observer exists; otherwise it
      stores the callback and attaches now or starts polling for a body. */
  function OnStart(w: Watcher, cb: nat, bodyPresent: bool): (r: Watcher)
    ensures w.observing ==> r == w
    ensures !w.observing ==> r.observing && r.callback == Some(cb) && r.attached == bodyPresent
    ensures !w.observing ==> r.pollers == (if bodyPresent then w.pollers else w.pollers + 1)
    ensures r.frameRequested == w.frameRequested && r.pendingFrames == w.pendingFrames
  {
    if w.observing then w
    else if bodyPresent then w.(observing := true, callback := Some(cb), attached := true)
    else w.(observing := true, callback := Some(cb), attached := false, pollers := w.pollers + 1)
  }

  /** The polling loops see the body: each attaches the current observer, if
      there is one, and stops. */
  function OnBodyAppears(w: Watcher): (r: Watcher)
    ensures r.pollers == 0
    ensures r.attached <==> w.attached || (w.pollers > 0 && w.observing)
    ensures r.observing == w.observing && r.callback == w.callback
    ensures r.frameRequested == w.frameRequested && r.pendingFrames == w.pendingFrames
  {
    if w.pollers > 0 && w.observing then w.(attached := true, pollers := 0) else w.(pollers := 0)
  }

  /** The observer callback on one batch: a qualifying batch requests a frame
      unless one is already requested. A detached or absent observer
      receives nothing. */
  function OnMutations(w: Watcher, batch: seq<seq<Node>>): (r: Watcher)
    ensures !(w.observing && w.attached && BatchQualifies(batch)) ==> r == w
    ensures w.frameRequested ==> r == w
    ensures w.observing && w.attached && BatchQualifies(batch) && !w.frameRequested ==>
      r == w.(frameRequested := true, pendingFrames := w.pendingFrames + 1)
  {
    if w.observing && w.attached && BatchQualifies(batch) && !w.frameRequested then
      w.(frameRequested := true, pendingFrames := w.pendingFrames + 1)
    else w
  }

  /** One requested animation frame runs: it clears the flag first and then
      calls whatever callback is stored at that moment. */
  function OnFrame(w: Watcher): (r: StepResult)
    ensures w.pendingFrames == 0 ==> r == StepResult(w, None)
    ensures w.pendingFrames > 0 ==>
      && r.next == w.(frameRequested := false, pendingFrames := w.pendingFrames - 1)
      && r.invoked == w.callback
  {
    if w.pendingFrames == 0 then StepResult(w, None)
    else StepResult(w.(frameRequested := false, pendingFrames := w.pendingFrames - 1), w.callback)
  }

  /** `stop()`: disconnect and drop the observer, the callback and the flag.
      Neither the polling loops nor a frame already requested are cancelled. */
  function OnStop(w: Watcher): (r: Watcher)
    ensures !r.observing && !r.attached && r.callback.None? && !r.frameRequested
    ensures r.pollers == w.pollers && r.pendingFrames == w.pendingFrames
  {
    w.(observing := false, attached := false, callback := None, frameRequested := false)
  }

  /** One event. */
  function Step(w: Watcher, e: Event): (r: StepResult)
    ensures e.FrameFires? || r.invoked.None?
  {
    match e
    case Start(cb, b) => StepResult(OnStart(w, cb, b), None)
    case BodyAppears => StepResult(OnBodyAppears(w), None)
    case Mutations(batch) => StepResult(OnMutations(w, batch), None)
    case FrameFires => OnFrame(w)
    case Stop => StepResult(OnStop(w), None)
  }

  /** A run of events from a state: the final state and the callbacks run,
      in order. */
  datatype Trace = Trace(final: Watcher, invoked: seq<nat>)

  function Run(w: Watcher, es: seq<Event>): (t: Trace)
    ensures |t.invoked| <= |es|
    decreases |es|
  {
    if |es| == 0 then Trace(w, [])
    else
      var s := Step(w, es[0]);
      var rest := Run(s.next, es[1..]);
      Trace(rest.final, (if s.invoked.Some? then [s.invoked.value] else []) + rest.invoked)
  }

  /** A requested frame is always still pending. */
  ghost predicate FlagBacked(w: Watcher) {
    w.frameRequested ==> w.pendingFrames >= 1
  }

  lemma StepKeepsFlagBacked(w: Watcher, e: Event)
    requires FlagBacked(w)
    ensures FlagBacked(Step(w, e).next)
  {
  }

  /** At most one frame is pending, and the flag says whether it is. */
  ghost predicate SingleFrame(w: Watcher) {
    w.pendingFrames <= 1 && (w.frameRequested <==> w.pendingFrames == 1)
  }

  /** Every event but `stop` keeps at most one frame pending. */
  lemma StepKeepsSingleFrame(w: Watcher, e: Event)
    requires SingleFrame(w) && !e.Stop?
    ensures SingleFrame(Step(w, e).next)
  {
  }

  /** Without `stop`, a run never has two frames pending. */
  lemma {:induction false} RunKeepsSingleFrame(w: Watcher, es: seq<Event>)
    requires SingleFrame(w)
    requires forall i :: 0 <= i < |es| ==> !es[i].Stop?
    ensures SingleFrame(Run(w, es).final)
    decreases |es|
  {
    if |es| > 0 {
      StepKeepsSingleFrame(w, es[0]);
      assert forall i :: 1 <= i < |es| ==> es[1..][i - 1] == es[i];
      RunKeepsSingleFrame(Step(w, es[0]).next, es[1..]);
    }
  }

  /** `stop` does not cancel a requested frame, so after `stop` and a new
      `start`, a qualifying batch requests a second frame while the first is
      still pending, and both run the new callback. */
  lemma RestartCanLeaveTwoFrames(batch: seq<seq<Node>>)
    requires BatchQualifies(batch)
    ensures var t := Run(Idle, [Start(1, true), Mutations(batch), Stop, Start(2, true), Mutations(batch), FrameFires, FrameFires]);
      t.invoked == [2, 2] && t.final.pendingFrames == 0
  {
    var w1 := OnStart(Idle, 1, true);
    var w2 := OnMutations(w1, batch);
    var w3 := OnStop(w2);
    var w4 := OnStart(w3, 2, true);
    var w5 := OnMutations(w4, batch);
    assert w5.pendingFrames == 2 && w5.callback == Some(2);
    var w6 := OnFrame(w5).next;
    var w7 := OnFrame(w6).next;
    assert Run(w6, [FrameFires]) == Trace(w7, [2]) by {
      assert [FrameFires][1..] == [];
    }
    assert Run(w5, [FrameFires, FrameFires]) == Trace(w7, [2, 2]) by {
      assert [FrameFires, FrameFires][1..] == [FrameFires];
    }
    assert Run(w4, [Mutations(batch), FrameFires, FrameFires]) == Trace(w7, [2, 2]) by {
      assert [Mutations(batch), FrameFires, FrameFires][1..] == [FrameFires, FrameFires];
    }
    assert Run(w3, [Start(2, true), Mutations(batch), FrameFires, FrameFires]) == Trace(w7, [2, 2]) by {
      assert [Start(2, true), Mutations(batch), FrameFires, FrameFires][1..] == [Mutations(batch), FrameFires, FrameFires];
    }
    assert Run(w2, [Stop, Start(2, true), Mutations(batch), FrameFires, FrameFires]) == Trace(w7, [2, 2]) by {
      assert [Stop, Start(2, true), Mutations(batch), FrameFires, FrameFires][1..] == [Start(2, true), Mutations(batch), FrameFires, FrameFires];
    }
    assert Run(w1, [Mutations(batch), Stop, Start(2, true), Mutations(batch), FrameFires, FrameFires]) == Trace(w7, [2, 2]) by {
      assert [Mutations(batch), Stop, Start(2, true), Mutations(batch), FrameFires, FrameFires][1..] == [Stop, Start(2, true), Mutations(batch), FrameFires, FrameFires];
    }
    assert [Start(1, true), Mutations(batch), Stop, Start(2, true), Mutations(batch), FrameFires, FrameFires][1..] == [Mutations(batch), Stop, Start(2, true), Mutations(batch), FrameFires, FrameFires];
  }

  /** `start` while observing changes nothing, in particular not the stored
      callback. */
  lemma StartWhileObservingIsNoop(w: Watcher, cb: nat, b: bool)
    requires w.observing
    ensures Step(w, Start(cb, b)) == StepResult(w, None)
  {
  }

  /** `stop` twice is `stop` once, and `start` works again afterwards. */
  lemma StopIdempotent(w: Watcher, cb: nat)
    ensures OnStop(OnStop(w)) == OnStop(w)
    ensures OnStart(OnStop(w), cb, true).observing && OnStart(OnStop(w), cb, true).callback == Some(cb)
  {
  }

  /** A frame that runs after `stop` calls nothing. */
  lemma FrameAfterStopInvokesNothing(w: Watcher)
    ensures OnFrame(OnStop(w)).invoked.None?
  {
  }

  /** The flag is down once a frame has run, so the next qualifying batch on
      an attached observer requests a frame again. */
  lemma FrameReopensScheduling(w: Watcher, batch: seq<seq<Node>>)
    requires w.pendingFrames > 0 && w.observing && w.attached && BatchQualifies(batch)
    ensures var v := OnFrame(w).next; OnMutations(v, batch).frameRequested && OnMutations(v, batch).pendingFrames == w.pendingFrames
  {
  }
}
