/** Claiming calls: the poll round of a node, its control lease, and the server. */
module Claims {
  import opened Wrappers

  type Id = nat

  const MAX_COMMANDS: nat := 4

  /** What one poll says, and what it is told. */
  datatype Ask = Ask(running: set<Id>, abandoned: set<Id>, slots: nat)
  datatype Reply = Reply(commands: seq<Id>, cancelled: seq<Id>)

  // ---- the node ----

  /** `tasks` says of each tracked call whether its task is done; `ask` is the poll
      that waits for an answer. */
  datatype Node = Node(tasks: map<Id, bool>, requested: set<Id>, abandoned: set<Id>,
                       freed: bool, stopping: bool, ask: Option<Ask>)

  function Live(tasks: map<Id, bool>): map<Id, bool> {
    map id | id in tasks && !tasks[id] :: false
  }

  function Room(max: nat, taken: nat): nat {
    if taken < max then max - taken else 0
  }

  /** `poll_once` up to its first wait. */
  function Begun(n: Node, max: nat): Node {
    var live := Live(n.tasks);
    var requested := n.requested * live.Keys;
    n.(tasks := live, requested := requested, freed := false,
       ask := Some(Ask(live.Keys - requested, n.abandoned, Room(max, |live|))))
  }

  function SetOf(ids: seq<Id>): set<Id> {
    set id | id in ids
  }

  function Started(tasks: map<Id, bool>, ids: seq<Id>): map<Id, bool> {
    map id | id in tasks.Keys + SetOf(ids) :: if id in ids then false else tasks[id]
  }

  /** The rest of it, when the poll was answered. */
  function Answered(n: Node, reply: Reply): Node
    requires n.ask.Some?
  {
    var kept := n.abandoned - n.ask.value.abandoned;
    var m := n.(requested := n.requested + SetOf(reply.cancelled) * n.tasks.Keys, ask := None);
    if n.stopping then m.(abandoned := kept + SetOf(reply.commands))
    else m.(abandoned := kept, tasks := Started(n.tasks, reply.commands))
  }

  /** The lease watchdog: what was tracked is given up. */
  function Expired(n: Node): Node {
    n.(abandoned := n.abandoned + n.tasks.Keys, tasks := map[])
  }

  // ---- the server ----

  datatype Call = Queued | Claimed | Over

  /** Calls reported as given up are ended first; then queued calls are claimed. */
  function Served(calls: map<Id, Call>, ask: Ask, picks: seq<Id>): map<Id, Call> {
    map id | id in calls ::
      if id in ask.abandoned then Over else if id in picks then Claimed else calls[id]
  }

  ghost predicate Distinct(ids: seq<Id>) {
    forall i, j :: 0 <= i < j < |ids| ==> ids[i] != ids[j]
  }

  ghost predicate Pickable(calls: map<Id, Call>, ask: Ask, picks: seq<Id>) {
    && |picks| <= ask.slots && |picks| <= MAX_COMMANDS && Distinct(picks)
    && forall id :: id in picks ==> id in calls && calls[id] == Queued
  }

  // ---- both, and what has happened so far ----

  /** `received`: ids handed to the node; `done`: ids whose task ended; `dismissed`:
      done, and dropped from the table; `reported`: left `abandoned` because a poll
      had carried them; `stray`: claimed by a poll whose answer was lost. */
  datatype World = World(node: Node, calls: map<Id, Call>, asks: seq<Ask>, reply: Option<Reply>,
                         received: set<Id>, done: set<Id>, dismissed: set<Id>, reported: set<Id>, stray: set<Id>)

  /** Steps between two awaits. `Serve(k, ..)`: the server works off the `k`-th poll
      ever sent, perhaps long after the node gave up on it. */
  datatype Event =
    | Begin
    | Serve(k: nat, picks: seq<Id>, cancelled: seq<Id>)
    | Answer
    | Interrupt
    | Fail
    | Complete(id: Id)
    | Free
    | Lease
    | Stop
    | Enqueue(id: Id)
    | EndCall(id: Id)

  predicate Current(w: World, k: nat) {
    w.node.ask.Some? && k + 1 == |w.asks|
  }

  ghost predicate Enabled(w: World, e: Event) {
    match e
    case Begin => w.node.ask.None?
    case Serve(k, picks, cancelled) =>
      k < |w.asks| && Pickable(w.calls, w.asks[k], picks) && (Current(w, k) ==> w.reply.None?)
    case Answer => w.node.ask.Some? && w.reply.Some?
    case Interrupt => w.node.ask.Some? && w.node.ask.value.slots == 0 && (w.node.freed || w.node.stopping)
    case Fail => w.node.ask.Some?
    case Complete(id) => id in w.node.tasks && !w.node.tasks[id]
    case Enqueue(id) => id !in w.calls
    case EndCall(id) => id in w.calls
    case _ => true
  }

  function Waiting(w: World): set<Id> {
    if w.reply.Some? then SetOf(w.reply.value.commands) else {}
  }

  function Step(w: World, e: Event, max: nat): World {
    match e
    case Begin =>
      var n := Begun(w.node, max);
      w.(node := n, asks := w.asks + [n.ask.value], reply := None,
         dismissed := w.dismissed + (w.node.tasks.Keys - n.tasks.Keys))
    case Serve(k, picks, cancelled) =>
      if k >= |w.asks| then w
      else
        var calls := Served(w.calls, w.asks[k], picks);
        if Current(w, k) then w.(calls := calls, reply := Some(Reply(picks, cancelled)))
        else w.(calls := calls, stray := w.stray + SetOf(picks))
    case Answer =>
      if w.node.ask.None? || w.reply.None? then w
      else
        var n := Answered(w.node, w.reply.value);
        w.(node := n, reply := None, received := w.received + SetOf(w.reply.value.commands),
           reported := w.reported + w.node.abandoned * w.node.ask.value.abandoned,
           asks := if n.stopping && n.abandoned != {} then w.asks + [Ask({}, n.abandoned, 0)] else w.asks)
    case Interrupt => w.(node := w.node.(ask := None), reply := None, stray := w.stray + Waiting(w))
    case Fail => w.(node := w.node.(ask := None), reply := None, stray := w.stray + Waiting(w))
    case Complete(id) => w.(node := w.node.(tasks := w.node.tasks[id := true], freed := true), done := w.done + {id})
    case Free => w.(node := w.node.(freed := true))
    case Lease => w.(node := Expired(w.node))
    case Stop => w.(node := w.node.(stopping := true))
    case Enqueue(id) => w.(calls := w.calls[id := Queued])
    case EndCall(id) => w.(calls := w.calls[id := Over])
  }

  function Start(): World {
    World(Node(map[], {}, {}, false, false, None), map[], [], None, {}, {}, {}, {}, {})
  }

  function Run(es: seq<Event>, max: nat): World {
    if es == [] then Start() else Step(Run(es[..|es| - 1], max), es[|es| - 1], max)
  }

  ghost predicate Possible(es: seq<Event>, max: nat) {
    forall i :: 0 <= i < |es| ==> Enabled(Run(es[..i], max), es[i])
  }

  // ---- what holds all along ----

  ghost predicate Parted(whole: set<Id>, a: set<Id>, b: set<Id>, c: set<Id>, d: set<Id>) {
    whole == a + b + c + d && a !! b !! c !! d
  }

  /** Every received call is exactly one of: tracked, ended, given up, reported. */
  ghost predicate Accounted(w: World) {
    var n := w.node;
    && Parted(w.received, n.tasks.Keys, w.dismissed, n.abandoned, w.reported)
    && w.dismissed <= w.done
    && forall id :: id in n.tasks && n.tasks[id] ==> id in w.done
  }

  /** What the server has claimed is known to the node, on its way, or stray. */
  ghost predicate Agreed(w: World) {
    && (forall id :: id in w.received + w.stray + Waiting(w) ==> id in w.calls && w.calls[id] != Queued)
    && (forall id :: id in w.calls && w.calls[id] == Claimed ==> id in w.received + w.stray + Waiting(w))
    && w.received !! w.stray !! Waiting(w)
    && (forall id :: id in w.reported ==> id in w.calls && w.calls[id] == Over)
  }

  ghost predicate Bounded(w: World, max: nat) {
    && |w.node.tasks| <= max
    && (w.node.ask.Some? ==> |w.node.tasks| + w.node.ask.value.slots <= max)
  }

  ghost predicate Polling(w: World) {
    && (forall k :: 0 <= k < |w.asks| ==> w.asks[k].abandoned <= w.received)
    && (w.node.ask.Some? ==> w.asks != [] && w.asks[|w.asks| - 1] == w.node.ask.value)
    && (w.reply.Some? ==>
          && w.node.ask.Some?
          && |w.reply.value.commands| <= w.node.ask.value.slots
          && Distinct(w.reply.value.commands)
          && forall id :: id in w.node.ask.value.abandoned ==> id in w.calls && w.calls[id] == Over)
  }

  ghost predicate Inv(w: World, max: nat) {
    Accounted(w) && Agreed(w) && Bounded(w, max) && Polling(w)
  }

  lemma SetOfSize(ids: seq<Id>)
    ensures |SetOf(ids)| <= |ids|
  {
    if ids != [] {
      SetOfSize(ids[1..]);
      assert SetOf(ids) == {ids[0]} + SetOf(ids[1..]);
    }
  }

  lemma BeginSize(n: Node, max: nat)
    requires |n.tasks| <= max
    ensures var m := Begun(n, max); |m.tasks| <= max && |m.tasks| + m.ask.value.slots <= max
  {
    var live := Live(n.tasks);
    SubsetSize(live.Keys, n.tasks.Keys);
    assert |live| == |live.Keys| && |n.tasks| == |n.tasks.Keys|;
  }

  lemma AnswerSize(n: Node, reply: Reply, max: nat)
    requires n.ask.Some? && |reply.commands| <= n.ask.value.slots
    requires |n.tasks| + n.ask.value.slots <= max
    ensures |Answered(n, reply).tasks| <= max && Answered(n, reply).ask.None?
  {
    var tasks := Started(n.tasks, reply.commands);
    SetOfSize(reply.commands);
    assert tasks.Keys == n.tasks.Keys + SetOf(reply.commands);
    assert |tasks| == |tasks.Keys| && |n.tasks| == |n.tasks.Keys|;
  }

  lemma BoundedAfter(w: World, e: Event, max: nat)
    requires Bounded(w, max) && Polling(w) && Enabled(w, e)
    ensures Bounded(Step(w, e, max), max)
  {
    hide Begun, Answered, Served, Pickable;
    match e
    case Begin => BeginSize(w.node, max);
    case Answer => AnswerSize(w.node, w.reply.value, max);
    case Complete(id) =>
      var tasks := w.node.tasks[id := true];
      assert |tasks| == |tasks.Keys| && tasks.Keys == w.node.tasks.Keys && |w.node.tasks| == |w.node.tasks.Keys|;
    case _ =>
  }

  lemma PollingAfter(w: World, e: Event, max: nat)
    requires Accounted(w) && Agreed(w) && Polling(w) && Enabled(w, e)
    ensures Polling(Step(w, e, max))
  {}

  lemma AgreedAfter(w: World, e: Event, max: nat)
    requires Accounted(w) && Agreed(w) && Polling(w) && Enabled(w, e)
    ensures Agreed(Step(w, e, max))
  {}

  lemma Dropped(whole: set<Id>, tasks: set<Id>, live: set<Id>, b: set<Id>, c: set<Id>, d: set<Id>)
    requires Parted(whole, tasks, b, c, d) && live <= tasks
    ensures Parted(whole, live, b + (tasks - live), c, d)
  {}

  lemma BeginAccounts(w: World, max: nat)
    requires Accounted(w)
    ensures Accounted(Step(w, Begin, max))
  {
    var tasks, live := w.node.tasks.Keys, Live(w.node.tasks).Keys;
    Dropped(w.received, tasks, live, w.dismissed, w.node.abandoned, w.reported);
    assert Step(w, Begin, max).dismissed == w.dismissed + (tasks - live);
    hide Parted, Room;
  }

  lemma AnswerAccounts(w: World, max: nat)
    requires Accounted(w) && Agreed(w) && Enabled(w, Answer)
    ensures Accounted(Step(w, Answer, max))
  {}

  lemma AccountedAfter(w: World, e: Event, max: nat)
    requires Accounted(w) && Agreed(w) && Enabled(w, e)
    ensures Accounted(Step(w, e, max))
  {
    hide Pickable, Served, Distinct, Agreed, Begun, Answered;
    match e
    case Begin => BeginAccounts(w, max);
    case Answer => AnswerAccounts(w, max);
    case Complete(id) => assert w.node.tasks[id := true].Keys == w.node.tasks.Keys;
    case _ =>
  }

  lemma StepKeeps(w: World, e: Event, max: nat)
    requires Inv(w, max) && Enabled(w, e)
    ensures Inv(Step(w, e, max), max)
  {
    hide Accounted, Agreed, Bounded, Polling, Enabled, Step;
    AccountedAfter(w, e, max);
    AgreedAfter(w, e, max);
    BoundedAfter(w, e, max);
    PollingAfter(w, e, max);
  }

  lemma {:induction false} RunKeeps(es: seq<Event>, max: nat)
    requires Possible(es, max)
    ensures Inv(Run(es, max), max)
  {
    hide Enabled, Step;
    if es != [] {
      hide Inv;
      var n := |es| - 1;
      assert forall i :: 0 <= i < n ==> es[..n][..i] == es[..i];
      RunKeeps(es[..n], max);
      StepKeeps(Run(es[..n], max), es[n], max);
    }
  }

  /** MAIN RESULT: over every run up to the final shutdown, each received call is
      exactly one of tracked, ended, given up or reported, never more than `max`
      are tracked, and a call that only the server believes to run was claimed by
      a poll whose answer was lost. */
  lemma {:induction false} EveryCallAccountedFor(es: seq<Event>, max: nat)
    requires Possible(es, max)
    ensures var w := Run(es, max);
            && Accounted(w)
            && |w.node.tasks| <= max
            && (forall id :: id in w.reported ==> id in w.calls && w.calls[id] == Over)
            && (forall id :: id in w.calls && w.calls[id] == Claimed ==>
                  id in w.node.tasks.Keys + w.dismissed + w.node.abandoned + w.stray + Waiting(w))
  {
    RunKeeps(es, max);
    hide Run;
  }

  /** A call leaves `abandoned` only when a poll that carried it was answered, and
      by then the server has ended it; what was added meanwhile stays. */
  lemma {:induction false} GivenUpUntilReported(es: seq<Event>, e: Event, max: nat, id: Id)
    requires Possible(es, max) && Enabled(Run(es, max), e)
    requires id in Run(es, max).node.abandoned
    ensures var w := Run(es, max);
            var left := id !in Step(w, e, max).node.abandoned;
            && (left <==> e == Answer && id in w.node.ask.value.abandoned)
            && (left ==> id in w.calls && w.calls[id] == Over)
  {
    RunKeeps(es, max);
    var w := Run(es, max);
    hide Run;
    if w.reply.Some? {
      NoneReturned(w, max);
    }
    AbandonedAfter(w, e, max, id);
    hide Step, Accounted, Agreed, Bounded, Pickable;
  }

  lemma AbandonedAfter(w: World, e: Event, max: nat, id: Id)
    requires Enabled(w, e) && id in w.node.abandoned
    requires w.reply.Some? ==> id !in w.reply.value.commands
    ensures id !in Step(w, e, max).node.abandoned <==> e == Answer && id in w.node.ask.value.abandoned
  {}

  lemma NoneReturned(w: World, max: nat)
    requires Inv(w, max) && w.reply.Some?
    ensures forall id :: id in w.node.abandoned ==> id !in w.reply.value.commands
  {}

  /** Giving up a wait without free slots loses no command. */
  lemma {:induction false} InterruptLosesNothing(es: seq<Event>, max: nat)
    requires Possible(es, max) && Enabled(Run(es, max), Interrupt)
    ensures Step(Run(es, max), Interrupt, max).stray == Run(es, max).stray
  {
    RunKeeps(es, max);
    hide Run;
  }

  // ---- what the events alone tell ----

  function RunOf(max: nat): seq<Event> -> World {
    es => Run(es, max)
  }

  /** An answer arrives for a poll that still waits. */
  predicate Arrives(w: World, e: Event) {
    e == Answer && w.node.ask.Some? && w.reply.Some?
  }

  predicate Unfinished(w: World, id: Id) {
    id in w.node.tasks && !w.node.tasks[id]
  }

  /** A command is taken up, unless the node is stopping. */
  function TakesUp(id: Id): (World, Event) -> bool {
    (w: World, e: Event) => Arrives(w, e) && !w.node.stopping && id in w.reply.value.commands
  }

  /** The lease is over, or the next poll finds the task finished. */
  function LetsGo(id: Id): (World, Event) -> bool {
    (w: World, e: Event) => e == Lease || (e == Begin && !Unfinished(w, id))
  }

  function AsksToCancel(id: Id): (World, Event) -> bool {
    (w: World, e: Event) => Arrives(w, e) && id in w.reply.value.cancelled && id in w.node.tasks
  }

  function ForgetsCancel(id: Id): (World, Event) -> bool {
    (w: World, e: Event) => e == Begin && !Unfinished(w, id)
  }

  /** The lease ran out under it, or it came to a node that is stopping. */
  function GivesUp(id: Id): (World, Event) -> bool {
    (w: World, e: Event) =>
      (e == Lease && id in w.node.tasks) || (Arrives(w, e) && w.node.stopping && id in w.reply.value.commands)
  }

  function Reports(id: Id): (World, Event) -> bool {
    (w: World, e: Event) => Arrives(w, e) && id in w.node.ask.value.abandoned
  }

  lemma NodeStep(w: World, e: Event, max: nat, id: Id)
    requires Enabled(w, e)
    ensures var n, after := w.node, Step(w, e, max).node;
            && (id in after.tasks <==> TakesUp(id)(w, e) || (id in n.tasks && !LetsGo(id)(w, e)))
            && (id in after.requested <==> AsksToCancel(id)(w, e) || (id in n.requested && !ForgetsCancel(id)(w, e)))
            && (id in after.abandoned <==> GivesUp(id)(w, e) || (id in n.abandoned && !Reports(id)(w, e)))
  {
    hide Served, Pickable, Room, Distinct;
  }

  /** MAIN RESULT (node): a call is tracked exactly since it was commanded, until the
      lease runs out or a poll finds it finished; it is to be cancelled exactly since an
      answer said so while it was tracked; it is given up until a poll that carried it
      is answered. */
  lemma {:induction false} NodeFollows(es: seq<Event>, max: nat, id: Id)
    requires Possible(es, max)
    ensures var n := Run(es, max).node;
            && (id in n.tasks <==> Since(RunOf(max), es, TakesUp(id), LetsGo(id)))
            && (id in n.requested <==> Since(RunOf(max), es, AsksToCancel(id), ForgetsCancel(id)))
            && (id in n.abandoned <==> Since(RunOf(max), es, GivesUp(id), Reports(id)))
  {
    if es != [] {
      hide Since, Step, Enabled, Possible, RunOf, TakesUp, LetsGo, AsksToCancel, ForgetsCancel, GivesUp, Reports;
      var n := |es| - 1;
      Shorter(es, max);
      NodeFollows(es[..n], max, id);
      SinceLast(es, max, TakesUp(id), LetsGo(id));
      SinceLast(es, max, AsksToCancel(id), ForgetsCancel(id));
      SinceLast(es, max, GivesUp(id), Reports(id));
      NodeStep(Run(es[..n], max), es[n], max, id);
    }
  }

  lemma SinceLast(es: seq<Event>, max: nat, opens: (World, Event) -> bool, closes: (World, Event) -> bool)
    requires es != []
    ensures var n := |es| - 1;
            Since(RunOf(max), es, opens, closes)
            <==> || opens(Run(es[..n], max), es[n])
                 || (Since(RunOf(max), es[..n], opens, closes) && !closes(Run(es[..n], max), es[n]))
  {
    hide Since, Run;
    var n := |es| - 1;
    assert es == es[..n] + [es[n]];
    SinceMore(RunOf(max), es[..n], es[n], opens, closes);
  }

  lemma Shorter(es: seq<Event>, max: nat)
    requires Possible(es, max) && es != []
    ensures Possible(es[..|es| - 1], max) && Enabled(Run(es[..|es| - 1], max), es[|es| - 1])
  {
    hide Run, Enabled;
    var n := |es| - 1;
    assert forall i :: 0 <= i < n ==> es[..n][..i] == es[..i];
  }

  /** A tracked task is finished exactly if it was seen to end. */
  lemma {:induction false} FinishedFollows(es: seq<Event>, max: nat, id: Id)
    requires Possible(es, max)
    ensures var w := Run(es, max);
            && (Complete(id) in es ==> id in w.received)
            && (id in w.node.tasks ==> (w.node.tasks[id] <==> Complete(id) in es))
  {
    if es != [] {
      hide Step, Possible, Enabled, Accounted, Agreed, Bounded, Polling;
      var n := |es| - 1;
      assert Run(es, max) == Step(Run(es[..n], max), es[n], max);
      Shorter(es, max);
      FinishedFollows(es[..n], max, id);
      RunKeeps(es[..n], max);
      LastOf(es, Complete(id));
      hide Run;
      FinishedStep(Run(es[..n], max), es[n], max, id, Complete(id) in es[..n]);
    }
  }

  lemma LastOf(es: seq<Event>, x: Event)
    requires es != []
    ensures x in es <==> x in es[..|es| - 1] || es[|es| - 1] == x
  {
    assert es == es[..|es| - 1] + [es[|es| - 1]];
  }

  lemma FinishedStep(w: World, e: Event, max: nat, id: Id, completed: bool)
    requires Enabled(w, e) && Accounted(w) && Agreed(w)
    requires (completed ==> id in w.received) && (id in w.node.tasks ==> (w.node.tasks[id] <==> completed))
    ensures var after, now := Step(w, e, max), completed || e == Complete(id);
            && (now ==> id in after.received)
            && (id in after.node.tasks ==> (after.node.tasks[id] <==> now))
  {
    hide Served, Pickable, Room, Distinct;
  }

  /** MAIN RESULT (poll): what a poll says of the node: the tracked, unfinished calls
      that no answer has asked to cancel, all that is given up, and the free slots. */
  lemma {:induction false} PollSays(es: seq<Event>, max: nat)
    requires Possible(es, max) && Enabled(Run(es, max), Begin)
    ensures var w, after := Run(es, max), Run(es + [Begin], max);
            && after.node.ask.Some? && after.asks == w.asks + [after.node.ask.value] && after.reply == None
            && var ask := after.node.ask.value;
               && (forall id :: id in ask.running <==>
                     && Since(RunOf(max), es, TakesUp(id), LetsGo(id)) && Complete(id) !in es
                     && !Since(RunOf(max), es, AsksToCancel(id), ForgetsCancel(id)))
               && (forall id :: id in ask.abandoned <==> Since(RunOf(max), es, GivesUp(id), Reports(id)))
               && ask.slots + |after.node.tasks| == max
  {
    var w := Run(es, max);
    hide Since, Possible, Accounted, Agreed, Polling, Run, RunOf, TakesUp, LetsGo, AsksToCancel, ForgetsCancel;
    hide GivesUp, Reports, Step, Begun, Enabled;
    forall id
      ensures id in w.node.tasks <==> Since(RunOf(max), es, TakesUp(id), LetsGo(id))
      ensures id in w.node.requested <==> Since(RunOf(max), es, AsksToCancel(id), ForgetsCancel(id))
      ensures id in w.node.abandoned <==> Since(RunOf(max), es, GivesUp(id), Reports(id))
      ensures id in w.node.tasks ==> (w.node.tasks[id] <==> Complete(id) in es)
    {
      NodeFollows(es, max, id);
      FinishedFollows(es, max, id);
    }
    RunKeeps(es, max);
    RunMore(es, Begin, max);
    BeginAsk(w, max);
  }

  lemma BeginAsk(w: World, max: nat)
    requires |w.node.tasks| <= max
    ensures var after := Step(w, Begin, max);
            && after.node.ask.Some? && after.asks == w.asks + [after.node.ask.value] && after.reply == None
            && (forall id :: id in after.node.ask.value.running <==> Unfinished(w, id) && id !in w.node.requested)
            && after.node.ask.value.abandoned == w.node.abandoned
            && after.node.ask.value.slots + |after.node.tasks| == max
  {
    BeginSize(w.node, max);
  }

  lemma RunMore(es: seq<Event>, e: Event, max: nat)
    ensures Run(es + [e], max) == Step(Run(es, max), e, max)
  {
    assert (es + [e])[..|es|] == es;
  }

  // ---- waiting, stopping, and the server ----

  function Asks(): (World, Event) -> bool {
    (w: World, e: Event) => e == Begin
  }

  function StopsWaiting(): (World, Event) -> bool {
    (w: World, e: Event) => e == Answer || e == Interrupt || e == Fail
  }

  function FreesSlot(): (World, Event) -> bool {
    (w: World, e: Event) => e == Free || e.Complete?
  }

  function Never(): (World, Event) -> bool {
    (w: World, e: Event) => false
  }

  function Stops(): (World, Event) -> bool {
    (w: World, e: Event) => e == Stop
  }

  /** A node waits since its last poll; it may give up a wait without slots if a task
      has ended since, or if it has been told to stop. */
  lemma {:induction false} FlagsFollow(es: seq<Event>, max: nat)
    requires Possible(es, max)
    ensures var n := Run(es, max).node;
            && (n.ask.Some? <==> Since(RunOf(max), es, Asks(), StopsWaiting()))
            && (n.freed <==> Since(RunOf(max), es, FreesSlot(), Asks()))
            && (n.stopping <==> Since(RunOf(max), es, Stops(), Never()))
  {
    if es != [] {
      hide Since, Step, Enabled, Possible, RunOf, Asks, StopsWaiting, FreesSlot, Stops, Never;
      var n := |es| - 1;
      Shorter(es, max);
      FlagsFollow(es[..n], max);
      SinceLast(es, max, Asks(), StopsWaiting());
      SinceLast(es, max, FreesSlot(), Asks());
      SinceLast(es, max, Stops(), Never());
      FlagsStep(Run(es[..n], max), es[n], max);
    }
  }

  lemma FlagsStep(w: World, e: Event, max: nat)
    requires Enabled(w, e)
    ensures var n, after := w.node, Step(w, e, max).node;
            && (after.ask.Some? <==> Asks()(w, e) || (n.ask.Some? && !StopsWaiting()(w, e)))
            && (after.freed <==> FreesSlot()(w, e) || (n.freed && !Asks()(w, e)))
            && (after.stopping <==> Stops()(w, e) || (n.stopping && !Never()(w, e)))
  {
    hide Served, Pickable, Room, Distinct, Started, Live;
  }

  /** The server ends a call, or a poll reports it as given up. */
  function EndsCall(id: Id): (World, Event) -> bool {
    (w: World, e: Event) =>
      e == EndCall(id) || (e.Serve? && e.k < |w.asks| && id in w.asks[e.k].abandoned && id in w.calls)
  }

  function ClaimsCall(id: Id): (World, Event) -> bool {
    (w: World, e: Event) => e.Serve? && e.k < |w.asks| && id in e.picks && id !in w.asks[e.k].abandoned
  }

  /** The server's view of a call: queued once, claimed by a poll, over for good. */
  lemma {:induction false} ServerFollows(es: seq<Event>, max: nat, id: Id)
    requires Possible(es, max)
    ensures var calls := Run(es, max).calls;
            && (id in calls <==> Enqueue(id) in es)
            && (id in calls && calls[id] == Over <==> Since(RunOf(max), es, EndsCall(id), Never()))
            && (id in calls && calls[id] == Claimed <==> Since(RunOf(max), es, ClaimsCall(id), EndsCall(id)))
  {
    if es != [] {
      hide Since, Step, Enabled, Possible, RunOf, EndsCall, ClaimsCall, Never;
      var n := |es| - 1;
      Shorter(es, max);
      ServerFollows(es[..n], max, id);
      SinceLast(es, max, EndsCall(id), Never());
      SinceLast(es, max, ClaimsCall(id), EndsCall(id));
      ServerStep(Run(es[..n], max), es[n], max, id);
    }
  }

  lemma ServerStep(w: World, e: Event, max: nat, id: Id)
    requires Enabled(w, e)
    ensures var calls, after := w.calls, Step(w, e, max).calls;
            && (id in after <==> e == Enqueue(id) || id in calls)
            && (id in after && after[id] == Over <==>
                  EndsCall(id)(w, e) || (id in calls && calls[id] == Over && !Never()(w, e)))
            && (id in after && after[id] == Claimed <==>
                  ClaimsCall(id)(w, e) || (id in calls && calls[id] == Claimed && !EndsCall(id)(w, e)))
  {
    hide Begun, Answered, Expired;
  }

  lemma ReplyAfter(w: World, e: Event, max: nat)
    requires Enabled(w, e)
    ensures Step(w, e, max).reply == if e.Serve? && Current(w, e.k) then Some(Reply(e.picks, e.cancelled))
                                     else if Asks()(w, e) || StopsWaiting()(w, e) then None
                                     else w.reply
  {
    hide Begun, Answered, Expired, Served;
  }

  lemma AsksAfter(w: World, e: Event, max: nat)
    requires Enabled(w, e) && e != Begin
    ensures var after := Step(w, e, max);
            after.asks == w.asks + if e == Answer && w.node.stopping && after.node.abandoned != {}
                                   then [Ask({}, after.node.abandoned, 0)] else []
  {
    assert w.asks + [] == w.asks;
    hide Begun, Expired, Served;
  }

  /** The answer to the poll that waits is what the server served, and it is dropped
      with the wait. A node that is stopping says a last time what it gives up. */
  lemma AnswerIsServed(es: seq<Event>, max: nat, e: Event)
    requires Possible(es + [e], max)
    ensures var w, after := Run(es, max), Run(es + [e], max);
            after.reply == if e.Serve? && Current(w, e.k) then Some(Reply(e.picks, e.cancelled))
                           else if Asks()(w, e) || StopsWaiting()(w, e) then None
                           else w.reply
    ensures var w, after := Run(es, max), Run(es + [e], max);
            e != Begin ==> after.asks == w.asks + if e == Answer && w.node.stopping && after.node.abandoned != {}
                                                  then [Ask({}, after.node.abandoned, 0)] else []
  {
    RunMore(es, e, max);
    assert (es + [e])[..|es|] == es && (es + [e])[|es|] == e;
    assert Enabled(Run(es, max), e);
    hide Run, Enabled;
    ReplyAfter(Run(es, max), e, max);
    if e != Begin {
      AsksAfter(Run(es, max), e, max);
    }
    hide Step, Asks, StopsWaiting, Current;
  }

  // ---- the code ----

  lemma StartedMore(tasks: map<Id, bool>, ids: seq<Id>, i: nat)
    requires i < |ids|
    ensures Started(tasks, ids[..i + 1]) == Started(tasks, ids[..i])[ids[i] := false]
  {
    assert ids[..i + 1] == ids[..i] + [ids[i]];
    assert SetOf(ids[..i + 1]) == SetOf(ids[..i]) + {ids[i]};
    assert forall id :: id in ids[..i + 1] <==> id in ids[..i] || id == ids[i];
  }

  class Poller {
    const max: nat
    var tasks: map<Id, bool>
    var requested: set<Id>
    var abandoned: set<Id>
    var freed: bool
    var stopping: bool
    var ask: Option<Ask>

    function State(): Node
      reads this
    {
      Node(tasks, requested, abandoned, freed, stopping, ask)
    }

    constructor (max: nat)
      ensures State() == Start().node && this.max == max
    {
      this.max := max;
      tasks, requested, abandoned, freed, stopping, ask := map[], {}, {}, false, false, None;
    }

    /** `poll_once` until it waits. */
    method Begin() returns (body: Ask)
      requires ask.None?
      modifies this
      ensures State() == Begun(old(State()), max) && ask == Some(body)
    {
      tasks := map id | id in tasks && !tasks[id] :: false;
      requested := requested * tasks.Keys;
      var slots := if |tasks| < max then max - |tasks| else 0;
      body := Ask(tasks.Keys - requested, abandoned, slots);
      freed := false;
      ask := Some(body);
    }

    /** The wait is over without an answer; `true`: it was given up on purpose. */
    method Unanswered() returns (interrupted: bool)
      requires ask.Some?
      modifies this
      ensures State() == old(State()).(ask := None)
      ensures interrupted <==> old(ask.value.slots) == 0 && (freed || stopping)
    {
      interrupted := ask.value.slots == 0 && (freed || stopping);
      ask := None;
    }

    method CancelTasks(ids: seq<Id>)
      modifies this`requested
      ensures requested == old(requested) + SetOf(ids) * tasks.Keys
    {
      for i := 0 to |ids|
        invariant requested == old(requested) + SetOf(ids[..i]) * tasks.Keys
      {
        assert SetOf(ids[..i + 1]) == SetOf(ids[..i]) + {ids[i]};
        if ids[i] in tasks {
          requested := requested + {ids[i]};
        }
      }
      assert ids[..|ids|] == ids;
    }

    method StartTasks(ids: seq<Id>)
      modifies this`tasks
      ensures tasks == Started(old(tasks), ids)
    {
      assert Started(tasks, []) == tasks;
      hide Started;
      for i := 0 to |ids|
        invariant tasks == Started(old(tasks), ids[..i])
      {
        StartedMore(old(tasks), ids, i);
        tasks := tasks[ids[i] := false];
      }
      assert ids[..|ids|] == ids;
    }

    /** `poll_once` from the answer on; `handBack` is the last word of a node that stops. */
    method Receive(reply: Reply) returns (handBack: Option<Ask>)
      requires ask.Some?
      modifies this
      ensures State() == Answered(old(State()), reply)
      ensures handBack == if stopping && abandoned != {} then Some(Ask({}, abandoned, 0)) else None
    {
      hide Started;
      abandoned := abandoned - ask.value.abandoned;
      ask := None;
      CancelTasks(reply.cancelled);
      if stopping {
        abandoned := abandoned + SetOf(reply.commands);
        return if abandoned != {} then Some(Ask({}, abandoned, 0)) else None;
      }
      StartTasks(reply.commands);
      handBack := None;
    }

    /** The body of `watch_control_lease` once the lease has run out. */
    method LeaseOver()
      modifies this
      ensures State() == Expired(old(State()))
    {
      abandoned := abandoned + tasks.Keys;
      tasks := map[];
    }
  }
}
