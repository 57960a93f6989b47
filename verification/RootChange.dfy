/** Moving the workspace root: a request in the heartbeat, acknowledged once it is durable. */
module RootChange {
  import opened Wrappers

  type Root = string
  type Id = string
  type Task = nat

  datatype Outcome = Outcome(id: Id, path: Root, applied: bool)

  /** The two entries of the configuration that matter here. */
  datatype Config = Config(root: Root, result: Option<Outcome>)

  /** A save may also fail after the file was replaced, in the last sync. */
  datatype Save = Written | Untouched | Unsynced

  /** `usable`: the checks on the new root pass. `free`: no operation holds the lock. */
  datatype Event =
    | Heartbeat(id: Id, path: Root, pending: bool, usable: bool, free: bool, save: Save)
    | SaveElse(save: Save)
    | Track(task: Task)
    | Finish(task: Task)
    | Forget
    | NewAgent
    | Restart

  /** `memory` and `disk` are the same configuration, `agents` the roots in use,
      `tasks` says of each tracked task whether it is done. */
  datatype World = World(memory: Config, disk: Config, agents: seq<Root>, tasks: map<Task, bool>)

  predicate Idle(tasks: map<Task, bool>) {
    forall t :: t in tasks ==> tasks[t]
  }

  /** The request is taken up. */
  predicate Due(w: World, e: Event) {
    && e.Heartbeat? && e.pending && e.free && Idle(w.tasks)
    && !(w.memory.result.Some? && w.memory.result.value.id == e.id)
  }

  function Wanted(c: Config, e: Event): Config
    requires e.Heartbeat?
  {
    Config(if e.usable then e.path else c.root, Some(Outcome(e.id, e.path, e.usable)))
  }

  function Applied(w: World, e: Event): World
    requires e.Heartbeat?
  {
    if !Due(w, e) then w
    else
      var c := Wanted(w.memory, e);
      match e.save
      case Written => w.(memory := c, disk := c, agents := if e.usable then seq(|w.agents|, i => e.path) else w.agents)
      case Untouched => w
      case Unsynced => w.(disk := c)
  }

  function Step(w: World, e: Event): World {
    match e
    case Heartbeat(_, _, _, _, _, _) => Applied(w, e)
    case SaveElse(save) => if save == Untouched then w else w.(disk := w.memory)
    case Track(t) => w.(tasks := w.tasks[t := false])
    case Finish(t) => if t in w.tasks then w.(tasks := w.tasks[t := true]) else w
    case Forget => w.(tasks := map[])
    case NewAgent => w.(agents := w.agents + [w.memory.root])
    case Restart => World(w.disk, w.disk, [], map[])
  }

  function Start(root: Root): World {
    World(Config(root, None), Config(root, None), [], map[])
  }

  function Run(root: Root, es: seq<Event>): World {
    if es == [] then Start(root) else Step(Run(root, es[..|es| - 1]), es[|es| - 1])
  }

  /** No request has been written without memory following, or a later save or a
      restart has settled it. */
  predicate Settled(root: Root, es: seq<Event>) {
    if es == [] then true
    else
      var n := |es| - 1;
      match es[n]
      case Heartbeat(_, _, _, _, _, save) =>
        if Due(Run(root, es[..n]), es[n]) && save != Untouched then save == Written else Settled(root, es[..n])
      case SaveElse(save) => save != Untouched || Settled(root, es[..n])
      case Restart => true
      case _ => Settled(root, es[..n])
  }

  /** An acknowledgement tells where the root is. */
  predicate Truthful(c: Config) {
    c.result.Some? && c.result.value.applied ==> c.root == c.result.value.path
  }

  ghost predicate Inv(w: World) {
    && (forall i :: 0 <= i < |w.agents| ==> w.agents[i] == w.memory.root)
    && Truthful(w.memory) && Truthful(w.disk)
    && (w.memory == w.disk || (w.disk.result.Some? && w.disk.result != w.memory.result))
  }

  lemma {:induction false} RunKeeps(root: Root, es: seq<Event>)
    ensures Inv(Run(root, es))
    ensures Run(root, es).memory == Run(root, es).disk <==> Settled(root, es)
  {
    if es != [] {
      var n := |es| - 1;
      RunKeeps(root, es[..n]);
      StepKeeps(Run(root, es[..n]), es[n]);
      hide Inv;
      if es[n].Heartbeat? {
        Differs(Run(root, es[..n]), es[n]);
      }
    }
  }

  lemma StepKeeps(w: World, e: Event)
    requires Inv(w)
    ensures Inv(Step(w, e))
  {}

  lemma Differs(w: World, e: Event)
    requires e.Heartbeat?
    ensures Due(w, e) ==> Wanted(w.memory, e) != w.memory
  {}

  /** MAIN RESULT: over every run of heartbeats, failed saves and restarts all
      agents work in the configured root, acknowledgements are true, and memory is
      on disk exactly unless the last write failed after replacing the file. */
  lemma {:induction false} RootsAgree(root: Root, es: seq<Event>)
    ensures var w := Run(root, es);
            && (forall i :: 0 <= i < |w.agents| ==> w.agents[i] == w.memory.root)
            && Truthful(w.memory) && Truthful(w.disk)
            && (w.memory == w.disk <==> Settled(root, es))
  {
    RunKeeps(root, es);
    hide Run, Settled;
  }

  lemma RunMore(root: Root, es: seq<Event>, e: Event)
    ensures Run(root, es + [e]) == Step(Run(root, es), e)
  {
    assert (es + [e])[..|es|] == es;
  }

  // ---- which tasks run, by the events alone ----

  function RunOf(root: Root): seq<Event> -> World {
    es => Run(root, es)
  }

  function Tracks(t: Task): (World, Event) -> bool {
    (w: World, e: Event) => e == Track(t)
  }

  function Drops(t: Task): (World, Event) -> bool {
    (w: World, e: Event) => e == Finish(t) || e == Forget || e == Restart
  }

  /** `t` was tracked and has neither ended nor been forgotten since. */
  ghost predicate StillRuns(root: Root, es: seq<Event>, t: Task) {
    Since(RunOf(root), es, Tracks(t), Drops(t))
  }

  lemma TaskStep(w: World, e: Event, t: Task)
    ensures var after := Step(w, e).tasks;
            t in after && !after[t] <==> Tracks(t)(w, e) || (t in w.tasks && !w.tasks[t] && !Drops(t)(w, e))
  {
    hide Due;
  }

  /** The table of tasks says what has happened. */
  lemma {:induction false} TasksFollow(root: Root, es: seq<Event>, t: Task)
    ensures t in Run(root, es).tasks && !Run(root, es).tasks[t] <==> StillRuns(root, es, t)
  {
    if es != [] {
      var n := |es| - 1;
      TasksFollow(root, es[..n], t);
      assert es == es[..n] + [es[n]];
      hide Since, Step, Tracks, Drops;
      SinceMore(RunOf(root), es[..n], es[n], Tracks(t), Drops(t));
      TaskStep(Run(root, es[..n]), es[n], t);
    }
  }

  /** The request of a heartbeat can be taken up: it is pending, no operation holds the
      lock, no tracked task runs, and it has not been acknowledged. */
  ghost predicate TakenUp(root: Root, es: seq<Event>, e: Event) {
    && e.Heartbeat? && e.pending && e.free
    && (forall t :: !StillRuns(root, es, t))
    && forall o :: Run(root, es).memory.result == Some(o) ==> o.id != e.id
  }

  lemma TakenUpIs(root: Root, es: seq<Event>, e: Event)
    ensures TakenUp(root, es, e) <==> Due(Run(root, es), e)
  {
    forall t ensures t in Run(root, es).tasks && !Run(root, es).tasks[t] <==> StillRuns(root, es, t) {
      TasksFollow(root, es, t);
    }
    hide StillRuns, Run;
    if Due(Run(root, es), e) {
      assert forall t :: !StillRuns(root, es, t);
    }
  }

  /** MAIN RESULT (effect): what a heartbeat does. A request taken up and saved is
      acknowledged in memory and on disk, and if it is usable, the root of both and of
      every agent is the one asked for; saved halfway, it is on disk alone; in all other
      cases nothing changes. */
  lemma {:induction false} RequestTakesEffect(root: Root, es: seq<Event>, e: Event)
    requires e.Heartbeat?
    ensures var w, after := Run(root, es), Run(root, es + [e]);
            && after.tasks == w.tasks && |after.agents| == |w.agents|
            && (if TakenUp(root, es, e) && e.save != Untouched then
                  && after.disk.result == Some(Outcome(e.id, e.path, e.usable))
                  && after.disk.root == (if e.usable then e.path else w.memory.root)
                  && (if e.save == Written
                      then after.memory == after.disk
                           && forall i :: 0 <= i < |after.agents| ==> after.agents[i] == after.disk.root
                      else after.memory == w.memory && after.agents == w.agents)
                else after == w)
  {
    RunMore(root, es, e);
    TakenUpIs(root, es, e);
    RootsAgree(root, es);
    hide Run, TakenUp, Due, Settled;
  }

  /** The root and its acknowledgement change exactly when a request is taken up and
      saved; at a restart they are read from the disk. */
  lemma ChangesOnlyIdle(root: Root, es: seq<Event>, e: Event)
    ensures var w, after := Run(root, es), Run(root, es + [e]);
            if e == Restart then after.memory == w.disk && after.disk == w.disk && after.agents == []
            else after.memory != w.memory <==> TakenUp(root, es, e) && e.save == Written
  {
    RunMore(root, es, e);
    TakenUpIs(root, es, e);
    if e.Heartbeat? {
      Differs(Run(root, es), e);
    }
    hide Run, TakenUp, Due, Wanted;
  }

  lemma OthersStep(w: World, e: Event)
    requires !e.Heartbeat? && e != Restart
    ensures var after := Step(w, e);
            && after.memory == w.memory
            && after.disk == (if e == SaveElse(Written) || e == SaveElse(Unsynced) then w.memory else w.disk)
            && after.agents == (if e == NewAgent then w.agents + [w.memory.root] else w.agents)
  {}

  /** The other events: other saves, and agents that start in the root in force. */
  lemma OthersTakeEffect(root: Root, es: seq<Event>, e: Event)
    requires !e.Heartbeat? && e != Restart
    ensures var w, after := Run(root, es), Run(root, es + [e]);
            && after.memory == w.memory
            && after.disk == (if e == SaveElse(Written) || e == SaveElse(Unsynced) then w.memory else w.disk)
            && after.agents == (if e == NewAgent then w.agents + [w.memory.root] else w.agents)
  {
    hide Run, Step;
    RunMore(root, es, e);
    OthersStep(Run(root, es), e);
  }

  /** `es[i]` asked for this root and was taken up: every tracked task was done. */
  predicate AskedFor(root: Root, es: seq<Event>, i: nat, path: Root)
    requires i < |es|
  {
    var e, w := es[i], Run(root, es[..i]);
    Due(w, e) && Idle(w.tasks) && e.usable && e.save != Untouched && e.path == path
  }

  ghost predicate Asked(root: Root, es: seq<Event>, path: Root) {
    path == root || exists i :: 0 <= i < |es| && AskedFor(root, es, i, path)
  }

  lemma AskedLonger(root: Root, es: seq<Event>, e: Event, path: Root)
    requires Asked(root, es, path)
    ensures Asked(root, es + [e], path)
  {
    if path != root {
      var i :| 0 <= i < |es| && AskedFor(root, es, i, path);
      assert (es + [e])[..i] == es[..i] && (es + [e])[i] == es[i];
      assert AskedFor(root, es + [e], i, path);
    }
  }

  /** MAIN RESULT: over every run, failed saves and restarts included, the root in
      force, the root on disk and the root of every agent is the first one or one that
      a usable request asked for, taken up while no tracked task was running. */
  lemma {:induction false} RootWasAsked(root: Root, es: seq<Event>)
    ensures var w := Run(root, es);
            && Asked(root, es, w.memory.root) && Asked(root, es, w.disk.root)
            && forall i :: 0 <= i < |w.agents| ==> Asked(root, es, w.agents[i])
  {
    RootsAgree(root, es);
    if es != [] {
      var n := |es| - 1;
      var w, e := Run(root, es[..n]), es[n];
      RootWasAsked(root, es[..n]);
      assert es == es[..n] + [e];
      AskedLonger(root, es[..n], e, w.memory.root);
      AskedLonger(root, es[..n], e, w.disk.root);
      ChangesOnlyIdle(root, es[..n], e);
      TakenUpIs(root, es[..n], e);
      if Step(w, e).memory != w.memory && e != Restart {
        assert e.usable ==> AskedFor(root, es, n, e.path);
      } else if e.Heartbeat? && Due(w, e) && e.usable && e.save == Unsynced {
        assert AskedFor(root, es, n, e.path);  // on disk, and in force after a restart
      }
      hide Asked, Truthful, Due, Settled, TakenUp;
    }
  }

  /** An acknowledged request stays acknowledged over a restart, so its redelivery
      changes nothing, whatever happened to the disk before. */
  lemma NeverReapplied(root: Root, es: seq<Event>, again: Event)
    requires again.Heartbeat?
    requires var w := Run(root, es + [Restart]);
             w.memory.result.Some? && w.memory.result.value.id == again.id
    ensures Step(Run(root, es + [Restart]), again) == Run(root, es + [Restart])
    ensures Settled(root, es) && Run(root, es).memory.result.Some? ==>
              Run(root, es + [Restart]).memory.result == Run(root, es).memory.result
  {
    RunKeeps(root, es);
    assert (es + [Restart])[..|es|] == es;
  }

  // ---- the code ----

  class Daemon {
    var memory: Config
    var disk: Config
    var agents: array<Root>
    var tasks: map<Task, bool>

    function State(): World
      reads this, agents
    {
      World(memory, disk, agents[..], tasks)
    }

    constructor (config: Config, agents: array<Root>)
      ensures memory == disk == config && this.agents == agents && tasks == map[]
    {
      memory, disk, this.agents, tasks := config, config, agents, map[];
    }

    /** `apply_root_change`. */
    method ApplyRootChange(e: Event)
      requires e.Heartbeat?
      modifies this`memory, this`disk, agents
      ensures State() == Applied(old(State()), e)
    {
      if !e.pending {
        return;
      }
      if memory.result.Some? && memory.result.value.id == e.id {
        return;
      }
      if exists t :: t in tasks && !tasks[t] {
        return;
      }
      if !e.free {
        return;
      }
      var previous := memory;
      if e.usable {
        memory := memory.(root := e.path);
      }
      memory := memory.(result := Some(Outcome(e.id, e.path, e.usable)));
      if e.save != Untouched {
        disk := memory;
      }
      if e.save != Written {
        memory := previous;
        return;
      }
      if e.usable {
        for i := 0 to agents.Length
          modifies agents
          invariant forall k :: 0 <= k < i ==> agents[k] == e.path
        {
          agents[i] := e.path;
        }
        assert agents[..] == seq(agents.Length, i => e.path);
      }
    }
  }
}
