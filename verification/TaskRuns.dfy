/** One manager's live-run table: what its tokens and input channels hold, and how signals reach them. */
module TaskRuns {
  import opened Wrappers
  import opened Json
  import opened TaskStore
  import opened TaskMachine

  /** A running operation's cancellation token and the sending side of its input channel. */
  class LiveRun {
    var fired: bool
    var inputs: seq<Sent>

    constructor ()
      ensures !fired && inputs == []
    {
      fired := false;
      inputs := [];
    }
  }

  datatype RunView = RunView(fired: bool, inputs: seq<Sent>)

  type Table = map<TaskId, RunView>

  // What handing `signal` to a table does, and whether a run was there to take it.
  function HandedTo(table: Table, signal: Signal): (Table, bool) {
    if signal.id !in table then (table, false)
    else
      match signal
      case CancelledSignal(id) => (table[id := table[id].(fired := true)], true)
      case InputSignal(id, sent) => (table[id := table[id].(inputs := table[id].inputs + [sent])], true)
  }

  class TaskManager {
    var runs: map<TaskId, LiveRun>

    ghost predicate Valid()
      reads this
    {
      forall x, y :: x in runs && y in runs && x != y ==> runs[x] != runs[y]
    }

    ghost function View(): Table
      reads this, runs.Values
    {
      map id | id in runs :: RunView(runs[id].fired, runs[id].inputs)
    }

    constructor ()
      ensures Valid() && View() == map[]
    {
      runs := map[];
    }

    // The table half of `create`, once the task is stored.
    method Register(id: TaskId) returns (run: LiveRun)
      requires Valid() && id !in runs
      modifies this
      ensures Valid() && fresh(run) && id in runs && runs[id] == run
      ensures View() == old(View())[id := RunView(false, [])]
    {
      run := new LiveRun();
      runs := runs[id := run];
    }

    method Release(id: TaskId)
      requires Valid()
      modifies this
      ensures Valid() && View() == old(View()) - {id}
    {
      runs := runs - {id};
    }

    // The lookup of `apply_input`: whether an operation of this process takes the answers.
    method HasRun(id: TaskId) returns (local: bool)
      ensures local <==> id in View()
    {
      local := id in runs;
    }

    method Deliver(signal: Signal) returns (reached: bool)
      requires Valid()
      modifies runs.Values
      ensures Valid() && runs == old(runs)
      ensures (View(), reached) == HandedTo(old(View()), signal)
    {
      if signal.id !in runs {
        return false;
      }
      var run := runs[signal.id];
      ghost var before := View();
      reached := true;
      if signal.CancelledSignal? {
        run.fired := true;
        assert View() == before[signal.id := before[signal.id].(fired := true)];
      } else {
        run.inputs := run.inputs + [signal.sent];
        assert View() == before[signal.id := before[signal.id].(inputs := before[signal.id].inputs + [signal.sent])];
      }
    }
  }

  // The table of instance `inst` inside the running system.
  function TableOf(s: State, inst: Instance): Table {
    map id | ReachesRun(s, inst, id) && id in s.runs :: RunView(s.runs[id].fired, s.runs[id].queue)
  }

  /** An update's lookup asks the table of its own instance, and nothing else. */
  lemma LookUpAsksOneTable(s: State, op: OpId)
    requires op in s.ops && s.ops[op].Checked?
    ensures var o := s.ops[op];
            var local := o.id in TableOf(s, o.inst);
            var (t, reply) := DoLookUpRun(s, op);
            if local || o.inst in s.cfg.bus then op in t.ops && t.ops[op] == Looked(o.inst, o.id, o.responses, local)
            else op !in t.ops && reply == Refused(Detached(o.id))
  {
  }

  /** Delivering a published signal is this table operation at its target, and nothing anywhere else. */
  lemma DeliveryActsOnOneTable(s: State, msg: MsgId, target: Instance, inst: Instance)
    requires msg in s.bus && target in s.bus[msg].targets
    ensures TableOf(DoDeliver(s, msg, target).0, inst) ==
              if inst == target then HandedTo(TableOf(s, inst), s.bus[msg].signal).0 else TableOf(s, inst)
    ensures target !in DoDeliver(s, msg, target).0.bus[msg].targets
  {
  }

  /** Registering and releasing a run are the table's insertion and removal at its instance. */
  lemma LifeOfTableEntry(s: State, id: TaskId)
    requires id in s.runs
    ensures s.runs[id].phase == Creating ==>
              TableOf(DoRegister(s, id).0, s.runs[id].inst) ==
                TableOf(s, s.runs[id].inst)[id := RunView(s.runs[id].fired, s.runs[id].queue)]
    ensures s.runs[id].phase == Live ==>
              TableOf(DoReleaseRun(s, id).0, s.runs[id].inst) == TableOf(s, s.runs[id].inst) - {id}
  {
  }
}
