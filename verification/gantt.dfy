/** The application state behind the window: the task list, the current chart and the
    measuring line, with the operations the buttons and the chart's pointer events trigger. */
module Gantt {
  import opened Wrappers
  import Lists
  import Tasks
  import Axis
  import Probe

  /** `chart` is present once a chart has been generated and until everything is cleared; the
      pointer handlers are connected to it. */
  datatype App = App(tasks: seq<Tasks.Task>, chart: Option<Axis.Chart>, probe: Probe.State)

  /** The failure an operation raises or reports. */
  datatype Failure = AddFailed(reason: Tasks.AddError) | TaskNotFound | NoTasks

  /** The state after an operation, and the failure it reported, if any. */
  datatype Outcome = Outcome(app: App, failure: Option<Failure>)

  /** The window as it opens: no tasks, no chart, no marker. */
  const Start := App([], None, Probe.Idle)

  /** The "add task" button. On success exactly one task, the admitted one, is appended after
      the existing ones; on any failure nothing at all changes. The chart is not redrawn. */
  function AddTask(app: App, f: Tasks.Form, parse: Tasks.Parser): (r: Outcome)
    ensures r.failure.None? <==> Tasks.Admit(f, parse).Ok?
    ensures r.failure.Some? ==>
              r.app == app && r.failure == Some(AddFailed(Tasks.Admit(f, parse).error))
    ensures r.failure.None? ==>
              && |r.app.tasks| == |app.tasks| + 1
              && r.app.tasks[..|app.tasks|] == app.tasks
              && r.app.tasks[|app.tasks|] == Tasks.Admit(f, parse).value
              && r.app.chart == app.chart && r.app.probe == app.probe
  {
    match Tasks.Admit(f, parse)
    case Err(e) => Outcome(app, Some(AddFailed(e)))
    case Ok(t) =>
      assert (app.tasks + [t])[..|app.tasks|] == app.tasks;
      Outcome(app.(tasks := app.tasks + [t]), None)
  }

  /** A row's delete button: `list.remove` of that row's task, which compares by value. It fails,
      changing nothing, when no equal task is stored; otherwise one equal task fewer remains. */
  function RemoveTask(app: App, t: Tasks.Task): (r: Outcome)
    ensures r.failure.Some? <==> t !in app.tasks
    ensures r.failure.Some? ==> r == Outcome(app, Some(TaskNotFound))
    ensures r.failure.None? ==>
              && |r.app.tasks| == |app.tasks| - 1
              && multiset(r.app.tasks) == multiset(app.tasks) - multiset{t}
              && (var i := Lists.IndexOf(app.tasks, t);
                  r.app.tasks == app.tasks[..i] + app.tasks[i + 1..])
              && r.app.chart == app.chart && r.app.probe == app.probe
  {
    match Lists.RemoveFirst(app.tasks, t)
    case None => Outcome(app, Some(TaskNotFound))
    case Some(rest) => Outcome(app.(tasks := rest), None)
  }

  /** The "clear all" button: no tasks and no chart afterwards. The marker and the drag are reset
      only when a chart existed; without one they are left as they were. */
  function ClearAll(app: App): (r: App)
    ensures r.tasks == [] && r.chart.None?
    ensures app.chart.Some? ==> r.probe == Probe.Idle
    ensures app.chart.None? ==> r.probe == app.probe
  {
    if app.chart.Some? then App([], None, Probe.Idle)
    else app.(tasks := [])
  }

  /** The "generate chart" button. With no tasks it is refused before anything is touched.
      Otherwise the previous chart is replaced by one built from the current tasks in order;
      the task list, the marker and the drag flag are left as they were. */
  function Generate(app: App): (r: Outcome)
    ensures app.tasks == [] ==> r == Outcome(app, Some(NoTasks))
    ensures app.tasks != [] ==>
              && r.failure.None?
              && r.app.chart.Some? && r.app.chart.value.rows == app.tasks
              && r.app.chart.value.span == Axis.SpanOf(app.tasks)
              && r.app.chart.value.plan == Axis.PlanFor(r.app.chart.value.span)
              && r.app.chart.value.plan.policy == Axis.Classify(r.app.chart.value.span.TotalDays())
              && r.app.tasks == app.tasks && r.app.probe == app.probe
  {
    if app.tasks == [] then Outcome(app, Some(NoTasks))
    else Outcome(app.(chart := Some(Axis.Build(app.tasks))), None)
  }

  /** A pointer event on the chart. Handlers are connected only to a generated chart, so without
      one the event has no effect. */
  function Pointer(app: App, e: Probe.Event, caption: Probe.Captioner): (r: App)
    ensures app.chart.None? ==> r == app
    ensures r.tasks == app.tasks && r.chart == app.chart
    ensures app.chart.Some? ==> r.probe == Probe.Step(app.probe, e, caption)
  {
    if app.chart.None? then app
    else app.(probe := Probe.Step(app.probe, e, caption))
  }

  /** A user action. */
  datatype Op = Add(form: Tasks.Form) | Remove(task: Tasks.Task) | Clear | Draw | Point(event: Probe.Event)

  function Apply(app: App, op: Op, parse: Tasks.Parser, caption: Probe.Captioner): App {
    match op
    case Add(f) => AddTask(app, f, parse).app
    case Remove(t) => RemoveTask(app, t).app
    case Clear => ClearAll(app)
    case Draw => Generate(app).app
    case Point(e) => Pointer(app, e, caption)
  }

  /** The state after a sequence of actions, first to last. */
  function Replay(app: App, ops: seq<Op>, parse: Tasks.Parser, caption: Probe.Captioner): App
    decreases |ops|
  {
    if ops == [] then app else Replay(Apply(app, ops[0], parse, caption), ops[1..], parse, caption)
  }

  /** What holds in every state the window can reach: every stored task is well formed, a chart
      is exactly what generation builds from its own rows, the marker is coherent, and without
      a chart there is no marker and no drag. */
  ghost predicate Invariant(app: App, caption: Probe.Captioner) {
    && Tasks.AllWellFormed(app.tasks)
    && (app.chart.Some? ==> app.chart.value.rows != [] && app.chart.value == Axis.Build(app.chart.value.rows))
    && Probe.Coherent(app.probe, caption)
    && (app.chart.None? ==> app.probe == Probe.Idle)
  }

  /** Every action keeps the invariant. */
  lemma ApplyKeepsInvariant(app: App, op: Op, parse: Tasks.Parser, caption: Probe.Captioner)
    requires Invariant(app, caption)
    ensures Invariant(Apply(app, op, parse, caption), caption)
  {
    match op
    case Add(f) =>
      var r := AddTask(app, f, parse);
      if r.failure.None? {
        assert r.app.tasks == app.tasks + [Tasks.Admit(f, parse).value];
      }
    case Remove(t) =>
      var r := RemoveTask(app, t);
      if r.failure.None? {
        forall u | u in r.app.tasks
          ensures Tasks.WellFormed(u)
        {
          assert u in multiset(r.app.tasks);
        }
      }
    case Clear =>
    case Draw =>
    case Point(e) =>
      if app.chart.Some? {
        Probe.RunCoherent(app.probe, [e], caption);
        assert Probe.Run(app.probe, [e], caption) == Probe.Step(app.probe, e, caption);
      }
  }

  /** Every state reachable from the opening window satisfies the invariant. */
  lemma {:induction false} ReplayKeepsInvariant(app: App, ops: seq<Op>, parse: Tasks.Parser, caption: Probe.Captioner)
    requires Invariant(app, caption)
    ensures Invariant(Replay(app, ops, parse, caption), caption)
    decreases |ops|
  {
    if ops != [] {
      ApplyKeepsInvariant(app, ops[0], parse, caption);
      ReplayKeepsInvariant(Apply(app, ops[0], parse, caption), ops[1..], parse, caption);
    }
  }

  /** In any reachable state, "clear all" leaves an empty list, no chart, no marker and no drag. */
  lemma ClearResetsEverything(ops: seq<Op>, parse: Tasks.Parser, caption: Probe.Captioner)
    ensures ClearAll(Replay(Start, ops, parse, caption)) == App([], None, Probe.Idle)
  {
    ReplayKeepsInvariant(Start, ops, parse, caption);
  }

  /** Deleting the task just added, when no equal task was already stored, gives back the list
      as it was before the add. */
  lemma AddThenRemove(app: App, f: Tasks.Form, parse: Tasks.Parser)
    requires Tasks.Admit(f, parse).Ok? && Tasks.Admit(f, parse).value !in app.tasks
    ensures var t := Tasks.Admit(f, parse).value;
            RemoveTask(AddTask(app, f, parse).app, t) == Outcome(app, None)
  {
    var t := Tasks.Admit(f, parse).value;
    Lists.RemoveAppended(app.tasks, t);
    assert AddTask(app, f, parse).app.tasks == app.tasks + [t];
  }
}
