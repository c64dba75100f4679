/** Tasks with their status machine and the audit history of every status change. A status is a
    string: creation accepts any, updates accept only the targets of the transition table. */
module TaskStore {
  import opened Common

  type TaskId = string
  type StationId = string
  type ZoneId = string

  /** A status string; `Other` is any string but the four known ones. */
  datatype Status = Pending | InProgress | Completed | Cancelled | Other(text: string)

  /** The status machine: a pending task may start or be cancelled, a started one may be completed or
      cancelled. */
  predicate Allowed(from: Status, to: Status) {
    match to
    case InProgress => from == Pending
    case Completed => from == InProgress
    case Cancelled => from == Pending || from == InProgress
    case _ => false
  }

  /** The transition table: the statuses a task may be in for a change to `target`. */
  function Sources(target: Status): (sources: seq<Status>)
    ensures forall from :: from in sources <==> Allowed(from, target)
  {
    match target
    case InProgress => [Pending]
    case Completed => [InProgress]
    case Cancelled => [Pending, InProgress]
    case _ => []
  }

  /** The keys of the table in display order; "pending" is never a target. */
  const TARGETS: seq<Status> := [InProgress, Completed, Cancelled]

  predicate IsTarget(status: Status) {
    status == InProgress || status == Completed || status == Cancelled
  }

  /** The scan both operations share: is `status` among the sources of `target`? */
  method IsSource(status: Status, target: Status) returns (found: bool)
    ensures found <==> Allowed(status, target)
  {
    var sources := Sources(target);
    for i := 0 to |sources|
      invariant status !in sources[..i]
    {
      if sources[i] == status {
        return true;
      }
    }
    assert sources[..|sources|] == sources;
    return false;
  }

  /** The changes offered for a task in `status`: every target that would be accepted, once each, in
      the display order. */
  method AllowedTransitions(status: Status) returns (targets: seq<Status>)
    ensures forall t :: t in targets <==> Allowed(status, t)
    ensures forall i, j | 0 <= i < j < |targets| :: targets[i] != targets[j]
    ensures status == Pending ==> targets == [InProgress, Cancelled]
    ensures status == InProgress ==> targets == [Completed, Cancelled]
    ensures status != Pending && status != InProgress ==> targets == []
  {
    targets := [];
    assert TARGETS[0] == InProgress && TARGETS[1] == Completed && TARGETS[2] == Cancelled;
    for i := 0 to 3
      invariant forall t :: t in targets <==> t in TARGETS[..i] && Allowed(status, t)
      invariant forall k, l | 0 <= k < l < |targets| :: targets[k] != targets[l]
      invariant status != Pending && status != InProgress ==> targets == []
      invariant status == Pending ==>
                  targets == if i == 0 then [] else if i <= 2 then [InProgress] else [InProgress, Cancelled]
      invariant status == InProgress ==>
                  targets == if i <= 1 then [] else if i == 2 then [Completed] else [Completed, Cancelled]
    {
      assert TARGETS[i] !in TARGETS[..i] by { assert forall k | 0 <= k < i :: TARGETS[k] != TARGETS[i]; }
      var found := IsSource(status, TARGETS[i]);
      if found {
        targets := targets + [TARGETS[i]];
      }
      assert TARGETS[..i + 1] == TARGETS[..i] + [TARGETS[i]];
    }
    assert TARGETS[..3] == TARGETS;
  }

  datatype Task = Task(vehicle: VehicleId, from: StationId, to: StationId, status: Status, changedBy: Option<string>)

  datatype Change = Change(from: Status, to: Status, author: string)

  datatype Error = UnknownVehicle | UnknownStation | TaskNotFound | InvalidTransition

  datatype Result = Ok(task: Task) | Failed(error: Error)

  // ----- The history of one task -----

  /** A chain of allowed changes that ends in `current`, each starting where the one before ended. */
  predicate Chain(history: seq<Change>, current: Status) {
    history == [] ||
      var last := history[|history| - 1];
      last.to == current && Allowed(last.from, current) && Chain(history[..|history| - 1], last.from)
  }

  /** The status the chain starts from. */
  function Origin(history: seq<Change>, current: Status): Status {
    if history == [] then current else history[0].from
  }

  function Rank(status: Status): nat {
    match status
    case Pending => 2
    case InProgress => 1
    case _ => 0
  }

  /** Along a chain the rank falls with every change. */
  lemma {:induction false} RankFalls(history: seq<Change>, current: Status)
    requires Chain(history, current)
    ensures Rank(current) + |history| <= Rank(Origin(history, current))
    ensures forall i | 0 <= i < |history| - 1 :: Rank(history[i].to) > Rank(current)
  {
    if history != [] {
      var front, last := history[..|history| - 1], history[|history| - 1];
      RankFalls(front, last.from);
      assert forall i | 0 <= i < |front| :: front[i] == history[i];
      assert front != [] ==> front[|front| - 1].to == last.from;
    }
  }

  /** Every chain has at most two changes and enters no status twice. */
  lemma {:induction false} ChainIsShort(history: seq<Change>, current: Status)
    requires Chain(history, current)
    ensures |history| <= 2
    ensures forall i, j | 0 <= i < j < |history| :: history[i].to != history[j].to
  {
    RankFalls(history, current);
    if history != [] {
      var front, last := history[..|history| - 1], history[|history| - 1];
      ChainIsShort(front, last.from);
      assert forall i | 0 <= i < |front| :: front[i] == history[i];
    }
  }

  lemma ChainGrows(history: seq<Change>, current: Status, to: Status, author: string)
    requires Chain(history, current) && Allowed(current, to)
    ensures var longer := history + [Change(current, to, author)];
            Chain(longer, to) && Origin(longer, to) == Origin(history, current)
  {
    var longer := history + [Change(current, to, author)];
    assert longer[..|longer| - 1] == history;
  }

  function HistoryOf(history: map<TaskId, seq<Change>>, id: TaskId): seq<Change> {
    if id in history then history[id] else []
  }

  /** The history leads by allowed changes from the creation status to the current one. */
  predicate Explained(entries: seq<Change>, created: Status, current: Status) {
    Chain(entries, current) && Origin(entries, current) == created
  }

  ghost predicate Explains(history: map<TaskId, seq<Change>>, created: map<TaskId, Status>, tasks: map<TaskId, Task>) {
    && tasks.Keys == created.Keys && history.Keys <= tasks.Keys
    && forall id | id in tasks :: Explained(HistoryOf(history, id), created[id], tasks[id].status)
  }

  lemma OneReplaced(history: map<TaskId, seq<Change>>, created: map<TaskId, Status>, tasks: map<TaskId, Task>,
                    id: TaskId, task: Task, entries: seq<Change>)
    requires Explains(history, created, tasks) && id in tasks
    requires Explained(entries, created[id], task.status)
    ensures Explains(history[id := entries], created, tasks[id := task])
  {
    var longer := history[id := entries];
    assert forall other | other != id :: HistoryOf(longer, other) == HistoryOf(history, other);
  }

  /** A change of one task with its audit entry keeps every task's history explained. */
  lemma ChangeIsExplained(history: map<TaskId, seq<Change>>, created: map<TaskId, Status>, tasks: map<TaskId, Task>,
                          id: TaskId, task: Task, author: string)
    requires Explains(history, created, tasks) && id in tasks && Allowed(tasks[id].status, task.status)
    ensures var entries := HistoryOf(history, id) + [Change(tasks[id].status, task.status, author)];
            Explains(history[id := entries], created, tasks[id := task])
  {
    ChainGrows(HistoryOf(history, id), tasks[id].status, task.status, author);
    OneReplaced(history, created, tasks, id, task,
                HistoryOf(history, id) + [Change(tasks[id].status, task.status, author)]);
  }

  // ----- The store -----

  class Store {
    var vehicles: set<VehicleId>
    var zones: set<ZoneId>
    var stations: set<StationId>
    var tasks: map<TaskId, Task>
    var history: map<TaskId, seq<Change>>
    var currentTask: map<VehicleId, TaskId>
    /** The status each task was created with. */
    ghost var created: map<TaskId, Status>

    ghost predicate Valid()
      reads this`tasks, this`history, this`created
    {
      Explains(history, created, tasks)
    }

    constructor ()
      ensures Valid() && tasks == map[] && history == map[]
    {
      vehicles, zones, stations := {}, {}, {};
      tasks, history, currentTask, created := map[], map[], map[], map[];
    }

    method EnsureVehicleExists(v: VehicleId)
      modifies this`vehicles
      ensures vehicles == old(vehicles) + {v}
    {
      vehicles := vehicles + {v};
    }

    method AddZone(zone: ZoneId) returns (ok: bool)
      modifies this`zones
      ensures ok <==> zone !in old(zones)
      ensures zones == old(zones) + {zone}
    {
      ok := zone !in zones;
      zones := zones + {zone};
    }

    /** A station lies in a known zone and is added once. */
    method AddStation(station: StationId, zone: ZoneId) returns (ok: bool)
      modifies this`stations
      ensures ok <==> zone in zones && station !in old(stations)
      ensures stations == if ok then old(stations) + {station} else old(stations)
    {
      ok := zone in zones && station !in stations;
      if ok {
        stations := stations + {station};
      }
    }

    /** A vehicle's status report replaces the task it is working on. */
    method UpsertVehicleStatus(v: VehicleId, task: Option<TaskId>)
      modifies this`currentTask
      ensures currentTask == if task.Some? then old(currentTask)[v := task.value] else old(currentTask) - {v}
    {
      currentTask := if task.Some? then currentTask[v := task.value] else currentTask - {v};
    }

    method CreateTask(t: Task, id: TaskId) returns (r: Result)
      requires Valid() && id !in tasks
      modifies this`tasks, this`created
      ensures Valid()
      ensures r == if t.vehicle !in vehicles then Failed(UnknownVehicle)
                   else if t.from !in stations || t.to !in stations then Failed(UnknownStation)
                   else Ok(if t.status == Other("") then t.(status := Pending) else t)
      ensures tasks == if r.Ok? then old(tasks)[id := r.task] else old(tasks)
      ensures created == if r.Ok? then old(created)[id := r.task.status] else old(created)
    {
      if t.vehicle !in vehicles {
        return Failed(UnknownVehicle);
      }
      if t.from !in stations || t.to !in stations {
        return Failed(UnknownStation);
      }
      var task := if t.status == Other("") then t.(status := Pending) else t;
      tasks := tasks[id := task];
      created := created[id := task.status];
      return Ok(task);
    }

    /** Whether a change is refused: it is accepted exactly if the task's status allows it. */
    method Decide(id: TaskId, to: Status) returns (refusal: Option<Error>)
      ensures refusal == None <==> id in tasks && Allowed(tasks[id].status, to)
      ensures refusal == Some(TaskNotFound) <==> IsTarget(to) && id !in tasks
      ensures refusal == None || refusal == Some(TaskNotFound) || refusal == Some(InvalidTransition)
    {
      if !IsTarget(to) {
        return Some(InvalidTransition);
      }
      if id !in tasks {
        return Some(TaskNotFound);
      }
      var allowed := IsSource(tasks[id].status, to);
      return if allowed then None else Some(InvalidTransition);
    }

    /** Stores the changed task together with its audit entry. */
    method Record(id: TaskId, task: Task, author: string)
      requires Valid() && id in tasks && Allowed(tasks[id].status, task.status)
      modifies this`tasks, this`history
      ensures Valid() && tasks == old(tasks)[id := task]
      ensures var change := Change(old(tasks)[id].status, task.status, author);
              history == old(history)[id := HistoryOf(old(history), id) + [change]]
    {
      var entries := HistoryOf(history, id) + [Change(tasks[id].status, task.status, author)];
      ChangeIsExplained(history, created, tasks, id, task, author);
      tasks, history := tasks[id := task], history[id := entries];
    }

    /** A finished task stops being its vehicle's current one; no other vehicle's current task changes. */
    method Finish(id: TaskId, v: VehicleId, to: Status)
      modifies this`currentTask
      ensures v in currentTask
              <==> v in old(currentTask) && !((to == Completed || to == Cancelled) && old(currentTask)[v] == id)
      ensures currentTask.Keys <= old(currentTask).Keys <= currentTask.Keys + {v}
      ensures forall u | u in currentTask :: currentTask[u] == old(currentTask)[u]
    {
      if (to == Completed || to == Cancelled) && v in currentTask && currentTask[v] == id {
        currentTask := currentTask - {v};
      }
    }

    /** Accepts exactly the offered changes, records each of them, and never touches another task. */
    method UpdateTaskStatus(id: TaskId, to: Status, author: string) returns (r: Result)
      requires Valid()
      modifies this`tasks, this`history, this`currentTask
      ensures Valid()
      ensures r.Ok? <==> id in old(tasks) && Allowed(old(tasks)[id].status, to)
      ensures r == Failed(TaskNotFound) <==> IsTarget(to) && id !in old(tasks)
      ensures r.Failed? ==>
                && (r.error == TaskNotFound || r.error == InvalidTransition)
                && tasks == old(tasks) && history == old(history) && currentTask == old(currentTask)
      ensures r.Ok? ==>
                && r.task == old(tasks)[id].(status := to, changedBy := Some(author))
                && tasks == old(tasks)[id := r.task]
                && history
                   == old(history)[id := HistoryOf(old(history), id) + [Change(old(tasks)[id].status, to, author)]]
                && var v := r.task.vehicle;
                   && (v in currentTask
                       <==> && v in old(currentTask)
                            && !((to == Completed || to == Cancelled) && old(currentTask)[v] == id))
                   && currentTask.Keys <= old(currentTask).Keys <= currentTask.Keys + {v}
                   && forall u | u in currentTask :: currentTask[u] == old(currentTask)[u]
    {
      var refusal := Decide(id, to);
      if refusal.Some? {
        return Failed(refusal.value);
      }
      var task := tasks[id].(status := to, changedBy := Some(author));
      Record(id, task, author);
      Finish(id, task.vehicle, to);
      return Ok(task);
    }

    /** The audit trail: at most two entries, from the creation status to the current one. */
    method GetTaskStatusHistory(id: TaskId) returns (entries: Option<seq<Change>>)
      requires Valid()
      ensures entries == if id in tasks then Some(HistoryOf(history, id)) else None
      ensures entries.Some? ==>
                && |entries.value| <= 2
                && Chain(entries.value, tasks[id].status)
                && Origin(entries.value, tasks[id].status) == created[id]
    {
      if id !in tasks {
        return None;
      }
      ChainIsShort(HistoryOf(history, id), tasks[id].status);
      entries := Some(HistoryOf(history, id));
    }
  }
}
