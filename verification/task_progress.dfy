/** The `useTaskProgress` hook of `src/lib/useTaskProgress.ts`: the state a task's
    progress is shown from, the updates that WebSocket messages, poll responses,
    `startTask` and `reset` make to it, and the bookkeeping of the sockets and the
    poll interval. */
module TaskProgress {
  import opened Common

  datatype Status = Idle | Pending | Processing | Success | Error

  /** A JSON value, for the `result` the server sends back. */
  datatype Json =
    | JNull
    | JBool(b: bool)
    | JNumber(n: real)
    | JString(s: string)
    | JArray(items: seq<Json>)
    | JObject(fields: seq<(string, Json)>)

  /** JavaScript truthiness of an optional JSON value (absent is `undefined`). */
  predicate JsonTruthy(v: Option<Json>) {
    match v
    case None => false
    case Some(JNull) => false
    case Some(JBool(b)) => b
    case Some(JNumber(n)) => n != 0.0
    case Some(JString(s)) => s != ""
    case Some(JArray(_)) => true
    case Some(JObject(_)) => true
  }

  /** The `TaskProgress` record. */
  datatype TaskState = TaskState(taskId: Option<string>, progress: int, status: Status, message: string, result: Json)

  /** The state the hook starts in, and that `reset` restores. */
  const Initial := TaskState(None, 0, Idle, "", JNull)

  /** The state `startTask` sets before calling the API. */
  const Starting := TaskState(None, 0, Pending, "Starting...", JNull)

  /** `isLoading`. */
  predicate IsLoading(s: TaskState) {
    s.status == Pending || s.status == Processing
  }

  /** A WebSocket message after `JSON.parse`; `Garbled` when parsing throws. */
  datatype SocketMessage =
    | SocketData(status: Option<string>, progress: Option<int>, message: Option<string>, result: Option<Json>)
    | Garbled

  /** A poll response; `PollFailed` when the fetch or its JSON decoding throws. */
  datatype PollResponse =
    | PollData(ready: bool, status: Option<string>, progress: Option<int>, message: Option<string>, result: Option<Json>)
    | PollFailed

  /** `x || previous` for a numeric field: 0 and absent are falsy. */
  function ProgressOr(p: Option<int>, previous: int): (r: int)
    ensures p.None? || p.value == 0 ==> r == previous
    ensures p.Some? && p.value != 0 ==> r == p.value
  {
    if p.Some? && p.value != 0 then p.value else previous
  }

  function ResultOr(r: Option<Json>, previous: Json): Json {
    if JsonTruthy(r) then r.value else previous
  }

  function MessageOrEmpty(m: Option<string>): string {
    if m.Some? then m.value else ""
  }

  /** The `setState` updater in `ws.onmessage`. */
  function AfterSocketData(prev: TaskState, status: Option<string>, progress: Option<int>, message: Option<string>, result: Option<Json>): (r: TaskState)
    ensures r.taskId == prev.taskId
    ensures r.status == Status.Success <==> status == Some("complete")
    ensures r.status == Processing <==> status != Some("complete")
    ensures IsLoading(r) <==> status != Some("complete")
    ensures r.progress == ProgressOr(progress, prev.progress)
    ensures !JsonTruthy(result) ==> r.result == prev.result
    ensures JsonTruthy(result) ==> r.result == result.value
    ensures r.message == MessageOrEmpty(message)
  {
    prev.(progress := ProgressOr(progress, prev.progress),
          status := if status == Some("complete") then Status.Success else Processing,
          message := MessageOrEmpty(message),
          result := ResultOr(result, prev.result))
  }

  /** The socket is closed after a message that says `complete` or reports 100%. */
  predicate SocketCloses(status: Option<string>, progress: Option<int>)
    ensures status == Some("complete") ==> SocketCloses(status, progress)
    ensures progress == Some(100) ==> SocketCloses(status, progress)
    ensures SocketCloses(status, progress) && status != Some("complete") ==> progress == Some(100)
  {
    status == Some("complete") || progress == Some(100)
  }

  /** A socket message never reports an error, even one whose status says `error`;
      and a socket that closes on a bare 100% leaves the task loading. */
  lemma SocketNeverReportsError(prev: TaskState, status: Option<string>, progress: Option<int>, message: Option<string>, result: Option<Json>)
    ensures AfterSocketData(prev, status, progress, message, result).status != Error
    ensures SocketCloses(status, progress) && status != Some("complete") ==>
              IsLoading(AfterSocketData(prev, status, progress, message, result))
    ensures var r := AfterSocketData(prev, status, progress, message, result);
            SocketCloses(status, progress) ==> r.status == Status.Success || r.progress == 100
  {
  }

  function PollStatus(ready: bool, status: Option<string>): (r: Status)
    ensures r == Status.Success <==> ready
    ensures r == Error <==> !ready && status == Some("FAILURE")
    ensures r == Processing <==> !ready && status != Some("FAILURE")
  {
    if ready then Status.Success else if status == Some("FAILURE") then Error else Processing
  }

  /** The `setState` updater in the poll callback. */
  function AfterPollData(prev: TaskState, ready: bool, status: Option<string>, progress: Option<int>, message: Option<string>, result: Option<Json>): (r: TaskState)
    ensures r.taskId == prev.taskId
    ensures r.status == Status.Success <==> ready
    ensures r.status == Error <==> !ready && status == Some("FAILURE")
    ensures r.status == Processing <==> !ready && status != Some("FAILURE")
    ensures r.progress == ProgressOr(progress, prev.progress)
    ensures !JsonTruthy(result) ==> r.result == prev.result
    ensures JsonTruthy(result) ==> r.result == result.value
    ensures r.message == MessageOrEmpty(message)
  {
    prev.(progress := ProgressOr(progress, prev.progress),
          status := PollStatus(ready, status),
          message := MessageOrEmpty(message),
          result := ResultOr(result, prev.result))
  }

  /** Polling stops exactly when the poll has brought the task to a final status. */
  predicate PollStops(ready: bool, status: Option<string>) {
    ready || status == Some("FAILURE")
  }

  lemma PollStopsIffFinal(prev: TaskState, ready: bool, status: Option<string>, progress: Option<int>, message: Option<string>, result: Option<Json>)
    ensures var r := AfterPollData(prev, ready, status, progress, message, result);
            PollStops(ready, status) <==> (r.status == Status.Success || r.status == Error)
    ensures PollStops(ready, status) <==> !IsLoading(AfterPollData(prev, ready, status, progress, message, result))
  {
  }

  /** What awaiting `apiCall` produced. */
  datatype CallOutcome =
    | Responded(taskId: Option<string>, data: Json)  // `response.data` and its `task_id`
    | Threw(message: Option<string>)                 // the `Error`'s message, None when not an `Error`

  /** `startTask` after the await: the new state, and the value it returns. */
  function AfterCall(prev: TaskState, outcome: CallOutcome): (r: (TaskState, Option<Json>))
    ensures outcome.Responded? && outcome.taskId.Some? && outcome.taskId.value != "" ==>
              r.0 == prev.(taskId := outcome.taskId, status := Processing, message := "Processing...") && r.1 == None
    ensures outcome.Responded? && !(outcome.taskId.Some? && outcome.taskId.value != "") ==>
              r.0 == TaskState(None, 100, Status.Success, "Complete!", outcome.data) && r.1 == Some(outcome.data)
    ensures outcome.Threw? ==>
              r.0 == prev.(status := Error, message := outcome.message.GetOr("Failed")) && r.1 == None
    ensures outcome.Threw? ==> r.0.taskId == prev.taskId && r.0.progress == prev.progress && r.0.result == prev.result
  {
    match outcome
    case Responded(taskId, data) =>
      if taskId.Some? && taskId.value != "" then
        (prev.(taskId := taskId, status := Processing, message := "Processing..."), None)
      else
        (TaskState(None, 100, Status.Success, "Complete!", data), Some(data))
    case Threw(message) =>
      (prev.(status := Error, message := message.GetOr("Failed")), None)
  }

  /** Only `startTask`'s first step produces `pending`, and only `reset` (or the
      start) produces `idle`; each of those two states is one fixed record. */
  ghost predicate WellFormed(s: TaskState) {
    && (s.status == Idle ==> s == Initial)
    && (s.status == Pending ==> s == Starting)
  }

  lemma UpdatesKeepWellFormed(prev: TaskState, status: Option<string>, ready: bool, progress: Option<int>, message: Option<string>, result: Option<Json>, outcome: CallOutcome)
    ensures WellFormed(AfterSocketData(prev, status, progress, message, result))
    ensures WellFormed(AfterPollData(prev, ready, status, progress, message, result))
    ensures WellFormed(AfterCall(prev, outcome).0)
  {
  }

  /** The hook's state together with its refs: the WebSocket each `startTask` opened
      (by task id), those of them still connecting, the sockets `reset` closed while
      they were connecting (the browser still owes each of them an `error` event),
      `wsRef.current`, the running poll interval, the poll starts scheduled with
      `setTimeout`, and the status fetches the interval has sent that have not
      answered yet (by task id). */
  class TaskTracker {
    var state: TaskState
    var openSockets: set<string>
    var connecting: set<string>
    var failing: set<string>
    var currentSocket: Option<string>
    var polling: Option<string>
    var scheduledPolls: multiset<string>
    var inFlight: multiset<string>

    ghost predicate Valid()
      reads this
    {
      WellFormed(state)
    }

    constructor ()
      ensures Valid() && state == Initial
      ensures openSockets == {} && currentSocket == None && polling == None && scheduledPolls == multiset{}
      ensures inFlight == multiset{} && connecting == {} && failing == {}
    {
      state := Initial;
      openSockets := {};
      connecting := {};
      failing := {};
      currentSocket := None;
      polling := None;
      scheduledPolls := multiset{};
      inFlight := multiset{};
    }

    function IsLoadingNow(): (r: bool)
      reads this
      ensures r <==> state.status == Pending || state.status == Processing
    {
      IsLoading(state)
    }

    /** `startTask` up to the await: the state is reset to `pending`. */
    method BeginTask()
      requires Valid()
      modifies this
      ensures Valid() && state == Starting && IsLoading(state)
      ensures openSockets == old(openSockets) && currentSocket == old(currentSocket)
      ensures polling == old(polling) && scheduledPolls == old(scheduledPolls) && inFlight == old(inFlight)
      ensures connecting == old(connecting) && failing == old(failing)
    {
      state := Starting;
    }

    /** `startTask` after the await. A task id opens a new WebSocket (the previous
        one is not closed) and schedules a poll start 3 seconds later. */
    method SettleTask(outcome: CallOutcome) returns (value: Option<Json>)
      requires Valid()
      modifies this
      ensures Valid()
      ensures (state, value) == AfterCall(old(state), outcome)
      ensures outcome.Responded? && outcome.taskId.Some? && outcome.taskId.value != "" ==>
                openSockets == old(openSockets) + {outcome.taskId.value}
                && connecting == old(connecting) + {outcome.taskId.value}
                && currentSocket == outcome.taskId
                && scheduledPolls == old(scheduledPolls) + multiset{outcome.taskId.value}
      ensures !(outcome.Responded? && outcome.taskId.Some? && outcome.taskId.value != "") ==>
                openSockets == old(openSockets) && connecting == old(connecting)
                && currentSocket == old(currentSocket) && scheduledPolls == old(scheduledPolls)
      ensures polling == old(polling) && inFlight == old(inFlight) && failing == old(failing)
    {
      var next := AfterCall(state, outcome);
      UpdatesKeepWellFormed(state, None, false, None, None, None, outcome);
      state := next.0;
      value := next.1;
      if outcome.Responded? && outcome.taskId.Some? && outcome.taskId.value != "" {
        var id := outcome.taskId.value;
        openSockets := openSockets + {id};
        connecting := connecting + {id};
        currentSocket := Some(id);
        scheduledPolls := scheduledPolls + multiset{id};
      }
    }

    /** `ws.onopen`: the socket for `task` finishes connecting; it only logs. */
    method OnSocketOpen(task: string)
      requires Valid() && task in connecting
      modifies this
      ensures Valid() && state == old(state) && connecting == old(connecting) - {task}
      ensures openSockets == old(openSockets) && failing == old(failing) && currentSocket == old(currentSocket)
      ensures polling == old(polling) && scheduledPolls == old(scheduledPolls) && inFlight == old(inFlight)
    {
      connecting := connecting - {task};
    }

    /** `ws.onmessage` of the socket opened for `task`; messages arrive only once
        the socket is open. */
    method OnSocketMessage(task: string, m: SocketMessage)
      requires Valid() && task in openSockets && task !in connecting
      modifies this
      ensures Valid()
      ensures m.Garbled? ==> state == old(state) && openSockets == old(openSockets)
      ensures m.SocketData? ==> state == AfterSocketData(old(state), m.status, m.progress, m.message, m.result)
      ensures m.SocketData? ==>
                openSockets == if SocketCloses(m.status, m.progress) then old(openSockets) - {task} else old(openSockets)
      ensures currentSocket == old(currentSocket) && polling == old(polling) && scheduledPolls == old(scheduledPolls)
      ensures inFlight == old(inFlight) && connecting == old(connecting) && failing == old(failing)
    {
      if m.SocketData? {
        UpdatesKeepWellFormed(state, m.status, false, m.progress, m.message, m.result, Threw(None));
        state := AfterSocketData(state, m.status, m.progress, m.message, m.result);
        if SocketCloses(m.status, m.progress) {
          openSockets := openSockets - {task};
        }
      }
    }

    /** `ws.onerror`: polling starts at once (replacing any interval); the browser
        then closes the socket. The event comes from a socket that is connecting or
        open, or from one that `reset` closed while it was still connecting. */
    method OnSocketError(task: string)
      requires Valid() && (task in openSockets || task in failing)
      modifies this
      ensures Valid() && state == old(state)
      ensures polling == Some(task) && openSockets == old(openSockets) - {task}
      ensures connecting == old(connecting) - {task} && failing == old(failing) - {task}
      ensures currentSocket == old(currentSocket) && scheduledPolls == old(scheduledPolls) && inFlight == old(inFlight)
    {
      polling := Some(task);
      openSockets := openSockets - {task};
      connecting := connecting - {task};
      failing := failing - {task};
    }

    /** The `setTimeout` scheduled by `startTask` fires: `startPolling(task)`. */
    method OnPollTimer(task: string)
      requires Valid() && task in scheduledPolls
      modifies this
      ensures Valid() && state == old(state)
      ensures polling == Some(task) && scheduledPolls == old(scheduledPolls) - multiset{task}
      ensures openSockets == old(openSockets) && currentSocket == old(currentSocket) && inFlight == old(inFlight)
      ensures connecting == old(connecting) && failing == old(failing)
    {
      polling := Some(task);
      scheduledPolls := scheduledPolls - multiset{task};
    }

    /** One tick of the running poll interval: it sends a status fetch for the task
        the interval was started for, without waiting for earlier ones to answer. */
    method OnPollTick()
      requires Valid() && polling.Some?
      modifies this
      ensures Valid() && state == old(state) && polling == old(polling)
      ensures inFlight == old(inFlight) + multiset{old(polling).value}
      ensures openSockets == old(openSockets) && currentSocket == old(currentSocket) && scheduledPolls == old(scheduledPolls)
      ensures connecting == old(connecting) && failing == old(failing)
    {
      inFlight := inFlight + multiset{polling.value};
    }

    /** A status fetch sent for `task` answers. Its update lands on whatever state
        the hook is in by then (after a newer interval or a `reset` too), and a
        final answer clears whichever interval is current. */
    method OnPollResponse(task: string, r: PollResponse)
      requires Valid() && task in inFlight
      modifies this
      ensures Valid()
      ensures inFlight == old(inFlight) - multiset{task}
      ensures r.PollFailed? ==> state == old(state) && polling == old(polling)
      ensures r.PollData? ==> state == AfterPollData(old(state), r.ready, r.status, r.progress, r.message, r.result)
      ensures r.PollData? ==> polling == if PollStops(r.ready, r.status) then None else old(polling)
      ensures r.PollData? && old(polling).Some? ==> (polling.None? <==> !IsLoading(state))
      ensures openSockets == old(openSockets) && currentSocket == old(currentSocket) && scheduledPolls == old(scheduledPolls)
      ensures connecting == old(connecting) && failing == old(failing)
    {
      inFlight := inFlight - multiset{task};
      if r.PollData? {
        UpdatesKeepWellFormed(state, r.status, r.ready, r.progress, r.message, r.result, Threw(None));
        PollStopsIffFinal(state, r.ready, r.status, r.progress, r.message, r.result);
        state := AfterPollData(state, r.ready, r.status, r.progress, r.message, r.result);
        if PollStops(r.ready, r.status) {
          polling := None;
        }
      }
    }

    /** `reset`: closes `wsRef.current`, clears the interval, restores the initial
        state. Older sockets and scheduled poll starts are left alone. Closing a
        socket that is still connecting fails it, so its `error` event is still due. */
    method Reset()
      requires Valid()
      modifies this
      ensures Valid() && state == Initial && !IsLoading(state)
      ensures polling == None
      ensures openSockets == if old(currentSocket).Some? then old(openSockets) - {old(currentSocket).value} else old(openSockets)
      ensures connecting == if old(currentSocket).Some? then old(connecting) - {old(currentSocket).value} else old(connecting)
      ensures failing == if old(currentSocket).Some? && old(currentSocket).value in old(connecting)
                         then old(failing) + {old(currentSocket).value} else old(failing)
      ensures currentSocket == old(currentSocket) && scheduledPolls == old(scheduledPolls) && inFlight == old(inFlight)
    {
      if currentSocket.Some? {
        var ws := currentSocket.value;
        if ws in connecting {
          failing := failing + {ws};
        }
        openSockets := openSockets - {ws};
        connecting := connecting - {ws};
      }
      polling := None;
      state := Initial;
    }
  }

  /** A poll start scheduled before `reset` still fires afterwards, so polling of
      the old task resumes after a reset made within 3 seconds of `startTask`. */
  method ResetDoesNotCancelScheduledPoll(t: TaskTracker, task: string)
    requires t.Valid() && task in t.scheduledPolls
    modifies t
    ensures t.state == Initial && t.polling == Some(task)
  {
    t.Reset();
    t.OnPollTimer(task);
  }

  /** `reset` while the current socket is still connecting fails that socket; its
      `error` event starts polling the old task again, and the first answer takes
      the state out of `idle`. */
  method ResetWhileConnectingResumesPolling(t: TaskTracker, task: string)
    requires t.Valid() && t.currentSocket == Some(task) && task in t.connecting
    modifies t
    ensures t.polling == Some(task) && t.state.status == Processing && t.state.taskId.None?
  {
    t.Reset();
    t.OnSocketError(task);
    t.OnPollTick();
    t.OnPollResponse(task, PollData(false, Some("PENDING"), None, None, None));
  }

  /** Two fetches of one interval are in flight; the second answers first with
      `ready` and stops polling, then the first answers `PENDING`. The task is left
      loading with no poll running. */
  method LateResponseAfterStop(t: TaskTracker, task: string)
    requires t.Valid() && t.polling == Some(task)
    modifies t
    ensures t.polling.None? && IsLoading(t.state) && t.state.status == Processing
  {
    t.OnPollTick();
    t.OnPollTick();
    t.OnPollResponse(task, PollData(true, Some("SUCCESS"), Some(100), None, None));
    t.OnPollResponse(task, PollData(false, Some("PENDING"), None, None, None));
  }

  /** A fetch still in flight when `reset` runs answers afterwards and takes the
      state out of `idle` again. */
  method LateResponseAfterReset(t: TaskTracker, task: string)
    requires t.Valid() && t.polling == Some(task)
    modifies t
    ensures t.polling.None? && t.state.status == Processing && t.state.taskId.None?
  {
    t.OnPollTick();
    t.Reset();
    t.OnPollResponse(task, PollData(false, Some("PENDING"), None, None, None));
  }
}
