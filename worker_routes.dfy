/** The server's worker endpoints: registration, the heartbeat, and the
    get and delete endpoints, which do nothing yet. */
module WorkerRoutes {
  import opened Common
  import opened Store
  import Reaper

  /** The body of a registration request. */
  datatype WorkerRegistrationData = WorkerRegistrationData(namespaceName: string, username: Option<string>, metric: string)

  /** The registration response; numJobs is always 0 for now. */
  datatype Registration = Registration(workerId: int, numJobs: int)

  /** The namespace and user a registration names, as (namespace id, user
      id): the first row of each with the requested name. The username
      column is NOT NULL, so a missing username matches nobody. */
  function RegistrationTarget(namespaces: seq<Namespace>, users: seq<User>, data: WorkerRegistrationData): (r: Result<(int, int)>)
    ensures r.Ok? <==>
      (exists i :: 0 <= i < |namespaces| && namespaces[i].name == data.namespaceName) &&
      data.username.Some? &&
      (exists j :: 0 <= j < |users| && users[j].username == data.username.value)
    ensures r.Err? ==> r.error == NotFound
    ensures r.Ok? ==>
      (exists i :: 0 <= i < |namespaces| && namespaces[i].id == r.value.0 &&
        namespaces[i].name == data.namespaceName &&
        (forall i' :: 0 <= i' < i ==> namespaces[i'].name != data.namespaceName)) &&
      (exists j :: 0 <= j < |users| && users[j].id == r.value.1 &&
        users[j].username == data.username.value &&
        (forall j' :: 0 <= j' < j ==> users[j'].username != data.username.value))
  {
    var ns := First(namespaces, (n: Namespace) => n.name == data.namespaceName);
    if ns.None? then Err(NotFound)
    else if data.username.None? then Err(NotFound)
    else
      var user := First(users, (u: User) => u.username == data.username.value);
      if user.None? then Err(NotFound)
      else Ok((ns.value.id, user.value.id))
  }

  /** The row registration adds: WAITING, no metric, no heartbeat yet. */
  function NewWorker(id: int, namespaceId: int, userId: int): Worker
  {
    Worker(id, namespaceId, userId, None, Waiting, None)
  }

  /** Registers a worker. The requested metric is not stored, and no jobs
      are generated. */
  method RegisterWorker(tx: Session, data: WorkerRegistrationData) returns (r: Result<Registration>)
    requires tx.Valid()
    modifies tx`workers, tx`nextId
    ensures tx.Valid()
    ensures RegistrationTarget(tx.namespaces, tx.users, data).Err? ==>
      r == Err(NotFound) && tx.workers == old(tx.workers) && tx.nextId == old(tx.nextId)
    ensures RegistrationTarget(tx.namespaces, tx.users, data).Ok? ==>
      var (ns, user) := RegistrationTarget(tx.namespaces, tx.users, data).value;
      && r == Ok(Registration(old(tx.nextId), 0))
      && old(tx.nextId) !in old(tx.workers)
      && tx.workers == old(tx.workers)[old(tx.nextId) := NewWorker(old(tx.nextId), ns, user)]
  {
    var target := RegistrationTarget(tx.namespaces, tx.users, data);
    if target.Err? {
      return Err(target.error);
    }
    var (ns, user) := target.value;
    var id := tx.nextId;
    tx.workers := tx.workers[id := NewWorker(id, ns, user)];
    tx.nextId := tx.nextId + 1;
    r := Ok(Registration(id, 0));
  }

  /** A freshly registered worker is not swept, whatever the threshold:
      it is WAITING and has no heartbeat. */
  lemma NewWorkerSurvivesSweep(workers: map<int, Worker>, id: int, namespaceId: int, userId: int, threshold: int)
    ensures var after := workers[id := NewWorker(id, namespaceId, userId)];
      id !in Reaper.ExpiredIds(after, threshold) &&
      Reaper.TimeOut(after, Reaper.ExpiredIds(after, threshold))[id] == NewWorker(id, namespaceId, userId)
  {
    var after := workers[id := NewWorker(id, namespaceId, userId)];
    Reaper.NeverReaped(after, threshold, id);
  }

  /** The response of the heartbeat endpoint as written: looking up a
      missing worker yields no row, and setting its heartbeat then fails
      with an internal error. */
  function HeartbeatOutcomeAsWritten(workers: map<int, Worker>, workerId: int): (r: Result<()>)
    ensures r.Ok? <==> workerId in workers
    ensures r.Err? ==> r.error == ServerError
  {
    if workerId in workers then Ok(()) else Err(ServerError)
  }

  /** The response of the heartbeat endpoint as intended: a missing worker
      is reported as not found. */
  function HeartbeatOutcome(workers: map<int, Worker>, workerId: int): (r: Result<()>)
    ensures r.Ok? <==> workerId in workers
    ensures r.Err? ==> r.error == NotFound
  {
    if workerId in workers then Ok(()) else Err(NotFound)
  }

  /** The heartbeat as written. */
  method HeartbeatWorkerAsWritten(tx: Session, workerId: int, now: int) returns (r: Result<()>)
    modifies tx`workers
    ensures r == HeartbeatOutcomeAsWritten(old(tx.workers), workerId)
    ensures workerId in old(tx.workers) ==>
      tx.workers == old(tx.workers)[workerId := old(tx.workers)[workerId].(lastHeartbeat := Some(now))]
    ensures workerId !in old(tx.workers) ==> tx.workers == old(tx.workers)
  {
    r := HeartbeatOutcomeAsWritten(tx.workers, workerId);
    if r.Ok? {
      tx.workers := tx.workers[workerId := tx.workers[workerId].(lastHeartbeat := Some(now))];
    }
  }

  /** The heartbeat: records now as the worker's last sign of life. */
  method HeartbeatWorker(tx: Session, workerId: int, now: int) returns (r: Result<()>)
    modifies tx`workers
    ensures r == HeartbeatOutcome(old(tx.workers), workerId)
    ensures workerId in old(tx.workers) ==>
      tx.workers == old(tx.workers)[workerId := old(tx.workers)[workerId].(lastHeartbeat := Some(now))]
    ensures workerId !in old(tx.workers) ==> tx.workers == old(tx.workers)
  {
    r := HeartbeatOutcome(tx.workers, workerId);
    if r.Ok? {
      tx.workers := tx.workers[workerId := tx.workers[workerId].(lastHeartbeat := Some(now))];
    }
  }

  /** A heartbeat for a worker id that was never registered: the endpoint
      as written answers with an internal error, not with "not found". */
  lemma HeartbeatOfUnknownWorker(workers: map<int, Worker>, workerId: int)
    requires workerId !in workers
    ensures HeartbeatOutcomeAsWritten(workers, workerId) == Err(ServerError)
    ensures HeartbeatOutcome(workers, workerId) == Err(NotFound)
  {
  }

  /** A heartbeat at or after the sweep's threshold keeps a WORKING worker
      from being swept. */
  lemma FreshHeartbeatSurvivesSweep(workers: map<int, Worker>, workerId: int, now: int, threshold: int)
    requires workerId in workers && now >= threshold
    ensures var after := workers[workerId := workers[workerId].(lastHeartbeat := Some(now))];
      workerId !in Reaper.ExpiredIds(after, threshold)
  {
    var after := workers[workerId := workers[workerId].(lastHeartbeat := Some(now))];
    Reaper.NeverReaped(after, threshold, workerId);
  }

  /** The get endpoint has no body yet: it changes nothing. */
  method GetWorker(tx: Session, workerId: int)
    ensures tx.workers == old(tx.workers) && tx.jobs == old(tx.jobs)
  {
  }

  /** The delete endpoint has no body yet: it changes nothing; the sweep
      is what eventually retires a worker. */
  method DeleteWorker(tx: Session, workerId: int)
    ensures tx.workers == old(tx.workers) && tx.jobs == old(tx.jobs)
  {
  }
}
