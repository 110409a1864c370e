/** WhatsApp sessions over sharded workers: which worker holds a socket for which device. `connect`
    is one atomic step; a socket's close event may come at any time, even after it was replaced,
    and even twice. A step that is not enabled changes nothing. */
module Sessions {
  import opened Common
  import opened Shard

  type Socket = nat

  /** The statuses that are ever written. */
  datatype DeviceStatus = CREATED | PAIRING | RECONNECTING | CONNECTED | DISCONNECTED

  /** The session manager of one worker: its session map, pending reconnect timers and devices still
      to be restored, and the history of the sockets it opened, in order, with those that were ended
      or closed. */
  datatype Manager = Manager(
    sessions: map<DeviceId, Socket>,
    timers: multiset<DeviceId>,
    restoring: set<DeviceId>,
    opens: seq<DeviceId>,
    gone: set<Socket>)

  /** `disconnect`: end the socket of the device, if there is one. */
  function Disconnect(m: Manager, d: DeviceId): Manager {
    if d in m.sessions then m.(sessions := m.sessions - {d}, gone := m.gone + {m.sessions[d]}) else m
  }

  /** `connect`: end the old socket, then open one for a device that is in the table. */
  function Connect(m: Manager, d: DeviceId, found: bool): Manager {
    var n := Disconnect(m, d);
    if found then n.(sessions := n.sessions[d := |n.opens|], opens := n.opens + [d]) else n
  }

  /** The codes after which no reconnect helps: logged out, banned, never paired, bad session. */
  predicate IsPermanent(code: Option<int>) {
    code.Some? && code.value in {401, 403, 405, 500}
  }

  lemma PermanentCodes(code: Option<int>)
    ensures IsPermanent(code) <==> code in {Some(401), Some(403), Some(405), Some(500)}
  {
  }

  predicate IsActive(m: Manager, sock: Socket) {
    sock < |m.opens| && m.opens[sock] in m.sessions && m.sessions[m.opens[sock]] == sock
  }

  lemma Current(m: Manager, sock: Socket, d: DeviceId)
    requires sock < |m.opens| && m.opens[sock] == d
    ensures IsActive(m, sock) <==> d in m.sessions && m.sessions[d] == sock
  {
  }

  /** The close handler of a socket. */
  function Close(m: Manager, sock: Socket, permanent: bool): Manager {
    if sock >= |m.opens| then m
    else
      var d := m.opens[sock];
      var n := m.(gone := m.gone + {sock});
      if !IsActive(m, sock) then n
      else
        n.(sessions := n.sessions - {d}, timers := if permanent then n.timers else n.timers + multiset{d})
  }

  lemma ClosedManager(m: Manager, n: Manager, sock: Socket, permanent: bool)
    requires sock < |m.opens|
    requires n == m.(gone := m.gone + {sock},
                     sessions := if IsActive(m, sock) then m.sessions - {m.opens[sock]} else m.sessions,
                     timers := if IsActive(m, sock) && !permanent then m.timers + multiset{m.opens[sock]} else m.timers)
    ensures n == Close(m, sock, permanent)
  {
  }

  // ---------------------------------------------------------------- one worker

  /** The session of a device is its most recent socket, and every socket that was neither ended
      nor closed is somebody's session. */
  ghost predicate ManagerOk(m: Manager) {
    && (forall d | d in m.sessions ::
          && m.sessions[d] < |m.opens| && m.opens[m.sessions[d]] == d && m.sessions[d] !in m.gone
          && forall k | m.sessions[d] < k < |m.opens| :: m.opens[k] != d)
    && (forall k: nat | k < |m.opens| && k !in m.gone :: IsActive(m, k))
    && (forall k | k in m.gone :: k < |m.opens|)
  }

  lemma DisconnectKeepsOk(m: Manager, d: DeviceId)
    requires ManagerOk(m)
    ensures ManagerOk(Disconnect(m, d)) && d !in Disconnect(m, d).sessions
    ensures forall k: nat | k < |m.opens| && m.opens[k] == d :: k in Disconnect(m, d).gone
  {
    var n := Disconnect(m, d);
    forall k: nat | k < |n.opens| && k !in n.gone ensures IsActive(n, k) && n.opens[k] != d {
      assert IsActive(m, k);
    }
  }

  lemma ConnectKeepsOk(m: Manager, d: DeviceId, found: bool)
    requires ManagerOk(m)
    ensures ManagerOk(Connect(m, d, found))
  {
    DisconnectKeepsOk(m, d);
    var n, t := Disconnect(m, d), Connect(m, d, found);
    forall k: nat | k < |t.opens| && k !in t.gone ensures IsActive(t, k) {
      if k < |n.opens| { assert IsActive(n, k); }
    }
  }

  lemma CloseKeepsOk(m: Manager, sock: Socket, permanent: bool)
    requires ManagerOk(m)
    ensures ManagerOk(Close(m, sock, permanent))
  {
    var t := Close(m, sock, permanent);
    CloseKeepsOthers(m, sock, permanent);
    forall k: nat | k < |t.opens| && k !in t.gone ensures IsActive(t, k) {
      assert IsActive(m, k);
    }
  }

  lemma CloseKeepsOthers(m: Manager, sock: Socket, permanent: bool)
    requires ManagerOk(m)
    ensures var t := Close(m, sock, permanent);
      && t.opens == m.opens && t.gone == m.gone + (if sock < |m.opens| then {sock} else {})
      && (forall d | d in t.sessions :: d in m.sessions && t.sessions[d] == m.sessions[d] && t.sessions[d] != sock)
      && (forall d | d in m.sessions && m.sessions[d] != sock :: d in t.sessions)
  {
  }

  // ---------------------------------------------------------------- all workers

  /** The device table, the stored sessions, the device jobs, and the workers by shard id. */
  datatype Cluster = Cluster(
    devices: map<DeviceId, DeviceStatus>,
    stored: set<DeviceId>,
    jobs: multiset<DeviceId>,
    workers: seq<Manager>)

  datatype Step =
    | Restart(w: nat)
    | ListConnected(w: nat)
    | Restore(w: nat, d: DeviceId)
    | AddDevice(d: DeviceId)
    | DropDevice(d: DeviceId)
    | ForgetSession(d: DeviceId)
    | MarkDevice(d: DeviceId, pairing: bool)
    | Request(d: DeviceId)
    | DeviceJob(w: nat, d: DeviceId)
    | Timer(w: nat, d: DeviceId)
    | SaveCreds(w: nat, sock: Socket)
    | Qr(w: nat, sock: Socket)
    | Open(w: nat, sock: Socket)
    | Closed(w: nat, sock: Socket, code: Option<int>)

  const NO_SESSIONS := Manager(map[], multiset{}, {}, [], {})

  predicate Mine(s: Cluster, w: nat, d: DeviceId) { ShardOf(d, |s.workers|) == w }

  function SetWorker(s: Cluster, w: nat, m: Manager): Cluster
    requires w < |s.workers|
  {
    s.(workers := s.workers[w := m])
  }

  function SetStatus(s: Cluster, d: DeviceId, status: DeviceStatus): Cluster {
    if d in s.devices then s.(devices := s.devices[d := status]) else s
  }

  /** The table writes of the close handler: a permanent close forgets the stored session, and
      marks the device whether or not the socket is its current one. */
  function CloseRow(s: Cluster, d: DeviceId, permanent: bool): Cluster {
    if permanent then SetStatus(s.(stored := s.stored - {d}), d, DISCONNECTED) else s
  }

  /** The devices `onModuleInit` lists. */
  function Connected(s: Cluster, w: nat): set<DeviceId> {
    set d | d in s.devices && s.devices[d] == CONNECTED && Mine(s, w, d)
  }

  predicate IsSocket(s: Cluster, w: nat, sock: Socket) {
    w < |s.workers| && sock < |s.workers[w].opens|
  }

  /** The steps of the devices service, and of others that write device rows. */
  function ApplyTable(s: Cluster, step: Step): Cluster {
    match step
    case AddDevice(d) => if d in s.devices then s else s.(devices := s.devices[d := CREATED])
    case DropDevice(d) => s.(devices := s.devices - {d})
    case ForgetSession(d) => s.(stored := s.stored - {d})
    case MarkDevice(d, pairing) => SetStatus(s, d, if pairing then PAIRING else RECONNECTING)
    case Request(d) => s.(jobs := s.jobs + multiset{d})
    case SaveCreds(w, sock) =>
      if IsSocket(s, w, sock) && s.workers[w].opens[sock] in s.devices
      then s.(stored := s.stored + {s.workers[w].opens[sock]}) else s
    case Qr(w, sock) => if IsSocket(s, w, sock) then SetStatus(s, s.workers[w].opens[sock], PAIRING) else s
    case Open(w, sock) => if IsSocket(s, w, sock) then SetStatus(s, s.workers[w].opens[sock], CONNECTED) else s
    case _ => s
  }

  function Apply(s: Cluster, step: Step): Cluster {
    match step
    case Restart(w) => if w < |s.workers| then SetWorker(s, w, NO_SESSIONS) else s
    case ListConnected(w) =>
      if w < |s.workers| then SetWorker(s, w, s.workers[w].(restoring := Connected(s, w))) else s
    case Restore(w, d) =>
      if w < |s.workers| && d in s.workers[w].restoring then
        SetWorker(s, w, Connect(s.workers[w].(restoring := s.workers[w].restoring - {d}), d, d in s.devices))
      else s
    case DeviceJob(w, d) =>
      if w < |s.workers| && d in s.jobs && Mine(s, w, d)
      then SetWorker(s, w, Connect(s.workers[w], d, d in s.devices)).(jobs := s.jobs - multiset{d})
      else s  // the guard puts the job back
    case Timer(w, d) =>
      if w < |s.workers| && d in s.workers[w].timers then
        SetWorker(s, w, Connect(s.workers[w].(timers := s.workers[w].timers - multiset{d}), d, d in s.devices))
      else s
    case Closed(w, sock, code) =>
      if IsSocket(s, w, sock) then
        SetWorker(CloseRow(s, s.workers[w].opens[sock], IsPermanent(code)), w,
                  Close(s.workers[w], sock, IsPermanent(code)))
      else s
    case _ => ApplyTable(s, step)
  }

  function Exec(s: Cluster, steps: seq<Step>): Cluster
    decreases |steps|
  {
    if steps == [] then s else Exec(Apply(s, steps[0]), steps[1..])
  }

  predicate Init(s: Cluster) {
    s.jobs == multiset{} && forall w | 0 <= w < |s.workers| :: s.workers[w] == NO_SESSIONS
  }

  /** Everything a worker holds belongs to its shard. */
  ghost predicate InShard(s: Cluster, w: nat, m: Manager) {
    && ManagerOk(m)
    && (forall d | d in m.timers || d in m.restoring :: Mine(s, w, d))
    && (forall k | 0 <= k < |m.opens| :: Mine(s, w, m.opens[k]))
  }

  ghost predicate Inv(s: Cluster) {
    forall w | 0 <= w < |s.workers| :: InShard(s, w, s.workers[w])
  }

  lemma ConnectInShard(s: Cluster, w: nat, m: Manager, d: DeviceId, found: bool)
    requires InShard(s, w, m) && Mine(s, w, d)
    ensures InShard(s, w, Connect(m, d, found))
  {
    hide ManagerOk, ShardOf;
    ConnectKeepsOk(m, d, found);
  }

  lemma CloseInShard(s: Cluster, w: nat, m: Manager, sock: Socket, permanent: bool)
    requires InShard(s, w, m)
    ensures InShard(s, w, Close(m, sock, permanent))
  {
    hide ManagerOk, ShardOf;
    CloseKeepsOk(m, sock, permanent);
  }

  lemma NoSessionsInShard(s: Cluster, w: nat)
    ensures InShard(s, w, NO_SESSIONS)
  {
  }

  /** The number of workers, and so the shard of every device, never changes. */
  lemma SameShards(s: Cluster, t: Cluster, w: nat, m: Manager)
    requires |s.workers| == |t.workers| && InShard(s, w, m)
    ensures InShard(t, w, m)
  {
    hide ManagerOk;
  }

  /** A step that changes one worker keeps the invariant when it keeps that worker in its shard. */
  lemma OneWorkerChanged(s: Cluster, t: Cluster, w: nat, m: Manager)
    requires Inv(s) && w < |s.workers| && t.workers == s.workers[w := m] && InShard(s, w, m)
    ensures Inv(t)
  {
    hide InShard;
    forall v | 0 <= v < |t.workers| ensures InShard(t, v, t.workers[v]) {
      SameShards(s, t, v, t.workers[v]);
    }
  }

  lemma TableKeepsInv(s: Cluster, t: Cluster)
    requires Inv(s) && t.workers == s.workers
    ensures Inv(t)
  {
    hide InShard;
    forall v | 0 <= v < |t.workers| ensures InShard(t, v, t.workers[v]) {
      SameShards(s, t, v, t.workers[v]);
    }
  }

  lemma ListKeepsInv(s: Cluster, w: nat)
    requires Inv(s)
    ensures Inv(Apply(s, ListConnected(w)))
  {
    hide ManagerOk, ShardOf;
    if w < |s.workers| {
      var m := s.workers[w].(restoring := Connected(s, w));
      SameManager(s.workers[w], m);
      OneWorkerChanged(s, Apply(s, ListConnected(w)), w, m);
    }
  }

  lemma SameManager(m: Manager, n: Manager)
    requires ManagerOk(m) && n.sessions == m.sessions && n.opens == m.opens && n.gone == m.gone
    ensures ManagerOk(n)
  {
    forall k: nat | k < |n.opens| && k !in n.gone ensures IsActive(n, k) {
      assert IsActive(m, k);
    }
  }

  lemma RestoreKeepsInv(s: Cluster, w: nat, d: DeviceId)
    requires Inv(s)
    ensures Inv(Apply(s, Restore(w, d)))
  {
    hide ManagerOk, ShardOf, Connect;
    if w < |s.workers| && d in s.workers[w].restoring {
      var m := s.workers[w].(restoring := s.workers[w].restoring - {d});
      SameManager(s.workers[w], m);
      ConnectInShard(s, w, m, d, d in s.devices);
      OneWorkerChanged(s, Apply(s, Restore(w, d)), w, Connect(m, d, d in s.devices));
    }
  }

  lemma DeviceJobKeepsInv(s: Cluster, w: nat, d: DeviceId)
    requires Inv(s)
    ensures Inv(Apply(s, DeviceJob(w, d)))
  {
    hide InShard, ShardOf, Connect;
    if w < |s.workers| && d in s.jobs && Mine(s, w, d) {
      ConnectInShard(s, w, s.workers[w], d, d in s.devices);
      OneWorkerChanged(s, Apply(s, DeviceJob(w, d)), w, Connect(s.workers[w], d, d in s.devices));
    }
  }

  lemma TimerKeepsInv(s: Cluster, w: nat, d: DeviceId)
    requires Inv(s)
    ensures Inv(Apply(s, Timer(w, d)))
  {
    hide ManagerOk, ShardOf, Connect;
    if w < |s.workers| && d in s.workers[w].timers {
      var m := s.workers[w].(timers := s.workers[w].timers - multiset{d});
      SameManager(s.workers[w], m);
      ConnectInShard(s, w, m, d, d in s.devices);
      OneWorkerChanged(s, Apply(s, Timer(w, d)), w, Connect(m, d, d in s.devices));
    }
  }

  lemma ClosedKeepsInv(s: Cluster, w: nat, sock: Socket, code: Option<int>)
    requires Inv(s)
    ensures Inv(Apply(s, Closed(w, sock, code)))
  {
    hide InShard, Close;
    if IsSocket(s, w, sock) {
      CloseInShard(s, w, s.workers[w], sock, IsPermanent(code));
      OneWorkerChanged(s, Apply(s, Closed(w, sock, code)), w, Close(s.workers[w], sock, IsPermanent(code)));
    }
  }

  lemma StepKeepsInv(s: Cluster, step: Step)
    requires Inv(s)
    ensures Inv(Apply(s, step))
  {
    match step
    case Restart(w) =>
      if w < |s.workers| {
        NoSessionsInShard(s, w);
        OneWorkerChanged(s, Apply(s, step), w, NO_SESSIONS);
      }
    case ListConnected(w) => ListKeepsInv(s, w);
    case Restore(w, d) => RestoreKeepsInv(s, w, d);
    case DeviceJob(w, d) => DeviceJobKeepsInv(s, w, d);
    case Timer(w, d) => TimerKeepsInv(s, w, d);
    case Closed(w, sock, code) => ClosedKeepsInv(s, w, sock, code);
    case _ => TableKeepsInv(s, Apply(s, step));
  }

  lemma {:induction false} RunKeepsInv(s: Cluster, steps: seq<Step>)
    requires Inv(s)
    ensures Inv(Exec(s, steps))
    decreases |steps|
  {
    hide Inv, Apply;
    if steps != [] {
      StepKeepsInv(s, steps[0]);
      RunKeepsInv(Apply(s, steps[0]), steps[1..]);
    }
  }

  lemma InitInv(s: Cluster)
    requires Init(s)
    ensures Inv(s)
  {
  }

  // ---------------------------------------------------------------- main results

  /** A socket that was neither ended nor closed. */
  predicate Live(s: Cluster, w: nat, k: Socket) {
    w < |s.workers| && k < |s.workers[w].opens| && k !in s.workers[w].gone
  }

  /** In every run, a device's session, if any, is with the worker whose guard accepts its jobs and
      messages, and no other socket of that device is live anywhere. */
  lemma OneSessionPerDevice(s: Cluster, steps: seq<Step>, w: nat, d: DeviceId)
    requires Init(s)
    requires w < |Exec(s, steps).workers| && d in Exec(s, steps).workers[w].sessions
    ensures var t := Exec(s, steps);
      && ShardOf(d, |t.workers|) == w
      && Live(t, w, t.workers[w].sessions[d])
      && (forall v: nat, k: nat | Live(t, v, k) && t.workers[v].opens[k] == d ::
            v == w && k == t.workers[w].sessions[d])
  {
    hide Exec, ShardOf;
    InitInv(s);
    RunKeepsInv(s, steps);
    var t := Exec(s, steps);
    assert InShard(t, w, t.workers[w]);
    forall v: nat, k: nat | Live(t, v, k) && t.workers[v].opens[k] == d
      ensures v == w && k == t.workers[w].sessions[d]
    {
      assert InShard(t, v, t.workers[v]) && IsActive(t.workers[v], k);
    }
  }

  /** In every run, the session of a device is exactly its most recent socket, while that one is
      neither ended nor closed; all its earlier sockets are. */
  lemma SessionIsLatest(s: Cluster, steps: seq<Step>, w: nat, k: nat)
    requires Init(s)
    requires w < |Exec(s, steps).workers| && k < |Exec(s, steps).workers[w].opens|
    ensures var m := Exec(s, steps).workers[w];
      var d := m.opens[k];
      if exists j :: k < j < |m.opens| && m.opens[j] == d then k in m.gone && !IsActive(m, k)
      else (k !in m.gone <==> d in m.sessions) && (d in m.sessions ==> m.sessions[d] == k)
  {
    hide Exec, ShardOf;
    InitInv(s);
    RunKeepsInv(s, steps);
    assert InShard(Exec(s, steps), w, Exec(s, steps).workers[w]);
  }

  /** A close event, code by code. After 401, 403, 405 and 500 the stored session is gone, a row in the
      table is DISCONNECTED and no timer is set. After any other code, or none, rows and stored sessions
      are as they were, and a timer is set when the socket is the current one. */
  lemma ClosedStep(s: Cluster, w: nat, sock: Socket, code: Option<int>)
    requires IsSocket(s, w, sock)
    ensures var t, d, m := Apply(s, Closed(w, sock, code)), s.workers[w].opens[sock], s.workers[w];
      var current := d in m.sessions && m.sessions[d] == sock;
      && |t.workers| == |s.workers| && (forall v | 0 <= v < |s.workers| && v != w :: t.workers[v] == s.workers[v])
      && t.jobs == s.jobs && t.workers[w].sessions == (if current then m.sessions - {d} else m.sessions)
      && (code in {Some(401), Some(403), Some(405), Some(500)} ==>
            && t.stored == s.stored - {d} && t.workers[w].timers == m.timers
            && t.devices == if d in s.devices then s.devices[d := DISCONNECTED] else s.devices)
      && (code !in {Some(401), Some(403), Some(405), Some(500)} ==>
            && t.stored == s.stored && t.devices == s.devices
            && t.workers[w].timers == if current then m.timers + multiset{d} else m.timers)
  {
  }

  /** A QR code, an open connection and saved credentials. */
  lemma SocketSteps(s: Cluster, w: nat, sock: Socket)
    requires IsSocket(s, w, sock)
    ensures var d := s.workers[w].opens[sock];
      && (d in s.devices ==>
            && Apply(s, Qr(w, sock)) == s.(devices := s.devices[d := PAIRING])
            && Apply(s, Open(w, sock)) == s.(devices := s.devices[d := CONNECTED])
            && Apply(s, SaveCreds(w, sock)) == s.(stored := s.stored + {d}))
      && (d !in s.devices ==>
            Apply(s, Qr(w, sock)) == Apply(s, Open(w, sock)) == Apply(s, SaveCreds(w, sock)) == s)
  {
  }

  /** After connecting, the old socket of the device is gone, and its session is a new socket when it is
      in the table, and none otherwise. */
  lemma ConnectFields(m: Manager, d: DeviceId, found: bool)
    ensures var n := Connect(m, d, found);
      && n.sessions == (if found then m.sessions[d := |m.opens|] else m.sessions - {d})
      && n.opens == (if found then m.opens + [d] else m.opens)
      && n.gone == (if d in m.sessions then m.gone + {m.sessions[d]} else m.gone)
      && n.timers == m.timers && n.restoring == m.restoring
  {
  }

  /** A restore, a timer and a device job connect; a job only when it is of the worker's own shard. */
  lemma ConnectSteps(s: Cluster, w: nat, d: DeviceId)
    requires w < |s.workers|
    ensures var m := s.workers[w];
      d in m.restoring ==>
        Apply(s, Restore(w, d))
        == s.(workers := s.workers[w := Connect(m.(restoring := m.restoring - {d}), d, d in s.devices)])
    ensures var m := s.workers[w];
      d in m.timers ==>
        Apply(s, Timer(w, d))
        == s.(workers := s.workers[w := Connect(m.(timers := m.timers - multiset{d}), d, d in s.devices)])
    ensures d in s.jobs ==>
      Apply(s, DeviceJob(w, d))
      == if ShardOf(d, |s.workers|) != w then s
         else s.(workers := s.workers[w := Connect(s.workers[w], d, d in s.devices)], jobs := s.jobs - multiset{d})
  {
    assert Mine(s, w, d) <==> ShardOf(d, |s.workers|) == w;
    hide ShardOf, Mine, Connect;
  }

  /** A restart leaves nothing in memory; what others do to a device is seen in the tables alone. */
  lemma OtherSteps(s: Cluster, w: nat, d: DeviceId, pairing: bool)
    ensures w < |s.workers| ==>
      Apply(s, Restart(w)) == s.(workers := s.workers[w := Manager(map[], multiset{}, {}, [], {})])
    ensures d !in s.devices ==> Apply(s, AddDevice(d)) == s.(devices := s.devices[d := CREATED])
    ensures d in s.devices ==>
      && Apply(s, AddDevice(d)) == s
      && Apply(s, MarkDevice(d, pairing))
         == s.(devices := s.devices[d := if pairing then PAIRING else RECONNECTING])
    ensures Apply(s, DropDevice(d)) == s.(devices := s.devices - {d})
    ensures Apply(s, ForgetSession(d)) == s.(stored := s.stored - {d})
    ensures Apply(s, Request(d)) == s.(jobs := s.jobs + multiset{d})
  {
  }

  /** A starting worker lists the devices of its shard that the table says are CONNECTED. */
  lemma ListStep(s: Cluster, w: nat, d: DeviceId)
    requires w < |s.workers|
    ensures d in Apply(s, ListConnected(w)).workers[w].restoring
       <==> d in s.devices && s.devices[d] == CONNECTED && ShardOf(d, |s.workers|) == w
  {
    hide ShardOf;
  }

  /** The table writes of a permanent close would change nothing. */
  predicate RowsClosed(s: Cluster, d: DeviceId) {
    d !in s.stored && (d in s.devices ==> s.devices[d] == DISCONNECTED)
  }

  /** In every run, a close event changes nothing exactly when its socket is not the current one and
      the close is not permanent, or finds the rows of a closed device; so a close of a replaced
      socket that is not permanent is void. It sets a reconnect exactly when the socket is the
      current one and the close is not permanent. */
  lemma CloseOfReplaced(s: Cluster, steps: seq<Step>, w: nat, sock: Socket, code: Option<int>)
    requires Init(s) && IsSocket(Exec(s, steps), w, sock)
    ensures var t := Exec(s, steps);
      var u, d := Apply(t, Closed(w, sock, code)), t.workers[w].opens[sock];
      var permanent := code in {Some(401), Some(403), Some(405), Some(500)};
      && (u == t <==> !IsActive(t.workers[w], sock) && (permanent ==> RowsClosed(t, d)))
      && (u.workers[w].timers != t.workers[w].timers <==> IsActive(t.workers[w], sock) && !permanent)
  {
    hide Exec, ShardOf;
    InitInv(s);
    RunKeepsInv(s, steps);
    var t := Exec(s, steps);
    assert InShard(t, w, t.workers[w]);
    CloseTouches(t.workers[w], sock, IsPermanent(code));
  }

  /** A socket that is not current was ended or closed before. */
  lemma CloseTouches(m: Manager, sock: Socket, permanent: bool)
    requires ManagerOk(m) && sock < |m.opens|
    ensures Close(m, sock, permanent) == m <==> !IsActive(m, sock)
    ensures Close(m, sock, permanent).timers != m.timers <==> IsActive(m, sock) && !permanent
  {
    var t := Close(m, sock, permanent);
    if IsActive(m, sock) {
      assert t.sessions != m.sessions;
      if !permanent { assert t.timers[m.opens[sock]] == m.timers[m.opens[sock]] + 1; }
    } else {
      assert sock in m.gone;
    }
  }

  /** The table says DISCONNECTED although the device has a live session. */
  predicate DisconnectedWhileLive(s: Cluster, w: nat, d: DeviceId) {
    && d in s.devices && s.devices[d] == DISCONNECTED
    && w < |s.workers| && d in s.workers[w].sessions && Live(s, w, s.workers[w].sessions[d])
  }

  /** A close event leaves its device DISCONNECTED in the table with a live session exactly when the
      socket was replaced by that session, and the close is permanent or the table said so before. */
  lemma DisconnectedWhileLiveIff(s: Cluster, w: nat, sock: Socket, code: Option<int>)
    requires Inv(s) && IsSocket(s, w, sock) && s.workers[w].opens[sock] in s.devices
    ensures var d := s.workers[w].opens[sock];
      DisconnectedWhileLive(Apply(s, Closed(w, sock, code)), w, d)
      <==> (!IsActive(s.workers[w], sock) && d in s.workers[w].sessions
            && (code in {Some(401), Some(403), Some(405), Some(500)} || s.devices[d] == DISCONNECTED))
  {
    hide ShardOf;
    assert InShard(s, w, s.workers[w]);
    CloseTouches(s.workers[w], sock, IsPermanent(code));
  }

  /** A device connects, and connects again; then the permanent close of its first socket comes. */
  function LateClose(w: nat, d: DeviceId): seq<Step> {
    [Request(d), DeviceJob(w, d)] + [Request(d), DeviceJob(w, d)] + [Open(w, 1), Closed(w, 0, Some(401))]
  }

  /** It happens: from any start, to any device of the table. */
  lemma ReplacedSocketDisconnects(s: Cluster, w: nat, d: DeviceId)
    requires Init(s) && w < |s.workers| && Mine(s, w, d) && d in s.devices
    ensures DisconnectedWhileLive(Exec(s, LateClose(w, d)), w, d)
  {
    hide ShardOf, Exec, Connect, Apply;
    var once := [Request(d), DeviceJob(w, d)];
    var s1 := Exec(s, once);
    var s2 := Exec(s1, once);
    ExecTwo(s, Request(d), DeviceJob(w, d));
    RequestReconnects(s, w, d);
    ExecTwo(s1, Request(d), DeviceJob(w, d));
    RequestReconnects(s1, w, d);
    ConnectTwice(d);
    ExecTwo(s2, Open(w, 1), Closed(w, 0, Some(401)));
    LateCloseHits(s2, w, d);
    ExecAppend(s, once, once);
    ExecAppend(s, once + once, [Open(w, 1), Closed(w, 0, Some(401))]);
  }

  lemma RequestReconnects(s: Cluster, w: nat, d: DeviceId)
    requires w < |s.workers| && Mine(s, w, d) && d in s.devices
    ensures var t := Apply(Apply(s, Request(d)), DeviceJob(w, d));
      && |t.workers| == |s.workers| && t.workers[w] == Connect(s.workers[w], d, true)
      && t.devices == s.devices
  {
    hide ShardOf, Connect;
    var s1 := Apply(s, Request(d));
    assert s1.jobs[d] > 0;
    assert d in s1.jobs && Mine(s1, w, d);
  }

  lemma ConnectTwice(d: DeviceId)
    ensures Connect(Connect(NO_SESSIONS, d, true), d, true) == Manager(map[d := 1], multiset{}, {}, [d, d], {0})
  {
    assert Connect(NO_SESSIONS, d, true) == Manager(map[d := 0], multiset{}, {}, [d], {});
  }

  lemma LateCloseHits(s: Cluster, w: nat, d: DeviceId)
    requires w < |s.workers| && d in s.devices
    requires s.workers[w] == Manager(map[d := 1], multiset{}, {}, [d, d], {0})
    ensures DisconnectedWhileLive(Apply(Apply(s, Open(w, 1)), Closed(w, 0, Some(401))), w, d)
  {
  }

  lemma {:induction false} ExecAppend(s: Cluster, a: seq<Step>, b: seq<Step>)
    ensures Exec(s, a + b) == Exec(Exec(s, a), b)
    decreases |a|
  {
    hide Apply;
    if a == [] {
      assert a + b == b;
    } else {
      assert (a + b)[1..] == a[1..] + b;
      ExecAppend(Apply(s, a[0]), a[1..], b);
    }
  }

  lemma ExecTwo(s: Cluster, a: Step, b: Step)
    ensures Exec(s, [a, b]) == Apply(Apply(s, a), b)
  {
    hide Apply;
    assert [a, b][1..] == [b];
    assert Exec(Apply(Apply(s, a), b), []) == Apply(Apply(s, a), b);
    assert Exec(Apply(s, a), [b]) == Exec(Apply(Apply(s, a), b), []);
  }

  // ---------------------------------------------------------------- the session manager

  /** The session manager and the devices processor of one worker. The device table and the stored
      sessions are shared; no other worker runs during a method. */
  class SessionManager {
    const shardId: nat
    const totalShards: nat
    var sessions: map<DeviceId, Socket>
    var timers: multiset<DeviceId>
    var devices: map<DeviceId, DeviceStatus>
    var stored: set<DeviceId>
    ghost var opens: seq<DeviceId>
    ghost var gone: set<Socket>
    var nextSocket: nat

    constructor (shardId: nat, totalShards: nat, devices: map<DeviceId, DeviceStatus>, stored: set<DeviceId>)
      ensures this.shardId == shardId && this.totalShards == totalShards && Abs() == NO_SESSIONS
      ensures this.devices == devices && this.stored == stored && Valid()
    {
      this.shardId, this.totalShards, this.devices, this.stored := shardId, totalShards, devices, stored;
      sessions, timers, opens, gone, nextSocket := map[], multiset{}, [], {}, 0;
    }

    ghost function Abs(): Manager
      reads this
    {
      Manager(sessions, timers, {}, opens, gone)
    }

    ghost predicate Valid()
      reads this
    {
      && nextSocket == |opens| && ManagerOk(Abs())
      && (forall d | d in timers :: ShardOf(d, totalShards) == shardId)
      && (forall k | 0 <= k < |opens| :: ShardOf(opens[k], totalShards) == shardId)
    }

    method EndSession(d: DeviceId)
      requires Valid()
      modifies this`sessions, this`gone
      ensures Abs() == Disconnect(old(Abs()), d) && Valid()
    {
      DisconnectKeepsOk(Abs(), d);
      if d in sessions {
        gone := gone + {sessions[d]};
        sessions := sessions - {d};
      }
    }

    method ConnectDevice(d: DeviceId)
      requires Valid() && ShardOf(d, totalShards) == shardId
      modifies this`sessions, this`gone, this`opens, this`nextSocket
      ensures Abs() == Connect(old(Abs()), d, d in devices) && Valid()
    {
      ConnectKeepsOk(Abs(), d, d in devices);
      EndSession(d);
      if d !in devices {
        return;
      }
      var sock := nextSocket;
      nextSocket := nextSocket + 1;
      opens := opens + [d];
      sessions := sessions[d := sock];
    }

    /** The devices processor: only the owner connects; anybody else's job goes back. */
    method ProcessDeviceJob(d: DeviceId) returns (done: bool)
      requires Valid()
      modifies this`sessions, this`gone, this`opens, this`nextSocket
      ensures Valid() && (done <==> ShardOf(d, totalShards) == shardId)
      ensures Abs() == if done then Connect(old(Abs()), d, d in devices) else old(Abs())
    {
      var shard := ShardForDevice(d, totalShards);
      if shard != shardId {
        return false;
      }
      ConnectDevice(d);
      return true;
    }

    /** The synchronous part of the close handler. */
    method ForgetSocket(sock: Socket, d: DeviceId) returns (isActiveSocket: bool)
      requires sock < |opens| && opens[sock] == d
      modifies this`sessions, this`gone
      ensures isActiveSocket == IsActive(old(Abs()), sock)
      ensures gone == old(gone) + {sock}
      ensures sessions == if isActiveSocket then old(sessions) - {d} else old(sessions)
    {
      isActiveSocket := d in sessions && sessions[d] == sock;
      gone := gone + {sock};
      if isActiveSocket {
        sessions := sessions - {d};
      }
    }

    /** The writes of a permanent close; a device that is gone by then has no row to mark. */
    method CloseRows(d: DeviceId)
      modifies this`devices, this`stored
      ensures stored == old(stored) - {d}
      ensures devices == if d in old(devices) then old(devices)[d := DISCONNECTED] else old(devices)
    {
      stored := stored - {d};
      if d in devices {
        devices := devices[d := DISCONNECTED];
      }
    }

    /** The close handler of socket `sock`, opened for device `d`. */
    method OnClose(sock: Socket, d: DeviceId, code: Option<int>)
      requires Valid() && sock < |opens| && opens[sock] == d
      modifies this`sessions, this`gone, this`timers, this`devices, this`stored
      ensures Abs() == Close(old(Abs()), sock, IsPermanent(code)) && Valid()
      ensures var current := d in old(sessions) && old(sessions)[d] == sock;
        && sessions == (if current then old(sessions) - {d} else old(sessions))
        && (code in {Some(401), Some(403), Some(405), Some(500)} ==>
              && stored == old(stored) - {d} && timers == old(timers)
              && devices == if d in old(devices) then old(devices)[d := DISCONNECTED] else old(devices))
        && (code !in {Some(401), Some(403), Some(405), Some(500)} ==>
              && stored == old(stored) && devices == old(devices)
              && timers == if current then old(timers) + multiset{d} else old(timers))
    {
      ghost var m := Abs();
      CloseKeepsOk(m, sock, IsPermanent(code));
      hide ManagerOk, ShardOf, IsActive, IsPermanent, Close;
      PermanentCodes(code);
      Current(m, sock, d);
      var isPermanent := IsPermanent(code);
      var isActiveSocket := ForgetSocket(sock, d);
      if isPermanent {
        CloseRows(d);
        ClosedManager(m, Abs(), sock, true);
      } else if isActiveSocket {
        timers := timers + multiset{d};
        ClosedManager(m, Abs(), sock, false);
      } else {
        ClosedManager(m, Abs(), sock, false);
      }
    }

    /** A reconnect timer fires: the device belongs to the shard, since only its own sockets set one. */
    method FireTimer(d: DeviceId)
      requires Valid() && d in timers
      modifies this`timers, this`sessions, this`gone, this`opens, this`nextSocket
      ensures Abs() == Connect(old(Abs()).(timers := old(timers) - multiset{d}), d, d in devices) && Valid()
    {
      timers := timers - multiset{d};
      ConnectDevice(d);
    }

    /** `onModuleInit`: `all` lists the CONNECTED devices; those of this shard are restored. */
    method OnModuleInit(all: seq<DeviceId>)
      requires Valid() && sessions == map[]
      requires forall d :: d in all <==> d in devices && devices[d] == CONNECTED
      modifies this`sessions, this`gone, this`opens, this`nextSocket
      ensures Valid()
      ensures forall d :: d in sessions <==>
        (d in devices && devices[d] == CONNECTED && ShardOf(d, totalShards) == shardId)
    {
      for i := 0 to |all|
        invariant Valid()
        invariant forall d :: d in sessions <==> (d in all[..i] && ShardOf(d, totalShards) == shardId)
      {
        var shard := ShardForDevice(all[i], totalShards);
        assert forall d :: d in all[..i + 1] <==> d in all[..i] || d == all[i];
        if shard == shardId {
          ConnectDevice(all[i]);
        }
      }
      assert all[..|all|] == all;
    }
  }
}
