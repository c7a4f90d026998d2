/** Persisted server state: both fields are replaced by copies, never written in place, so a
    copy of a persister may share its arrays with the original. */
module Persisters {

  type byte = x: int | 0 <= x < 256

  method Clone(orig: array<byte>) returns (x: array<byte>)
    ensures fresh(x) && x[..] == orig[..]
  {
    x := new byte[orig.Length](i requires 0 <= i < orig.Length reads orig => orig[i]);
  }

  class Persister {
    var raftstate: array<byte>
    var snapshot: array<byte>

    /** What a reader gets. */
    ghost function Contents(): (seq<byte>, seq<byte>)
      reads this, raftstate, snapshot
    {
      (raftstate[..], snapshot[..])
    }

    constructor ()
      ensures Contents() == ([], []) && fresh(raftstate) && fresh(snapshot)
    {
      raftstate := new byte[0];
      snapshot := new byte[0];
      new;
      assert raftstate[..] == [] && snapshot[..] == [];
    }

    /** The copy has the same contents, and keeps them whatever is later saved here: see Supersede. */
    method Copy() returns (np: Persister)
      ensures fresh(np) && np.Contents() == Contents()
      ensures np.raftstate == raftstate && np.snapshot == snapshot
    {
      np := new Persister();
      np.raftstate := raftstate;
      np.snapshot := snapshot;
    }

    method Save(raftstate: array<byte>, snapshot: array<byte>)
      modifies this
      ensures Contents() == (old(raftstate[..]), old(snapshot[..]))
      ensures fresh(this.raftstate) && fresh(this.snapshot)
    {
      var r := Clone(raftstate);
      var s := Clone(snapshot);
      this.raftstate, this.snapshot := r, s;
    }

    method ReadRaftState() returns (r: array<byte>)
      ensures fresh(r) && r[..] == Contents().0
    {
      r := Clone(raftstate);
    }

    method ReadSnapshot() returns (r: array<byte>)
      ensures fresh(r) && r[..] == Contents().1
    {
      r := Clone(snapshot);
    }
  }

  /** Copying and then saving to the original leaves the copy with the earlier contents. */
  method Supersede(p: Persister, raftstate: array<byte>, snapshot: array<byte>) returns (np: Persister)
    modifies p
    ensures fresh(np) && np.Contents() == old(p.Contents())
    ensures p.Contents() == (old(raftstate[..]), old(snapshot[..]))
  {
    np := p.Copy();
    p.Save(raftstate, snapshot);
  }
}

/** The life of an RPC against servers that are shut down and restarted while it runs.

    A server name stands for a sequence of instances. Each instance has its own persister; the
    tester copies the last persister when it shuts a server down and again when it starts the
    next instance. A persister is modelled by the list of saves that led to its contents. */
module Rpc {
  import opened Collections

  /** Stages of ShutdownServer and StartServer for one server. */
  datatype Stage = Rest | Deleting | Preparing | Launching(instance: int)

  datatype Instance = Instance(server: int, persister: int, initial: seq<int>)

  datatype Handler = NotStarted | Running | Returned(value: int)

  datatype Message = Positive(value: int) | Negative

  /** Where processReq is. */
  datatype Progress = Arrived | Waiting | GotReply(value: int) | SawDead | Decided(msg: Message) | Replied

  datatype Request = Request(
    end: int,
    server: int,
    instance: int,
    handler: Handler,
    progress: Progress,
    starts: int,            // times the handler was started
    saves: seq<int>,        // saves made by the handler
    sent: seq<Message>)     // replies sent to the client

  datatype Net = Net(
    ends: map<int, (bool, int)>,        // client end -> enabled, connected server
    servers: map<int, int>,             // server name -> installed instance
    stages: map<int, Stage>,            // absent means at rest
    saved: map<int, int>,               // server name -> persister for the next instance
    instances: map<int, Instance>,
    persisters: map<int, seq<int>>,
    requests: map<int, Request>,
    nextInstance: int,
    nextPersister: int,
    nextSave: int)

  function Start(): Net { Net(map[], map[], map[], map[], map[], map[], map[], 0, 0, 0) }

  function StageOf(n: Net, i: int): Stage { if i in n.stages then n.stages[i] else Rest }

  /** isServerDead: the end is disabled, or another instance or none is installed. */
  predicate Dead(n: Net, r: Request) {
    !(r.end in n.ends && n.ends[r.end].0) || !(r.server in n.servers && n.servers[r.server] == r.instance)
  }

  datatype Step =
    | SetEnd(e: int, enabled: bool, server: int)          // MakeEnd, Connect, Enable
    | Begin(q: int, e: int)
    | DropRequest(q: int)
    | Dispatch(q: int)                                    // the handler is started
    | HandlerSave(q: int)
    | OtherSave(x: int)                                   // a save outside any request
    | HandlerReturn(q: int, value: int)
    | Receive(q: int)
    | Poll(q: int)
    | Conclude(q: int, dropped: bool)
    | Send(q: int)
    | DeleteServer(i: int)
    | CopySaved(i: int)
    | Prepare(i: int)
    | Launch(i: int)
    | AddServer(i: int)

  /** readEndnameInfo: the request is for the instance installed now, or gets a negative reply. */
  function Begun(n: Net, e: int): Request {
    if e in n.ends && n.ends[e].0 && n.ends[e].1 in n.servers then
      Request(e, n.ends[e].1, n.servers[n.ends[e].1], NotStarted, Arrived, 0, [], [])
    else Request(e, -1, -1, NotStarted, Decided(Negative), 0, [], [])
  }

  function Saved(n: Net, x: int): Net
    requires x in n.instances && n.instances[x].persister in n.persisters
  {
    var p := n.instances[x].persister;
    n.(persisters := n.persisters[p := n.persisters[p] + [n.nextSave]], nextSave := n.nextSave + 1)
  }

  /** After the wait: a reply only if the handler returned and the server is not dead now. */
  function Concluded(n: Net, r: Request, dropped: bool): Message {
    if r.progress.GotReply? && !Dead(n, r) && !dropped then Positive(r.progress.value) else Negative
  }

  function Update(n: Net, q: int, r: Request): Net { n.(requests := n.requests[q := r]) }

  /** The copy of the saved persister, or a new one. */
  function Copied(n: Net, i: int): Net {
    var contents := if i in n.saved && n.saved[i] in n.persisters then n.persisters[n.saved[i]] else [];
    n.(persisters := n.persisters[n.nextPersister := contents], saved := n.saved[i := n.nextPersister],
      nextPersister := n.nextPersister + 1)
  }

  ghost predicate Next(n: Net, step: Step, n': Net) {
    match step
    case SetEnd(e, enabled, server) => n' == n.(ends := n.ends[e := (enabled, server)])
    case Begin(q, e) => q !in n.requests && n' == Update(n, q, Begun(n, e))
    case DropRequest(q) =>
      && q in n.requests && n.requests[q].progress.Arrived?
      && n' == Update(n, q, n.requests[q].(progress := Decided(Negative)))
    case Dispatch(q) =>
      && q in n.requests && n.requests[q].progress.Arrived?
      && n' == Update(n, q, n.requests[q].(handler := Running, progress := Waiting, starts := n.requests[q].starts + 1))
    case HandlerSave(q) =>
      && q in n.requests && n.requests[q].handler.Running?
      && n.requests[q].instance in n.instances && n.instances[n.requests[q].instance].persister in n.persisters
      && n' == Update(Saved(n, n.requests[q].instance), q, n.requests[q].(saves := n.requests[q].saves + [n.nextSave]))
    case OtherSave(x) => x in n.instances && n.instances[x].persister in n.persisters && n' == Saved(n, x)
    case HandlerReturn(q, v) =>
      q in n.requests && n.requests[q].handler.Running? && n' == Update(n, q, n.requests[q].(handler := Returned(v)))
    case Receive(q) =>
      && q in n.requests && n.requests[q].progress.Waiting? && n.requests[q].handler.Returned?
      && n' == Update(n, q, n.requests[q].(progress := GotReply(n.requests[q].handler.value)))
    case Poll(q) =>
      && q in n.requests && n.requests[q].progress.Waiting? && Dead(n, n.requests[q])
      && n' == Update(n, q, n.requests[q].(progress := SawDead))
    case Conclude(q, dropped) =>
      && q in n.requests && (n.requests[q].progress.GotReply? || n.requests[q].progress.SawDead?)
      && n' == Update(n, q, n.requests[q].(progress := Decided(Concluded(n, n.requests[q], dropped))))
    case Send(q) =>
      && q in n.requests && n.requests[q].progress.Decided?
      && n' == Update(n, q,
        n.requests[q].(progress := Replied, sent := n.requests[q].sent + [n.requests[q].progress.msg]))
    case DeleteServer(i) => StageOf(n, i).Rest?
      && n' == n.(servers := n.servers - {i}, stages := n.stages[i := Deleting])
    case CopySaved(i) =>
      StageOf(n, i).Deleting? && n' == (if i in n.saved then Copied(n, i) else n).(stages := n.stages[i := Rest])
    case Prepare(i) => StageOf(n, i).Rest? && n' == Copied(n, i).(stages := n.stages[i := Preparing])
    case Launch(i) =>
      && StageOf(n, i).Preparing? && i in n.saved && n.saved[i] in n.persisters
      && n' == n.(instances := n.instances[n.nextInstance := Instance(i, n.saved[i], n.persisters[n.saved[i]])],
                  stages := n.stages[i := Launching(n.nextInstance)], nextInstance := n.nextInstance + 1)
    case AddServer(i) =>
      StageOf(n, i).Launching?
        && n' == n.(servers := n.servers[i := StageOf(n, i).instance], stages := n.stages[i := Rest])
  }

  /** A server is started only when none of its instances is installed: the tester shuts a
      server down before it restarts it. */
  ghost predicate Disciplined(n: Net, step: Step) { step.Prepare? ==> step.i !in n.servers }

  ghost predicate IsRun(run: seq<Net>, steps: seq<Step>) {
    && |run| == |steps| + 1 && run[0] == Start()
    && forall k :: 0 <= k < |steps| ==> Next(run[k], steps[k], run[k + 1])
  }

  ghost predicate DisciplinedRun(run: seq<Net>, steps: seq<Step>)
    requires IsRun(run, steps)
  {
    forall k :: 0 <= k < |steps| ==> Next(run[k], steps[k], run[k + 1]) && Disciplined(run[k], steps[k])
  }

  // ---- The invariant

  ghost predicate Owned(n: Net, p: int) {
    exists x :: x in n.instances && n.instances[x].persister == p
  }

  /** Saves are numbered in order. */
  ghost predicate Numbered(n: Net) {
    forall p, k :: p in n.persisters && 0 <= k < |n.persisters[p]| ==> n.persisters[p][k] < n.nextSave
  }

  /** Persisters exist, no two instances share one, and no two servers have the same saved one. */
  ghost predicate Separate(n: Net) {
    && Numbered(n)
    && (forall p :: p in n.persisters ==> p < n.nextPersister)
    && (forall i :: i in n.saved ==> n.saved[i] in n.persisters)
    && (forall x :: x in n.instances ==> x < n.nextInstance && n.instances[x].persister in n.persisters)
    && (forall x, y ::
      x in n.instances && y in n.instances && n.instances[x].persister == n.instances[y].persister ==> x == y)
    && (forall i, j :: i in n.saved && j in n.saved && n.saved[i] == n.saved[j] ==> i == j)
    && (forall x, i ::
      x in n.instances && i in n.saved && n.instances[x].persister == n.saved[i] ==> n.instances[x].server == i)
  }

  /** `x` is the latest instance of server `i`, and it writes to the persister that is saved for the next one. */
  ghost predicate Current(n: Net, i: int, x: int) {
    && x in n.instances && n.instances[x].server == i
    && i in n.saved && n.saved[i] == n.instances[x].persister
    && forall y :: y in n.instances && n.instances[y].server == i ==> y <= x
  }

  ghost predicate StageOk(n: Net, i: int) {
    match StageOf(n, i)
    case Rest => if i in n.servers then Current(n, i, n.servers[i]) else i in n.saved ==> !Owned(n, n.saved[i])
    case Deleting => i !in n.servers
    case Preparing => i !in n.servers && i in n.saved && !Owned(n, n.saved[i])
    case Launching(y) => i !in n.servers && Current(n, i, y)
  }

  ghost predicate Staged(n: Net) { forall i :: StageOk(n, i) }

  /** The message that was or will be sent for a request, if that is decided. */
  ghost predicate Acknowledged(r: Request) {
    (r.progress.Decided? && r.progress.msg.Positive?) || (r.sent != [] && r.sent[0].Positive?)
  }

  /** One execution and one reply at most, and a positive reply carries what the handler returned. */
  ghost predicate OneReply(r: Request) {
    && r.starts == (if r.handler.NotStarted? then 0 else 1)
    && (r.handler.NotStarted? ==> r.progress.Arrived? || r.progress.Decided? || r.progress.Replied?)
    && (r.handler.NotStarted? ==> r.saves == [])
    && (r.progress.Arrived? ==> r.handler.NotStarted?)
    && (r.progress.GotReply? ==> r.handler == Returned(r.progress.value))
    && (r.progress.Decided? && r.progress.msg.Positive? ==> r.handler == Returned(r.progress.msg.value))
    && |r.sent| == (if r.progress.Replied? then 1 else 0)
    && (r.sent != [] && r.sent[0].Positive? ==> r.handler == Returned(r.sent[0].value))
  }

  /** The saves of a handler are in the persister of its instance. */
  ghost predicate SavesKept(n: Net, r: Request) {
    r.progress.Arrived? || !r.handler.NotStarted? ==>
      && r.instance in n.instances && n.instances[r.instance].server == r.server
      && n.instances[r.instance].persister in n.persisters
      && forall k :: 0 <= k < |r.saves| ==> r.saves[k] in n.persisters[n.instances[r.instance].persister]
  }

  /** Save `v` of instance `x` is in what the next instance will start from, and in what every
      later instance did start from. */
  ghost predicate Survives(n: Net, i: int, x: int, v: int) {
    && i in n.saved && n.saved[i] in n.persisters && v in n.persisters[n.saved[i]]
    && forall y :: y in n.instances && n.instances[y].server == i && y > x ==> v in n.instances[y].initial
  }

  ghost predicate Persisted(n: Net, r: Request) {
    Acknowledged(r) ==> forall k :: 0 <= k < |r.saves| ==> Survives(n, r.server, r.instance, r.saves[k])
  }

  ghost predicate RequestOk(n: Net, r: Request) { OneReply(r) && SavesKept(n, r) && Persisted(n, r) }

  ghost predicate RequestsOk(n: Net) { forall q :: q in n.requests ==> RequestOk(n, n.requests[q]) }

  ghost predicate Inv(n: Net) { Separate(n) && Staged(n) && RequestsOk(n) }

  lemma StartInv()
    ensures Inv(Start())
  {
  }

  /** Everything but the requests and the client ends. */
  ghost predicate SameServers(n: Net, n': Net) {
    && n'.servers == n.servers && n'.stages == n.stages && n'.saved == n.saved && n'.instances == n.instances
    && n'.persisters == n.persisters && n'.nextInstance == n.nextInstance && n'.nextPersister == n.nextPersister
    && n'.nextSave == n.nextSave
  }

  lemma SameServersInv(n: Net, n': Net)
    requires Inv(n) && SameServers(n, n')
    ensures Separate(n') && Staged(n') && forall r :: RequestOk(n, r) ==> RequestOk(n', r)
  {
    forall i ensures StageOk(n', i) { assert StageOk(n, i); }
    forall r | RequestOk(n, r) ensures RequestOk(n', r) { SameServersRequest(n, n', r); }
  }

  lemma SameServersRequest(n: Net, n': Net, r: Request)
    requires SameServers(n, n') && RequestOk(n, r)
    ensures RequestOk(n', r)
  {
    if Acknowledged(r) {
      forall k | 0 <= k < |r.saves|
        ensures Survives(n', r.server, r.instance, r.saves[k]) { assert Survives(n, r.server, r.instance, r.saves[k]); }
    }
  }

  lemma UpdateInv(n: Net, q: int, r: Request)
    requires Inv(n) && RequestOk(n, r)
    ensures Inv(Update(n, q, r))
  {
    SameServersInv(n, Update(n, q, r));
  }

  /** A positive reply is decided only while its instance is installed. */
  lemma ConcludeInv(n: Net, q: int, dropped: bool)
    requires Inv(n) && q in n.requests && (n.requests[q].progress.GotReply? || n.requests[q].progress.SawDead?)
    ensures RequestOk(n, n.requests[q].(progress := Decided(Concluded(n, n.requests[q], dropped))))
  {
    var r := n.requests[q];
    assert RequestOk(n, r);
    var r' := r.(progress := Decided(Concluded(n, r, dropped)));
    if Acknowledged(r') {
      assert StageOk(n, r.server);
      assert Current(n, r.server, r.instance);
    }
  }

  lemma BeginInv(n: Net, e: int)
    requires Inv(n)
    ensures RequestOk(n, Begun(n, e))
  {
    if e in n.ends { assert StageOk(n, n.ends[e].1); }
  }

  // ---- Steps on persisters and servers

  /** Persisters only grow, and the instances known before are unchanged. */
  ghost predicate Grows(n: Net, n': Net) {
    && (forall p :: p in n.persisters ==> p in n'.persisters && n.persisters[p] <= n'.persisters[p])
    && (forall x :: x in n.instances ==> x in n'.instances && n'.instances[x] == n.instances[x])
    && (forall i :: i in n.saved && n.saved[i] in n.persisters ==>
          i in n'.saved && n'.saved[i] in n'.persisters && n.persisters[n.saved[i]] <= n'.persisters[n'.saved[i]])
    && (forall y :: y in n'.instances && y !in n.instances ==>
          var i := n'.instances[y].server;
            i in n.saved && n.saved[i] in n.persisters ==> n.persisters[n.saved[i]] <= n'.instances[y].initial)
  }

  lemma GrowsSurvives(n: Net, n': Net, i: int, x: int, v: int)
    requires Grows(n, n') && Survives(n, i, x, v)
    ensures Survives(n', i, x, v)
  {
    InPrefix(n.persisters[n.saved[i]], n'.persisters[n'.saved[i]], v);
    forall y | y in n'.instances && n'.instances[y].server == i && y > x ensures v in n'.instances[y].initial {
      if y !in n.instances { InPrefix(n.persisters[n.saved[i]], n'.instances[y].initial, v); }
    }
  }

  lemma GrowsKept(n: Net, n': Net, r: Request)
    requires Grows(n, n') && SavesKept(n, r)
    ensures SavesKept(n', r)
  {
    if r.progress.Arrived? || !r.handler.NotStarted? {
      var p := n.instances[r.instance].persister;
      forall k | 0 <= k < |r.saves|
        ensures r.saves[k] in n'.persisters[p] { InPrefix(n.persisters[p], n'.persisters[p], r.saves[k]); }
    }
  }

  lemma GrowsRequest(n: Net, n': Net, r: Request)
    requires Grows(n, n') && RequestOk(n, r)
    ensures RequestOk(n', r)
  {
    hide Grows, Survives, SavesKept, OneReply;
    GrowsKept(n, n', r);
    if Acknowledged(r) {
      forall k | 0 <= k < |r.saves| ensures Survives(n', r.server, r.instance, r.saves[k]) {
        GrowsSurvives(n, n', r.server, r.instance, r.saves[k]);
      }
    }
  }

  lemma InPrefix(a: seq<int>, b: seq<int>, v: int)
    requires a <= b && v in a
    ensures v in b
  {
  }

  lemma GrowsRequests(n: Net, n': Net)
    requires RequestsOk(n) && Grows(n, n') && n'.requests == n.requests
    ensures RequestsOk(n')
  {
    hide Grows, RequestOk;
    forall q | q in n'.requests ensures RequestOk(n', n'.requests[q]) { GrowsRequest(n, n', n.requests[q]); }
  }

  /** Nothing that concerns server `j` changes. */
  ghost predicate SameFor(n: Net, n': Net, j: int) {
    && StageOf(n', j) == StageOf(n, j)
    && (j in n'.servers <==> j in n.servers) && (j in n.servers ==> n'.servers[j] == n.servers[j])
    && (j in n'.saved <==> j in n.saved) && (j in n.saved ==> n'.saved[j] == n.saved[j])
    && (forall x :: x in n.instances ==> x in n'.instances && n'.instances[x] == n.instances[x])
    && (forall x :: x in n'.instances && x !in n.instances ==>
      n'.instances[x].server != j && (j in n.saved ==> n'.instances[x].persister != n.saved[j]))
  }

  lemma StageKept(n: Net, n': Net, j: int)
    requires StageOk(n, j) && SameFor(n, n', j)
    ensures StageOk(n', j)
  {
  }

  lemma StagesKept(n: Net, n': Net, i: int)
    requires Staged(n) && StageOk(n', i) && forall j :: j != i ==> SameFor(n, n', j)
    ensures Staged(n')
  {
    hide StageOk, SameFor;
    forall j ensures StageOk(n', j) {
      assert StageOk(n, j);
      if j != i { StageKept(n, n', j); }
    }
  }

  lemma SavedInv(n: Net, x: int)
    requires Inv(n) && x in n.instances && n.instances[x].persister in n.persisters
    ensures Inv(Saved(n, x))
  {
    hide RequestsOk;
    var n' := Saved(n, x);
    assert Grows(n, n');
    GrowsRequests(n, n');
    assert StageOk(n, 0);
    StageKept(n, n', 0);
    StagesKept(n, n', 0);
  }

  lemma HandlerSaveInv(n: Net, q: int)
    requires Inv(n) && q in n.requests && n.requests[q].handler.Running?
    ensures n.requests[q].instance in n.instances && n.instances[n.requests[q].instance].persister in n.persisters
    ensures Inv(Update(Saved(n, n.requests[q].instance), q,
      n.requests[q].(saves := n.requests[q].saves + [n.nextSave])))
  {
    var r := n.requests[q];
    assert RequestOk(n, r);
    var n1 := Saved(n, r.instance);
    SavedInv(n, r.instance);
    assert RequestOk(n1, r);
    UpdateInv(n1, q, r.(saves := r.saves + [n.nextSave]));
  }

  /** Servers and stages may change; persisters, instances and requests do not. */
  ghost predicate SameStore(n: Net, n': Net) {
    && n'.saved == n.saved && n'.instances == n.instances && n'.persisters == n.persisters && n'.requests == n.requests
    && n'.nextInstance == n.nextInstance && n'.nextPersister == n.nextPersister
    && n'.nextSave == n.nextSave
  }

  lemma StoreKept(n: Net, n': Net)
    requires Separate(n) && RequestsOk(n) && SameStore(n, n')
    ensures Separate(n') && RequestsOk(n')
  {
    assert Grows(n, n');
    GrowsRequests(n, n');
  }

  lemma DeleteInv(n: Net, i: int)
    requires Inv(n) && StageOf(n, i).Rest?
    ensures Inv(n.(servers := n.servers - {i}, stages := n.stages[i := Deleting]))
  {
    hide RequestsOk, Separate;
    var n' := n.(servers := n.servers - {i}, stages := n.stages[i := Deleting]);
    StoreKept(n, n');
    assert StageOk(n, i);
    StagesKept(n, n', i);
  }

  lemma CopiedNumbered(n: Net, i: int)
    requires Numbered(n)
    ensures Numbered(Copied(n, i))
  {
    var n' := Copied(n, i);
    forall p, k | p in n'.persisters && 0 <= k < |n'.persisters[p]| ensures n'.persisters[p][k] < n'.nextSave {
      var from := if p == n.nextPersister then n.saved[i] else p;
      assert n'.persisters[p][k] == n.persisters[from][k];
    }
  }

  lemma CopiedFacts(n: Net, i: int)
    requires Separate(n)
    ensures Separate(Copied(n, i)) && Grows(n, Copied(n, i)) && !Owned(Copied(n, i), Copied(n, i).saved[i])
  {
    CopiedNumbered(n, i);
    hide Numbered;
  }

  lemma CopiedInv(n: Net, i: int, stage: Stage)
    requires Inv(n) && i !in n.servers && (stage.Rest? || stage.Preparing?)
    ensures Inv(Copied(n, i).(stages := n.stages[i := stage]))
  {
    hide RequestsOk, Separate, Grows, Owned;
    var n1 := Copied(n, i);
    var n' := n1.(stages := n.stages[i := stage]);
    CopiedFacts(n, i);
    GrowsRequests(n, n1);
    StoreKept(n1, n');
    SameOwned(n1, n', n1.saved[i]);
    assert StageOk(n', i);
    StagesKept(n, n', i);
  }

  lemma SameOwned(n: Net, n': Net, p: int)
    requires n'.instances == n.instances
    ensures Owned(n', p) == Owned(n, p)
  {
  }

  lemma LaunchSeparate(n: Net, i: int, n': Net)
    requires Separate(n) && i in n.saved && !Owned(n, n.saved[i]) && Next(n, Launch(i), n')
    ensures Separate(n')
  {
  }

  lemma LaunchGrows(n: Net, i: int, n': Net)
    requires Separate(n) && Next(n, Launch(i), n')
    ensures Grows(n, n')
  {
  }

  lemma LaunchStage(n: Net, i: int, n': Net)
    requires Separate(n) && StageOk(n, i) && Next(n, Launch(i), n')
    ensures StageOk(n', i)
  {
  }

  lemma LaunchElsewhere(n: Net, i: int, n': Net, j: int)
    requires Separate(n) && Next(n, Launch(i), n') && j != i
    ensures SameFor(n, n', j)
  {
  }

  lemma LaunchInv(n: Net, i: int, n': Net)
    requires Inv(n) && Next(n, Launch(i), n')
    ensures Inv(n')
  {
    assert StageOk(n, i) && StageOf(n, i).Preparing?;
    assert i in n.saved && !Owned(n, n.saved[i]) && n'.requests == n.requests;
    hide RequestsOk, Grows, Separate, SameFor, StageOk, Owned, Next;
    LaunchSeparate(n, i, n');
    LaunchGrows(n, i, n');
    LaunchStage(n, i, n');
    GrowsRequests(n, n');
    forall j | j != i ensures SameFor(n, n', j) { LaunchElsewhere(n, i, n', j); }
    StagesKept(n, n', i);
  }

  lemma AddInv(n: Net, i: int, n': Net)
    requires Inv(n) && Next(n, AddServer(i), n')
    ensures Inv(n')
  {
    hide RequestsOk, Separate;
    StoreKept(n, n');
    assert StageOk(n, i);
    StagesKept(n, n', i);
  }

  /** Steps that only move one request on. */
  lemma MoveInv(n: Net, step: Step, n': Net, q: int)
    requires Inv(n) && Next(n, step, n') && q in n.requests
    requires step.DropRequest? || step.Dispatch? || step.HandlerReturn? || step.Receive? || step.Poll? || step.Send?
    requires step.q == q
    ensures Inv(n')
  {
    hide Separate, Staged, Survives, Dead;
    assert RequestOk(n, n.requests[q]);
    UpdateInv(n, q, n'.requests[q]);
  }

  lemma CopySavedInv(n: Net, i: int, n': Net)
    requires Inv(n) && Next(n, CopySaved(i), n')
    ensures Inv(n')
  {
    assert StageOk(n, i);
    hide Inv;
    if i in n.saved { CopiedInv(n, i, Rest); } else { RestInv(n, i); }
  }

  lemma NextInv(n: Net, step: Step, n': Net)
    requires Inv(n) && Next(n, step, n') && Disciplined(n, step)
    ensures Inv(n')
  {
    hide Separate, Staged, RequestsOk, RequestOk, Begun, Saved, Copied, Dead;
    match step
    case SetEnd(_, _, _) => EndsInv(n, n');
    case Begin(q, e) => BeginInv(n, e); UpdateInv(n, q, Begun(n, e));
    case DropRequest(q) => MoveInv(n, step, n', q);
    case Dispatch(q) => MoveInv(n, step, n', q);
    case HandlerSave(q) => HandlerSaveInv(n, q);
    case OtherSave(x) => SavedInv(n, x);
    case HandlerReturn(q, _) => MoveInv(n, step, n', q);
    case Receive(q) => MoveInv(n, step, n', q);
    case Poll(q) => MoveInv(n, step, n', q);
    case Conclude(q, dropped) => ConcludeInv(n, q, dropped); UpdateInv(n, q, n'.requests[q]);
    case Send(q) => MoveInv(n, step, n', q);
    case DeleteServer(i) => DeleteInv(n, i);
    case CopySaved(i) => CopySavedInv(n, i, n');
    case Prepare(i) => CopiedInv(n, i, Preparing);
    case Launch(i) => LaunchInv(n, i, n');
    case AddServer(i) => AddInv(n, i, n');
  }

  lemma EndsInv(n: Net, n': Net)
    requires Inv(n) && SameServers(n, n') && n'.requests == n.requests
    ensures Inv(n')
  {
    hide Separate, Staged, RequestOk;
    SameServersInv(n, n');
  }

  lemma RestInv(n: Net, i: int)
    requires Inv(n) && i !in n.servers && i !in n.saved
    ensures Inv(n.(stages := n.stages[i := Rest]))
  {
    hide RequestsOk, Separate;
    var n' := n.(stages := n.stages[i := Rest]);
    StoreKept(n, n');
    assert StageOk(n, i);
    StagesKept(n, n', i);
  }

  // ---- Runs

  lemma {:induction false} RunInv(run: seq<Net>, steps: seq<Step>, k: int)
    requires IsRun(run, steps) && DisciplinedRun(run, steps) && 0 <= k < |run|
    ensures Inv(run[k])
    decreases k
  {
    hide Inv;
    if k > 0 {
      RunInv(run, steps, k - 1);
      NextInv(run[k - 1], steps[k - 1], run[k]);
    } else {
      StartInv();
    }
  }

  /** Acknowledged means persisted: if a request was answered positively, every save its handler
      made is in the contents that each later instance of the server started from, and in the
      contents the next one will start from. */
  lemma AcknowledgedMeansPersisted(run: seq<Net>, steps: seq<Step>, k: int, q: int)
    requires IsRun(run, steps) && DisciplinedRun(run, steps) && 0 <= k < |run|
    requires q in run[k].requests && run[k].requests[q].sent != [] && run[k].requests[q].sent[0].Positive?
    ensures var n, r := run[k], run[k].requests[q];
      forall j :: 0 <= j < |r.saves| ==> Survives(n, r.server, r.instance, r.saves[j])
  {
    RunInv(run, steps, k);
    assert RequestOk(run[k], run[k].requests[q]);
  }

  /** While a server is shut down, what its old instances still save does not reach what the next
      instance will start from. */
  lemma ShutdownFreezes(run: seq<Net>, steps: seq<Step>, k: int, i: int, x: int)
    requires IsRun(run, steps) && DisciplinedRun(run, steps) && 0 <= k < |run|
    requires StageOf(run[k], i).Rest? && i !in run[k].servers && i in run[k].saved && x in run[k].instances
    ensures var n := run[k];
      && n.saved[i] in n.persisters && n.instances[x].persister in n.persisters
      && Saved(n, x).persisters[n.saved[i]] == n.persisters[n.saved[i]]
  {
    RunInv(run, steps, k);
    assert StageOk(run[k], i);
    assert Owned(run[k], run[k].instances[x].persister);
  }

  // ---- When a reply is positive

  /** The end of the request is enabled and the instance it went to is the installed one. */
  ghost predicate Reachable(n: Net, r: Request) {
    && r.end in n.ends && n.ends[r.end].0
    && r.server in n.servers && n.servers[r.server] == r.instance
  }

  ghost predicate DecidedPositive(n: Net, q: int) {
    q in n.requests && n.requests[q].progress.Decided? && n.requests[q].progress.msg.Positive?
  }

  /** A reply becomes positive only while the end is enabled and the instance installed, and then it
      is what the handler returned. */
  lemma PositiveOnlyIfReachable(n: Net, step: Step, n': Net, q: int)
    requires Next(n, step, n') && DecidedPositive(n', q) && !DecidedPositive(n, q)
    ensures q in n.requests && Reachable(n, n.requests[q])
    ensures n.requests[q].progress == GotReply(n'.requests[q].progress.msg.value)
  {
    if !RequestStep(step) { ServerKeepsRequests(n, step, n'); }
  }

  /** A reply that arrived and is not dropped becomes positive exactly if the end is enabled and the
      instance installed. */
  lemma ConcludeMeans(n: Net, q: int, n': Net)
    requires q in n.requests && n.requests[q].progress.GotReply? && Next(n, Conclude(q, false), n')
    ensures n'.requests[q].progress ==
      Decided(if Reachable(n, n.requests[q]) then Positive(n.requests[q].progress.value) else Negative)
  {
  }

  /** The wait is given up exactly if the end is disabled or the instance not installed. */
  lemma PollMeans(n: Net, q: int)
    requires q in n.requests && n.requests[q].progress.Waiting?
    ensures (exists n' :: Next(n, Poll(q), n')) <==> !Reachable(n, n.requests[q])
  {
    if !Reachable(n, n.requests[q]) {
      assert Next(n, Poll(q), Update(n, q, n.requests[q].(progress := SawDead)));
    }
  }

  /** The request was answered negatively without its handler being started. */
  ghost predicate Refused(n: Net, q: int) {
    q in n.requests && var r := n.requests[q];
      && r.handler.NotStarted? && r.starts == 0
      && ((r.progress == Decided(Negative) && r.sent == []) || (r.progress.Replied? && r.sent == [Negative]))
  }

  /** A request is admitted exactly if its end is enabled and connected to a server that has an
      instance, which is then the one it goes to. */
  lemma BeginMeans(n: Net, q: int, e: int, n': Net)
    requires Next(n, Begin(q, e), n')
    ensures if e in n.ends && n.ends[e].0 && n.ends[e].1 in n.servers
            then n'.requests[q].progress.Arrived? && Reachable(n, n'.requests[q]) && n'.requests[q].end == e
            else Refused(n', q)
  {
  }

  lemma NextRefused(n: Net, step: Step, n': Net, q: int)
    requires Refused(n, q) && Next(n, step, n')
    ensures Refused(n', q)
  {
    hide Begun, Concluded, Dead;
    if !RequestStep(step) { ServerKeepsRequests(n, step, n'); }
  }

  /** A request begun on a disabled end is never dispatched and never answered positively. */
  lemma {:induction false} DisabledNeverServed(run: seq<Net>, steps: seq<Step>, j: int, k: int)
    requires IsRun(run, steps) && 0 <= j < k < |run| && steps[j].Begin?
    requires !(steps[j].e in run[j].ends && run[j].ends[steps[j].e].0)
    ensures Refused(run[k], steps[j].q)
    decreases k
  {
    if k == j + 1 {
      assert Next(run[j], steps[j], run[j + 1]);
      BeginMeans(run[j], steps[j].q, steps[j].e, run[j + 1]);
    } else {
      DisabledNeverServed(run, steps, j, k - 1);
      NextRefused(run[k - 1], steps[k - 1], run[k], steps[j].q);
    }
  }

  // ---- What holds in every run, disciplined or not

  ghost predicate OneReplyEach(n: Net) { forall q :: q in n.requests ==> OneReply(n.requests[q]) }

  /** Steps of a client, of processReq or of a handler. */
  predicate RequestStep(step: Step) {
    step.Begin? || step.DropRequest? || step.Dispatch? || step.HandlerSave? || step.HandlerReturn? || step.Receive?
    || step.Poll? || step.Conclude? || step.Send?
  }

  lemma ServerKeepsRequests(n: Net, step: Step, n': Net)
    requires Next(n, step, n') && !RequestStep(step)
    ensures n'.requests == n.requests
  {
  }

  lemma RequestOneReply(n: Net, step: Step, n': Net)
    requires OneReplyEach(n) && Next(n, step, n') && RequestStep(step)
    ensures OneReplyEach(n')
  {
    hide OneReplyEach, Dead;
    if step.Begin? {
      ReplaceOne(n, step.q, Begun(n, step.e), n');
    } else {
      KnownOne(n, step.q);
      ReplaceOne(n, step.q, n'.requests[step.q], n');
    }
  }

  lemma NextOneReply(n: Net, step: Step, n': Net)
    requires OneReplyEach(n) && Next(n, step, n')
    ensures OneReplyEach(n')
  {
    hide Next, OneReply;
    if RequestStep(step) { RequestOneReply(n, step, n'); } else { ServerKeepsRequests(n, step, n'); }
  }

  lemma KnownOne(n: Net, q: int)
    requires OneReplyEach(n) && q in n.requests
    ensures OneReply(n.requests[q])
  {
  }

  lemma ReplaceOne(n: Net, q: int, r: Request, n': Net)
    requires OneReplyEach(n) && OneReply(r) && n'.requests == n.requests[q := r]
    ensures OneReplyEach(n')
  {
  }

  lemma {:induction false} RunOneReply(run: seq<Net>, steps: seq<Step>, k: int)
    requires IsRun(run, steps) && 0 <= k < |run|
    ensures OneReplyEach(run[k])
    decreases k
  {
    hide Next, OneReply;
    if k > 0 {
      RunOneReply(run, steps, k - 1);
      NextOneReply(run[k - 1], steps[k - 1], run[k]);
    }
  }

  /** The handler of a request runs at most once, at most one reply is sent, and a positive reply
      carries the value the handler returned. */
  lemma AtMostOneReply(run: seq<Net>, steps: seq<Step>, k: int, q: int)
    requires IsRun(run, steps) && 0 <= k < |run| && q in run[k].requests
    ensures var r := run[k].requests[q];
      && r.starts <= 1 && |r.sent| <= 1
      && (r.sent != [] && r.sent[0].Positive? ==> r.starts == 1 && r.handler == Returned(r.sent[0].value))
  {
    RunOneReply(run, steps, k);
    assert OneReply(run[k].requests[q]);
  }

  /** Persisters are separate, and a server being prepared has a persister of its own. */
  ghost predicate Apart(n: Net) {
    Separate(n) && forall i :: StageOf(n, i).Preparing? ==> i in n.saved && !Owned(n, n.saved[i])
  }

  lemma SameApart(n: Net, n': Net)
    requires Apart(n) && n'.saved == n.saved && n'.instances == n.instances && n'.persisters.Keys == n.persisters.Keys
    requires n'.nextInstance == n.nextInstance && n'.nextPersister == n.nextPersister && Numbered(n')
    requires forall i :: StageOf(n', i).Preparing? ==> StageOf(n, i).Preparing?
    ensures Apart(n')
  {
    forall i | StageOf(n', i).Preparing? ensures !Owned(n', n'.saved[i]) {
      assert i in n.saved;
      SameOwned(n, n', n.saved[i]);
    }
  }

  lemma SameSeparate(n: Net, n': Net)
    requires Separate(n) && SameStore(n, n')
    ensures Separate(n')
  {
  }

  lemma CopiedApart(n: Net, i: int, stage: Stage)
    requires Apart(n)
    ensures Apart(Copied(n, i).(stages := n.stages[i := stage]))
  {
    hide Separate, Grows, Owned;
    var n1 := Copied(n, i);
    var n' := n1.(stages := n.stages[i := stage]);
    CopiedFacts(n, i);
    SameSeparate(n1, n');
    forall j | StageOf(n', j).Preparing? ensures j in n'.saved && !Owned(n', n'.saved[j]) {
      if j == i {
        SameOwned(n1, n', n'.saved[i]);
      } else {
        assert StageOf(n, j).Preparing?;
        SameOwned(n, n', n'.saved[j]);
      }
    }
  }

  lemma LaunchApart(n: Net, i: int, n': Net)
    requires Apart(n) && Next(n, Launch(i), n')
    ensures Apart(n')
  {
    assert StageOf(n, i).Preparing? && !Owned(n, n.saved[i]);
    forall j | StageOf(n', j).Preparing? ensures j in n'.saved && !Owned(n', n'.saved[j]) {
      assert j != i && StageOf(n, j).Preparing?;
    }
  }

  lemma SameServersApart(n: Net, n': Net)
    requires Apart(n) && SameServers(n, n')
    ensures Apart(n')
  {
    assert Numbered(n');
    hide Apart, Numbered;
    SameApart(n, n');
  }

  lemma SavedNumbered(n: Net, x: int)
    requires Numbered(n) && x in n.instances && n.instances[x].persister in n.persisters
    ensures Numbered(Saved(n, x))
  {
  }

  lemma SavedApart(n: Net, x: int, n': Net)
    requires Apart(n) && x in n.instances && n.instances[x].persister in n.persisters && SameServers(Saved(n, x), n')
    ensures Apart(n')
  {
    SavedNumbered(n, x);
    hide Apart;
    SameApart(n, n');
  }

  lemma RequestApart(n: Net, step: Step, n': Net)
    requires Apart(n) && Next(n, step, n') && RequestStep(step)
    ensures Apart(n')
  {
    hide Apart, Begun, Concluded, Saved;
    if step.HandlerSave? { SavedApart(n, n.requests[step.q].instance, n'); } else { SameServersApart(n, n'); }
  }

  lemma ServerApart(n: Net, step: Step, n': Net)
    requires Apart(n) && Next(n, step, n') && !RequestStep(step)
    ensures Apart(n')
  {
    assert Numbered(n) && !(step.OtherSave? || step.CopySaved? || step.Prepare?) ==> Numbered(n');
    hide Apart, Saved, Copied;
    match step
    case OtherSave(x) => SavedApart(n, x, n');
    case CopySaved(i) => if i in n.saved { CopiedApart(n, i, Rest); } else { SameApart(n, n'); }
    case Prepare(i) => CopiedApart(n, i, Preparing);
    case Launch(i) => LaunchApart(n, i, n');
    case DeleteServer(_) => SameApart(n, n');
    case AddServer(_) => SameApart(n, n');
    case SetEnd(_, _, _) => SameServersApart(n, n');
  }

  lemma NextApart(n: Net, step: Step, n': Net)
    requires Apart(n) && Next(n, step, n')
    ensures Apart(n')
  {
    hide Apart, Next;
    if RequestStep(step) { RequestApart(n, step, n'); } else { ServerApart(n, step, n'); }
  }

  lemma {:induction false} RunApart(run: seq<Net>, steps: seq<Step>, k: int)
    requires IsRun(run, steps) && 0 <= k < |run|
    ensures Apart(run[k])
    decreases k
  {
    hide Next;
    if k > 0 {
      hide Apart;
      RunApart(run, steps, k - 1);
      NextApart(run[k - 1], steps[k - 1], run[k]);
    }
  }

  /** What an old instance saves does not reach the persister of another instance. */
  lemma SavesStayApart(run: seq<Net>, steps: seq<Step>, k: int, x: int, y: int)
    requires IsRun(run, steps) && 0 <= k < |run|
    requires var n := run[k]; x in n.instances && y in n.instances && x != y
    ensures var n := run[k];
      && n.instances[x].persister in n.persisters && n.instances[y].persister in n.persisters
      && Saved(n, x).persisters[n.instances[y].persister] == n.persisters[n.instances[y].persister]
  {
    RunApart(run, steps, k);
  }

  // ---- Replies

  ghost predicate Path(states: seq<Net>, steps: seq<Step>) {
    |states| == |steps| + 1 && forall k :: 0 <= k < |steps| ==> Next(states[k], steps[k], states[k + 1])
  }

  /** A step that processReq takes for request `q` once the handler was started. */
  predicate OwnStep(step: Step, q: int) {
    step == Receive(q) || step == Poll(q) || step == Conclude(q, true) || step == Conclude(q, false) || step == Send(q)
  }

  /** The handler has returned, or the wait is over because the server was seen dead. */
  ghost predicate Due(n: Net, q: int) {
    && q in n.requests && !n.requests[q].progress.Arrived?
    && (n.requests[q].progress.Waiting? ==> n.requests[q].handler.Returned?)
  }

  /** How many steps of its own a request is away from its reply, at most. */
  function Rank(p: Progress): nat {
    match p
    case Arrived => 4
    case Waiting => 3
    case GotReply(_) => 2
    case SawDead => 2
    case Decided(_) => 1
    case Replied => 0
  }

  /** Nothing undoes that a reply is due; a step of the request brings it closer, whether or not the
      reply is dropped, and no other step touches it. */
  lemma NextDue(n: Net, step: Step, n': Net, q: int)
    requires Due(n, q) && Next(n, step, n')
    ensures Due(n', q)
    ensures if OwnStep(step, q) then Rank(n'.requests[q].progress) < Rank(n.requests[q].progress)
            else n'.requests[q].progress == n.requests[q].progress
  {
    hide Next;
    if OwnStep(step, q) { OwnAdvances(n, step, n', q); } else { OthersKeep(n, step, n', q); }
  }

  lemma OwnAdvances(n: Net, step: Step, n': Net, q: int)
    requires Due(n, q) && Next(n, step, n') && OwnStep(step, q)
    ensures Due(n', q) && Rank(n'.requests[q].progress) < Rank(n.requests[q].progress)
  {
    hide Concluded, Dead;
  }

  /** Other steps leave the progress of a request alone, and do not take back that its handler returned. */
  lemma OthersKeep(n: Net, step: Step, n': Net, q: int)
    requires q in n.requests && Next(n, step, n') && !OwnStep(step, q) && !n.requests[q].progress.Arrived?
    ensures q in n'.requests && n'.requests[q].progress == n.requests[q].progress
    ensures n.requests[q].handler.Returned? ==> n'.requests[q].handler.Returned?
  {
    hide Begun, Concluded, Dead;
    if !RequestStep(step) { ServerKeepsRequests(n, step, n'); }
  }

  /** Until the reply is sent, some step of the request is possible. */
  lemma OwnStepEnabled(n: Net, q: int) returns (step: Step, n': Net)
    requires Due(n, q) && !n.requests[q].progress.Replied?
    ensures OwnStep(step, q) && Next(n, step, n')
  {
    var r := n.requests[q];
    match r.progress
    case Waiting => step, n' := Receive(q), Update(n, q, r.(progress := GotReply(r.handler.value)));
    case Decided(msg) => step, n' := Send(q), Update(n, q, r.(progress := Replied, sent := r.sent + [msg]));
    case _ => step, n' := Conclude(q, false), Update(n, q, r.(progress := Decided(Concluded(n, r, false))));
  }

  function OwnSteps(steps: seq<Step>, q: int): nat {
    if steps == [] then 0
    else OwnSteps(steps[..|steps| - 1], q) + if OwnStep(steps[|steps| - 1], q) then 1 else 0
  }

  lemma {:induction false} RankFalls(states: seq<Net>, steps: seq<Step>, q: int)
    requires Path(states, steps) && Due(states[0], q)
    ensures Due(states[|steps|], q)
    ensures Rank(states[|steps|].requests[q].progress) + OwnSteps(steps, q) <= Rank(states[0].requests[q].progress)
  {
    hide Next, Due, OwnStep;
    if steps != [] {
      var k := |steps| - 1;
      RankFalls(states[..k + 1], steps[..k], q);
      DueKnown(states[k], q);
      NextDue(states[k], steps[k], states[k + 1], q);
    }
    DueKnown(states[|steps|], q);
    DueKnown(states[0], q);
  }

  lemma DueKnown(n: Net, q: int)
    requires Due(n, q)
    ensures q in n.requests && Rank(n.requests[q].progress) <= 3
  {
  }

  ghost predicate NoOwnStep(n: Net, q: int) { forall step, n' :: OwnStep(step, q) ==> !Next(n, step, n') }

  /** A reply is always sent once the handler has returned or the server was seen dead: however
      other steps interleave, the request takes at most three more steps of its own, and it can take
      none only when the reply was sent. */
  lemma ReplyComes(states: seq<Net>, steps: seq<Step>, q: int)
    requires Path(states, steps) && Due(states[0], q)
    ensures Due(states[|steps|], q) && OwnSteps(steps, q) <= 3
    ensures OwnSteps(steps, q) == 3 || NoOwnStep(states[|steps|], q) ==> states[|steps|].requests[q].progress.Replied?
  {
    RankFalls(states, steps, q);
    var n := states[|steps|];
    if !n.requests[q].progress.Replied? { var step, n' := OwnStepEnabled(n, q); }
  }

  /** While the handler runs, a disabled end or another instance is noticed by the next poll, and then
      the reply is due. */
  lemma PollNotices(n: Net, q: int) returns (n': Net)
    requires q in n.requests && n.requests[q].progress.Waiting? && !Reachable(n, n.requests[q])
    ensures Next(n, Poll(q), n') && Due(n', q)
  {
    n' := Update(n, q, n.requests[q].(progress := SawDead));
  }

  // ---- Why a server must be shut down before it is restarted

  lemma {:induction false} Fresh(keys: set<int>) returns (q: int)
    ensures forall k :: k in keys ==> k < q
    decreases |keys|
  {
    if keys == {} {
      q := 0;
    } else {
      var x := Pick(keys);
      q := Fresh(keys - {x});
      if q <= x { q := x + 1; }
      forall k | k in keys ensures k < q { if k != x { assert k in keys - {x}; } }
    }
  }

  /** No server is started. */
  ghost predicate NoStart(steps: seq<Step>) { forall k :: 0 <= k < |steps| ==> !steps[k].Prepare? }

  lemma PathSnoc(states: seq<Net>, steps: seq<Step>, step: Step, n: Net)
    requires Path(states, steps) && Next(states[|steps|], step, n)
    ensures Path(states + [n], steps + [step]) && |states| == |steps| + 1
  {
    hide Next;
  }

  /** Through a new end, a request reaches instance `x`, whose handler saves once. */
  lemma AskAndSave(n: Net, i: int, x: int, e: int, q: int) returns (states: seq<Net>, steps: seq<Step>)
    requires i in n.servers && n.servers[i] == x && x in n.instances && n.instances[x].persister in n.persisters
      && q !in n.requests
    ensures |states| == |steps| + 1 && Path(states, steps) && NoStart(steps) && states[0] == n
    ensures var p := n.instances[x].persister;
      states[|steps|] == n.(ends := n.ends[e := (true, i)],
        requests := n.requests[q := Request(e, i, x, Running, Waiting, 1, [n.nextSave], [])],
                            persisters := n.persisters[p := n.persisters[p] + [n.nextSave]], nextSave := n.nextSave + 1)
  {
    var n1 := n.(ends := n.ends[e := (true, i)]);
    var r := Request(e, i, x, NotStarted, Arrived, 0, [], []);
    var n2 := Update(n1, q, r);
    var r' := r.(handler := Running, progress := Waiting, starts := 1);
    var n3 := Update(n2, q, r');
    var n4 := Update(Saved(n3, x), q, r'.(saves := [] + [n.nextSave]));
    assert Next(n, SetEnd(e, true, i), n1);
    assert Next(n1, Begin(q, e), n2);
    assert Next(n2, Dispatch(q), n3);
    assert Next(n3, HandlerSave(q), n4);
    hide Next;
    assert [] + [n.nextSave] == [n.nextSave];
    assert n4.requests == n.requests[q := r'.(saves := [n.nextSave])];
    states, steps := [n, n1, n2, n3, n4], [SetEnd(e, true, i), Begin(q, e), Dispatch(q), HandlerSave(q)];
  }

  /** The handler returns and its reply is accepted while `x` is installed. */
  lemma Answer(n: Net, q: int, v: int) returns (states: seq<Net>, steps: seq<Step>)
    requires q in n.requests && n.requests[q].handler.Running? && n.requests[q].progress.Waiting?
      && n.requests[q].sent == [] && !Dead(n, n.requests[q])
    ensures |states| == |steps| + 1 && Path(states, steps) && NoStart(steps) && states[0] == n
    ensures states[|steps|] == Update(n, q,
      n.requests[q].(handler := Returned(v), progress := Replied, sent := [Positive(v)]))
  {
    var r := n.requests[q].(handler := Returned(v));
    var n1 := Update(n, q, r);
    var n2 := Update(n1, q, r.(progress := GotReply(v)));
    var n3 := Update(n2, q, r.(progress := Decided(Positive(v))));
    var n4 := Update(n3, q, r.(progress := Replied, sent := [] + [Positive(v)]));
    assert Next(n, HandlerReturn(q, v), n1);
    assert Next(n1, Receive(q), n2);
    assert Next(n2, Conclude(q, false), n3);
    assert Next(n3, Send(q), n4);
    hide Next;
    states, steps := [n, n1, n2, n3, n4], [HandlerReturn(q, v), Receive(q), Conclude(q, false), Send(q)];
    assert [] + [Positive(v)] == [Positive(v)];
    assert n4.requests == n.requests[q := r.(progress := Replied, sent := [Positive(v)])];
    assert n4 == Update(n, q, r.(progress := Replied, sent := [Positive(v)]));
  }

  lemma PathConcat(a: seq<Net>, s: seq<Step>, b: seq<Net>, t: seq<Step>)
    requires Path(a, s) && Path(b, t) && b[0] == a[|s|]
    ensures Path(a + b[1..], s + t)
    ensures (a + b[1..])[|s + t|] == b[|t|] && (a + b[1..])[0] == a[0]
  {
    hide Next;
    var c, u := a + b[1..], s + t;
    forall k | 0 <= k < |u| ensures Next(c[k], u[k], c[k + 1]) {
      if k >= |s| { assert Next(b[k - |s|], t[k - |s|], b[k - |s| + 1]); } else { assert Next(a[k], s[k], a[k + 1]); }
    }
  }

  function Launched(n: Net, i: int): Net
    requires i in n.saved && n.saved[i] in n.persisters
  {
    n.(instances := n.instances[n.nextInstance := Instance(i, n.saved[i], n.persisters[n.saved[i]])],
       stages := n.stages[i := Launching(n.nextInstance)], nextInstance := n.nextInstance + 1)
  }

  lemma NextIsNew(n: Net, p: int)
    requires Numbered(n) && p in n.persisters
    ensures n.nextSave !in n.persisters[p]
  {
  }

  lemma LaunchLoses(n: Net, i: int, x: int, q: int, t: Net)
    requires Separate(n) && i in n.saved && x in n.instances
    requires StageOf(t, i).Preparing? && i in t.saved && t.saved[i] in t.persisters
      && t.persisters[t.saved[i]] == n.persisters[n.saved[i]]
    requires t.nextInstance == n.nextInstance
    ensures Next(t, Launch(i), Launched(t, i)) && !Survives(Launched(t, i), i, x, n.nextSave)
  {
    var t', y := Launched(t, i), t.nextInstance;
    assert y in t'.instances && t'.instances[y].server == i && y > x;
    NextIsNew(n, n.saved[i]);
    assert n.nextSave !in t'.instances[y].initial;
  }

  /** The discipline is needed at every restart: whenever a start begins while an instance is
      installed, the run can go on so that a save is acknowledged and the next instance lacks it. */
  lemma EarlyRestartLoses(n: Net, i: int, n1: Net) returns (states: seq<Net>, steps: seq<Step>, q: int)
    requires Inv(n) && i in n.servers && Next(n, Prepare(i), n1)
    ensures Path(states, steps) && NoStart(steps) && states[0] == n1
    ensures var t := states[|steps|]; q in t.requests && var r := t.requests[q];
      r.server == i && r.sent == [Positive(0)] && r.saves != [] && !Survives(t, i, r.instance, r.saves[0])
  {
    hide Path, RequestsOk;
    var x := n.servers[i];
    assert StageOk(n, i);
    q := Fresh(n.requests.Keys);
    var asked, steps1 := AskAndSave(n1, i, x, 0, q);
    var a := asked[|steps1|];
    var answered, steps2 := Answer(a, q, 0);
    var t := answered[|steps2|];
    PathConcat(asked, steps1, answered, steps2);
    states, steps := asked + answered[1..], steps1 + steps2;
    assert t.saved == n1.saved && t.instances == n1.instances && t.nextInstance == n1.nextInstance
      && t.stages == n1.stages;
    assert t.persisters[t.saved[i]] == n.persisters[n.saved[i]];
    LaunchLoses(n, i, x, q, t);
    var t' := Launched(t, i);
    PathSnoc(states, steps, Launch(i), t');
    states, steps := states + [t'], steps + [Launch(i)];
  }

  // ---- Exactly when a restart is safe

  ghost predicate DisciplinedPath(states: seq<Net>, steps: seq<Step>) {
    Path(states, steps) && forall k :: 0 <= k < |steps| ==> Disciplined(states[k], steps[k])
  }

  lemma {:induction false} PathInv(states: seq<Net>, steps: seq<Step>, k: int)
    requires DisciplinedPath(states, steps) && Inv(states[0]) && 0 <= k < |states|
    ensures Inv(states[k])
    decreases k
  {
    hide Inv, Next, Disciplined;
    if k > 0 {
      PathInv(states, steps, k - 1);
      NextInv(states[k - 1], steps[k - 1], states[k]);
    }
  }

  ghost predicate AllPersisted(n: Net) { forall q :: q in n.requests ==> Persisted(n, n.requests[q]) }

  /** Whatever disciplined steps follow, what is acknowledged is persisted. */
  ghost predicate SafeFrom(n: Net) {
    forall states, steps :: DisciplinedPath(states, steps) && states[0] == n ==> AllPersisted(states[|steps|])
  }

  /** Starting a server is safe exactly when none of its instances is installed. */
  lemma SafeExactlyAfterShutdown(n: Net, i: int, n1: Net)
    requires Inv(n) && Next(n, Prepare(i), n1)
    ensures SafeFrom(n1) <==> i !in n.servers
  {
    if i !in n.servers {
      NextInv(n, Prepare(i), n1);
      forall states, steps | DisciplinedPath(states, steps) && states[0] == n1 ensures AllPersisted(states[|steps|]) {
        PathInv(states, steps, |steps|);
      }
    } else {
      var states, steps, q := EarlyRestartLoses(n, i, n1);
      var t := states[|steps|];
      assert Acknowledged(t.requests[q]) && !Persisted(t, t.requests[q]);
      assert DisciplinedPath(states, steps) && !AllPersisted(t);
    }
  }
}
