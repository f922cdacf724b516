/**
 * A whole cluster: nodes, their servers, and a network that may lose, delay, duplicate and reorder
 * requests. Each action is one mutex-held region of the source, or a crash in the middle of one.
 */
module Cluster {
  import opened Types
  import opened Messages
  import opened Node
  import opened Command

  // ----- network -----

  /** A replicator may send one request again, so its calls are numbered; a vote request is sent once,
      its term tells it apart. */
  datatype Request = VoteReq(to: nat, v: VoteArgs) | AppendReq(call: nat, to: nat, a: AppendArgs)

  function Sender(r: Request): nat
  {
    match r case VoteReq(_, v) => v.candidateId case AppendReq(_, _, a) => a.leaderId
  }

  datatype Response =
    | VoteResp(to: nat, v: VoteArgs, vr: VoteReply)
    | AppendResp(call: nat, to: nat, a: AppendArgs, ar: AppendReply)

  // ----- server: client handlers and the applier thread -----

  /** A slot of the waiter table. */
  datatype Pending = Pending(applied: bool, appliedTerm: nat, outcome: Outcome)

  /** A client handler between submit and its reply; `parked` once it waits for its slot. */
  datatype Handler = Handler(command: Command, index: nat, term: nat, parked: bool)

  /** How far the applier has got with the entry it copied out of the log. */
  datatype Applier =
    | Resting
    | Fetched(index: nat, entry: LogEntry)
    | Stored(index: nat, entry: LogEntry, outcome: Outcome)
    | Notified(index: nat, entry: LogEntry)

  /** `holder` is the handler that owns the wait mutex between submit and parking. */
  datatype Server = Server(
    store: Store,
    waiters: map<nat, Pending>,
    handlers: map<nat, Handler>,
    holder: Option<nat>,
    applier: Applier)

  const FRESH_SERVER := Server(map[], map[], map[], None, Resting)

  datatype Answer = Ok | Found(value: Bytes) | NotFound | Deleted | CommitTimeout | LostLeadership

  predicate IsError(a: Answer) { a.CommitTimeout? || a.LostLeadership? }

  /** The reply of executeCommand once it stops waiting (src/server.cpp:243-263). */
  function AnswerTo(h: Handler, waiters: map<nat, Pending>): Answer
  {
    if h.index !in waiters || !waiters[h.index].applied then CommitTimeout
    else
      var p := waiters[h.index];
      if p.appliedTerm != h.term then LostLeadership
      else AnswerFor(h.command.verb, p.outcome)
  }

  function AnswerFor(v: Verb, o: Outcome): Answer
  {
    match v
    case Set => Ok
    case Get => if o.value.Some? then Found(o.value.value) else NotFound
    case Del => if o.existed then Deleted else NotFound
  }

  function Park(v: Server): Server
    requires v.holder.Some? && v.holder.value in v.handlers
  {
    var ticket := v.holder.value;
    var h := v.handlers[ticket];
    v.(waiters := if h.index in v.waiters then v.waiters
                  else v.waiters[h.index := Pending(false, 0, NOTHING)],
       handlers := v.handlers[ticket := h.(parked := true)],
       holder := None)
  }

  function Leave(v: Server, ticket: nat): Server
    requires ticket in v.handlers
  {
    v.(waiters := v.waiters - {v.handlers[ticket].index}, handlers := v.handlers - {ticket})
  }

  function StoreEntry(v: Server): Server
    requires v.applier.Fetched?
  {
    var (m, o) := ApplyRaw(v.store, v.applier.entry.command);
    v.(store := m, applier := Stored(v.applier.index, v.applier.entry, o))
  }

  function FillSlot(v: Server): Server
    requires v.applier.Stored?
  {
    var k := v.applier.index;
    v.(waiters := if k in v.waiters
                  then v.waiters[k := Pending(true, v.applier.entry.term, v.applier.outcome)]
                  else v.waiters,
       applier := Notified(k, v.applier.entry))
  }

  // ----- cluster -----

  /** `sent` holds every request ever sent, `replies` every answer ever produced; `calls` holds the
      calls whose sending thread still waits, and each is answered at most once. `serial` numbers
      the calls of replicators, `tickets` the client handlers that got past submit. */
  datatype State = State(
    nodes: seq<Node>,
    servers: seq<Server>,
    sent: set<Request>,
    calls: set<Request>,
    replies: set<Response>,
    serial: nat,
    tickets: nat)

  function Init(n: nat): State
  {
    State(seq(n, i requires 0 <= i < n => Restarted(i, n, Durable(0, -1, []))),
          seq(n, i => FRESH_SERVER), {}, {}, {}, 0, 0)
  }

  datatype Action =
    | Local(i: nat, op: Op, call: nat)
    | Crash(i: nat, op: Op, call: nat, written: nat)
    | Send(i: nat, peer: nat)
    | Lose(lost: Request)
    | ClientSubmit(i: nat, command: Command)
    | ClientPark(i: nat)
    | ClientLeave(i: nat, ticket: nat)
    | Fetch(i: nat)
    | StoreFetched(i: nat)
    | Notify(i: nat)
    | Finish(i: nat)

  /** Node i may be executing op: the request was sent to it, or the reply answers its own call. The
      number matters for AppendEntries only. */
  predicate OpEnabled(s: State, i: nat, op: Op, call: nat)
    requires i < |s.nodes|
  {
    && Callable(s.nodes[i], op)
    && match op
       case Idle => true
       case Timeout => s.nodes[i].role != Leader
       case HandleVote(a) => VoteReq(i, a) in s.sent
       case HandleAppend(a) => AppendReq(call, i, a) in s.sent
       case VoteReplied(p, a, r) =>
         a.candidateId == i && VoteReq(p, a) in s.calls && VoteResp(p, a, r) in s.replies
       case AppendReplied(p, a, r) =>
         a.leaderId == i && AppendReq(call, p, a) in s.calls && AppendResp(call, p, a, r) in s.replies
       case SubmitCommand(c) => true
  }

  /** No replicator thread of node i's current term still waits for this peer. */
  predicate ReplicatorFree(s: State, i: nat, peer: nat)
    requires i < |s.nodes|
  {
    forall r :: r in s.calls && r.AppendReq? && r.to == peer && r.a.leaderId == i ==>
      r.a.term != s.nodes[i].currentTerm
  }

  predicate Enabled(s: State, a: Action)
    requires |s.servers| == |s.nodes|
  {
    match a
    case Local(i, op, call) => i < |s.nodes| && !op.SubmitCommand? && OpEnabled(s, i, op, call)
    case Crash(i, op, call, k) => i < |s.nodes| && OpEnabled(s, i, op, call) && k <= |Writes(s.nodes[i], op)|
    case Send(i, peer) =>
      && i < |s.nodes| && peer < |s.nodes| && peer != i
      && s.nodes[i].role == Leader
      && peer < |s.nodes[i].nextIndex|
      && 1 <= s.nodes[i].nextIndex[peer] <= |s.nodes[i].log|
      && ReplicatorFree(s, i, peer)
    case Lose(lost) => lost in s.calls
    case ClientSubmit(i, c) =>
      i < |s.nodes| && s.nodes[i].Wf() && s.servers[i].holder.None? && s.nodes[i].role == Leader && Fits(c)
    case ClientPark(i) =>
      i < |s.nodes| && s.servers[i].holder.Some? && s.servers[i].holder.value in s.servers[i].handlers
    case ClientLeave(i, ticket) =>
      && i < |s.nodes| && s.servers[i].holder.None?
      && ticket in s.servers[i].handlers && s.servers[i].handlers[ticket].parked
    case Fetch(i) =>
      && i < |s.nodes| && s.servers[i].applier.Resting?
      && s.nodes[i].lastApplied < s.nodes[i].commitIndex
      && s.nodes[i].lastApplied + 1 < |s.nodes[i].log|
    case StoreFetched(i) => i < |s.nodes| && s.servers[i].applier.Fetched?
    case Notify(i) => i < |s.nodes| && s.servers[i].applier.Stored? && s.servers[i].holder.None?
    case Finish(i) => i < |s.nodes| && s.servers[i].applier.Notified?
  }

  function VoteRequests(s: Node, n: nat): set<Request>
    requires |s.log| >= 1
  {
    set p | p in NodeSet(n) && p != s.id :: VoteReq(p, VoteArgs(s.currentTerm, s.id, |s.log| - 1, s.LastTerm()))
  }

  /** What an operation of node i, now in state m, sends, answers or takes off the network. */
  function AfterLocal(s: State, i: nat, op: Op, call: nat, m: Node): State
    requires i < |s.nodes| && Callable(s.nodes[i], op) && |m.log| >= 1
  {
    var s' := s.(nodes := s.nodes[i := m]);
    match op
    case Idle => s'
    case Timeout =>
      if m.role == Candidate
      then var rs := VoteRequests(m, |s.nodes|); s'.(sent := s.sent + rs, calls := s.calls + rs)
      else s'
    case HandleVote(a) => s'.(replies := s.replies + {VoteResp(i, a, OnRequestVote(s.nodes[i], a).1)})
    case HandleAppend(a) =>
      s'.(replies := s.replies + {AppendResp(call, i, a, OnAppendEntries(s.nodes[i], a).1)})
    case VoteReplied(p, a, r) => s'.(calls := s.calls - {VoteReq(p, a)})
    case AppendReplied(p, a, r) => s'.(calls := s.calls - {AppendReq(call, p, a)})
    case SubmitCommand(c) => s'
  }

  lemma PerformWf(s: Node, op: Op)
    requires Callable(s, op)
    ensures Perform(s, op).Wf()
    ensures Perform(s, op).id == s.id && Perform(s, op).size == s.size
  {
    match op {
      case HandleAppend(a) =>
        if Accepts(s, a) {
          var i := FirstNew(s.log, a.prevLogIndex, a.entries, 0);
          assert (s.log[..a.prevLogIndex + 1 + i] + a.entries[i..])[0] == s.log[0];
        }
      case _ =>
    }
  }

  function Next(s: State, a: Action): State
    requires |s.servers| == |s.nodes| && Enabled(s, a)
  {
    match a
    case Local(i, op, call) =>
      PerformWf(s.nodes[i], op);
      AfterLocal(s, i, op, call, Perform(s.nodes[i], op))
    case Crash(i, op, _, k) =>
      var m := s.nodes[i];
      s.(nodes := s.nodes[i := Restarted(m.id, m.size, ApplyWrites(DurableOf(m), Writes(m, op)[..k]))],
         servers := s.servers[i := FRESH_SERVER],
         calls := set r | r in s.calls && Sender(r) != i)
    case Send(i, peer) =>
      var r := AppendReq(s.serial, peer, BuildAppend(s.nodes[i], peer));
      s.(sent := s.sent + {r}, calls := s.calls + {r}, serial := s.serial + 1)
    case Lose(lost) => s.(calls := s.calls - {lost})
    case ClientSubmit(i, c) =>
      var m := s.nodes[i];
      var v := s.servers[i];
      s.(nodes := s.nodes[i := Submit(m, Encode(c))],
         servers := s.servers[i := v.(handlers := v.handlers[s.tickets := Handler(c, |m.log|, m.currentTerm, false)],
                                      holder := Some(s.tickets))],
         tickets := s.tickets + 1)
    case ClientPark(i) => s.(servers := s.servers[i := Park(s.servers[i])])
    case ClientLeave(i, ticket) => s.(servers := s.servers[i := Leave(s.servers[i], ticket)])
    case Fetch(i) =>
      var k := s.nodes[i].lastApplied + 1;
      s.(servers := s.servers[i := s.servers[i].(applier := Fetched(k, s.nodes[i].log[k]))])
    case StoreFetched(i) => s.(servers := s.servers[i := StoreEntry(s.servers[i])])
    case Notify(i) => s.(servers := s.servers[i := FillSlot(s.servers[i])])
    case Finish(i) =>
      s.(nodes := s.nodes[i := s.nodes[i].(lastApplied := s.servers[i].applier.index)],
         servers := s.servers[i := s.servers[i].(applier := Resting)])
  }

  /** ss is a run of a cluster of n nodes through the actions acts. */
  ghost predicate IsRun(n: nat, ss: seq<State>, acts: seq<Action>)
  {
    && n <= MAX_NODES
    && |ss| == |acts| + 1
    && ss[0] == Init(n)
    && forall k :: 0 <= k < |acts| ==> StepAt(ss, acts, k)
  }

  ghost predicate StepAt(ss: seq<State>, acts: seq<Action>, k: nat)
    requires k < |acts| && |ss| == |acts| + 1
  {
    && |ss[k].servers| == |ss[k].nodes|
    && Enabled(ss[k], acts[k])
    && ss[k + 1] == Next(ss[k], acts[k])
  }
}
