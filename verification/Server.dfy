/**
 * The objects of src/kv_store.cpp and src/server.cpp: the map, the waiter table, the dispatch of
 * peer messages and the two halves of a client command, proved against the steps of Cluster.
 */
module Server {
  import opened Types
  import opened Codec
  import opened Messages
  import N = Node
  import Cmd = Command
  import C = Cluster
  import W = Wire
  import opened Wal
  import St = Storage
  import opened R = RaftNode
  import Coder

  class KVStore {
    var data: map<Bytes, Bytes>

    constructor ()
      ensures data == map[]
    {
      data := map[];
    }

    method Set(key: Bytes, value: Bytes)
      modifies this
      ensures data == old(data)[key := value]
    {
      data := data[key := value];
    }

    method Get(key: Bytes) returns (r: Option<Bytes>)
      ensures r.Some? <==> key in data
      ensures key in data ==> r == Some(data[key])
    {
      r := if key in data then Some(data[key]) else None;
    }

    method Remove(key: Bytes) returns (existed: bool)
      modifies this
      ensures existed <==> key in old(data)
      ensures data == old(data) - {key}
    {
      existed := key in data;
      data := data - {key};
    }
  }

  datatype Begun = Redirected(to: int) | NoLeader | Parked(index: nat, term: nat)

  class Server {
    const raft: RaftNode
    const store: KVStore
    const addresses: nat
    var waiters: map<nat, C.Pending>

    ghost predicate Valid()
      reads this, raft, raft.storage
    {
      raft.Valid()
    }

    constructor (raft: RaftNode, store: KVStore, addresses: nat)
      requires raft.Valid()
      ensures Valid() && this.raft == raft && this.store == store && waiters == map[]
    {
      this.raft, this.store, this.addresses, waiters := raft, store, addresses, map[];
    }

    /** One frame from a peer. A frame that is no request changes nothing and gets no reply. */
    method HandleFrame(frame: Bytes) returns (reply: Bytes)
      requires Valid()
      modifies raft, raft.storage
      ensures Valid()
      ensures match W.DecodeVoteArgs(frame)
              case Some(a) =>
                var after := N.OnRequestVote(old(raft.Abs()), a);
                raft.Abs() == after.0 && reply == W.EncodeVoteReply(after.1)
              case None =>
                match W.DecodeAppendArgs(frame)
                case Some(a) =>
                  var after := N.OnAppendEntries(old(raft.Abs()), a);
                  raft.Abs() == after.0 && reply == W.EncodeAppendReply(after.1)
                case None => raft.Abs() == old(raft.Abs()) && reply == []
    {
      hide N.OnRequestVote, N.OnAppendEntries, W.DecodeVoteArgs, W.DecodeAppendArgs, N.Writes, St.Storage.Valid;
      reply := [];
      TagsDecide(frame);
      if frame == [] { return; }
      if frame[0] as nat == W.VOTE_ARGS {
        var args := Coder.DecodeVoteArgs(frame);
        if args.Some? {
          W.VoteArgsCanonical(frame);
          var r := raft.OnRequestVote(args.value);
          reply := Coder.EncodeVoteReply(r);
        }
      } else if frame[0] as nat == W.APPEND_ARGS {
        var args := Coder.DecodeAppendArgs(frame);
        if args.Some? {
          W.AppendArgsCanonical(frame);
          var r := raft.OnAppendEntries(args.value);
          reply := Coder.EncodeAppendReply(r);
        }
      }
    }

    /** executeCommand up to the wait: submit and, on a leader, register for the index. */
    method Begin(c: Cmd.Command) returns (r: Begun)
      requires Valid()
      modifies this, raft, raft.storage
      ensures Valid() && raft.Abs() == N.Submit(old(raft.Abs()), Cmd.Encode(c))
      ensures old(raft.role) == Leader ==>
                && r == Parked(|old(raft.log)|, old(raft.currentTerm))
                && raft.log == old(raft.log) + [LogEntry(r.term, Cmd.Encode(c))]
                && r.index in waiters && (r.index !in old(waiters) ==> !waiters[r.index].applied)
                && waiters.Keys == old(waiters).Keys + {r.index}
                && (forall k :: k in old(waiters) ==> waiters[k] == old(waiters)[k])
                && waiters == C.Park(Holding(old(waiters), C.Handler(c, r.index, r.term, false))).waiters
      ensures old(raft.role) != Leader ==>
                && waiters == old(waiters)
                && r == if 0 <= raft.leaderHint < addresses && raft.leaderHint != raft.id
                        then Redirected(raft.leaderHint) else NoLeader
    {
      hide Cmd.Encode, N.Writes, N.ScanCommit, St.Storage.Valid, St.Storage.State;
      var bytes := Coder.EncodeCommand(c);
      var result := raft.Submit(bytes);
      if !result.accepted {
        if 0 <= result.leaderHint < addresses && result.leaderHint != raft.id {
          return Redirected(result.leaderHint);
        }
        return NoLeader;
      }
      if result.index !in waiters {
        waiters := waiters[result.index := C.Pending(false, 0, Cmd.NOTHING)];
      }
      r := Parked(result.index, result.term);
    }

    /** executeCommand after the wait: take the slot out and answer from it. */
    method Complete(c: Cmd.Command, index: nat, term: nat) returns (answer: C.Answer)
      modifies this
      ensures answer == C.AnswerTo(C.Handler(c, index, term, true), old(waiters))
      ensures waiters == C.Leave(Holding(old(waiters), C.Handler(c, index, term, true)), 0).waiters
      ensures index !in waiters && waiters.Keys == old(waiters).Keys - {index}
      ensures forall k :: k in waiters ==> waiters[k] == old(waiters)[k]
      ensures answer == C.CommitTimeout <==> index !in old(waiters) || !old(waiters)[index].applied
      ensures index in old(waiters) && old(waiters)[index].applied ==>
                var p := old(waiters)[index];
                && (answer == C.LostLeadership <==> p.appliedTerm != term)
                && (p.appliedTerm == term ==>
                      && (c.verb == Cmd.Set ==> answer == C.Ok)
                      && (c.verb == Cmd.Get && p.outcome.value.Some? ==> answer == C.Found(p.outcome.value.value))
                      && (c.verb == Cmd.Get && p.outcome.value.None? ==> answer == C.NotFound)
                      && (c.verb == Cmd.Del && p.outcome.existed ==> answer == C.Deleted)
                      && (c.verb == Cmd.Del && !p.outcome.existed ==> answer == C.NotFound))
    {
      var pending := C.Pending(false, 0, Cmd.NOTHING);
      if index in waiters {
        pending := waiters[index];
      }
      waiters := waiters - {index};
      if !pending.applied { return C.CommitTimeout; }
      if pending.appliedTerm != term { return C.LostLeadership; }
      match c.verb {
        case Set => answer := C.Ok;
        case Get => answer := if pending.outcome.value.Some? then C.Found(pending.outcome.value.value) else C.NotFound;
        case Del => answer := if pending.outcome.existed then C.Deleted else C.NotFound;
      }
    }

    /** onApply without the wait mutex: run the command on the map. */
    method ApplyToStore(raw: Bytes) returns (outcome: Cmd.Outcome)
      modifies store
      ensures (store.data, outcome) == Cmd.ApplyRaw(old(store.data), raw)
      ensures match Cmd.Decode(raw)
              case None => store.data == old(store.data) && outcome.value.None? && !outcome.existed
              case Some(c) =>
                && (c.verb == Cmd.Set ==> store.data == old(store.data)[c.key := c.value])
                && (c.verb == Cmd.Get ==>
                      && store.data == old(store.data) && (outcome.value.Some? <==> c.key in store.data)
                      && (c.key in store.data ==> outcome.value == Some(store.data[c.key])))
                && (c.verb == Cmd.Del ==>
                      store.data == old(store.data) - {c.key} && (outcome.existed <==> c.key in old(store.data)))
    {
      hide Cmd.Decode;
      outcome := Cmd.NOTHING;
      EmptyIsNoCommand();
      if raw != [] {
        var cmd := Coder.DecodeCommand(raw);
        if cmd.Some? {
          match cmd.value.verb {
            case Set => store.Set(cmd.value.key, cmd.value.value);
            case Get =>
              var value := store.Get(cmd.value.key);
              outcome := Cmd.Outcome(value, false);
            case Del =>
              var existed := store.Remove(cmd.value.key);
              outcome := Cmd.Outcome(None, existed);
          }
        }
      }
    }

    /** onApply: the map first, then, under the wait mutex, the slot of the index if there is one. */
    method OnApply(index: nat, term: nat, raw: Bytes)
      modifies this, store
      ensures var v := Applying(old(store.data), old(waiters), index, LogEntry(term, raw));
              var v' := C.FillSlot(C.StoreEntry(v));
              store.data == v'.store && waiters == v'.waiters
      ensures waiters.Keys == old(waiters).Keys
      ensures index in waiters ==> waiters[index].applied && waiters[index].appliedTerm == term
      ensures forall k :: k in waiters && k != index ==> waiters[k] == old(waiters)[k]
    {
      var outcome := ApplyToStore(raw);
      if index in waiters {
        waiters := waiters[index := C.Pending(true, term, outcome)];
      }
    }
  }

  lemma EmptyIsNoCommand()
    ensures Cmd.Decode([]) == None
  {
  }

  /** A server value whose one handler holds the wait mutex. */
  ghost function Holding(waiters: map<nat, C.Pending>, h: C.Handler): C.Server
  {
    C.Server(map[], waiters, map[0 := h], Some(0), C.Resting)
  }

  /** A server value whose applier has just copied the entry. */
  ghost function Applying(store: Cmd.Store, waiters: map<nat, C.Pending>, index: nat, e: LogEntry): C.Server
  {
    C.Server(store, waiters, map[], None, C.Fetched(index, e))
  }

  /** The first byte decides which decoder can succeed. */
  lemma TagsDecide(b: Bytes)
    ensures W.DecodeVoteArgs(b).Some? ==> b != [] && b[0] as nat == W.VOTE_ARGS
    ensures W.DecodeAppendArgs(b).Some? ==> b != [] && b[0] as nat == W.APPEND_ARGS
  {
    hide W.DecodeEntries;
    if b != [] {
      assert b == [b[0]] + b[1..];
      W.ByteRead(b[0], b[1..]);
    }
  }
}
