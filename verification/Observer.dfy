/** Observation passes (lib/observer-agent.ts:283-468): buffering messages, inserting what the model
    observed in them, and adding it to the memory state. */
module Observer {
  import opened Wrappers
  import opened ObservationStore

  /** The memory state after a batch: its own tokens and count on top of what was there. */
  function Credited(m: MemoryState, items: seq<Row>, charsPerToken: int): MemoryState {
    MemoryState(m.tokens + TokenSum(items, charsPerToken), 0, m.count + |items|)
  }

  function WithCredit(memory: map<AgentId, MemoryState>, agent: AgentId, items: seq<Row>, charsPerToken: int)
    : map<AgentId, MemoryState>
  {
    memory[agent := Credited(StateOf(memory, agent), items, charsPerToken)]
  }

  /** Rows under ids of their own that the table does not have. */
  ghost predicate AreNew(rows: seq<Row>, items: seq<Row>) {
    UniqueIds(items) && forall r, s :: r in rows && s in items ==> r.id != s.id
  }

  /** The messages of an agent that no pass has compressed; a pass holds on to the buffer it began with. */
  class Buffer<M> {
    var messages: seq<M>

    constructor (message: M)
      ensures messages == [message]
    {
      messages := [message];
    }

    method Push(message: M)
      modifies this
      ensures messages == old(messages) + [message]
    {
      messages := messages + [message];
    }
  }

  datatype Begun<M> = Busy | Finished | Asking(buffer: Buffer<M>)

  function Buffered<M>(buffers: map<AgentId, seq<M>>, agent: AgentId): seq<M> {
    if agent in buffers then buffers[agent] else []
  }

  class ObserverAgent<M> {
    const store: ObservationStore
    const charsPerToken: int
    const enabled: bool
    var running: bool
    var buffers: map<AgentId, Buffer<M>>

    constructor (store: ObservationStore, charsPerToken: int, enabled: bool)
      ensures this.store == store && this.charsPerToken == charsPerToken && this.enabled == enabled && !running
      ensures Valid() && View() == map[]
    {
      this.store, this.charsPerToken, this.enabled, running, buffers := store, charsPerToken, enabled, false, map[];
    }

    /** Agents do not share buffers, and none of them is empty. */
    ghost predicate Valid()
      reads this, buffers.Values
    {
      && (forall a, b :: a in buffers && b in buffers && a != b ==> buffers[a] != buffers[b])
      && (forall a :: a in buffers ==> buffers[a].messages != [])
    }

    ghost function View(): map<AgentId, seq<M>>
      reads this, buffers.Values
    {
      map a | a in buffers :: buffers[a].messages
    }

    method BufferMessage(agent: AgentId, message: M)
      requires Valid()
      modifies this`buffers, buffers.Values
      ensures Valid()
      ensures View() == if enabled then old(View())[agent := Buffered(old(View()), agent) + [message]] else old(View())
      ensures agent in old(buffers) ==> buffers == old(buffers)
    {
      if !enabled { return; }
      if agent in buffers {
        buffers[agent].Push(message);
        assert View() == old(View())[agent := Buffered(old(View()), agent) + [message]];
      } else {
        var buffer := new Buffer(message);
        buffers := buffers[agent := buffer];
        assert Buffered(old(View()), agent) + [message] == [message];
        assert View() == old(View())[agent := Buffered(old(View()), agent) + [message]];
      }
    }

    method ClearBuffer(agent: AgentId)
      requires Valid()
      modifies this`buffers
      ensures Valid() && View() == old(View()) - {agent}
    {
      buffers := buffers - {agent};
    }

    method BeginPass(agent: AgentId) returns (r: Begun<M>)
      requires Valid()
      modifies this`running
      ensures Valid() && View() == old(View())
      ensures r == if old(running) then Busy else if agent in buffers then Asking(buffers[agent]) else Finished
      ensures r.Asking? ==> r.buffer.messages == Buffered(View(), agent) != []
      ensures running == (old(running) || r.Asking?)
    {
      if running { return Busy; }
      if agent !in buffers { return Finished; }
      running := true;
      return Asking(buffers[agent]);
    }

    /** The rest of a pass, once the model has answered with observations, under new ids; None stands for a
        call that failed. A success clears the agent's buffer. Success and failed call alike report all
        that is in the buffer by now, also what arrived while the model was thinking. A duplicate id fails
        the insert, which reports nothing. */
    method FinishPass(agent: AgentId, buffer: Buffer<M>, answer: Option<seq<Row>>) returns (ok: bool, compressed: nat)
      requires running && Valid()
      modifies this, store
      ensures !running && Valid()
      ensures ok <==> answer.Some? && AreNew(old(store.rows), answer.value)
      ensures compressed == if answer.Some? && !ok then 0 else |buffer.messages|
      ensures View() == if ok then old(View()) - {agent} else old(View())
      ensures store.rows == if ok then old(store.rows) + answer.value else old(store.rows)
      ensures store.memory == if ok && answer.value != []
                              then WithCredit(old(store.memory), agent, answer.value, charsPerToken)
                              else old(store.memory)
    {
      running := false;
      ok, compressed := false, 0;
      if answer.None? { return false, |buffer.messages|; }
      ok := Persist(agent, answer.value);
      assert Valid() && View() == old(View()) && buffer.messages == old(buffer.messages);
      if ok {
        compressed := |buffer.messages|;
        ClearBuffer(agent);
      }
    }

    method Persist(agent: AgentId, items: seq<Row>) returns (ok: bool)
      modifies store
      ensures ok <==> AreNew(old(store.rows), items)
      ensures store.rows == if ok then old(store.rows) + items else old(store.rows)
      ensures store.memory == if ok && items != [] then WithCredit(old(store.memory), agent, items, charsPerToken)
                              else old(store.memory)
    {
      if items == [] { return true; }
      ok := store.InsertBatch(items);
      if ok { store.UpsertMemoryState(agent, Credited(StateOf(store.memory, agent), items, charsPerToken)); }
    }
  }
}
