/**
 * The agent framework's state-keeping parts: the in-process key/value memory
 * with list append, the name-to-tool registry, and the agent's
 * plan/act/observe/reflect loop, which records one observation per action in
 * a history list kept in memory.
 *
 * A store is specified by pure functions on a `map`, and the classes'
 * methods are proved against them. Tools are pure functions of their
 * positional and keyword arguments; an agent's `plan` and `observe` (which
 * subclasses override) are supplied as functions.
 */
module AgentsCore {
  import opened Wrappers
  import opened PyValue

  /** The exceptions these operations raise. */
  datatype AgentError =
    | KeyError        // an unregistered tool name
    | TypeError       // unpacking a value that is not iterable, or `**` of a non-dict
    | AttributeError  // `.append` on a stored value that is not a list

  // ---------------------------------------------------------------------
  // The memory store, as values
  // ---------------------------------------------------------------------

  /** `store.get(key)`. */
  function StoreGet(store: map<string, Value>, key: string): (r: Value)
    ensures key !in store ==> r == VNone
  {
    if key in store then store[key] else VNone
  }

  /** `list(v)` for the values this model has: a list's items, a string's characters, a dict's keys. */
  function Iterate(v: Value): (r: Result<seq<Value>, AgentError>)
    ensures v.VList? ==> r == Ok(v.items)
    ensures r.Err? <==> v.VNone? || v.VBool? || v.VInt?
  {
    match v
    case VList(items) => Ok(items)
    case VStr(s) => Ok(seq(|s|, k requires 0 <= k < |s| => VStr([s[k]])))
    case VDict(entries) => Ok(seq(|entries|, k requires 0 <= k < |entries| => VStr(entries[k].0)))
    case _ => Err(TypeError)
  }

  /** `append_to_list(key, value)` on a store: a falsy value becomes `[value]`, a list grows, anything else raises. */
  function Appended(store: map<string, Value>, key: string, value: Value): Result<map<string, Value>, AgentError>
  {
    var current := StoreGet(store, key);
    if !Truthy(current) then Ok(store[key := VList([value])])
    else if current.VList? then Ok(store[key := VList(current.items + [value])])
    else Err(AttributeError)
  }

  /** `get_list(key)` on a store: `list(store.get(key) or [])`. */
  function ListOf(store: map<string, Value>, key: string): Result<seq<Value>, AgentError>
  {
    Iterate(Or(StoreGet(store, key), VList([])))
  }

  /** A key whose value `append_to_list` accepts: absent, falsy or a list. */
  predicate Appendable(store: map<string, Value>, key: string)
  {
    !Truthy(StoreGet(store, key)) || StoreGet(store, key).VList?
  }

  /** After `set(k, v)`, `get(k)` is `v` and every other key reads as before. */
  lemma GetAfterSet(store: map<string, Value>, k: string, v: Value, other: string)
    ensures StoreGet(store[k := v], k) == v
    ensures other != k ==> StoreGet(store[k := v], other) == StoreGet(store, other)
  {
  }

  /** `get_list` of an absent or falsy key is empty, and of a list its items. */
  lemma ListOfShape(store: map<string, Value>, key: string)
    ensures !Truthy(StoreGet(store, key)) ==> ListOf(store, key) == Ok([])
    ensures StoreGet(store, key).VList? ==> ListOf(store, key) == Ok(StoreGet(store, key).items)
    ensures Appendable(store, key) ==> ListOf(store, key).Ok?
  {
  }

  /**
   * `append_to_list` succeeds exactly on an appendable key; it then appends
   * at the end of what `get_list` returned, and leaves every other key alone.
   */
  lemma AppendThenList(store: map<string, Value>, key: string, value: Value, other: string)
    ensures Appended(store, key, value).Ok? <==> Appendable(store, key)
    ensures Appended(store, key, value).Err? ==> Appended(store, key, value).error == AttributeError
    ensures Appendable(store, key) ==>
              ListOf(Appended(store, key, value).value, key) == Ok(ListOf(store, key).value + [value])
    ensures Appendable(store, key) ==> Appendable(Appended(store, key, value).value, key)
    ensures Appendable(store, key) && other != key ==>
              StoreGet(Appended(store, key, value).value, other) == StoreGet(store, other)
  {
    if Appendable(store, key) {
      ListOfShape(store, key);
      var next := Appended(store, key, value).value;
      if !Truthy(StoreGet(store, key)) {
        assert [] + [value] == [value];
      }
      assert StoreGet(next, key) == VList(ListOf(store, key).value + [value]);
      ListOfShape(next, key);
    }
  }

  /** A falsy stored value (absent, None, 0, "", [], {}) is replaced by a one-element list. */
  lemma AppendReplacesFalsy(store: map<string, Value>, key: string, value: Value)
    requires !Truthy(StoreGet(store, key))
    ensures Appended(store, key, value) == Ok(store[key := VList([value])])
    ensures StoreGet(Appended(store, key, value).value, key) == VList([value])
  {
  }

  /** Appending 1 and then 2 to a fresh key lists `[1, 2]`. */
  lemma AppendTwice(store: map<string, Value>, key: string)
    requires key !in store
    ensures Appended(store, key, VInt(1)).Ok?
    ensures Appended(Appended(store, key, VInt(1)).value, key, VInt(2)).Ok?
    ensures ListOf(Appended(Appended(store, key, VInt(1)).value, key, VInt(2)).value, key) == Ok([VInt(1), VInt(2)])
  {
    ListOfShape(store, key);
    AppendThenList(store, key, VInt(1), key);
    assert [] + [VInt(1)] == [VInt(1)];
    AppendThenList(Appended(store, key, VInt(1)).value, key, VInt(2), key);
    assert [VInt(1)] + [VInt(2)] == [VInt(1), VInt(2)];
  }

  // ---------------------------------------------------------------------
  // InMemoryMemory
  // ---------------------------------------------------------------------

  /** `InMemoryMemory`: a dict from keys to values. */
  class InMemoryMemory {
    var store: map<string, Value>

    constructor ()
      ensures store == map[]
    {
      store := map[];
    }

    /** `set(key, value)`. */
    method Set(key: string, value: Value)
      modifies this
      ensures store == old(store)[key := value]
    {
      store := store[key := value];
    }

    /** `get(key)`: the stored value, or None. */
    function Get(key: string): (r: Value)
      reads this
      ensures key in store ==> r == store[key]
      ensures key !in store ==> r == VNone
    {
      StoreGet(store, key)
    }

    /** `append_to_list(key, value)`; on `AttributeError` nothing is stored. */
    method AppendToList(key: string, value: Value) returns (r: Result<(), AgentError>)
      modifies this
      ensures r.Ok? <==> Appended(old(store), key, value).Ok?
      ensures r.Ok? ==> store == Appended(old(store), key, value).value
      ensures r.Err? ==> store == old(store) && r.error == AttributeError
    {
      var current := StoreGet(store, key);
      var lst := Or(current, VList([]));
      if !lst.VList? {
        return Err(AttributeError);
      }
      assert !Truthy(current) ==> lst.items + [value] == [value];
      store := store[key := VList(lst.items + [value])];
      r := Ok(());
    }

    /** `get_list(key)`: a copy of the stored list, empty for an absent or falsy key. */
    function GetList(key: string): (r: Result<seq<Value>, AgentError>)
      reads this
      ensures !Truthy(Get(key)) ==> r == Ok([])
      ensures Get(key).VList? ==> r == Ok(Get(key).items)
      ensures Truthy(Get(key)) && (Get(key).VInt? || Get(key).VBool?) ==> r.Err?
    {
      ListOf(store, key)
    }
  }

  // ---------------------------------------------------------------------
  // ToolRegistry
  // ---------------------------------------------------------------------

  /** A tool's `run(*args, **kwargs)`. */
  type Tool = (seq<Value>, seq<(string, Value)>) -> Value

  /** `ToolRegistry`: a dict from names to tools. */
  class ToolRegistry {
    var tools: map<string, Tool>

    constructor ()
      ensures tools == map[]
    {
      tools := map[];
    }

    /** `register(name, tool)`: a later registration under the same name replaces the earlier one. */
    method Register(name: string, tool: Tool)
      modifies this
      ensures tools == old(tools)[name := tool]
    {
      tools := tools[name := tool];
    }

    /** `get(name)`: the tool registered last under `name`; an unknown name raises `KeyError`. */
    function Get(name: string): (r: Result<Tool, AgentError>)
      reads this
      ensures r.Ok? <==> name in tools
      ensures r.Ok? ==> r.value == tools[name]
      ensures r.Err? ==> r.error == KeyError
    {
      if name in tools then Ok(tools[name]) else Err(KeyError)
    }
  }

  /** Registering under one name and looking up another leaves the other lookup as it was. */
  lemma RegistryLookup(tools: map<string, Tool>, name: string, tool: Tool, other: string)
    ensures (tools[name := tool])[name] == tool
    ensures other != name ==> (other in tools[name := tool] <==> other in tools)
    ensures other != name && other in tools ==> (tools[name := tool])[other] == tools[other]
  {
  }

  // ---------------------------------------------------------------------
  // The agent loop, as values
  // ---------------------------------------------------------------------

  /** An action: a dict with `tool`, and optionally `args` and `kwargs`. */
  type Action = seq<(string, Value)>

  /**
   * `act(action)`: look the tool up (a list or dict name cannot be hashed
   * and raises `TypeError`; any other unregistered name raises `KeyError`), unpack `args` (default `[]`) and `kwargs` (default `{}`),
   * and run it.
   */
  function ActOn(tools: map<string, Tool>, action: Action): (r: Result<Value, AgentError>)
  {
    var name := Get(action, "tool");
    if name.VList? || name.VDict? then Err(TypeError)
    else if !name.VStr? || name.s !in tools then Err(KeyError)
    else
      match Iterate(GetOr(action, "args", VList([])))
      case Err(e) => Err(e)
      case Ok(args) =>
        var kwargs := GetOr(action, "kwargs", VDict([]));
        if !kwargs.VDict? then Err(TypeError) else Ok(tools[name.s](args, kwargs.entries))
  }

  /** The state of `run_once` after some actions: results so far, the store, and the exception if one was raised. */
  datatype Progress = Progress(results: seq<Value>, store: map<string, Value>, failed: Option<AgentError>)

  /** One round: act, observe, reflect into the history, then record the result. */
  function Step(tools: map<string, Tool>, observe: Value -> Value, historyKey: string,
                p: Progress, action: Action): Progress
  {
    match ActOn(tools, action)
    case Err(e) => p.(failed := Some(e))
    case Ok(res) =>
      match Appended(p.store, historyKey, observe(res))
      case Err(e) => p.(failed := Some(e))
      case Ok(store) => Progress(p.results + [res], store, None)
  }

  /** `run_once` over `actions` from `store`: rounds in order, stopping at the first exception. */
  function RunFrom(tools: map<string, Tool>, observe: Value -> Value, historyKey: string,
                   store: map<string, Value>, actions: seq<Action>): Progress
  {
    if actions == [] then Progress([], store, None)
    else
      var p := RunFrom(tools, observe, historyKey, store, actions[..|actions| - 1]);
      if p.failed.Some? then p else Step(tools, observe, historyKey, p, actions[|actions| - 1])
  }

  /** `observe`'s default: `{"result": result}`. */
  function DefaultObserve(result: Value): (r: Value)
    ensures r.VDict? && Get(r.entries, "result") == result
  {
    VDict([("result", result)])
  }

  /** The history key of an agent. */
  function HistoryKey(name: string): string
  {
    "agent:" + name + ":history"
  }

  /** The observations recorded for `results`, in order. */
  function Observations(observe: Value -> Value, results: seq<Value>): (r: seq<Value>)
    ensures |r| == |results|
    ensures forall i :: 0 <= i < |results| ==> r[i] == observe(results[i])
  {
    seq(|results|, i requires 0 <= i < |results| => observe(results[i]))
  }

  /** A round whose tool runs, on an appendable history key, records its result and appends its observation. */
  lemma StepRecords(tools: map<string, Tool>, observe: Value -> Value, historyKey: string,
                    p: Progress, action: Action, other: string)
    requires Appendable(p.store, historyKey) && ActOn(tools, action).Ok?
    ensures var q := Step(tools, observe, historyKey, p, action);
            && q.failed == None
            && q.results == p.results + [ActOn(tools, action).value]
            && Appendable(q.store, historyKey)
            && ListOf(q.store, historyKey) == Ok(ListOf(p.store, historyKey).value + [observe(ActOn(tools, action).value)])
            && (other != historyKey ==> StoreGet(q.store, other) == StoreGet(p.store, other))
  {
    AppendThenList(p.store, historyKey, observe(ActOn(tools, action).value), other);
  }

  /**
   * On a history key `append_to_list` accepts, a run without exception
   * returns one result per action, in plan order, grows the history by the
   * observation of each result in that order, and leaves every other key alone.
   */
  lemma {:induction false} RunHistory(tools: map<string, Tool>, observe: Value -> Value, historyKey: string,
                                      store: map<string, Value>, actions: seq<Action>, other: string)
    requires Appendable(store, historyKey)
    requires RunFrom(tools, observe, historyKey, store, actions).failed == None
    ensures var p := RunFrom(tools, observe, historyKey, store, actions);
            && |p.results| == |actions|
            && (forall i :: 0 <= i < |actions| ==> ActOn(tools, actions[i]) == Ok(p.results[i]))
            && Appendable(p.store, historyKey)
            && ListOf(p.store, historyKey) == Ok(ListOf(store, historyKey).value + Observations(observe, p.results))
            && (other != historyKey ==> StoreGet(p.store, other) == StoreGet(store, other))
  {
    ListOfShape(store, historyKey);
    if actions != [] {
      var init := actions[..|actions| - 1];
      var last := actions[|actions| - 1];
      var p := RunFrom(tools, observe, historyKey, store, init);
      RunHistory(tools, observe, historyKey, store, init, other);
      assert ActOn(tools, last).Ok?;
      var res := ActOn(tools, last).value;
      StepRecords(tools, observe, historyKey, p, last, other);
      var q := RunFrom(tools, observe, historyKey, store, actions);
      assert Observations(observe, q.results) == Observations(observe, p.results) + [observe(res)];
      assert ListOf(store, historyKey).value + Observations(observe, q.results)
          == (ListOf(store, historyKey).value + Observations(observe, p.results)) + [observe(res)];
      forall i | 0 <= i < |actions|
        ensures ActOn(tools, actions[i]) == Ok(q.results[i])
      {
        if i < |init| {
          assert actions[i] == init[i];
        }
      }
    } else {
      assert ListOf(store, historyKey).value + Observations(observe, []) == ListOf(store, historyKey).value;
    }
  }

  /** On a history key `append_to_list` accepts, `run_once` completes exactly when every action's tool runs. */
  lemma {:induction false} RunCompletes(tools: map<string, Tool>, observe: Value -> Value, historyKey: string,
                                        store: map<string, Value>, actions: seq<Action>)
    requires Appendable(store, historyKey)
    ensures RunFrom(tools, observe, historyKey, store, actions).failed == None <==>
              forall i :: 0 <= i < |actions| ==> ActOn(tools, actions[i]).Ok?
  {
    if actions != [] {
      var init := actions[..|actions| - 1];
      var p := RunFrom(tools, observe, historyKey, store, init);
      RunCompletes(tools, observe, historyKey, store, init);
      forall i | 0 <= i < |init|
        ensures init[i] == actions[i]
      {
      }
      if p.failed == None {
        RunHistory(tools, observe, historyKey, store, init, historyKey);
        if ActOn(tools, actions[|actions| - 1]).Ok? {
          StepRecords(tools, observe, historyKey, p, actions[|actions| - 1], historyKey);
        }
      } else {
        var k :| 0 <= k < |init| && !ActOn(tools, init[k]).Ok?;
        assert !ActOn(tools, actions[k]).Ok?;
      }
    }
  }

  /**
   * When `run_once` raises on an appendable history key, it raises the error
   * of the first action whose tool fails, after the rounds before it.
   */
  lemma {:induction false} FirstFailure(tools: map<string, Tool>, observe: Value -> Value, historyKey: string,
                                        store: map<string, Value>, actions: seq<Action>) returns (j: nat)
    requires Appendable(store, historyKey)
    requires RunFrom(tools, observe, historyKey, store, actions).failed.Some?
    ensures j < |actions| && ActOn(tools, actions[j]).Err?
    ensures RunFrom(tools, observe, historyKey, store, actions).failed == Some(ActOn(tools, actions[j]).error)
    ensures forall i :: 0 <= i < j ==> ActOn(tools, actions[i]).Ok?
    ensures RunFrom(tools, observe, historyKey, store, actions[..j]) ==
              RunFrom(tools, observe, historyKey, store, actions).(failed := None)
  {
    var init := actions[..|actions| - 1];
    var p := RunFrom(tools, observe, historyKey, store, init);
    if p.failed.Some? {
      j := FirstFailure(tools, observe, historyKey, store, init);
      assert init[..j] == actions[..j];
      assert actions[j] == init[j];
      forall i | 0 <= i < j
        ensures ActOn(tools, actions[i]).Ok?
      {
        assert actions[i] == init[i];
      }
    } else {
      j := |init|;
      RunCompletes(tools, observe, historyKey, store, init);
      RunHistory(tools, observe, historyKey, store, init, historyKey);
      if ActOn(tools, actions[j]).Ok? {
        StepRecords(tools, observe, historyKey, p, actions[j], historyKey);
      }
      assert actions[..j] == init;
      forall i | 0 <= i < j
        ensures ActOn(tools, actions[i]).Ok?
      {
        assert actions[i] == init[i];
      }
    }
  }

  /**
   * The agent-flow scenario: a fresh memory and a plan of one search action
   * with a list of arguments and a `limit` keyword leave exactly that
   * action's observation in the history.
   */
  lemma OneSearchRecorded(tools: map<string, Tool>, observe: Value -> Value, historyKey: string,
                          store: map<string, Value>, topic: Value)
    requires "search" in tools && historyKey !in store
    ensures var action := [("tool", VStr("search")), ("args", VList([topic])), ("kwargs", VDict([("limit", VInt(5))]))];
            var p := RunFrom(tools, observe, historyKey, store, [action]);
            && p.failed == None
            && p.results == [tools["search"]([topic], [("limit", VInt(5))])]
            && ListOf(p.store, historyKey) == Ok([observe(tools["search"]([topic], [("limit", VInt(5))]))])
  {
    var action := [("tool", VStr("search")), ("args", VList([topic])), ("kwargs", VDict([("limit", VInt(5))]))];
    assert Get(action, "tool") == VStr("search");
    assert "args" != "tool" && "kwargs" != "tool" && "kwargs" != "args";
    assert action[1..][1..] == [("kwargs", VDict([("limit", VInt(5))]))];
    assert GetOr(action, "args", VList([])) == VList([topic]);
    assert GetOr(action[1..][1..], "kwargs", VDict([])) == VDict([("limit", VInt(5))]);
    assert GetOr(action[1..], "kwargs", VDict([])) == VDict([("limit", VInt(5))]);
    assert GetOr(action, "kwargs", VDict([])) == VDict([("limit", VInt(5))]);
    assert ActOn(tools, action) == Ok(tools["search"]([topic], [("limit", VInt(5))]));
    assert [action][..0] == [];
    ListOfShape(store, historyKey);
    StepRecords(tools, observe, historyKey, Progress([], store, None), action, historyKey);
  }

  // ---------------------------------------------------------------------
  // Agent
  // ---------------------------------------------------------------------

  /** `Agent`: a name, a tool registry, a memory and, from its subclass, `plan` and `observe`. */
  class Agent {
    const name: string
    const tools: ToolRegistry
    const memory: InMemoryMemory
    const historyKey: string
    const plan: Value -> seq<Action>
    const observe: Value -> Value

    /** `Agent(name, tools, memory)`: without a memory the agent gets a fresh in-process one. */
    constructor (name: string, tools: ToolRegistry, memory: InMemoryMemory?,
                 plan: Value -> seq<Action>, observe: Value -> Value)
      ensures this.name == name && this.tools == tools && this.plan == plan && this.observe == observe
      ensures memory != null ==> this.memory == memory
      ensures memory == null ==> fresh(this.memory) && this.memory.store == map[]
      ensures historyKey == HistoryKey(name)
    {
      this.name := name;
      this.tools := tools;
      if memory != null {
        this.memory := memory;
      } else {
        var fallback := new InMemoryMemory();
        this.memory := fallback;
      }
      this.historyKey := "agent:" + name + ":history";
      this.plan := plan;
      this.observe := observe;
    }

    /** `act(action)`: runs the tool the action names; it changes nothing. */
    function Act(action: Action): (r: Result<Value, AgentError>)
      reads tools
      ensures r.Ok? ==> Get(action, "tool").VStr? && tools.Get(Get(action, "tool").s).Ok?
      ensures Get(action, "tool").VList? || Get(action, "tool").VDict? ==> r == Err(TypeError)
      ensures Get(action, "tool").VNone? || Get(action, "tool").VBool? || Get(action, "tool").VInt? ==> r == Err(KeyError)
      ensures Get(action, "tool").VStr? && tools.Get(Get(action, "tool").s).Err? ==> r == Err(KeyError)
    {
      ActOn(tools.tools, action)
    }

    /** `reflect(observation)`: appends it to the history. */
    method Reflect(observation: Value) returns (r: Result<(), AgentError>)
      modifies memory
      ensures r.Ok? <==> Appended(old(memory.store), historyKey, observation).Ok?
      ensures r.Ok? ==> memory.store == Appended(old(memory.store), historyKey, observation).value
      ensures r.Err? ==> memory.store == old(memory.store)
      ensures r.Err? ==> r == Err(AttributeError) && Appended(old(memory.store), historyKey, observation) == Err(AttributeError)
    {
      r := memory.AppendToList(historyKey, observation);
    }

    /** `run_once(context)`: acts on every planned action in order, recording each observation. */
    method RunOnce(context: Value) returns (r: Result<seq<Value>, AgentError>)
      modifies memory
      ensures var p := RunFrom(tools.tools, observe, historyKey, old(memory.store), plan(context));
              && memory.store == p.store
              && (p.failed.Some? ==> r == Err(p.failed.value))
              && (p.failed == None ==> r == Ok(p.results))
    {
      var actions := plan(context);
      ghost var start := memory.store;
      var results := [];
      var i := 0;
      while i < |actions|
        invariant 0 <= i <= |actions|
        invariant RunFrom(tools.tools, observe, historyKey, start, actions[..i]) == Progress(results, memory.store, None)
      {
        assert actions[..i + 1][..i] == actions[..i];
        var res := Act(actions[i]);
        if res.Err? {
          RunStopped(tools.tools, observe, historyKey, start, actions, i + 1);
          return Err(res.error);
        }
        var obs := observe(res.value);
        var reflected := Reflect(obs);
        if reflected.Err? {
          RunStopped(tools.tools, observe, historyKey, start, actions, i + 1);
          return Err(reflected.error);
        }
        results := results + [res.value];
        i := i + 1;
      }
      assert actions[..i] == actions;
      r := Ok(results);
    }
  }

  /** Once a prefix of the actions raised, the rest of the plan does not run. */
  lemma {:induction false} RunStopped(tools: map<string, Tool>, observe: Value -> Value, historyKey: string,
                                      store: map<string, Value>, actions: seq<Action>, n: nat)
    requires n <= |actions|
    requires RunFrom(tools, observe, historyKey, store, actions[..n]).failed.Some?
    ensures RunFrom(tools, observe, historyKey, store, actions) == RunFrom(tools, observe, historyKey, store, actions[..n])
    decreases |actions| - n
  {
    if n < |actions| {
      assert actions[..n + 1][..n] == actions[..n];
      RunStopped(tools, observe, historyKey, store, actions, n + 1);
    } else {
      assert actions[..n] == actions;
    }
  }
}
