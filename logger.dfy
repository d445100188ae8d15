/** The execution logger contract (`ExecutionLoggerState`): a vector of execution
    records and a counter that hands out the next id. */
module Logger {
  import opened Base
  import Seqs

  /** One logged pipeline run. */
  datatype Execution = Execution(
    id: u32,
    user: string,
    appletIds: seq<u32>,
    totalPrice: u64,
    resultHash: string,
    timestamp: u64)

  /** The user recorded for every entry: the contract does not read the real caller. */
  const Caller: string := "caller"

  /** Logger invariant: the entry at position i has id i + 1, the placeholder user and
      timestamp 0, and `next_id` is one past the last id handed out. */
  predicate Numbered(executions: seq<Execution>, nextId: u32)
  {
    && nextId as int == |executions| + 1
    && forall i :: 0 <= i < |executions| ==>
         executions[i].id as int == i + 1 && executions[i].user == Caller && executions[i].timestamp == 0
  }

  /** The ids of a numbered log increase strictly along the vector and stay below
      `next_id`, so no two entries share an id. */
  lemma NumberedIdsUnique(executions: seq<Execution>, nextId: u32)
    requires Numbered(executions, nextId)
    ensures forall i, j :: 0 <= i < j < |executions| ==> executions[i].id < executions[j].id
    ensures forall i :: 0 <= i < |executions| ==> 1 <= executions[i].id < nextId
  {
  }

  /** The entry test of `find(|e| e.id == id)`. */
  function HasId(id: u32): Execution -> bool
  {
    (e: Execution) => e.id == id
  }

  /** The entry test of `filter(|e| e.user == user)`. */
  function ByUser(user: string): Execution -> bool
  {
    (e: Execution) => e.user == user
  }

  /** `get_executions_by_user`: the entries recorded for `user`, in logging order. */
  function GetExecutionsByUser(executions: seq<Execution>, user: string): (r: seq<Execution>)
    ensures forall e :: e in r <==> e in executions && e.user == user
  {
    Seqs.FilterMembership(executions, ByUser(user));
    Seqs.Filter(executions, ByUser(user))
  }

  /** `get_executions_by_user` keeps logging order and every copy of each matching entry. */
  lemma {:induction false} GetExecutionsByUserOrder(executions: seq<Execution>, user: string, e: Execution)
    ensures Seqs.IsSubsequence(GetExecutionsByUser(executions, user), executions)
    ensures multiset(GetExecutionsByUser(executions, user))[e] == if e.user == user then multiset(executions)[e] else 0
  {
    Seqs.FilterIsSubsequence(executions, ByUser(user));
    Seqs.FilterMultiset(executions, ByUser(user), e);
  }

  /** Since every entry records the placeholder caller, asking for that user returns the
      whole log and asking for anyone else returns nothing. */
  lemma ByUserOfNumbered(executions: seq<Execution>, nextId: u32, user: string)
    requires Numbered(executions, nextId)
    ensures GetExecutionsByUser(executions, user) == if user == Caller then executions else []
  {
    if user == Caller {
      Seqs.FilterAll(executions, ByUser(user));
    } else {
      Seqs.FilterNone(executions, ByUser(user));
    }
  }

  /** `get_execution_by_id`: the first entry carrying `id`, or `None`. */
  function GetExecutionById(executions: seq<Execution>, id: u32): (r: Option<Execution>)
    ensures r.None? <==> forall i :: 0 <= i < |executions| ==> executions[i].id != id
    ensures r.Some? ==> r.value.id == id && r.value in executions
    ensures r.Some? ==>
      (exists i :: 0 <= i < |executions| && executions[i] == r.value && (forall j :: 0 <= j < i ==> executions[j].id != id))
  {
    Seqs.Find(executions, HasId(id))
  }

  /** In a numbered log the entry with id k sits at position k - 1, and ids outside
      1 .. next_id - 1 are unknown. */
  lemma GetExecutionByIdNumbered(executions: seq<Execution>, nextId: u32, id: u32)
    requires Numbered(executions, nextId)
    ensures GetExecutionById(executions, id) == if 1 <= id < nextId then Some(executions[id - 1]) else None
  {
    var r := Seqs.FirstIndex(executions, HasId(id));
    if 1 <= id < nextId {
      assert HasId(id)(executions[id - 1]);
      assert r == Some(id as nat - 1);
    }
  }

  /** `get_execution_count`: the vector length, cast with `as u32` (which keeps the low 32 bits). */
  function GetExecutionCount(executions: seq<Execution>): (r: u32)
    ensures |executions| <= U32_MAX ==> r as int == |executions|
  {
    (|executions| % (U32_MAX + 1)) as u32
  }

  /** The count of a numbered log equals `next_id - 1`. */
  lemma CountIsNextIdMinusOne(executions: seq<Execution>, nextId: u32)
    requires Numbered(executions, nextId)
    ensures GetExecutionCount(executions) as int == |executions| == nextId as int - 1
  {
  }

  /** The state of the logger contract. */
  class ExecutionLoggerState {
    var executions: seq<Execution>
    var nextId: u32

    ghost predicate Valid()
      reads this
    {
      Numbered(executions, nextId)
    }

    /** `new`: an empty log whose first id will be 1. */
    constructor ()
      ensures Valid()
      ensures executions == [] && nextId == 1
    {
      executions := [];
      nextId := 1;
    }

    /** `log_execution`: appends an entry carrying the current `next_id`, the given applet
        ids (verbatim), price and result hash, the placeholder user and timestamp 0;
        returns that id and advances the counter. Rust's `next_id += 1` must not overflow. */
    method LogExecution(appletIds: seq<u32>, totalPrice: u64, resultHash: string) returns (id: u32)
      requires Valid()
      requires nextId as int < U32_MAX
      modifies this
      ensures Valid()
      ensures id == old(nextId)
      ensures nextId as int == old(nextId) as int + 1
      ensures executions == old(executions) + [Execution(id, Caller, appletIds, totalPrice, resultHash, 0)]
    {
      var execution := Execution(nextId, Caller, appletIds, totalPrice, resultHash, 0);
      id := nextId;
      executions := executions + [execution];
      nextId := nextId + 1;
    }
  }

  /** A logged entry is visible at once: its id finds it, and the caller's list grows by
      exactly that entry at its end. */
  lemma LogThenQuery(executions: seq<Execution>, nextId: u32, e: Execution)
    requires Numbered(executions, nextId)
    requires e.id == nextId && e.user == Caller && e.timestamp == 0
    requires nextId as int < U32_MAX
    ensures Numbered(executions + [e], nextId + 1)
    ensures GetExecutionById(executions + [e], e.id) == Some(e)
    ensures GetExecutionsByUser(executions + [e], Caller) == GetExecutionsByUser(executions, Caller) + [e]
  {
    GetExecutionByIdNumbered(executions + [e], nextId + 1, e.id);
    Seqs.FilterAppend(executions, [e], ByUser(Caller));
  }
}
