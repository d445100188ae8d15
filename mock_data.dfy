/** The client-side mock store (`MockDataContext`): the applet catalogue and the
    execution history that the pages read and update when no contract is deployed. */
module MockData {
  import Strings

  /** A catalogue entry; `price` is the decimal ether string the user typed. */
  datatype Applet = Applet(
    id: int,
    name: string,
    description: string,
    price: string,
    inputSchema: string,
    outputSchema: string,
    owner: string)

  datatype Status = Success | Failed

  /** A history entry; `totalPrice` is a decimal ether string, `timestamp` is in seconds. */
  datatype ExecutionLog = ExecutionLog(
    id: int,
    pipelineId: string,
    appletIds: seq<int>,
    totalPrice: string,
    timestamp: int,
    status: Status)

  /** Catalogue invariant: the applet at position i has id i + 1. */
  predicate IdsArePositions(applets: seq<Applet>)
  {
    forall i :: 0 <= i < |applets| ==> applets[i].id == i + 1
  }

  /** History invariant: no id exceeds the length plus 100, and no two entries share an id. */
  predicate IdsBelowNext(executions: seq<ExecutionLog>)
  {
    && (forall i :: 0 <= i < |executions| ==> executions[i].id <= |executions| + 100)
    && (forall i, j :: 0 <= i < j < |executions| ==> executions[i].id != executions[j].id)
  }

  /** `INITIAL_APPLETS`: the five built-in applets. */
  function InitialApplets(): (r: seq<Applet>)
    ensures |r| == 5 && IdsArePositions(r)
  {
    [ Applet(1, "Sentiment Analysis", "Analyzes text sentiment", "0.05", "Text", "JSON", "0x123..."),
      Applet(2, "Image Resizer", "Resizes images", "0.01", "Image", "Image", "0xABC..."),
      Applet(3, "Data Cleaner", "Cleans CSV data", "0.02", "CSV", "CSV", "0x456..."),
      Applet(4, "Translator", "Translates text", "0.03", "Text", "Text", "0x789..."),
      Applet(5, "AI Summarizer", "Summarizes long text", "0.08", "Text", "Text", "0xDEF...") ]
  }

  /** `Math.floor(ms / 1000)`: Dafny's division by a positive divisor already rounds down. */
  function Seconds(ms: int): (r: int)
    ensures r * 1000 <= ms < r * 1000 + 1000
  {
    ms / 1000
  }

  /** `INITIAL_EXECUTIONS`, given the clock reading `loadMs` taken when the module loads:
      runs 101 and 102, one hour and one day old. The two entries read the clock
      separately; one reading stands for both, since they are taken in the same
      initialiser and only their order and offsets matter here. */
  function InitialExecutions(loadMs: int): (r: seq<ExecutionLog>)
    ensures |r| == 2 && r[0].id == 101 && r[1].id == 102
    ensures IdsBelowNext(r)
    ensures r[0].timestamp > r[1].timestamp
  {
    [ ExecutionLog(101, "0x8f...2a", [1, 3], "0.07", Seconds(loadMs) - 3600, Success),
      ExecutionLog(102, "0x3b...9c", [2, 2, 4], "0.025", Seconds(loadMs) - 86400, Success) ]
  }

  /** The pipeline id of a new history entry, from `randomHex`, the text of
      `Math.random().toString(16)`: "0x", then its characters 2 to 9 (fewer if it is
      shorter), then "...". */
  function PipelineId(randomHex: string): (r: string)
    ensures 5 <= |r| <= 13
    ensures |r| == 5 + (if |randomHex| <= 2 then 0 else (if |randomHex| < 10 then |randomHex| else 10) - 2)
    ensures r[..2] == "0x" && r[|r| - 3..] == "..."
    ensures forall i :: 2 <= i < |r| - 3 ==> i < |randomHex| && r[i] == randomHex[i]
  {
    "0x" + Strings.JsSlice(randomHex, 2, 10) + "..."
  }

  /** The applet `registerApplet` appends: the next position as id, the given name,
      description and price, "Unknown" schemas and the placeholder owner. */
  function NewApplet(applets: seq<Applet>, name: string, description: string, price: string): (r: Applet)
    ensures r.id == |applets| + 1
    ensures IdsArePositions(applets) ==> IdsArePositions(applets + [r])
    ensures r.name == name && r.description == description && r.price == price
    ensures r.inputSchema == "Unknown" && r.outputSchema == "Unknown" && r.owner == "0xUser..."
  {
    Applet(|applets| + 1, name, description, price, "Unknown", "Unknown", "0xUser...")
  }

  /** The entry `logExecution` prepends, given the clock reading `nowMs` and `randomHex`. */
  function NewExecution(executions: seq<ExecutionLog>, appletIds: seq<int>, totalPrice: string, nowMs: int, randomHex: string): (r: ExecutionLog)
    ensures r.id == |executions| + 101 && r.pipelineId == PipelineId(randomHex)
    ensures IdsBelowNext(executions) ==> forall i :: 0 <= i < |executions| ==> executions[i].id < r.id
    ensures r.appletIds == appletIds && r.totalPrice == totalPrice && r.status == Success
    ensures r.timestamp * 1000 <= nowMs < r.timestamp * 1000 + 1000
  {
    ExecutionLog(|executions| + 101, PipelineId(randomHex), appletIds, totalPrice, Seconds(nowMs), Success)
  }

  /** A logged entry's id is larger than every id already in the history, and prepending
      it keeps ids unique and bounded. */
  lemma LogKeepsIdsFresh(executions: seq<ExecutionLog>, appletIds: seq<int>, totalPrice: string, nowMs: int, randomHex: string)
    requires IdsBelowNext(executions)
    ensures forall i :: 0 <= i < |executions| ==>
      executions[i].id < NewExecution(executions, appletIds, totalPrice, nowMs, randomHex).id
    ensures IdsBelowNext([NewExecution(executions, appletIds, totalPrice, nowMs, randomHex)] + executions)
  {
    var e := NewExecution(executions, appletIds, totalPrice, nowMs, randomHex);
    var after := [e] + executions;
    forall i, j | 0 <= i < j < |after|
      ensures after[i].id != after[j].id
    {
      if i == 0 {
        assert after[j] == executions[j - 1];
      } else {
        assert after[i] == executions[i - 1] && after[j] == executions[j - 1];
      }
    }
  }

  /** The store behind `MockDataProvider`. */
  class Store {
    var applets: seq<Applet>
    var executions: seq<ExecutionLog>

    ghost predicate Valid()
      reads this
    {
      IdsArePositions(applets) && IdsBelowNext(executions)
    }

    /** The store as the provider first creates it, before any saved state is loaded. */
    constructor (loadMs: int)
      ensures Valid()
      ensures applets == InitialApplets()
      ensures executions == InitialExecutions(loadMs)
    {
      applets := InitialApplets();
      executions := InitialExecutions(loadMs);
    }

    /** `registerApplet(name, description, price)`: appends one applet numbered after the
        current catalogue; the history is untouched. */
    method RegisterApplet(name: string, description: string, price: string)
      modifies this
      ensures applets == old(applets) + [NewApplet(old(applets), name, description, price)]
      ensures executions == old(executions)
      ensures old(Valid()) ==> Valid()
    {
      applets := applets + [NewApplet(applets, name, description, price)];
    }

    /** `logExecution(appletIds, totalPrice, ..)` at clock reading `nowMs`, with `randomHex`
        standing for `Math.random().toString(16)`: prepends one entry; the catalogue is untouched. */
    method LogExecution(appletIds: seq<int>, totalPrice: string, nowMs: int, randomHex: string)
      modifies this
      ensures executions == [NewExecution(old(executions), appletIds, totalPrice, nowMs, randomHex)] + old(executions)
      ensures applets == old(applets)
      ensures old(Valid()) ==> Valid()
    {
      if IdsBelowNext(executions) {
        LogKeepsIdsFresh(executions, appletIds, totalPrice, nowMs, randomHex);
      }
      executions := [NewExecution(executions, appletIds, totalPrice, nowMs, randomHex)] + executions;
    }
  }
}
