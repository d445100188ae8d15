/** The history page (`HistoryPage`): the stored executions shown newest first, with a
    fixed status badge and a shortened pipeline id. */
module History {
  import Seqs
  import Strings
  import MockData

  type ExecutionLog = MockData.ExecutionLog

  /** Every entry is at least as new as every entry after it. */
  predicate NewestFirst(s: seq<ExecutionLog>)
  {
    forall i, j :: 0 <= i < j < |s| ==> s[i].timestamp >= s[j].timestamp
  }

  /** The entries stamped with second `t`. */
  function At(t: int): ExecutionLog -> bool
  {
    (e: ExecutionLog) => e.timestamp == t
  }

  /** Places `x` into a newest-first list after every entry at least as new as `x`: the
      step a stable sort takes for the next input element. */
  function Insert(x: ExecutionLog, sorted: seq<ExecutionLog>): (r: seq<ExecutionLog>)
    ensures |r| == |sorted| + 1
  {
    if sorted == [] then [x]
    else if sorted[0].timestamp < x.timestamp then [x] + sorted
    else [sorted[0]] + Insert(x, sorted[1..])
  }

  /** Inserting adds exactly `x` to the entries of the list. */
  lemma {:induction false} InsertPermutes(x: ExecutionLog, sorted: seq<ExecutionLog>)
    ensures multiset(Insert(x, sorted)) == multiset(sorted) + multiset{x}
  {
    if sorted != [] && sorted[0].timestamp >= x.timestamp {
      InsertPermutes(x, sorted[1..]);
      assert sorted == [sorted[0]] + sorted[1..];
    }
  }

  /** `[...executions].sort((a, b) => b.timestamp - a.timestamp)`: a stable sort on a copy,
      newest first. The stored list is an argument and is not changed. */
  function SortNewestFirst(executions: seq<ExecutionLog>): (r: seq<ExecutionLog>)
    ensures |r| == |executions|
  {
    if executions == [] then []
    else Insert(executions[|executions| - 1], SortNewestFirst(executions[..|executions| - 1]))
  }

  /** Inserting into a newest-first list keeps it newest first, and the result starts
      with `x` or with the list's old first entry. */
  lemma {:induction false} InsertNewestFirst(x: ExecutionLog, sorted: seq<ExecutionLog>)
    requires NewestFirst(sorted)
    ensures NewestFirst(Insert(x, sorted))
    ensures Insert(x, sorted)[0] == x || Insert(x, sorted)[0] == sorted[0]
  {
    if sorted != [] && sorted[0].timestamp >= x.timestamp {
      var rest := sorted[1..];
      InsertNewestFirst(x, rest);
      var tail := Insert(x, rest);
      var r := Insert(x, sorted);
      assert r == [sorted[0]] + tail;
      assert tail[0].timestamp <= sorted[0].timestamp;
      forall i, j | 0 <= i < j < |r|
        ensures r[i].timestamp >= r[j].timestamp
      {
        assert r[j] == tail[j - 1];
        if i > 0 {
          assert r[i] == tail[i - 1];
        } else {
          assert tail[0].timestamp >= tail[j - 1].timestamp;
        }
      }
    }
  }

  /** Inserting into a newest-first list puts `x` after every entry with the same timestamp. */
  lemma {:induction false} InsertStable(x: ExecutionLog, sorted: seq<ExecutionLog>, t: int)
    requires NewestFirst(sorted)
    ensures Seqs.Filter(Insert(x, sorted), At(t)) == Seqs.Filter(sorted, At(t)) + (if x.timestamp == t then [x] else [])
  {
    if sorted == [] {
      Seqs.FilterCons(x, [], At(t));
      assert [x] + [] == [x];
    } else if sorted[0].timestamp < x.timestamp {
      InsertFrontStable(x, sorted, t);
    } else {
      var rest := sorted[1..];
      var tail := if x.timestamp == t then [x] else [];
      InsertStable(x, rest, t);
      assert sorted == [sorted[0]] + rest;
      Seqs.FilterConsExtend(sorted[0], Insert(x, rest), rest, tail, At(t));
    }
  }

  /** The case of `InsertStable` where `x` is strictly newer than the whole list. */
  lemma InsertFrontStable(x: ExecutionLog, sorted: seq<ExecutionLog>, t: int)
    requires NewestFirst(sorted) && sorted != [] && sorted[0].timestamp < x.timestamp
    ensures Seqs.Filter(Insert(x, sorted), At(t)) == Seqs.Filter(sorted, At(t)) + (if x.timestamp == t then [x] else [])
  {
    Seqs.FilterCons(x, sorted, At(t));
    if x.timestamp == t {
      assert forall i :: 0 <= i < |sorted| ==> sorted[i].timestamp <= sorted[0].timestamp;
      Seqs.FilterNone(sorted, At(t));
    }
  }

  /** The displayed order is a newest-first permutation of the stored executions in which
      entries with equal timestamps keep their stored relative order (the stability that
      ECMAScript 2019 requires of `Array.prototype.sort`). */
  lemma {:induction false} SortNewestFirstCorrect(executions: seq<ExecutionLog>, t: int)
    ensures |SortNewestFirst(executions)| == |executions|
    ensures multiset(SortNewestFirst(executions)) == multiset(executions)
    ensures NewestFirst(SortNewestFirst(executions))
    ensures Seqs.Filter(SortNewestFirst(executions), At(t)) == Seqs.Filter(executions, At(t))
  {
    if executions != [] {
      var n := |executions| - 1;
      var prefix, last := executions[..n], executions[n];
      assert executions == prefix + [last];
      SortNewestFirstCorrect(prefix, t);
      InsertNewestFirst(last, SortNewestFirst(prefix));
      InsertPermutes(last, SortNewestFirst(prefix));
      InsertStable(last, SortNewestFirst(prefix), t);
      Seqs.FilterAppend(prefix, [last], At(t));
    }
  }

  /** The pipeline id as a row shows it: its first `keep` characters, then "...". */
  function ShortPipelineId(pipelineId: string, keep: nat): (r: string)
    ensures |r| == (if |pipelineId| < keep then |pipelineId| else keep) + 3
    ensures r[|r| - 3..] == "..."
    ensures |r| - 3 <= |pipelineId| && r[..|r| - 3] == pipelineId[..|r| - 3]
  {
    Strings.JsSlice(pipelineId, 0, keep) + "..."
  }

  /** The desktop table keeps 10 characters, the mobile cards 12. */
  const DesktopKeep: nat := 10
  const MobileKeep: nat := 12

  /** A pipeline id made by the mock store ("0x", eight random characters, "...") is shown
      unchanged on the desktop table, and with two of its dots plus "..." on the mobile
      cards. */
  lemma GeneratedIdLabels(randomHex: string)
    requires |randomHex| >= 10
    ensures ShortPipelineId(MockData.PipelineId(randomHex), DesktopKeep) == MockData.PipelineId(randomHex)
    ensures ShortPipelineId(MockData.PipelineId(randomHex), MobileKeep) == MockData.PipelineId(randomHex)[..12] + "..."
  {
    var id := MockData.PipelineId(randomHex);
    assert |id| == 13;
    assert id[..10] + "..." == id;
  }

  /** One displayed history row; `totalPriceWei` is the stored price run through `parseEther`. */
  datatype HistoryRow = HistoryRow(
    id: int,
    pipelineLabel: string,
    appletIds: seq<int>,
    totalPriceWei: int,
    timestamp: int,
    badge: string)

  /** The row of one execution: the badge reads "Success" whatever the stored status. */
  function RowOf(e: ExecutionLog, parseEther: string -> int, keep: nat): (r: HistoryRow)
    ensures r.badge == "Success"
    ensures r.id == e.id && r.timestamp == e.timestamp && r.appletIds == e.appletIds
    ensures r.pipelineLabel == ShortPipelineId(e.pipelineId, keep) && r.totalPriceWei == parseEther(e.totalPrice)
  {
    HistoryRow(e.id, ShortPipelineId(e.pipelineId, keep), e.appletIds, parseEther(e.totalPrice), e.timestamp, "Success")
  }

  /** The rows of `executions`, in the same order. */
  function Rows(executions: seq<ExecutionLog>, parseEther: string -> int, keep: nat): (rows: seq<HistoryRow>)
    ensures |rows| == |executions|
    ensures forall i :: 0 <= i < |rows| ==> rows[i] == RowOf(executions[i], parseEther, keep)
  {
    seq(|executions|, i requires 0 <= i < |executions| => RowOf(executions[i], parseEther, keep))
  }

  /** Rearranging the executions rearranges their rows the same way. */
  lemma {:induction false} RowsPermutation(a: seq<ExecutionLog>, b: seq<ExecutionLog>, parseEther: string -> int, keep: nat)
    requires multiset(a) == multiset(b)
    ensures multiset(Rows(a, parseEther, keep)) == multiset(Rows(b, parseEther, keep))
    decreases |a|
  {
    if a == [] {
      assert |b| == |multiset(b)| == 0;
    } else {
      var n := |a| - 1;
      var x := a[n];
      assert x in multiset(b);
      var j :| 0 <= j < |b| && b[j] == x;
      var rest := b[..j] + b[j + 1..];
      Seqs.RemoveOneMultiset(a, n);
      assert a[..n] + a[n + 1..] == a[..n];
      Seqs.RemoveOneMultiset(b, j);
      RowsPermutation(a[..n], rest, parseEther, keep);
      RowsDropOne(a, n, parseEther, keep);
      RowsDropOne(b, j, parseEther, keep);
    }
  }

  /** Dropping the execution at `i` drops one copy of its row. */
  lemma RowsDropOne(s: seq<ExecutionLog>, i: nat, parseEther: string -> int, keep: nat)
    requires i < |s|
    ensures multiset(Rows(s, parseEther, keep))
      == multiset(Rows(s[..i] + s[i + 1..], parseEther, keep)) + multiset{RowOf(s[i], parseEther, keep)}
  {
    var rows := Rows(s, parseEther, keep);
    assert Rows(s[..i] + s[i + 1..], parseEther, keep) == rows[..i] + rows[i + 1..];
    assert rows == rows[..i] + [rows[i]] + rows[i + 1..];
  }

  /** `displayHistory` as rendered with `keep` characters of pipeline id: the rows of the
      sorted copy, each with its price in wei and the badge "Success" whatever the stored
      status. They are the stored executions' rows rearranged, newest first. */
  function DisplayHistory(executions: seq<ExecutionLog>, parseEther: string -> int, keep: nat): (rows: seq<HistoryRow>)
    ensures |rows| == |executions|
    ensures forall i :: 0 <= i < |rows| ==> rows[i] == RowOf(SortNewestFirst(executions)[i], parseEther, keep)
    ensures multiset(rows) == multiset(Rows(executions, parseEther, keep))
    ensures forall i :: 0 <= i < |rows| ==> rows[i].badge == "Success"
    ensures forall i, j :: 0 <= i < j < |rows| ==> rows[i].timestamp >= rows[j].timestamp
  {
    var sorted := SortNewestFirst(executions);
    SortNewestFirstCorrect(executions, 0);
    RowsPermutation(sorted, executions, parseEther, keep);
    Rows(sorted, parseEther, keep)
  }
}
