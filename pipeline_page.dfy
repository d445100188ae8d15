/** The pipeline page (`PipelinePage`): what a click on "Execute" does with the
    builder's arguments — which built-in applets run, the summariser heuristic,
    the history entry it logs and the page's status. */
module PipelinePage {
  import opened Base
  import Seqs
  import Strings
  import MockData

  /** The characters that end a sentence for the summariser. */
  predicate IsTerminator(c: char)
  {
    c == '.' || c == '!' || c == '?'
  }

  /** The length of the longest prefix of `s` made only of terminators (`t`) or only of
      other characters (`!t`). */
  function RunLength(s: string, t: bool): (n: nat)
    ensures n <= |s|
    ensures forall i :: 0 <= i < n ==> IsTerminator(s[i]) == t
    ensures n < |s| ==> IsTerminator(s[n]) != t
  {
    if s == [] || IsTerminator(s[0]) != t then 0 else 1 + RunLength(s[1..], t)
  }

  /** `seg` is `k` non-terminators followed by nothing but terminators. */
  predicate SplitsAt(seg: string, k: nat)
  {
    && 0 < k < |seg|
    && (forall i :: 0 <= i < k ==> !IsTerminator(seg[i]))
    && (forall i :: k <= i < |seg| ==> IsTerminator(seg[i]))
  }

  /** `seg` matches `[^.!?]+[.!?]+` as a whole. */
  ghost predicate IsSentence(seg: string)
  {
    exists k: nat :: SplitsAt(seg, k)
  }

  /** `s.match(/[^.!?]+[.!?]+/g)` as a list (empty for `null`): from left to right, a
      maximal run of non-terminators followed by a maximal run of terminators. Leading
      terminators are skipped, and a tail with no terminator after it matches nothing. */
  function Sentences(s: string): (r: seq<string>)
    ensures forall i :: 0 <= i < |r| ==> IsSentence(r[i])
    decreases |s|
  {
    if s == [] then []
    else if IsTerminator(s[0]) then Sentences(s[1..])
    else
      var body := RunLength(s, false);
      if body == |s| then []
      else
        var end := body + RunLength(s[body..], true);
        assert SplitsAt(s[..end], body);
        [s[..end]] + Sentences(s[end..])
  }

  /** `s` has a non-terminator somewhere before a terminator. */
  ghost predicate HasBoundary(s: string)
  {
    exists i, j :: 0 <= i < j < |s| && !IsTerminator(s[i]) && IsTerminator(s[j])
  }

  /** The regular expression matches nothing exactly when no non-terminator is followed,
      anywhere later, by a terminator. */
  lemma {:induction false} SentencesEmptyIff(s: string)
    ensures Sentences(s) == [] <==> !HasBoundary(s)
    decreases |s|
  {
    if s == [] {
    } else if IsTerminator(s[0]) {
      SentencesEmptyIff(s[1..]);
      if HasBoundary(s) {
        var i, j :| 0 <= i < j < |s| && !IsTerminator(s[i]) && IsTerminator(s[j]);
        assert 0 <= i - 1 < j - 1 < |s[1..]| && !IsTerminator(s[1..][i - 1]) && IsTerminator(s[1..][j - 1]);
      }
      if HasBoundary(s[1..]) {
        var i, j :| 0 <= i < j < |s[1..]| && !IsTerminator(s[1..][i]) && IsTerminator(s[1..][j]);
        assert !IsTerminator(s[i + 1]) && IsTerminator(s[j + 1]);
      }
    } else {
      var body := RunLength(s, false);
      if body == |s| {
        assert forall j :: 0 <= j < |s| ==> !IsTerminator(s[j]);
      } else {
        assert !IsTerminator(s[0]) && IsTerminator(s[body]);
      }
    }
  }

  /** A whole sentence in front of text that does not continue its terminator run is
      matched on its own, and matching resumes after it. */
  lemma SentencesCons(a: string, rest: string)
    requires IsSentence(a)
    requires rest == [] || !IsTerminator(rest[0])
    ensures Sentences(a + rest) == [a] + Sentences(rest)
  {
    var k: nat :| SplitsAt(a, k);
    var s := a + rest;
    assert !IsTerminator(s[0]);
    var body := RunLength(s, false);
    assert IsTerminator(s[k]);
    assert body == k;
    var tail := s[body..];
    assert tail == a[k..] + rest;
    var run := RunLength(tail, true);
    assert |a| - k <= |tail|;
    assert forall i :: 0 <= i < |a| - k ==> IsTerminator(tail[i]);
    assert |a| - k < |tail| ==> tail[|a| - k] == rest[0];
    assert run == |a| - k;
    assert s[..body + run] == a;
    assert s[body + run..] == rest;
  }

  /** Terminators in front of the text are skipped: they never start a match. */
  lemma {:induction false} LeadingTerminatorsDropped(t: string, s: string)
    requires forall i :: 0 <= i < |t| ==> IsTerminator(t[i])
    ensures Sentences(t + s) == Sentences(s)
    decreases |t|
  {
    if t != [] {
      assert (t + s)[1..] == t[1..] + s;
      LeadingTerminatorsDropped(t[1..], s);
    } else {
      assert t + s == s;
    }
  }

  /** Text after the last terminator is dropped: a sentence followed by text without
      terminators is matched alone. */
  lemma TrailingTextDropped(a: string, rest: string)
    requires IsSentence(a)
    requires forall i :: 0 <= i < |rest| ==> !IsTerminator(rest[i])
    ensures Sentences(a + rest) == [a]
  {
    SentencesEmptyIff(rest);
    SentencesCons(a, rest);
  }

  /** The first at most two elements: `slice(0, 2)`. */
  function FirstTwo(sentences: seq<string>): (r: seq<string>)
    ensures |r| == if |sentences| < 2 then |sentences| else 2
    ensures forall i :: 0 <= i < |r| ==> r[i] == sentences[i]
  {
    if |sentences| <= 2 then sentences else sentences[..2]
  }

  /** The joined text before the fallback applies: the first two matches (or the whole
      input when nothing matches), separated by one space. */
  function JoinedSummary(inputData: string): (r: string)
    ensures Sentences(inputData) == [] ==> r == inputData
    ensures Sentences(inputData) != [] ==>
      |r| >= |Sentences(inputData)[0]| && r[..|Sentences(inputData)[0]|] == Sentences(inputData)[0]
    ensures |Sentences(inputData)| == 1 ==> r == Sentences(inputData)[0]
    ensures |Sentences(inputData)| >= 2 ==> r == Sentences(inputData)[0] + " " + Sentences(inputData)[1]
  {
    var matches := Sentences(inputData);
    var sentences := if matches == [] then [inputData] else matches;
    JoinStartsWithFirst(FirstTwo(sentences), " ");
    assert |matches| >= 2 ==> FirstTwo(matches) == [matches[0], matches[1]];
    Strings.Join(FirstTwo(sentences), " ")
  }

  const Fallback: string := "Could not generate summary."

  /** The summariser heuristic of applet 5: `summary || "Could not generate summary."`. */
  function Summarize(inputData: string): (r: string)
    ensures r != ""
    ensures inputData == "" ==> r == Fallback
  {
    var summary := JoinedSummary(inputData);
    if summary == "" then Fallback else summary
  }

  /** A join of at least one part starts with the first part. */
  lemma {:induction false} JoinStartsWithFirst(parts: seq<string>, sep: string)
    requires |parts| >= 1
    ensures |Strings.Join(parts, sep)| >= |parts[0]|
    ensures Strings.Join(parts, sep)[..|parts[0]|] == parts[0]
  {
    if |parts| > 1 {
      assert Strings.Join(parts, sep) == parts[0] + (sep + Strings.Join(parts[1..], sep));
    }
  }

  /** The fallback text is produced exactly for the empty input; any other input yields
      its non-empty joined text. */
  lemma SummarizeFallback(inputData: string)
    ensures inputData == "" ==> Summarize(inputData) == Fallback
    ensures inputData != "" ==> JoinedSummary(inputData) != "" && Summarize(inputData) == JoinedSummary(inputData)
  {
    var matches := Sentences(inputData);
    if inputData == "" {
      assert matches == [];
      assert Strings.Join(FirstTwo([inputData]), " ") == "";
    } else {
      var sentences := if matches == [] then [inputData] else matches;
      JoinStartsWithFirst(FirstTwo(sentences), " ");
      if matches != [] {
        var k: nat :| SplitsAt(matches[0], k);
      }
      assert |sentences[0]| > 0;
    }
  }

  /** A sentence is not empty and starts with a non-terminator. */
  lemma SentenceStart(seg: string)
    requires IsSentence(seg)
    ensures |seg| >= 2 && !IsTerminator(seg[0])
  {
    var k: nat :| SplitsAt(seg, k);
  }

  /** Three whole sentences in a row summarise to the first two, joined by one space
      (each keeps its own leading whitespace). */
  lemma SummarizeThreeSentences(a: string, b: string, c: string)
    requires IsSentence(a) && IsSentence(b) && IsSentence(c)
    ensures Summarize(a + b + c) == a + " " + b
  {
    var matches := Sentences(a + b + c);
    SentencesOfThree(a, b, c);
    assert FirstTwo(matches) == [a, b];
    assert Strings.Join([a, b], " ") == a + " " + b;
    assert JoinedSummary(a + b + c) == a + " " + b;
  }

  /** Text that starts with a sentence starts with a non-terminator. */
  lemma StartsWithSentence(a: string, rest: string)
    requires IsSentence(a)
    ensures a + rest != [] && !IsTerminator((a + rest)[0])
  {
    SentenceStart(a);
    assert (a + rest)[0] == a[0];
  }

  /** Three whole sentences in a row are matched one by one. */
  lemma SentencesOfThree(a: string, b: string, c: string)
    requires IsSentence(a) && IsSentence(b) && IsSentence(c)
    ensures Sentences(a + b + c) == [a, b] + Sentences(c)
  {
    SentenceStart(c);
    SentencesCons(b, c);
    StartsWithSentence(b, c);
    SentencesCons(a, b + c);
    Seqs.AppendAssoc(a, b, c);
  }

  /** The worked example: "A. B. C." summarises to "A.  B.". */
  lemma SummarizeExample()
    ensures Summarize("A." + " B." + " C.") == "A." + " " + " B."
  {
    assert SplitsAt("A.", 1) && SplitsAt(" B.", 2) && SplitsAt(" C.", 2);
    SummarizeThreeSentences("A.", " B.", " C.");
  }

  /** What the sentiment library returns for a text; its scoring is not part of this model. */
  datatype SentimentResult = SentimentResult(score: int, comparative: real, words: seq<string>)

  /** The page's `executionResult`: "processing" or "success" (`None` is `null`). */
  datatype ExecutionState = Processing | Succeeded

  /** The sentiment fragment of a run: applet 1 anywhere in the pipeline runs the analyser. */
  function SentimentFragment(appletIds: seq<int>, inputData: string, analyze: string -> SentimentResult): (r: Option<SentimentResult>)
    ensures r.Some? <==> 1 in appletIds
    ensures r.Some? ==> r.value == analyze(inputData)
  {
    if 1 in appletIds then Some(analyze(inputData)) else None
  }

  /** The summary fragment of a run: applet 5 anywhere in the pipeline runs the heuristic. */
  function SummaryFragment(appletIds: seq<int>, inputData: string): (r: Option<string>)
    ensures r.Some? <==> 5 in appletIds
    ensures r.Some? ==> r.value == Summarize(inputData)
  {
    if 5 in appletIds then Some(Summarize(inputData)) else None
  }

  /** Dispatch looks only at which ids occur: order, repetition and every id other than
      1 and 5 make no difference. */
  lemma DispatchByMembership(a: seq<int>, b: seq<int>, inputData: string, analyze: string -> SentimentResult)
    requires (1 in a <==> 1 in b) && (5 in a <==> 5 in b)
    ensures SentimentFragment(a, inputData, analyze) == SentimentFragment(b, inputData, analyze)
    ensures SummaryFragment(a, inputData) == SummaryFragment(b, inputData)
  {
  }

  /** The page's state. */
  class Page {
    var executionResult: Option<ExecutionState>
    var sentimentResult: Option<SentimentResult>
    var summaryResult: Option<string>
    /** Every value `executionResult` has been set to, in order. */
    ghost var statusTrace: seq<Option<ExecutionState>>

    constructor ()
      ensures executionResult == None && sentimentResult == None && summaryResult == None
      ensures statusTrace == []
    {
      executionResult, sentimentResult, summaryResult := None, None, None;
      statusTrace := [];
    }

    /** `handleExecute(appletIds, totalPrice, inputData)` against the mock `store`.
        `analyze` is the sentiment library, `formatEther` the wei-to-ether formatter,
        `nowMs` the clock and `randomHex` the text of `Math.random().toString(16)`.
        Status goes to "processing" and both results are cleared; applets 1 and 5 run if
        present; exactly one entry is logged with the ids unchanged and the formatted
        price; status ends at "success". */
    method HandleExecute(
      appletIds: seq<int>, totalPrice: int, inputData: string, store: MockData.Store,
      analyze: string -> SentimentResult, formatEther: int -> string, nowMs: int, randomHex: string)
      modifies this, store
      ensures statusTrace == old(statusTrace) + [Some(Processing), Some(Succeeded)]
      ensures executionResult == Some(Succeeded)
      ensures sentimentResult == SentimentFragment(appletIds, inputData, analyze)
      ensures summaryResult == SummaryFragment(appletIds, inputData)
      ensures store.executions ==
        [MockData.NewExecution(old(store.executions), appletIds, formatEther(totalPrice), nowMs, randomHex)]
        + old(store.executions)
      ensures store.applets == old(store.applets)
      ensures old(store.Valid()) ==> store.Valid()
    {
      executionResult := Some(Processing);
      statusTrace := statusTrace + [executionResult];
      sentimentResult := None;
      summaryResult := None;

      if 1 in appletIds {
        sentimentResult := Some(analyze(inputData));
      }
      if 5 in appletIds {
        var summary := JoinedSummary(inputData);
        summaryResult := Some(if summary == "" then Fallback else summary);
      }

      store.LogExecution(appletIds, formatEther(totalPrice), nowMs, randomHex);

      executionResult := Some(Succeeded);
      statusTrace := statusTrace + [executionResult];
    }
  }
}
