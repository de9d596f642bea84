/**
  The resumable reader replay: a fixed order of calls with the canary first, one authoritative
  state file written before the files that are projected from it, and a process that may stop
  between any two writes.  What one call yields is an arbitrary deterministic function.
 */
module ReplayState {
  import opened Common
  import opened Sequences

  datatype Arm = Qwen37 | Glm53 | Qwen38

  datatype Call = Call(arm: Arm, caseId: string)

  // failed: every retry was used up; verified: the provider confirmed its thinking mode.
  datatype CaseResult = CaseResult(caseId: string, failed: bool, verified: bool, content: string)

  datatype Metadata = Metadata(attempts: nat, verified: bool)

  datatype Outcome = Done(result: CaseResult) | Fatal(lastCall: Option<Metadata>)

  datatype Sources = Sources(qwen37: seq<string>, glm53: seq<string>, qwen38: seq<string>) {
    function Of(arm: Arm): seq<string> {
      match arm
      case Qwen37 => qwen37
      case Glm53 => glm53
      case Qwen38 => qwen38
    }
  }

  // accepts is the validator of a single case result.
  datatype Setting = Setting(sources: Sources, perform: Call -> Outcome, accepts: (Call, CaseResult) -> bool)

  const CANARY_CASE_ID := "perltqa:23d905b73c57:dialogues:836f6182a0a9"
  const EXPECTED_CASE_COUNT := 40
  const MAX_ATTEMPTS := 3

  predicate ValidArm(cases: seq<string>) {
    |cases| == EXPECTED_CASE_COUNT && AllDistinct(cases) && CANARY_CASE_ID in cases
  }

  predicate ValidSources(sources: Sources) {
    && ValidArm(sources.qwen37) && ValidArm(sources.glm53) && ValidArm(sources.qwen38)
    && Elements(sources.qwen37) == Elements(sources.glm53) == Elements(sources.qwen38)
  }

  predicate ValidMetadata(m: Metadata) { 1 <= m.attempts <= MAX_ATTEMPTS }

  predicate Behaves(setting: Setting, call: Call) {
    match setting.perform(call)
    case Done(result) => && result.caseId == call.caseId && setting.accepts(call, result)
                         && (result.failed ==> !result.verified)
    case Fatal(lastCall) => lastCall.Some? ==> ValidMetadata(lastCall.value)
  }

  ghost predicate WellBehaved(setting: Setting) {
    forall call: Call :: Behaves(setting, call)
  }

  /******* The canonical order *******/

  function Calls(arm: Arm, cases: seq<string>): (calls: seq<Call>)
    ensures |calls| == |cases| && forall i | 0 <= i < |cases| :: calls[i] == Call(arm, cases[i])
  {
    if cases == [] then [] else [Call(arm, cases[0])] + Calls(arm, cases[1..])
  }

  function WithoutCanary(cases: seq<string>): seq<string> {
    if cases == [] then []
    else (if cases[0] == CANARY_CASE_ID then [] else [cases[0]]) + WithoutCanary(cases[1..])
  }

  function Order(sources: Sources): seq<Call> {
    [Call(Qwen37, CANARY_CASE_ID)] + Calls(Qwen37, WithoutCanary(sources.qwen37))
    + Calls(Glm53, sources.glm53) + Calls(Qwen38, sources.qwen38)
  }

  lemma {:induction false} WithoutCanaryMembers(cases: seq<string>)
    requires AllDistinct(cases)
    ensures AllDistinct(WithoutCanary(cases))
    ensures forall x :: x in WithoutCanary(cases) <==> x in cases && x != CANARY_CASE_ID
    ensures |WithoutCanary(cases)| == |cases| - if CANARY_CASE_ID in cases then 1 else 0
  {
    if cases != [] {
      var rest := cases[1..];
      assert cases == [cases[0]] + rest && cases[0] !in rest;
      WithoutCanaryMembers(rest);
      assert forall x :: x in cases <==> x == cases[0] || x in rest;
    }
  }

  lemma {:induction false} DistinctConcat<T>(a: seq<T>, b: seq<T>)
    requires AllDistinct(a) && AllDistinct(b) && forall x | x in a :: x !in b
    ensures AllDistinct(a + b)
  {
    forall j, k | 0 <= j < k < |a + b| ensures (a + b)[j] != (a + b)[k] {
      if j < |a| <= k { assert a[j] in a && b[k - |a|] in b; }
    }
  }

  lemma {:induction false} CallsDistinct(arm: Arm, cases: seq<string>)
    requires AllDistinct(cases)
    ensures AllDistinct(Calls(arm, cases))
    ensures forall call | call in Calls(arm, cases) :: call.arm == arm
  {
  }

  // Every pair of an arm and one of its cases is called exactly once, the canary first.
  lemma {:induction false} OrderIsPermutation(sources: Sources)
    requires ValidSources(sources)
    ensures AllDistinct(Order(sources)) && |Order(sources)| == 3 * EXPECTED_CASE_COUNT
    ensures Order(sources)[0] == Call(Qwen37, CANARY_CASE_ID)
    ensures forall call: Call :: call in Order(sources) <==> call.caseId in sources.Of(call.arm)
  {
    OrderIsDistinct(sources);
    forall call: Call ensures call in Order(sources) <==> call.caseId in sources.Of(call.arm) {
      OrderMember(sources, call);
    }
  }

  lemma {:induction false} OrderMember(sources: Sources, call: Call)
    requires ValidSources(sources)
    ensures call in Order(sources) <==> call.caseId in sources.Of(call.arm)
  {
    WithoutCanaryMembers(sources.qwen37);
    CallsMember(Qwen37, WithoutCanary(sources.qwen37), call);
    CallsMember(Glm53, sources.glm53, call);
    CallsMember(Qwen38, sources.qwen38, call);
  }

  lemma {:induction false} OrderIsDistinct(sources: Sources)
    requires ValidSources(sources)
    ensures AllDistinct(Order(sources)) && |Order(sources)| == 3 * EXPECTED_CASE_COUNT
  {
    var rest := WithoutCanary(sources.qwen37);
    var first := [Call(Qwen37, CANARY_CASE_ID)];
    var a, b, c := Calls(Qwen37, rest), Calls(Glm53, sources.glm53), Calls(Qwen38, sources.qwen38);
    WithoutCanaryMembers(sources.qwen37);
    CallsDistinct(Qwen37, rest);
    CallsDistinct(Glm53, sources.glm53);
    CallsDistinct(Qwen38, sources.qwen38);
    CallsMember(Qwen37, rest, first[0]);
    DistinctConcat(first, a);
    DistinctConcat(first + a, b);
    DistinctConcat(first + a + b, c);
  }

  lemma {:induction false} CallsMember(arm: Arm, cases: seq<string>, call: Call)
    ensures call in Calls(arm, cases) <==> call.arm == arm && call.caseId in cases
  {
  }

  /******* Case states *******/

  datatype CaseStates = CaseStates(qwen37: seq<CaseResult>, glm53: seq<CaseResult>, qwen38: seq<CaseResult>) {
    function Of(arm: Arm): seq<CaseResult> {
      match arm
      case Qwen37 => qwen37
      case Glm53 => glm53
      case Qwen38 => qwen38
    }

    function Add(arm: Arm, result: CaseResult): CaseStates {
      match arm
      case Qwen37 => this.(qwen37 := qwen37 + [result])
      case Glm53 => this.(glm53 := glm53 + [result])
      case Qwen38 => this.(qwen38 := qwen38 + [result])
    }
  }

  // The calls of one arm, in order.
  function ForArm(calls: seq<Call>, arm: Arm): seq<Call> {
    if calls == [] then []
    else
      var last := |calls| - 1;
      ForArm(calls[..last], arm) + if calls[last].arm == arm then [calls[last]] else []
  }

  datatype Status =
    | Running
    | CanaryCompleted
    | ModeUnverified
    | CanaryFailed
    | Aborted
    | Completed
    | CompletedWithFailures

  // The authoritative state file.  identity is everything derived from the sources; preflight
  // marks an abort before the sources were accepted.
  datatype Checkpoint = Checkpoint(
    identity: Option<Sources>,
    status: Status,
    executionOrder: seq<Call>,
    logicalCalls: nat,
    failedCases: seq<Call>,
    caseStates: CaseStates,
    abortedCase: Option<Call>,
    abortedCall: Option<Metadata>,
    preflight: bool)

  function FailedOf(arm: Arm, results: seq<CaseResult>): seq<Call> {
    if results == [] then []
    else (if results[0].failed then [Call(arm, results[0].caseId)] else []) + FailedOf(arm, results[1..])
  }

  function FailedCases(states: CaseStates): seq<Call> {
    FailedOf(Qwen37, states.qwen37) + FailedOf(Glm53, states.glm53) + FailedOf(Qwen38, states.qwen38)
  }

  function Build(sources: Sources, states: CaseStates, status: Status, order: seq<Call>,
                 abortedCase: Option<Call>, abortedCall: Option<Metadata>): Checkpoint {
    Checkpoint(Some(sources), status, order, |order|, FailedCases(states), states, abortedCase, abortedCall, false)
  }

  /******* The validator of the state file *******/

  function Min(a: int, b: int): int { if a < b then a else b }

  predicate ResultsMatch(setting: Setting, calls: seq<Call>, results: seq<CaseResult>) {
    && |results| == |calls|
    && forall i | 0 <= i < |calls| ::
         && results[i].caseId == calls[i].caseId && setting.accepts(calls[i], results[i])
         && (results[i].failed ==> !results[i].verified)
  }

  predicate CanaryVerified(states: CaseStates) {
    states.qwen37 != [] && !states.qwen37[0].failed && states.qwen37[0].verified
  }

  // What each status demands of the number of calls and of the failures.
  predicate StatusFitsCalls(c: Checkpoint, total: nat) {
    var count := |c.executionOrder|;
    match c.status
    case Running => 1 <= count < total
    case CanaryCompleted | ModeUnverified | CanaryFailed => count == 1
    case Completed => count == total && c.failedCases == []
    case CompletedWithFailures => count == total && c.failedCases != []
    case Aborted => true
  }

  predicate AbortIsCoherent(c: Checkpoint, order: seq<Call>)
    requires c.status.Aborted?
  {
    var count := |c.executionOrder|;
    if c.abortedCall.Some? then
      count > 0 && c.abortedCase == Some(c.executionOrder[count - 1]) && ValidMetadata(c.abortedCall.value)
    else
      || (c.preflight && count == 0)
      || (count < |order| && c.abortedCase == Some(order[count]))
  }

  predicate CanaryFitsStatus(c: Checkpoint) {
    match c.status
    case Aborted => true
    case ModeUnverified =>
      c.caseStates.qwen37 != [] && !c.caseStates.qwen37[0].failed && !c.caseStates.qwen37[0].verified
    case CanaryFailed => c.caseStates.qwen37 != [] && c.caseStates.qwen37[0].failed
    case _ => CanaryVerified(c.caseStates)
  }

  predicate Accepts(setting: Setting, c: Checkpoint) {
    var order := Order(setting.sources);
    var count := |c.executionOrder|;
    var completed := count - if c.abortedCall.Some? then 1 else 0;
    && c.identity == Some(setting.sources)
    && c.logicalCalls == count
    && c.executionOrder == order[..Min(count, |order|)]
    && (c.abortedCall.Some? ==> c.status.Aborted?)
    && completed >= 0
    && (forall arm: Arm :: ResultsMatch(setting, ForArm(order[..Min(completed, |order|)], arm), c.caseStates.Of(arm)))
    && c.failedCases == FailedCases(c.caseStates)
    && StatusFitsCalls(c, |order|)
    && (c.status.Aborted? ==> AbortIsCoherent(c, order))
    && CanaryFitsStatus(c)
  }
}

/** The states a run writes, and what the validator makes of them. */
module ReplayStates {
  import opened Common
  import opened Sequences
  import opened ReplayState

  predicate AllDone(setting: Setting, calls: seq<Call>) {
    forall i | 0 <= i < |calls| :: setting.perform(calls[i]).Done?
  }

  function StatesAfter(setting: Setting, calls: seq<Call>): CaseStates
    requires AllDone(setting, calls)
  {
    if calls == [] then CaseStates([], [], [])
    else
      var last := |calls| - 1;
      StatesAfter(setting, calls[..last]).Add(calls[last].arm, setting.perform(calls[last]).result)
  }

  // The canary came back, and with its thinking mode confirmed.
  predicate CanaryOk(setting: Setting) {
    var outcome := setting.perform(Order(setting.sources)[0]);
    outcome.Done? && !outcome.result.failed && outcome.result.verified
  }

  // A run may have made exactly the first n calls.
  predicate Reached(setting: Setting, n: nat) {
    && n <= |Order(setting.sources)|
    && AllDone(setting, Order(setting.sources)[..n])
    && (n > 1 ==> CanaryOk(setting))
  }

  function StatusAfter(setting: Setting, n: nat, canaryOnly: bool): Status
    requires Reached(setting, n) && n > 0
  {
    var order := Order(setting.sources);
    if n == 1 && setting.perform(order[0]).result.failed then CanaryFailed
    else if n == 1 && !setting.perform(order[0]).result.verified then ModeUnverified
    else if n == 1 && canaryOnly then CanaryCompleted
    else if n < |order| then Running
    else if FailedCases(StatesAfter(setting, order[..n])) == [] then Completed
    else CompletedWithFailures
  }

  // What is on disk after n calls that went well.
  function StateAfter(setting: Setting, n: nat, canaryOnly: bool): Checkpoint
    requires Reached(setting, n) && n > 0
  {
    var calls := Order(setting.sources)[..n];
    Build(setting.sources, StatesAfter(setting, calls), StatusAfter(setting, n, canaryOnly), calls, None, None)
  }

  // The call after the first n was made and failed beyond repair.
  predicate AbortsAt(setting: Setting, n: nat) {
    && n < |Order(setting.sources)| && Reached(setting, n) && (n > 0 ==> CanaryOk(setting))
    && setting.perform(Order(setting.sources)[n]).Fatal?
  }

  function AbortAfter(setting: Setting, n: nat): Checkpoint
    requires AbortsAt(setting, n)
  {
    var order := Order(setting.sources);
    var lastCall := setting.perform(order[n]).lastCall;
    Build(setting.sources, StatesAfter(setting, order[..n]), Aborted,
          if lastCall.Some? then order[..n] + [order[n]] else order[..n], Some(order[n]), lastCall)
  }

  ghost predicate IsWritten(setting: Setting, c: Checkpoint) {
    || (exists n, canaryOnly :: IsProgress(setting, c, n, canaryOnly))
    || (exists n :: IsAbort(setting, c, n))
  }

  ghost predicate IsProgress(setting: Setting, c: Checkpoint, n: nat, canaryOnly: bool) {
    n > 0 && Reached(setting, n) && c == StateAfter(setting, n, canaryOnly)
  }

  ghost predicate IsAbort(setting: Setting, c: Checkpoint, n: nat) {
    AbortsAt(setting, n) && c == AbortAfter(setting, n)
  }

  lemma {:induction false} StatesMatchCalls(setting: Setting, calls: seq<Call>, arm: Arm)
    requires WellBehaved(setting) && AllDone(setting, calls)
    ensures ResultsMatch(setting, ForArm(calls, arm), StatesAfter(setting, calls).Of(arm))
  {
    if calls != [] {
      StatesMatchCalls(setting, calls[..|calls| - 1], arm);
      assert Behaves(setting, calls[|calls| - 1]);
    }
  }

  // The first result of the canary's arm is the canary's.
  lemma {:induction false} CanaryComesFirst(setting: Setting, calls: seq<Call>)
    requires AllDone(setting, calls) && calls != [] && calls[0].arm == Qwen37
    ensures var states := StatesAfter(setting, calls);
            states.qwen37 != [] && states.qwen37[0] == setting.perform(calls[0]).result
  {
    if |calls| > 1 {
      CanaryComesFirst(setting, calls[..|calls| - 1]);
    } else {
      assert calls[..0] == [];
    }
  }

  lemma {:induction false} ProgressAccepted(setting: Setting, n: nat, canaryOnly: bool)
    requires ValidSources(setting.sources) && WellBehaved(setting) && Reached(setting, n) && n > 0
    ensures Accepts(setting, StateAfter(setting, n, canaryOnly))
  {
    var order := Order(setting.sources);
    OrderIsPermutation(setting.sources);
    forall arm: Arm ensures ResultsMatch(setting, ForArm(order[..n], arm), StatesAfter(setting, order[..n]).Of(arm)) {
      StatesMatchCalls(setting, order[..n], arm);
    }
    CanaryComesFirst(setting, order[..n]);
  }

  lemma {:induction false} AbortAccepted(setting: Setting, n: nat)
    requires ValidSources(setting.sources) && WellBehaved(setting) && AbortsAt(setting, n)
    ensures Accepts(setting, AbortAfter(setting, n))
  {
    hide Order, CanaryOk, ForArm, FailedCases, StatesAfter;
    var order := Order(setting.sources);
    assert order[..n] + [order[n]] == order[..n + 1];
    assert Behaves(setting, order[n]);
    forall arm: Arm ensures ResultsMatch(setting, ForArm(order[..n], arm), StatesAfter(setting, order[..n]).Of(arm)) {
      StatesMatchCalls(setting, order[..n], arm);
    }
  }

  // Whatever a run leaves behind, aborted or not, the validator accepts it.
  lemma {:induction false} WrittenIsAccepted(setting: Setting, c: Checkpoint)
    requires ValidSources(setting.sources) && WellBehaved(setting) && IsWritten(setting, c)
    ensures Accepts(setting, c)
  {
    if n, canaryOnly :| IsProgress(setting, c, n, canaryOnly) {
      ProgressAccepted(setting, n, canaryOnly);
    } else {
      var n :| IsAbort(setting, c, n);
      AbortAccepted(setting, n);
    }
  }

  // Nothing is called after a canary that failed or whose mode was not confirmed.
  lemma {:induction false} BadCanaryStops(setting: Setting, c: Checkpoint)
    requires ValidSources(setting.sources) && IsWritten(setting, c) && !CanaryOk(setting)
    ensures |c.executionOrder| <= 1
    ensures c.executionOrder != [] ==> c.executionOrder == [Call(Qwen37, CANARY_CASE_ID)]
  {
    if n, canaryOnly :| IsProgress(setting, c, n, canaryOnly) {
      assert Order(setting.sources)[..1] == [Order(setting.sources)[0]];
    }
  }

  // What is kept for an arm is, call by call, what its calls yielded.
  lemma {:induction false} StatesAreResults(setting: Setting, calls: seq<Call>, arm: Arm)
    requires AllDone(setting, calls)
    ensures |StatesAfter(setting, calls).Of(arm)| == |ForArm(calls, arm)|
    ensures forall i | 0 <= i < |ForArm(calls, arm)| ::
              setting.perform(ForArm(calls, arm)[i]) == Done(StatesAfter(setting, calls).Of(arm)[i])
  {
    if calls != [] { StatesAreResults(setting, calls[..|calls| - 1], arm); }
  }

  /******* Every state that can be resumed could have been written by some run *******/

  function DropLast(states: CaseStates, arm: Arm): CaseStates
    requires states.Of(arm) != []
  {
    match arm
    case Qwen37 => states.(qwen37 := states.qwen37[..|states.qwen37| - 1])
    case Glm53 => states.(glm53 := states.glm53[..|states.glm53| - 1])
    case Qwen38 => states.(qwen38 := states.qwen38[..|states.qwen38| - 1])
  }

  predicate CountsMatch(calls: seq<Call>, states: CaseStates) {
    forall arm: Arm :: |ForArm(calls, arm)| == |states.Of(arm)|
  }

  lemma {:induction false} CountsAfterDrop(calls: seq<Call>, states: CaseStates)
    requires CountsMatch(calls, states) && calls != []
    ensures states.Of(calls[|calls| - 1].arm) != []
    ensures CountsMatch(calls[..|calls| - 1], DropLast(states, calls[|calls| - 1].arm))
  {
    var last := |calls| - 1;
    assert |ForArm(calls, calls[last].arm)| == |states.Of(calls[last].arm)|;
    forall arm: Arm
      ensures |ForArm(calls[..last], arm)| == |DropLast(states, calls[last].arm).Of(arm)|
    {
      assert |ForArm(calls, arm)| == |states.Of(arm)|;
    }
  }

  // The result recorded for each call.
  function Recorded(calls: seq<Call>, states: CaseStates): (m: map<Call, CaseResult>)
    requires CountsMatch(calls, states)
    ensures forall call :: call in m <==> call in calls
  {
    if calls == [] then map[]
    else
      CountsAfterDrop(calls, states);
      var last := |calls| - 1;
      var results := states.Of(calls[last].arm);
      assert calls == calls[..last] + [calls[last]];
      Recorded(calls[..last], DropLast(states, calls[last].arm))[calls[last] := results[|results| - 1]]
  }

  function Replayer(recorded: map<Call, CaseResult>, lastCall: Option<Metadata>): Call -> Outcome {
    call => if call in recorded then Done(recorded[call]) else Fatal(lastCall)
  }

  lemma {:induction false} RecordedIsValid(setting: Setting, calls: seq<Call>, states: CaseStates, call: Call)
    requires CountsMatch(calls, states) && call in calls
    requires forall arm: Arm :: ResultsMatch(setting, ForArm(calls, arm), states.Of(arm))
    ensures var result := Recorded(calls, states)[call];
            && result.caseId == call.caseId && setting.accepts(call, result) && (result.failed ==> !result.verified)
  {
    var last := |calls| - 1;
    var arm := calls[last].arm;
    CountsAfterDrop(calls, states);
    assert ResultsMatch(setting, ForArm(calls, arm), states.Of(arm));
    if call != calls[last] {
      assert calls == calls[..last] + [calls[last]];
      forall a: Arm ensures ResultsMatch(setting, ForArm(calls[..last], a), DropLast(states, arm).Of(a)) {
        assert ResultsMatch(setting, ForArm(calls, a), states.Of(a));
      }
      RecordedIsValid(setting, calls[..last], DropLast(states, arm), call);
    }
  }

  // The setting in which the recorded calls come back as recorded, and all others fail.
  function Recording(setting: Setting, calls: seq<Call>, states: CaseStates, lastCall: Option<Metadata>): Setting
    requires CountsMatch(calls, states)
  {
    setting.(perform := Replayer(Recorded(calls, states), lastCall))
  }

  lemma {:induction false} ReplayRepeats(setting: Setting, calls: seq<Call>, states: CaseStates,
                                         lastCall: Option<Metadata>)
    requires CountsMatch(calls, states) && AllDistinct(calls) && (lastCall.Some? ==> ValidMetadata(lastCall.value))
    requires forall arm: Arm :: ResultsMatch(setting, ForArm(calls, arm), states.Of(arm))
    ensures var replay := Recording(setting, calls, states, lastCall);
            && WellBehaved(replay) && AllDone(replay, calls) && StatesAfter(replay, calls) == states
            && forall call: Call | call !in calls :: replay.perform(call) == Fatal(lastCall)
  {
    hide ForArm, StatesAfter;
    var replay := Recording(setting, calls, states, lastCall);
    forall call: Call ensures Behaves(replay, call) {
      if call in calls { RecordedIsValid(setting, calls, states, call); }
    }
    RecordedRebuilds(replay, calls, states);
  }

  ghost predicate Repeats(setting: Setting, calls: seq<Call>, recorded: map<Call, CaseResult>) {
    forall i | 0 <= i < |calls| :: calls[i] in recorded && setting.perform(calls[i]) == Done(recorded[calls[i]])
  }

  // Performing the calls again with the recorded results rebuilds the case states.
  lemma {:induction false} RecordedRebuilds(setting: Setting, calls: seq<Call>, states: CaseStates)
    requires CountsMatch(calls, states) && AllDistinct(calls) && Repeats(setting, calls, Recorded(calls, states))
    ensures AllDone(setting, calls) && StatesAfter(setting, calls) == states
  {
    if calls == [] {
      assert |ForArm(calls, Qwen37)| == |states.Of(Qwen37)| && |ForArm(calls, Glm53)| == |states.Of(Glm53)|
             && |ForArm(calls, Qwen38)| == |states.Of(Qwen38)|;
    } else {
      var last := |calls| - 1;
      var arm := calls[last].arm;
      CountsAfterDrop(calls, states);
      EarlierRepeats(setting, calls, states);
      RecordedRebuilds(setting, calls[..last], DropLast(states, arm));
      AddRestores(states, arm);
    }
  }

  lemma {:induction false} EarlierRepeats(setting: Setting, calls: seq<Call>, states: CaseStates)
    requires calls != [] && CountsMatch(calls, states) && AllDistinct(calls)
    requires Repeats(setting, calls, Recorded(calls, states))
    ensures var last := |calls| - 1;
            && states.Of(calls[last].arm) != [] && CountsMatch(calls[..last], DropLast(states, calls[last].arm))
            && Repeats(setting, calls[..last], Recorded(calls[..last], DropLast(states, calls[last].arm)))
            && setting.perform(calls[last]) == Done(states.Of(calls[last].arm)[|states.Of(calls[last].arm)| - 1])
  {
    CountsAfterDrop(calls, states);
    var last := |calls| - 1;
    var recorded := Recorded(calls[..last], DropLast(states, calls[last].arm));
    forall i | 0 <= i < last ensures calls[i] in recorded && setting.perform(calls[i]) == Done(recorded[calls[i]]) {
      assert calls[..last][i] in calls[..last] && calls[i] != calls[last];
    }
  }

  lemma {:induction false} AddRestores(states: CaseStates, arm: Arm)
    requires states.Of(arm) != []
    ensures DropLast(states, arm).Add(arm, states.Of(arm)[|states.Of(arm)| - 1]) == states
  {
    var results := states.Of(arm);
    assert results == results[..|results| - 1] + [results[|results| - 1]];
  }

  ghost predicate IsWrittenBySomeRun(setting: Setting, c: Checkpoint) {
    exists perform :: WellBehaved(setting.(perform := perform)) && IsWritten(setting.(perform := perform), c)
  }

  // What the validator does not ask: that the run was past its preflight checks, that only an
  // aborted state names an aborted case, and that an abort comes after a verified canary.
  predicate IsPlausible(c: Checkpoint) {
    && !c.preflight
    && if c.status.Aborted? then c.caseStates.qwen37 != [] ==> CanaryVerified(c.caseStates) else c.abortedCase.None?
  }

  // Some run could have left a state exactly when the validator accepts it and it is plausible.
  lemma {:induction false} AcceptedIffWritten(setting: Setting, c: Checkpoint)
    requires ValidSources(setting.sources)
    ensures IsWrittenBySomeRun(setting, c) <==> Accepts(setting, c) && IsPlausible(c)
  {
    if IsWrittenBySomeRun(setting, c) {
      var perform :| WellBehaved(setting.(perform := perform)) && IsWritten(setting.(perform := perform), c);
      WrittenIsAccepted(setting.(perform := perform), c);
      WrittenIsPlausible(setting.(perform := perform), c);
      AcceptsIgnoresPerform(setting, perform, c);
    }
    if Accepts(setting, c) && IsPlausible(c) {
      if c.status.Aborted? { AbortIsWritten(setting, c); } else { AcceptedIsWritten(setting, c); }
    }
  }

  // The first n results show whether the canary was verified.
  lemma {:induction false} StatesShowCanary(setting: Setting, n: nat)
    requires ValidSources(setting.sources) && n <= |Order(setting.sources)|
    requires AllDone(setting, Order(setting.sources)[..n])
    ensures var states := StatesAfter(setting, Order(setting.sources)[..n]);
            && (states.qwen37 != [] <==> n > 0)
            && (n > 0 ==> (CanaryVerified(states) <==> CanaryOk(setting)))
  {
    OrderIsPermutation(setting.sources);
    hide Order;
    if n > 0 {
      assert Order(setting.sources)[..n][0] == Order(setting.sources)[0];
      CanaryComesFirst(setting, Order(setting.sources)[..n]);
    }
  }

  lemma {:induction false} WrittenIsPlausible(setting: Setting, c: Checkpoint)
    requires ValidSources(setting.sources) && IsWritten(setting, c)
    ensures IsPlausible(c)
  {
    hide Order, StatesAfter, CanaryVerified, CanaryOk, FailedCases;
    if n, canaryOnly :| IsProgress(setting, c, n, canaryOnly) {
    } else {
      var n: nat :| IsAbort(setting, c, n);
      StatesShowCanary(setting, n);
    }
  }

  // How many calls of an aborted state came back.
  function CallsBack(c: Checkpoint): int {
    |c.executionOrder| - if c.abortedCall.Some? then 1 else 0
  }

  lemma {:induction false} AbortMatches(setting: Setting, c: Checkpoint)
    requires ValidSources(setting.sources) && c.status.Aborted? && Accepts(setting, c) && IsPlausible(c)
    ensures c.abortedCall.Some? ==> ValidMetadata(c.abortedCall.value)
    ensures var order, n := Order(setting.sources), CallsBack(c);
            && 0 <= n < |order| && CountsMatch(order[..n], c.caseStates)
            && (forall arm: Arm :: ResultsMatch(setting, ForArm(order[..n], arm), c.caseStates.Of(arm)))
            && c.abortedCase == Some(order[n])
            && c.executionOrder == if c.abortedCall.Some? then order[..n] + [order[n]] else order[..n]
  {
    hide Order, ForArm, FailedCases, CanaryVerified, CanaryFitsStatus, StatusFitsCalls;
    var order, n := Order(setting.sources), CallsBack(c);
    if c.abortedCall.Some? { assert order[..n + 1] == order[..n] + [order[n]]; }
    forall arm: Arm ensures ResultsMatch(setting, ForArm(order[..n], arm), c.caseStates.Of(arm)) {
    }
  }

  lemma {:induction false} AbortIsWritten(setting: Setting, c: Checkpoint)
    requires ValidSources(setting.sources) && c.status.Aborted? && Accepts(setting, c) && IsPlausible(c)
    ensures IsWrittenBySomeRun(setting, c)
  {
    hide Order, ForArm, AbortIsCoherent, IsPlausible, Recorded, StatesAfter, Accepts, WellBehaved;
    AbortMatches(setting, c);
    OrderIsDistinct(setting.sources);
    var n := CallsBack(c);
    var calls, next := Order(setting.sources)[..n], Order(setting.sources)[n];
    var replay := Recording(setting, calls, c.caseStates, c.abortedCall);
    ReplayRepeats(setting, calls, c.caseStates, c.abortedCall);
    assert forall i | 0 <= i < n :: calls[i] == Order(setting.sources)[i] != next;
    AcceptedFields(setting, c);
    ReplayedAbort(replay, c, n);
    assert IsWritten(replay, c);
    assert setting.(perform := replay.perform) == replay;
  }

  /******* A state that the validator accepts and no run leaves *******/

  // Aborted at the second call, after a canary that failed.
  function AbortAfterFailedCanary(setting: Setting, canary: CaseResult): Checkpoint
    requires |Order(setting.sources)| > 1
  {
    Build(setting.sources, CaseStates([canary], [], []), Aborted, Order(setting.sources)[..1],
          Some(Order(setting.sources)[1]), None)
  }

  lemma {:induction false} AbortIsAccepted(setting: Setting, canary: CaseResult)
    requires |Order(setting.sources)| > 1 && Order(setting.sources)[0] == Call(Qwen37, CANARY_CASE_ID)
    requires canary.caseId == CANARY_CASE_ID && canary.failed && !canary.verified
    requires setting.accepts(Call(Qwen37, CANARY_CASE_ID), canary)
    ensures Accepts(setting, AbortAfterFailedCanary(setting, canary))
  {
    hide Order;
    var calls := Order(setting.sources)[..1];
    assert calls == [Call(Qwen37, CANARY_CASE_ID)] && calls[..0] == [];
    var c := AbortAfterFailedCanary(setting, canary);
    forall arm: Arm ensures ResultsMatch(setting, ForArm(calls, arm), c.caseStates.Of(arm)) {
    }
  }

  lemma {:induction false} AcceptedButNeverWritten(setting: Setting, canary: CaseResult)
    requires ValidSources(setting.sources)
    requires canary.caseId == CANARY_CASE_ID && canary.failed && !canary.verified
    requires setting.accepts(Call(Qwen37, CANARY_CASE_ID), canary)
    ensures |Order(setting.sources)| > 1
    ensures Accepts(setting, AbortAfterFailedCanary(setting, canary))
    ensures !IsWrittenBySomeRun(setting, AbortAfterFailedCanary(setting, canary))
  {
    OrderIsPermutation(setting.sources);
    hide Order, IsWrittenBySomeRun;
    var c := AbortAfterFailedCanary(setting, canary);
    assert Accepts(setting, c) by { AbortIsAccepted(setting, canary); }
    hide Accepts, ForArm;
    AcceptedIffWritten(setting, c);
  }

  // Forty distinct case ids, the canary's among them.
  function SomeCases(n: nat): (cases: seq<string>)
    ensures |cases| == n + 1 && cases[0] == CANARY_CASE_ID
    ensures forall i | 0 < i <= n :: |cases[i]| == |CANARY_CASE_ID| + i
  {
    [CANARY_CASE_ID] + seq(n, i requires 0 <= i < n => seq(|CANARY_CASE_ID| + 1 + i, _ => 'x'))
  }

  lemma {:induction false} SomeCasesAreValid()
    ensures ValidArm(SomeCases(EXPECTED_CASE_COUNT - 1))
  {
    var cases := SomeCases(EXPECTED_CASE_COUNT - 1);
    assert cases[0] in cases;
    forall i, j | 0 <= i < j < |cases| ensures cases[i] != cases[j] {
      assert |cases[j]| == |CANARY_CASE_ID| + j;
    }
  }

  // There is a setting with such a canary.
  lemma {:induction false} SomeAcceptedIsNeverWritten()
    ensures exists setting: Setting, c: Checkpoint ::
              ValidSources(setting.sources) && Accepts(setting, c) && !IsWrittenBySomeRun(setting, c)
  {
    SomeCasesAreValid();
    hide ValidArm, SomeCases, Accepts, IsWrittenBySomeRun, Order;
    var cases := SomeCases(EXPECTED_CASE_COUNT - 1);
    var setting := Setting(Sources(cases, cases, cases), _ => Fatal(None), (_, _) => true);
    AcceptedButNeverWritten(setting, CaseResult(CANARY_CASE_ID, true, false, ""));
  }

  lemma {:induction false} AcceptedFields(setting: Setting, c: Checkpoint)
    requires Accepts(setting, c)
    ensures c.identity == Some(setting.sources) && c.logicalCalls == |c.executionOrder|
    ensures c.failedCases == FailedCases(c.caseStates)
  {
  }

  lemma {:induction false} ReplayedAbort(setting: Setting, c: Checkpoint, n: nat)
    requires ValidSources(setting.sources) && c.status.Aborted? && IsPlausible(c)
    requires c.identity == Some(setting.sources) && c.logicalCalls == |c.executionOrder|
    requires c.failedCases == FailedCases(c.caseStates)
    requires n < |Order(setting.sources)| && AllDone(setting, Order(setting.sources)[..n])
    requires StatesAfter(setting, Order(setting.sources)[..n]) == c.caseStates
    requires var next := Order(setting.sources)[n];
             && setting.perform(next) == Fatal(c.abortedCall) && c.abortedCase == Some(next)
             && c.executionOrder == if c.abortedCall.Some? then Order(setting.sources)[..n] + [next]
                                    else Order(setting.sources)[..n]
    ensures IsAbort(setting, c, n)
  {
    hide Order, StatesAfter, CanaryVerified, CanaryOk, FailedCases;
    StatesShowCanary(setting, n);
  }

  lemma {:induction false} AcceptsIgnoresPerform(setting: Setting, perform: Call -> Outcome, c: Checkpoint)
    requires Accepts(setting.(perform := perform), c)
    ensures Accepts(setting, c)
  {
    hide Order, ForArm, FailedCases, CanaryFitsStatus, StatusFitsCalls, AbortIsCoherent;
    var order, count := Order(setting.sources), |c.executionOrder|;
    var completed := count - if c.abortedCall.Some? then 1 else 0;
    forall arm: Arm ensures ResultsMatch(setting, ForArm(order[..Min(completed, |order|)], arm), c.caseStates.Of(arm)) {
      assert ResultsMatch(setting.(perform := perform), ForArm(order[..Min(completed, |order|)], arm),
          c.caseStates.Of(arm));
    }
  }

  lemma {:induction false} AcceptedIsWritten(setting: Setting, c: Checkpoint)
    requires ValidSources(setting.sources) && !c.status.Aborted? && c.abortedCase.None? && !c.preflight
    requires Accepts(setting, c)
    ensures IsWrittenBySomeRun(setting, c)
  {
    var calls := c.executionOrder;
    OrderIsDistinct(setting.sources);
    AcceptedMatches(setting, c);
    var replay := Recording(setting, calls, c.caseStates, None);
    ReplayRepeats(setting, calls, c.caseStates, None);
    AcceptsIgnoresPerform(replay, setting.perform, c);
    ReplayedStatus(replay, c);
    assert IsWritten(replay, c);
    assert setting.(perform := replay.perform) == replay;
  }

  lemma {:induction false} AcceptedMatches(setting: Setting, c: Checkpoint)
    requires ValidSources(setting.sources) && !c.status.Aborted? && Accepts(setting, c)
    ensures forall arm: Arm :: ResultsMatch(setting, ForArm(c.executionOrder, arm), c.caseStates.Of(arm))
    ensures CountsMatch(c.executionOrder, c.caseStates) && 0 < |c.executionOrder| <= |Order(setting.sources)|
    ensures c.executionOrder == Order(setting.sources)[..|c.executionOrder|]
  {
    OrderIsPermutation(setting.sources);
    forall arm: Arm ensures ResultsMatch(setting, ForArm(c.executionOrder, arm), c.caseStates.Of(arm)) {
    }
  }

  lemma {:induction false} ReplayedStatus(setting: Setting, c: Checkpoint)
    requires ValidSources(setting.sources) && !c.status.Aborted? && c.abortedCase.None? && !c.preflight
    requires Accepts(setting, c)
    requires AllDone(setting, c.executionOrder) && StatesAfter(setting, c.executionOrder) == c.caseStates
    ensures IsProgress(setting, c, |c.executionOrder|, c.status.CanaryCompleted?)
  {
    OrderIsPermutation(setting.sources);
    AcceptedMatches(setting, c);
    CanaryComesFirst(setting, c.executionOrder);
    assert Reached(setting, |c.executionOrder|);
    assert StatusAfter(setting, |c.executionOrder|, c.status.CanaryCompleted?) == c.status;
  }
}

/** The runs themselves, over files that survive the process. */
module ReplayRuns {
  import opened Common
  import opened Sequences
  import opened ReplayState
  import opened ReplayStates

  /******* Projections of the authoritative state *******/

  datatype ArmStatus = ArmIs(status: Status) | Pending

  datatype ArmFile = ArmFile(status: ArmStatus, completedIds: seq<string>, cases: seq<CaseResult>)

  datatype SummaryFile = SummaryFile(status: Status, executionOrder: seq<Call>, failedCases: seq<Call>,
                                     canary: Option<CaseResult>, abortedCase: Option<Call>)

  function CaseIds(results: seq<CaseResult>): seq<string> {
    if results == [] then [] else [results[0].caseId] + CaseIds(results[1..])
  }

  function ArmStatusOf(arm: Arm, results: seq<CaseResult>, total: nat, overall: Status): ArmStatus {
    if overall.Aborted? then ArmIs(Aborted)
    else if (overall.ModeUnverified? || overall.CanaryFailed?) && arm == Qwen37 then ArmIs(overall)
    else if overall.CanaryCompleted? then if arm == Qwen37 then ArmIs(CanaryCompleted) else Pending
    else if |results| == total then
      ArmIs(if FailedOf(arm, results) != [] then CompletedWithFailures else Completed)
    else if results != [] then ArmIs(Running)
    else Pending
  }

  function ArmFileOf(sources: Sources, c: Checkpoint, arm: Arm): ArmFile {
    var results := c.caseStates.Of(arm);
    ArmFile(ArmStatusOf(arm, results, |sources.Of(arm)|, c.status), CaseIds(results), results)
  }

  function SummaryOf(c: Checkpoint): SummaryFile {
    SummaryFile(c.status, c.executionOrder, c.failedCases,
                if c.caseStates.qwen37 != [] then Some(c.caseStates.qwen37[0]) else None, c.abortedCase)
  }

  /******* Where an uninterrupted run ends *******/

  function LastCall(setting: Setting): nat {
    if CanaryOk(setting) then |Order(setting.sources)| else 1
  }

  ghost predicate NoFatal(setting: Setting) {
    forall call: Call :: setting.perform(call).Done?
  }

  // c is the end of the replay: every call made, or the canary made and found wanting.
  ghost predicate IsFinal(setting: Setting, c: Checkpoint) {
    IsProgress(setting, c, LastCall(setting), false)
  }

  lemma {:induction false} PrefixIsRemaining(order: seq<Call>, k: nat)
    requires AllDistinct(order) && k <= |order|
    ensures Remaining(order, Elements(order[..k])) == order[k..]
    decreases |order|
  {
    RemainingFrom(order, k, 0, Elements(order[..k]));
    assert order[0..] == order;
  }

  // The calls not yet completed, in canonical order.
  function Remaining(order: seq<Call>, completed: set<Call>): seq<Call> {
    if order == [] then []
    else (if order[0] in completed then [] else [order[0]]) + Remaining(order[1..], completed)
  }

  lemma {:induction false} InPrefix(order: seq<Call>, k: nat, i: nat)
    requires AllDistinct(order) && i < |order| && k <= |order|
    ensures order[i] in Elements(order[..k]) <==> i < k
  {
    if i < k { assert order[..k][i] in order[..k]; }
  }

  lemma {:induction false} RemainingFrom(order: seq<Call>, k: nat, i: nat, completed: set<Call>)
    requires AllDistinct(order) && i <= |order| && k <= |order| && completed == Elements(order[..k])
    ensures Remaining(order[i..], completed) == if i < k then order[k..] else order[i..]
    decreases |order| - i
  {
    hide AllDistinct, Elements;
    if i < |order| {
      RemainingFrom(order, k, i + 1, completed);
      InPrefix(order, k, i);
      assert order[i..][1..] == order[i + 1..] && order[i..] == [order[i]] + order[i + 1..];
    }
  }

  function CallsOf(arm: Arm, results: seq<CaseResult>): set<Call> {
    set r | r in results :: Call(arm, r.caseId)
  }

  function CompletedCalls(states: CaseStates): set<Call> {
    CallsOf(Qwen37, states.qwen37) + CallsOf(Glm53, states.glm53) + CallsOf(Qwen38, states.qwen38)
  }

  lemma {:induction false} CompletedAfter(setting: Setting, calls: seq<Call>)
    requires WellBehaved(setting) && AllDone(setting, calls)
    ensures CompletedCalls(StatesAfter(setting, calls)) == Elements(calls)
  {
    if calls != [] {
      var last := |calls| - 1;
      CompletedAfter(setting, calls[..last]);
      assert Behaves(setting, calls[last]);
      ElementsUpTo(calls, last);
      assert calls[..last + 1] == calls;
      AddCompletes(StatesAfter(setting, calls[..last]), calls[last], setting.perform(calls[last]).result);
    } else {
      assert Elements(calls) == {};
    }
  }

  lemma {:induction false} AddCompletes(states: CaseStates, call: Call, result: CaseResult)
    requires result.caseId == call.caseId
    ensures CompletedCalls(states.Add(call.arm, result)) == CompletedCalls(states) + {call}
  {
    var results := states.Of(call.arm);
    assert CallsOf(call.arm, results + [result]) == CallsOf(call.arm, results) + {call};
  }

  datatype RunResult = Finished | Rejected | Stopped | Crashed

  class Replay {
    const setting: Setting

    // The files of the output directory.
    var state: Option<Checkpoint>
    var arms: map<Arm, ArmFile>
    var summary: Option<SummaryFile>

    constructor (setting: Setting)
      ensures this.setting == setting && state == None
    {
      this.setting := setting;
      state, arms, summary := None, map[], None;
    }

    // Nothing is on disk, or what some run of this setting wrote.
    ghost predicate Valid()
      reads this
    {
      && ValidSources(setting.sources) && WellBehaved(setting)
      && (state.Some? ==> IsWritten(setting, state.value))
    }

    ghost predicate IsProjected()
      reads this
    {
      && state.Some?
      && summary == Some(SummaryOf(state.value))
      && forall arm: Arm :: arm in arms && arms[arm] == ArmFileOf(setting.sources, state.value, arm)
    }

    // Writes the arm files and the summary; the process may stop before any of the writes,
    // unless it is reliable.
    method Project(c: Checkpoint, reliable: bool) returns (died: bool)
      requires state == Some(c)
      modifies this`arms, this`summary
      ensures (reliable ==> !died) && (!died ==> IsProjected())
    {
      died := *;
      if died && !reliable { return; }
      arms := arms[Qwen37 := ArmFileOf(setting.sources, c, Qwen37)];
      died := *;
      if died && !reliable { return; }
      arms := arms[Glm53 := ArmFileOf(setting.sources, c, Glm53)];
      died := *;
      if died && !reliable { return; }
      arms := arms[Qwen38 := ArmFileOf(setting.sources, c, Qwen38)];
      died := *;
      if died && !reliable { return; }
      summary := Some(SummaryOf(c));
      died := false;
      forall arm: Arm ensures arm in arms && arms[arm] == ArmFileOf(setting.sources, state.value, arm) {
        match arm
        case Qwen37 =>
        case Glm53 =>
        case Qwen38 =>
      }
    }

    // The state file is replaced as a whole, before any projection.
    method Persist(c: Checkpoint, reliable: bool) returns (died: bool)
      modifies this
      ensures state == Some(c) || (died && state == old(state))
      ensures (reliable ==> !died) && (!died ==> state == Some(c) && IsProjected())
    {
      died := *;
      if died && !reliable { return; }
      state := Some(c);
      died := Project(c, reliable);
    }

    // Loads, checks and projects the state to resume from; None when it cannot be resumed.
    method ResumeState(reliable: bool) returns (r: Option<Checkpoint>, died: bool)
      requires Valid()
      modifies this`arms, this`summary
      ensures reliable ==> !died
      ensures !died && r.Some? ==> state == r && IsProjected()
      ensures !died && r.Some? ==> exists n, canaryOnly :: IsProgress(setting, r.value, n, canaryOnly)
      ensures !died && r.Some? ==> CanaryOk(setting)
      ensures !died ==> (r.Some? <==> Resumable(state))
    {
      died := false;
      if state.None? || state.value.status.Aborted? { return None, false; }
      WrittenIsAccepted(setting, state.value);
      if !Accepts(setting, state.value) { return None, false; }
      died := Project(state.value, reliable);
      if died { return None, true; }
      if state.value.status.ModeUnverified? || state.value.status.CanaryFailed? { return None, false; }
      ResumableCanary(setting, state.value);
      return state, false;
    }

    // The call after n calls failed beyond repair: its state is written and the run stops.
    method RecordAbort(ghost n: nat, call: Call, states: CaseStates, executionOrder: seq<Call>,
                       lastCall: Option<Metadata>, reliable: bool)
      returns (died: bool)
      requires Valid() && AbortsAt(setting, n) && call == Order(setting.sources)[n]
      requires lastCall == setting.perform(call).lastCall
      requires executionOrder == Order(setting.sources)[..n] && states == StatesAfter(setting, executionOrder)
      modifies this
      ensures Valid()
      ensures (died && state == old(state)) || (state.Some? && IsAbort(setting, state.value, n))
      ensures (reliable ==> !died) && (!died ==> IsProjected())
    {
      var executionOrder' := executionOrder;
      if lastCall.Some? { executionOrder' := executionOrder' + [call]; }
      var aborted := Build(setting.sources, states, Aborted, executionOrder', Some(call), lastCall);
      assert IsAbort(setting, aborted, n);
      died := Persist(aborted, reliable);
    }

    // The call after n calls came back: the grown state is written with the status it calls for.
    method RecordResult(ghost n: nat, call: Call, result: CaseResult, isLast: bool, states: CaseStates,
                        executionOrder: seq<Call>, canaryOnly: bool, reliable: bool)
      returns (status: Status, died: bool)
      requires Valid() && n < |Order(setting.sources)| && Reached(setting, n + 1)
      requires call == Order(setting.sources)[n] && setting.perform(call) == Done(result)
      requires isLast == (n + 1 == |Order(setting.sources)|)
      requires executionOrder == Order(setting.sources)[..n + 1] && states == StatesAfter(setting, executionOrder)
      modifies this
      ensures Valid() && status == StatusAfter(setting, n + 1, canaryOnly)
      ensures (died && state == old(state)) || (state.Some? && IsProgress(setting, state.value, n + 1, canaryOnly))
      ensures (reliable ==> !died) && (!died ==> IsProjected())
    {
      status := Running;
      if call.arm == Qwen37 && call.caseId == CANARY_CASE_ID {
        if result.failed { status := CanaryFailed; }
        else if !result.verified { status := ModeUnverified; }
        else if canaryOnly { status := CanaryCompleted; }
      }
      if status.Running? && isLast {
        status := if FailedCases(states) != [] then CompletedWithFailures else Completed;
      }
      OnlyFirstIsCanary(setting.sources, n);
      var next := Build(setting.sources, states, status, executionOrder, None, None);
      assert IsProgress(setting, next, n + 1, canaryOnly);
      died := Persist(next, reliable);
    }

    // Makes the call after n calls and persists its outcome.  None: the loop goes on.
    method MakeCall(ghost n: nat, call: Call, isLast: bool, states: CaseStates, executionOrder: seq<Call>,
                    canaryOnly: bool, reliable: bool)
      returns (r: Option<RunResult>, states': CaseStates, executionOrder': seq<Call>)
      requires Valid() && n < |Order(setting.sources)| && Midway(setting, n, states, executionOrder)
      requires call == Order(setting.sources)[n] && isLast == (n + 1 == |Order(setting.sources)|)
      modifies this
      ensures Valid()
      ensures r.None? ==> Midway(setting, n + 1, states', executionOrder') && !(n == 0 && canaryOnly)
      ensures r.None? || r == Some(Finished) ==>
                state.Some? && IsProgress(setting, state.value, n + 1, canaryOnly) && IsProjected()
      ensures r == Some(Finished) ==> n == 0 && (canaryOnly || !CanaryOk(setting))
      ensures r == Some(Stopped) ==> state.Some? && IsAbort(setting, state.value, n) && IsProjected()
      ensures (state == old(state) && r == Some(Crashed)) || (state.Some? && Follows(setting, state.value, n))
      ensures r != Some(Rejected) && (reliable ==> r != Some(Crashed))
    {
      hide Order, IsWritten, StatesAfter;
      states', executionOrder' := states, executionOrder;
      var outcome := setting.perform(call);
      if outcome.Fatal? {
        var died := RecordAbort(n, call, states, executionOrder, outcome.lastCall, reliable);
        return Some(if died then Crashed else Stopped), states', executionOrder';
      }
      executionOrder' := executionOrder' + [call];
      states' := states.Add(call.arm, outcome.result);
      OneMoreCall(setting, n);
      var status, died := RecordResult(n, call, outcome.result, isLast, states', executionOrder', canaryOnly, reliable);
      if died { return Some(Crashed), states', executionOrder'; }
      StatusTells(setting, n, canaryOnly);
      if status in {CanaryCompleted, ModeUnverified, CanaryFailed} {
        return Some(Finished), states', executionOrder';
      }
      return None, states', executionOrder';
    }

    // The calls still to be made after n calls that went well.
    method Plan(ghost n: nat, states: CaseStates) returns (completed: set<Call>, remaining: seq<Call>)
      requires Valid() && Reached(setting, n) && states == StatesAfter(setting, Order(setting.sources)[..n])
      ensures completed == Elements(Order(setting.sources)[..n])
      ensures remaining == Order(setting.sources)[n..]
      ensures Call(Qwen37, CANARY_CASE_ID) in completed <==> n > 0
    {
      ghost var order := Order(setting.sources);
      OrderIsPermutation(setting.sources);
      CompletedAfter(setting, order[..n]);
      PrefixIsRemaining(order, n);
      assert n > 0 ==> order[..n][0] == order[0];
      completed := CompletedCalls(states);
      remaining := Remaining(Order(setting.sources), completed);
    }

    // What the run starts from: nothing, or the state on disk.
    method Start(resume: bool, reliable: bool) returns (r: Option<(CaseStates, seq<Call>)>, died: bool)
      requires Valid()
      modifies this`arms, this`summary
      ensures reliable ==> !died
      ensures !died && r.Some? ==>
                Midway(setting, |r.value.1|, r.value.0, r.value.1)
      ensures !died && r.Some? && !resume ==> r.value.1 == []
      ensures !died && r.Some? && resume ==>
          IsProjected() && InProgress(setting, state.value, |r.value.1|) && r.value.1 != []
      ensures !died && r.None? ==> resume && !Resumable(state)
      ensures !died && r.Some? && resume ==> Resumable(state)
    {
      if !resume {
        assert Order(setting.sources)[..0] == [];
        return Some((CaseStates([], [], []), [])), false;
      }
      var c;
      c, died := ResumeState(reliable);
      if died || c.None? { return None, died; }
      ghost var n, canaryOnly :| IsProgress(setting, c.value, n, canaryOnly);
      return Some((c.value.caseStates, c.value.executionOrder)), false;
    }

    /**
      One invocation, fresh or resuming.  It stops where a process may die, or with the run's
      own verdict; whatever happens, what is on disk is what some run of this setting writes.
     */
    method Run(canaryOnly: bool, resume: bool, reliable: bool) returns (r: RunResult)
      requires Valid()
      modifies this
      ensures Valid() && (reliable ==> r != Crashed)
      ensures r == Finished ==> IsProjected()
      ensures r == Finished && !canaryOnly ==> IsFinal(setting, state.value)
      ensures r == Finished && canaryOnly && !resume ==> IsProgress(setting, state.value, 1, true)
      ensures r == Rejected ==> resume && state == old(state) && !Resumable(state)
      ensures r == Stopped ==> IsProjected() && exists n :: IsAbort(setting, state.value, n)
      ensures resume && !Resumable(old(state)) ==> state == old(state) && r in {Rejected, Crashed}
      ensures resume && canaryOnly ==> state == old(state)
      ensures resume && old(state).Some? && IsFinal(setting, old(state).value) ==> state == old(state)
      ensures resume && old(state).Some? ==> state.Some? && Extends(old(state).value, state.value)
    {
      ghost var order := Order(setting.sources);
      var start, died := Start(resume, reliable);
      if died { return Crashed; }
      if start.None? { return Rejected; }
      var states, executionOrder := start.value.0, start.value.1;
      ghost var k := |executionOrder|;
      var completed, remaining := Plan(k, states);
      if resume { FinalHasAllCalls(setting, state.value); }
      if remaining == [] || (canaryOnly && Call(Qwen37, CANARY_CASE_ID) in completed) {
        if k == |order| { AllCallsAreFinal(setting, state.value); }
        return Finished;
      }
      r := CallRemaining(k, remaining, states, executionOrder, canaryOnly, resume, reliable);
    }

    // The loop over the remaining calls, k of them already made.
    method CallRemaining(ghost k: nat, remaining: seq<Call>, states: CaseStates, executionOrder: seq<Call>,
                         canaryOnly: bool, ghost resume: bool, reliable: bool)
      returns (r: RunResult)
      requires Valid() && k < |Order(setting.sources)| && remaining == Order(setting.sources)[k..]
      requires Midway(setting, k, states, executionOrder)
      requires k == 0 || !canaryOnly
      requires resume ==> k > 0 && state.Some? && InProgress(setting, state.value, k) && !state.value.status.Aborted?
      modifies this
      ensures Valid() && r != Rejected && (reliable ==> r != Crashed)
      ensures r == Finished ==> IsProjected()
      ensures r == Finished && !canaryOnly ==> IsFinal(setting, state.value)
      ensures r == Finished && canaryOnly ==> IsProgress(setting, state.value, 1, true)
      ensures r == Stopped ==> IsProjected() && exists n :: IsAbort(setting, state.value, n)
      ensures resume ==> state.Some? && Extends(old(state).value, state.value)
    {
      ghost var order := Order(setting.sources);
      hide Order, Reached, StateAfter, AbortAfter, StatesAfter, WellBehaved;
      var states, executionOrder := states, executionOrder;
      for i := 0 to |remaining|
        invariant Valid() && k + |remaining| == |order| && Midway(setting, k + i, states, executionOrder)
        invariant k + i > 0 ==> !canaryOnly
        invariant i == 0 ==> state == old(state)
        invariant i > 0 ==> IsProjected() && state.Some? && InProgress(setting, state.value, k + i)
        invariant resume ==> state.Some? && Extends(old(state).value, state.value)
      {
        ghost var before := state;
        var outcome;
        outcome, states, executionOrder :=
          MakeCall(k + i, remaining[i], i == |remaining| - 1, states, executionOrder, canaryOnly, reliable);
        if resume && state != before { Grown(setting, old(state).value, state.value, k, k + i); }
        if outcome.Some? {
          if outcome.value.Finished? { CanaryEnds(setting, state.value, canaryOnly); }
          return outcome.value;
        }
      }
      AllCallsAreFinal(setting, state.value);
      return Finished;
    }

    /**
      Any invocations, each fresh or resuming, canary only or full, dying anywhere, and then a
      full one: if that one ends, the state is the one an uninterrupted replay ends with, and
      without fatal failures nothing but a crash, or the want of a state to resume, can stop it.
     */
    method AfterAnyRuns(runs: seq<(bool, bool, bool)>, resume: bool, reliable: bool) returns (r: RunResult)
      requires Valid()
      modifies this
      ensures Valid()
      ensures r == Finished ==> IsProjected() && IsFinal(setting, state.value)
      ensures NoFatal(setting) && CanaryOk(setting) && reliable && (resume ==> state.Some?) ==> r == Finished
    {
      for i := 0 to |runs|
        invariant Valid()
      {
        var _ := Run(runs[i].0, runs[i].1, runs[i].2);
      }
      r := Run(false, resume, reliable);
      if NoFatal(setting) && CanaryOk(setting) && state.Some? { HealthyIsResumable(setting, state.value); }
    }
  }

  // Exactly n calls were made and went well, and the loop may make another.
  ghost predicate Midway(setting: Setting, n: nat, states: CaseStates, executionOrder: seq<Call>) {
    && Reached(setting, n) && (n > 0 ==> CanaryOk(setting))
    && executionOrder == Order(setting.sources)[..n] && states == StatesAfter(setting, executionOrder)
  }

  // c was written after n calls that went well.
  ghost predicate InProgress(setting: Setting, c: Checkpoint, n: nat) {
    exists canaryOnly :: IsProgress(setting, c, n, canaryOnly)
  }

  // c was written by the call after the first n.
  ghost predicate Follows(setting: Setting, c: Checkpoint, n: nat) {
    InProgress(setting, c, n + 1) || IsAbort(setting, c, n)
  }

  lemma {:induction false} AllCallsAreFinal(setting: Setting, c: Checkpoint)
    requires ValidSources(setting.sources)
    requires InProgress(setting, c, |Order(setting.sources)|)
    ensures IsFinal(setting, c)
  {
    OnlyFirstIsCanary(setting.sources, 0);
  }

  // A final state that may be resumed has every call behind it.
  lemma {:induction false} FinalHasAllCalls(setting: Setting, c: Checkpoint)
    ensures CanaryOk(setting) && IsFinal(setting, c) ==> |c.executionOrder| == |Order(setting.sources)|
  {
  }

  lemma {:induction false} CanaryEnds(setting: Setting, c: Checkpoint, canaryOnly: bool)
    requires IsProgress(setting, c, 1, canaryOnly) && (canaryOnly || !CanaryOk(setting))
    ensures !canaryOnly ==> IsFinal(setting, c)
  {
  }

  lemma {:induction false} StatesGrow(setting: Setting, calls: seq<Call>, n: nat, arm: Arm)
    requires AllDone(setting, calls) && n <= |calls|
    ensures AllDone(setting, calls[..n])
    ensures StatesAfter(setting, calls[..n]).Of(arm) <= StatesAfter(setting, calls).Of(arm)
  {
    if n == |calls| {
      assert calls[..n] == calls;
    } else {
      StatesGrow(setting, calls[..|calls| - 1], n, arm);
      assert calls[..|calls| - 1][..n] == calls[..n];
    }
  }

  lemma {:induction false} Grown(setting: Setting, c: Checkpoint, d: Checkpoint, n: nat, m: nat)
    requires n <= m && InProgress(setting, c, n) && Follows(setting, d, m)
    ensures Extends(c, d)
  {
    var order := Order(setting.sources);
    var k := if IsAbort(setting, d, m) then m else m + 1;
    assert order[..k][..n] == order[..n];
    assert d.executionOrder == order[..k] || d.executionOrder == order[..k] + [order[k]];
    forall arm: Arm ensures c.caseStates.Of(arm) <= d.caseStates.Of(arm) {
      StatesGrow(setting, order[..k], n, arm);
    }
  }

  lemma {:induction false} ForArmConcat(a: seq<Call>, b: seq<Call>, arm: Arm)
    ensures ForArm(a + b, arm) == ForArm(a, arm) + ForArm(b, arm)
  {
    if b == [] {
      assert a + b == a;
    } else {
      ForArmConcat(a, b[..|b| - 1], arm);
      assert (a + b)[..|a + b| - 1] == a + b[..|b| - 1];
    }
  }

  lemma {:induction false} ForArmUniform(calls: seq<Call>, arm: Arm, other: Arm)
    requires forall call | call in calls :: call.arm == arm
    ensures ForArm(calls, other) == if other == arm then calls else []
  {
    if calls != [] {
      assert calls[|calls| - 1] in calls;
      ForArmUniform(calls[..|calls| - 1], arm, other);
    }
  }

  lemma {:induction false} CallsOfOneArm(arm: Arm, cases: seq<string>, other: Arm)
    ensures |ForArm(Calls(arm, cases), other)| == if other == arm then |cases| else 0
  {
    forall call | call in Calls(arm, cases) ensures call.arm == arm {
      CallsMember(arm, cases, call);
    }
    ForArmUniform(Calls(arm, cases), arm, other);
  }

  // Every arm is called once for each of its cases.
  lemma {:induction false} OrderServesEachArm(sources: Sources, arm: Arm)
    requires ValidSources(sources)
    ensures |ForArm(Order(sources), arm)| == |sources.Of(arm)|
  {
    hide ForArm, Calls;
    var first, rest := [Call(Qwen37, CANARY_CASE_ID)], WithoutCanary(sources.qwen37);
    var a, b, c := Calls(Qwen37, rest), Calls(Glm53, sources.glm53), Calls(Qwen38, sources.qwen38);
    WithoutCanaryMembers(sources.qwen37);
    ForArmConcat(first + a + b, c, arm);
    ForArmConcat(first + a, b, arm);
    ForArmConcat(first, a, arm);
    ForArmUniform(first, Qwen37, arm);
    CallsOfOneArm(Qwen37, rest, arm);
    CallsOfOneArm(Glm53, sources.glm53, arm);
    CallsOfOneArm(Qwen38, sources.qwen38, arm);
  }

  lemma {:induction false} FailuresByArm(states: CaseStates)
    ensures FailedCases(states) == [] <==> forall arm: Arm :: FailedOf(arm, states.Of(arm)) == []
  {
    hide FailedOf;
    if FailedCases(states) == [] {
      assert |FailedCases(states)| == 0;
      forall arm: Arm ensures FailedOf(arm, states.Of(arm)) == [] {
        match arm
        case Qwen37 =>
        case Glm53 =>
        case Qwen38 =>
      }
    }
    if forall arm: Arm :: FailedOf(arm, states.Of(arm)) == [] {
      assert FailedOf(Qwen37, states.Of(Qwen37)) == [] && FailedOf(Glm53, states.Of(Glm53)) == []
             && FailedOf(Qwen38, states.Of(Qwen38)) == [];
    }
  }

  // At the end every arm file reports its own completion, and the summary reports a completion
  // without failures exactly if all arms do.
  lemma {:induction false} SummaryAgreesWithArms(setting: Setting, c: Checkpoint)
    requires ValidSources(setting.sources) && CanaryOk(setting) && IsFinal(setting, c)
    ensures forall arm: Arm ::
              && |c.caseStates.Of(arm)| == |setting.sources.Of(arm)|
              && ArmFileOf(setting.sources, c, arm).status
                 == ArmIs(if FailedOf(arm, c.caseStates.Of(arm)) == [] then Completed else CompletedWithFailures)
    ensures c.status == if forall arm: Arm :: ArmFileOf(setting.sources, c, arm).status == ArmIs(Completed)
                        then Completed else CompletedWithFailures
  {
    hide ForArm, StatesAfter, FailedOf, FailedCases;
    var order := Order(setting.sources);
    OnlyFirstIsCanary(setting.sources, 0);
    assert order[..|order|] == order;
    hide Order;
    forall arm: Arm
      ensures |c.caseStates.Of(arm)| == |setting.sources.Of(arm)|
      ensures ArmFileOf(setting.sources, c, arm).status
              == ArmIs(if FailedOf(arm, c.caseStates.Of(arm)) == [] then Completed else CompletedWithFailures)
    {
      OrderServesEachArm(setting.sources, arm);
      StatesAreResults(setting, order, arm);
    }
    FailuresByArm(c.caseStates);
    assert forall arm: Arm ::
        ArmFileOf(setting.sources, c, arm).status == ArmIs(Completed) <==> FailedOf(arm, c.caseStates.Of(arm)) == [];
  }

  /******* What failed, and what the files say of it *******/

  predicate HasFailed(setting: Setting, call: Call) {
    setting.perform(call).Done? && setting.perform(call).result.failed
  }

  // The calls that came back and failed, in order.
  function FailedAmong(setting: Setting, calls: seq<Call>): seq<Call> {
    if calls == [] then []
    else
      var last := calls[|calls| - 1];
      FailedAmong(setting, calls[..|calls| - 1]) + if HasFailed(setting, last) then [last] else []
  }

  lemma {:induction false} FailedAmongMember(setting: Setting, calls: seq<Call>, call: Call)
    ensures call in FailedAmong(setting, calls) <==> call in calls && HasFailed(setting, call)
    ensures AllDistinct(calls) ==> AllDistinct(FailedAmong(setting, calls))
  {
    if calls != [] {
      var last := |calls| - 1;
      FailedAmongMember(setting, calls[..last], call);
      FailedAmongMember(setting, calls[..last], calls[last]);
      assert calls == calls[..last] + [calls[last]];
      if AllDistinct(calls) {
        assert calls[last] !in calls[..last];
        var more := if HasFailed(setting, calls[last]) then [calls[last]] else [];
        DistinctConcat(FailedAmong(setting, calls[..last]), more);
      }
    }
  }

  lemma {:induction false} FailedOfAppend(arm: Arm, a: seq<CaseResult>, b: seq<CaseResult>)
    ensures FailedOf(arm, a + b) == FailedOf(arm, a) + FailedOf(arm, b)
  {
    if a == [] {
      assert a + b == b;
    } else {
      FailedOfAppend(arm, a[1..], b);
      FirstOfConcat(a, b);
      Associative(if a[0].failed then [Call(arm, a[0].caseId)] else [], FailedOf(arm, a[1..]), FailedOf(arm, b));
    }
  }

  // Exactly the failed results are listed, under their case ids.
  lemma {:induction false} FailedOfLists(arm: Arm, results: seq<CaseResult>)
    ensures forall call: Call :: call in FailedOf(arm, results)
              <==> call.arm == arm && exists i :: 0 <= i < |results| && IsFailure(results[i], call.caseId)
  {
    if results != [] {
      var last := |results| - 1;
      FailedOfLists(arm, results[..last]);
      FailedOfAppend(arm, results[..last], [results[last]]);
      assert results == results[..last] + [results[last]];
      assert FailedOf(arm, [results[last]])
          == if results[last].failed then [Call(arm, results[last].caseId)] else [];
      forall call: Call ensures call in FailedOf(arm, results)
          <==> call.arm == arm && exists i :: 0 <= i < |results| && IsFailure(results[i], call.caseId)
      {
        if i :| 0 <= i < last && IsFailure(results[..last][i], call.caseId) {
          assert IsFailure(results[i], call.caseId);
        }
        if i :| 0 <= i < |results| && IsFailure(results[i], call.caseId) {
          if i < last { assert IsFailure(results[..last][i], call.caseId); }
        }
      }
    }
  }

  predicate IsFailure(result: CaseResult, id: string) { result.failed && result.caseId == id }

  // What is listed for an arm is what failed among its calls, in their order.
  lemma {:induction false} FailedOfArm(setting: Setting, calls: seq<Call>, arm: Arm)
    requires WellBehaved(setting) && AllDone(setting, calls)
    ensures FailedOf(arm, StatesAfter(setting, calls).Of(arm)) == FailedAmong(setting, ForArm(calls, arm))
  {
    if calls != [] {
      var last := |calls| - 1;
      var earlier, call := StatesAfter(setting, calls[..last]).Of(arm), calls[last];
      FailedOfArm(setting, calls[..last], arm);
      assert Behaves(setting, call);
      var result, before := setting.perform(call).result, ForArm(calls[..last], arm);
      if call.arm == arm {
        FailedOfAppend(arm, earlier, [result]);
        assert FailedOf(arm, [result]) == if result.failed then [call] else [];
        assert (before + [call])[..|before|] == before;
        assert FailedAmong(setting, before + [call])
            == FailedAmong(setting, before) + if result.failed then [call] else [];
      } else {
        assert earlier + [] == earlier && before + [] == before;
      }
    }
  }

  lemma {:induction false} ForArmMember(calls: seq<Call>, arm: Arm, call: Call)
    ensures call in ForArm(calls, arm) <==> call in calls && call.arm == arm
  {
    if calls != [] {
      var last := |calls| - 1;
      ForArmMember(calls[..last], arm, call);
      assert calls == calls[..last] + [calls[last]];
    }
  }

  // The failed cases are exactly the calls made whose result failed.
  lemma {:induction false} FailedAreThose(setting: Setting, calls: seq<Call>)
    requires WellBehaved(setting) && AllDone(setting, calls)
    ensures forall call: Call ::
              call in FailedCases(StatesAfter(setting, calls)) <==> call in calls && HasFailed(setting, call)
  {
    hide StatesAfter, FailedOf, ForArm, FailedAmong, HasFailed;
    forall call: Call
      ensures call in FailedCases(StatesAfter(setting, calls)) <==> call in calls && HasFailed(setting, call)
    {
      forall arm: Arm
        ensures call in FailedOf(arm, StatesAfter(setting, calls).Of(arm))
                <==> call.arm == arm && call in calls && HasFailed(setting, call)
      {
        FailedOfArm(setting, calls, arm);
        FailedAmongMember(setting, ForArm(calls, arm), call);
        ForArmMember(calls, arm, call);
      }
      var states := StatesAfter(setting, calls);
      assert call in FailedOf(Qwen37, states.Of(Qwen37))
          <==> call.arm == Qwen37 && call in calls && HasFailed(setting, call);
      assert call in FailedOf(Glm53, states.Of(Glm53))
          <==> call.arm == Glm53 && call in calls && HasFailed(setting, call);
      assert call in FailedOf(Qwen38, states.Of(Qwen38))
          <==> call.arm == Qwen38 && call in calls && HasFailed(setting, call);
    }
  }

  // A replay that ended with a good canary is completed without failures exactly if no call failed,
  // and lists exactly the calls that did.
  lemma {:induction false} FinalReportsFailures(setting: Setting, c: Checkpoint)
    requires ValidSources(setting.sources) && WellBehaved(setting) && CanaryOk(setting) && IsFinal(setting, c)
    ensures forall call: Call :: call in c.failedCases <==> call in Order(setting.sources) && HasFailed(setting, call)
    ensures c.status == if exists call :: call in Order(setting.sources) && HasFailed(setting, call)
                        then CompletedWithFailures else Completed
  {
    var order := Order(setting.sources);
    OrderIsPermutation(setting.sources);
    assert order[..|order|] == order;
    FailedAreThose(setting, order);
    hide Order, StatesAfter, FailedCases, HasFailed, CanaryOk;
    if c.failedCases != [] {
      assert c.failedCases[0] in c.failedCases;
    }
  }

  // The calls of an arm start here in the canonical order.
  function ArmStart(arm: Arm): nat {
    match arm
    case Qwen37 => 0
    case Glm53 => EXPECTED_CASE_COUNT
    case Qwen38 => 2 * EXPECTED_CASE_COUNT
  }

  // How many of the first n calls are those of an arm.
  function CallsMade(arm: Arm, n: nat): nat {
    if n <= ArmStart(arm) then 0
    else if n <= ArmStart(arm) + EXPECTED_CASE_COUNT then n - ArmStart(arm)
    else EXPECTED_CASE_COUNT
  }

  lemma {:induction false} ArmAt(sources: Sources, i: nat)
    requires ValidSources(sources) && i < |Order(sources)|
    ensures |Order(sources)| == 3 * EXPECTED_CASE_COUNT
    ensures forall arm: Arm :: Order(sources)[i].arm == arm
              <==> ArmStart(arm) <= i < ArmStart(arm) + EXPECTED_CASE_COUNT
  {
    var first, rest := [Call(Qwen37, CANARY_CASE_ID)], WithoutCanary(sources.qwen37);
    WithoutCanaryMembers(sources.qwen37);
    var a, b, c := Calls(Qwen37, rest), Calls(Glm53, sources.glm53), Calls(Qwen38, sources.qwen38);
    assert |first + a| == EXPECTED_CASE_COUNT;
    assert Order(sources) == (first + a) + b + c;
  }

  // Where the calls of an arm stand together, those among the first n are a slice.
  lemma {:induction false} ForArmIsSlice(calls: seq<Call>, n: nat, arm: Arm, start: nat, count: nat)
    requires n <= |calls| && start + count <= |calls|
    requires forall i | 0 <= i < |calls| :: calls[i].arm == arm <==> start <= i < start + count
    ensures n <= start ==> ForArm(calls[..n], arm) == []
    ensures start <= n <= start + count ==> ForArm(calls[..n], arm) == calls[start..n]
    ensures start + count <= n ==> ForArm(calls[..n], arm) == calls[start..start + count]
  {
    if n > 0 {
      ForArmIsSlice(calls, n - 1, arm, start, count);
      LastForArm(calls, n, arm);
      hide ForArm;
      assert calls[n - 1].arm == arm <==> start <= n - 1 < start + count;
      if start < n <= start + count { SliceGrows(calls, start, n); }
    }
    NoSlice(calls, start);
  }

  lemma {:induction false} SliceGrows(calls: seq<Call>, start: nat, n: nat)
    requires start < n <= |calls|
    ensures calls[start..n] == calls[start..n - 1] + [calls[n - 1]]
  {
  }

  lemma {:induction false} NoSlice(calls: seq<Call>, start: nat)
    requires start <= |calls|
    ensures calls[start..start] == [] && calls[..0] == []
  {
  }

  lemma {:induction false} LastForArm(calls: seq<Call>, n: nat, arm: Arm)
    requires 0 < n <= |calls|
    ensures calls[n - 1].arm != arm ==> ForArm(calls[..n], arm) == ForArm(calls[..n - 1], arm)
    ensures calls[n - 1].arm == arm ==> ForArm(calls[..n], arm) == ForArm(calls[..n - 1], arm) + [calls[n - 1]]
  {
    assert calls[..n][..n - 1] == calls[..n - 1];
  }

  lemma {:induction false} ArmCallsOfPrefix(sources: Sources, n: nat, arm: Arm)
    requires ValidSources(sources) && n <= |Order(sources)|
    ensures |Order(sources)| == 3 * EXPECTED_CASE_COUNT
    ensures ArmStart(arm) + CallsMade(arm, n) <= |Order(sources)|
    ensures ForArm(Order(sources)[..n], arm)
            == Order(sources)[ArmStart(arm)..ArmStart(arm) + CallsMade(arm, n)]
  {
    hide Order, ForArm, AllDistinct, ValidSources;
    OrderIsDistinct(sources);
    var order, start := Order(sources), ArmStart(arm);
    forall i | 0 <= i < |order| ensures order[i].arm == arm <==> start <= i < start + EXPECTED_CASE_COUNT {
      ArmAt(sources, i);
    }
    ForArmIsSlice(order, n, arm, start, EXPECTED_CASE_COUNT);
    if n <= start { assert order[start..start] == []; }
  }

  // The results of an arm are those of its calls among the first n, in order.
  ghost predicate HoldsResults(setting: Setting, file: ArmFile, n: nat, arm: Arm)
    requires |Order(setting.sources)| == 3 * EXPECTED_CASE_COUNT
  {
    var order, made := Order(setting.sources), CallsMade(arm, n);
    && |file.cases| == |file.completedIds| == made
    && forall i | 0 <= i < made ::
         && setting.perform(order[ArmStart(arm) + i]) == Done(file.cases[i])
         && file.completedIds[i] == order[ArmStart(arm) + i].caseId
  }

  ghost predicate ArmHasFailures(setting: Setting, arm: Arm) {
    exists call :: call in Order(setting.sources) && call.arm == arm && HasFailed(setting, call)
  }

  // What an arm reports after n calls that went well.
  ghost function ArmStatusAfter(setting: Setting, n: nat, canaryOnly: bool, arm: Arm): ArmStatus {
    var made := CallsMade(arm, n);
    if arm == Qwen37 && !CanaryOk(setting)
    then ArmIs(if HasFailed(setting, Order(setting.sources)[0]) then CanaryFailed else ModeUnverified)
    else if arm == Qwen37 && n == 1 && canaryOnly then ArmIs(CanaryCompleted)
    else if made == 0 then Pending
    else if made < EXPECTED_CASE_COUNT then ArmIs(ReplayState.Running)
    else ArmIs(if ArmHasFailures(setting, arm) then CompletedWithFailures else Completed)
  }

  lemma {:induction false} CaseIdsAt(results: seq<CaseResult>)
    ensures |CaseIds(results)| == |results|
    ensures forall i | 0 <= i < |results| :: CaseIds(results)[i] == results[i].caseId
  {
    if results != [] { CaseIdsAt(results[1..]); }
  }

  // Each arm file tells how far its arm has got: its results and case ids are those of its calls
  // among the first n, in order, and its status says so.
  lemma {:induction false} ArmsReportProgress(setting: Setting, c: Checkpoint, n: nat, canaryOnly: bool, arm: Arm)
    requires ValidSources(setting.sources) && WellBehaved(setting) && IsProgress(setting, c, n, canaryOnly)
    ensures |Order(setting.sources)| == 3 * EXPECTED_CASE_COUNT
    ensures var file := ArmFileOf(setting.sources, c, arm);
            HoldsResults(setting, file, n, arm) && file.status == ArmStatusAfter(setting, n, canaryOnly, arm)
  {
    ArmHoldsResults(setting, c, n, canaryOnly, arm);
    ArmStatusTells(setting, c, n, canaryOnly, arm);
  }

  lemma {:induction false} ResultNamesItsCase(setting: Setting, calls: seq<Call>, i: nat)
    requires WellBehaved(setting) && AllDone(setting, calls) && i < |calls|
    ensures setting.perform(calls[i]).result.caseId == calls[i].caseId
  {
    assert Behaves(setting, calls[i]);
  }

  lemma {:induction false} SliceHoldsResults(setting: Setting, file: ArmFile, n: nat, arm: Arm, calls: seq<Call>)
    requires |Order(setting.sources)| == 3 * EXPECTED_CASE_COUNT
    requires ArmStart(arm) + CallsMade(arm, n) <= |Order(setting.sources)|
    requires calls == Order(setting.sources)[ArmStart(arm)..ArmStart(arm) + CallsMade(arm, n)]
    requires |file.cases| == |file.completedIds| == |calls|
    requires forall i | 0 <= i < |calls| ::
               setting.perform(calls[i]) == Done(file.cases[i]) && file.completedIds[i] == calls[i].caseId
    ensures HoldsResults(setting, file, n, arm)
  {
    hide Order, CallsMade, ArmStart;
  }

  lemma {:induction false} ArmHoldsResults(setting: Setting, c: Checkpoint, n: nat, canaryOnly: bool, arm: Arm)
    requires ValidSources(setting.sources) && WellBehaved(setting) && IsProgress(setting, c, n, canaryOnly)
    ensures |Order(setting.sources)| == 3 * EXPECTED_CASE_COUNT
    ensures HoldsResults(setting, ArmFileOf(setting.sources, c, arm), n, arm)
  {
    var order, results := Order(setting.sources), c.caseStates.Of(arm);
    var calls := ForArm(order[..n], arm);
    ArmCallsOfPrefix(setting.sources, n, arm);
    StatesAreResults(setting, order[..n], arm);
    CaseIdsAt(results);
    assert AllDone(setting, calls);
    forall i | 0 <= i < |calls| ensures results[i].caseId == calls[i].caseId {
      ResultNamesItsCase(setting, calls, i);
    }
    hide Order, StatesAfter, ForArm, CaseIds, ArmStatusOf, HoldsResults, WellBehaved, ValidSources, Reached;
    SliceHoldsResults(setting, ArmFileOf(setting.sources, c, arm), n, arm, calls);
  }

  lemma {:induction false} ArmStatusTells(setting: Setting, c: Checkpoint, n: nat, canaryOnly: bool, arm: Arm)
    requires ValidSources(setting.sources) && WellBehaved(setting) && IsProgress(setting, c, n, canaryOnly)
    ensures ArmFileOf(setting.sources, c, arm).status == ArmStatusAfter(setting, n, canaryOnly, arm)
  {
    var order, results := Order(setting.sources), c.caseStates.Of(arm);
    hide Order, ForArm, FailedAmong;
    ArmHoldsResults(setting, c, n, canaryOnly, arm);
    FailedOfArm(setting, order[..n], arm);
    if CallsMade(arm, n) == EXPECTED_CASE_COUNT { ArmFailures(setting, n, arm); }
    assert |setting.sources.Of(arm)| == EXPECTED_CASE_COUNT;
    assert |results| == CallsMade(arm, n);
    assert n == 1 ==> CallsMade(arm, n) == if arm == Qwen37 then 1 else 0;
    assert c.status == StatusAfter(setting, n, canaryOnly);
    var failed := FailedOf(arm, results);
    assert CallsMade(arm, n) == EXPECTED_CASE_COUNT ==> (failed != [] <==> ArmHasFailures(setting, arm));
    hide Order, StatesAfter, FailedOf, ForArm, CaseIds, FailedAmong, CallsMade, ArmHasFailures, FailedCases,
         WellBehaved, ValidSources, HoldsResults;
  }

  // An arm that is through has a failure listed exactly if one of its calls failed.
  lemma {:induction false} ArmFailures(setting: Setting, n: nat, arm: Arm)
    requires ValidSources(setting.sources) && n <= |Order(setting.sources)|
    requires CallsMade(arm, n) == EXPECTED_CASE_COUNT
    ensures FailedAmong(setting, ForArm(Order(setting.sources)[..n], arm)) != [] <==> ArmHasFailures(setting, arm)
  {
    var order := Order(setting.sources);
    var failed := FailedAmong(setting, ForArm(order[..n], arm));
    if failed != [] {
      FailedAmongMember(setting, ForArm(order[..n], arm), failed[0]);
      ForArmMember(order[..n], arm, failed[0]);
      hide Order;
      assert failed[0] in order;
    }
    if ArmHasFailures(setting, arm) {
      var call :| call in order && call.arm == arm && HasFailed(setting, call);
      var i :| 0 <= i < |order| && order[i] == call;
      ArmAt(setting.sources, i);
      hide Order;
      assert ArmStart(arm) <= i < ArmStart(arm) + EXPECTED_CASE_COUNT;
      assert order[..n][i] == call;
      ForArmMember(order[..n], arm, call);
      FailedAmongMember(setting, ForArm(order[..n], arm), call);
    }
  }

  // The summary names the calls made, exactly those of them that failed, and the canary's result.
  lemma {:induction false} SummaryReportsProgress(setting: Setting, c: Checkpoint, n: nat, canaryOnly: bool)
    requires ValidSources(setting.sources) && WellBehaved(setting) && IsProgress(setting, c, n, canaryOnly)
    ensures var order, summary := Order(setting.sources), SummaryOf(c);
            && summary.executionOrder == order[..n] && summary.abortedCase.None? && summary.status == c.status
            && summary.canary.Some? && setting.perform(order[0]) == Done(summary.canary.value)
            && forall call: Call :: call in summary.failedCases <==> call in order[..n] && HasFailed(setting, call)
  {
    var order := Order(setting.sources);
    FailedAreThose(setting, order[..n]);
    OrderIsPermutation(setting.sources);
    CanaryComesFirst(setting, order[..n]);
    hide Order, StatesAfter, FailedCases, HasFailed, CanaryOk;
  }

  // After an abort every arm says so, and the summary names the case.
  lemma {:induction false} AbortIsReported(setting: Setting, c: Checkpoint, n: nat)
    requires IsAbort(setting, c, n)
    ensures forall arm: Arm :: ArmFileOf(setting.sources, c, arm).status == ArmIs(Aborted)
    ensures SummaryOf(c).status == Aborted && SummaryOf(c).abortedCase == Some(Order(setting.sources)[n])
  {
  }

  lemma {:induction false} HealthyIsResumable(setting: Setting, c: Checkpoint)
    requires ValidSources(setting.sources) && NoFatal(setting) && CanaryOk(setting) && IsWritten(setting, c)
    ensures Resumable(Some(c))
  {
    forall n: nat ensures !IsAbort(setting, c, n) {
      if n < |Order(setting.sources)| { assert setting.perform(Order(setting.sources)[n]).Done?; }
    }
    var n, canaryOnly :| IsProgress(setting, c, n, canaryOnly);
  }

  // A finished, unfinished or canary-only state can be resumed; a failed one cannot.
  predicate Resumable(state: Option<Checkpoint>) {
    state.Some? && state.value.status !in {Aborted, ModeUnverified, CanaryFailed}
  }

  // Nothing recorded in c is lost or changed in d.
  ghost predicate Extends(c: Checkpoint, d: Checkpoint) {
    && c.executionOrder <= d.executionOrder
    && forall arm: Arm :: c.caseStates.Of(arm) <= d.caseStates.Of(arm)
  }

  lemma {:induction false} OneMoreCall(setting: Setting, n: nat)
    requires n < |Order(setting.sources)| && Reached(setting, n) && (n > 0 ==> CanaryOk(setting))
    requires setting.perform(Order(setting.sources)[n]).Done?
    ensures Reached(setting, n + 1)
    ensures var order := Order(setting.sources);
            && order[..n + 1] == order[..n] + [order[n]]
            && StatesAfter(setting, order[..n + 1])
               == StatesAfter(setting, order[..n]).Add(order[n].arm, setting.perform(order[n]).result)
  {
    hide Order;
    var order := Order(setting.sources);
    assert order[..n + 1][..n] == order[..n];
  }

  lemma {:induction false} OnlyFirstIsCanary(sources: Sources, n: nat)
    requires ValidSources(sources) && n < |Order(sources)|
    ensures Order(sources)[n] == Call(Qwen37, CANARY_CASE_ID) <==> n == 0
    ensures |Order(sources)| > 1
  {
    OrderIsDistinct(sources);
    assert n > 0 ==> Order(sources)[n] != Order(sources)[0];
  }

  // The early end of a run is read off the status after its first call.
  lemma {:induction false} StatusTells(setting: Setting, n: nat, canaryOnly: bool)
    requires ValidSources(setting.sources) && WellBehaved(setting)
    requires n < |Order(setting.sources)| && Reached(setting, n + 1) && (n > 0 ==> CanaryOk(setting))
    ensures StatusAfter(setting, n + 1, canaryOnly) in {CanaryCompleted, ModeUnverified, CanaryFailed}
            <==> n == 0 && (canaryOnly || !CanaryOk(setting))
  {
  }

  lemma {:induction false} ResumableCanary(setting: Setting, c: Checkpoint)
    requires ValidSources(setting.sources) && WellBehaved(setting) && IsWritten(setting, c)
    requires c.status !in {Aborted, ModeUnverified, CanaryFailed}
    ensures CanaryOk(setting) && exists n, canaryOnly :: IsProgress(setting, c, n, canaryOnly)
  {
    var n, canaryOnly :| IsProgress(setting, c, n, canaryOnly);
    OrderIsPermutation(setting.sources);
  }
}
