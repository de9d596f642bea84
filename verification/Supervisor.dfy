/**
  The service supervisor: a state file that survives the process, one supervision cycle per
  invocation, and a restart that kills only what it can prove to be its own.  Probes, clocks,
  process queries and crashes are arbitrary.
 */
module SupervisorState {
  import opened Common

  datatype Status = Idle | Starting

  datatype State = State(failures: int, lastRestartEpoch: int, status: Status, launcherPid: int,
                         startingEpoch: int, launcherCreated: int, servicePid: int, serviceCreated: int)

  const DEFAULT := State(0, 0, Idle, 0, 0, 0, 0, 0)

  // Infinite and NotANumber are what the text of a number too large, or NaN, is read as.
  datatype Json =
    | Integer(n: int)
    | Float(r: real)
    | Infinite
    | NotANumber
    | Bool(b: bool)
    | Text(s: string)
    | Object(fields: map<string, Json>)
    | Other

  // What is at the path of the state file; TooDeep is JSON nested beyond the reader's limit.
  datatype File = Missing | Unreadable | TooDeep | Parsed(json: Json)

  predicate ValidState(s: State) {
    && s.failures >= 0 && s.lastRestartEpoch >= 0 && s.launcherPid >= 0 && s.startingEpoch >= 0
    && s.launcherCreated >= 0 && s.servicePid >= 0 && s.serviceCreated >= 0
    && (s.status.Starting? ==> s.launcherPid > 0 && s.startingEpoch > 0)
  }

  // A conversion gives a value, an error that resets the state, or one that nobody catches.
  datatype Conversion<T> = Value(v: T) | Reset | Uncaught

  // Conversion truncates toward zero; digits reads the text of an integer.
  function ToInt(json: Json, digits: string -> Option<int>): Conversion<int> {
    match json
    case Integer(n) => Value(n)
    case Float(r) => Value(if r < 0.0 then -((-r).Floor) else r.Floor)
    case Infinite => Uncaught
    case Bool(b) => Value(if b then 1 else 0)
    case Text(s) => if digits(s).Some? then Value(digits(s).value) else Reset
    case _ => Reset
  }

  function IntField(fields: map<string, Json>, key: string, digits: string -> Option<int>): Conversion<int> {
    if key in fields then ToInt(fields[key], digits) else Value(0)
  }

  function StatusField(fields: map<string, Json>): Option<Status> {
    if "status" !in fields || fields["status"] == Text("idle") then Some(Idle)
    else if fields["status"] == Text("starting") then Some(Starting)
    else None
  }

  // The numeric fields, in the order in which they are converted.
  const INT_KEYS := ["failures", "last_restart_epoch", "launcher_pid", "starting_epoch", "launcher_created_epoch",
                     "service_pid", "service_created_epoch"]

  // The first error ends the conversion.
  function IntFields(fields: map<string, Json>, keys: seq<string>, digits: string -> Option<int>)
    : (r: Conversion<seq<int>>)
    ensures r.Value? ==> |r.v| == |keys|
  {
    if keys == [] then Value([])
    else
      var first := IntField(fields, keys[0], digits);
      if first.Reset? then Reset
      else if first.Uncaught? then Uncaught
      else
        var rest := IntFields(fields, keys[1..], digits);
        if rest.Value? then Value([first.v] + rest.v) else rest
  }

  function Decode(fields: map<string, Json>, digits: string -> Option<int>): Conversion<State> {
    var ints := IntFields(fields, INT_KEYS, digits);
    if ints.Reset? then Reset
    else if ints.Uncaught? then Uncaught
    else
      var status := StatusField(fields);
      if status.None? then Reset
      else Value(State(ints.v[0], ints.v[1], status.value, ints.v[2], ints.v[3], ints.v[4], ints.v[5], ints.v[6]))
  }

  datatype LoadError = Overflow | Recursion

  function Load(file: File, digits: string -> Option<int>): (r: Result<State, LoadError>)
    ensures r.Ok? ==> ValidState(r.value)
  {
    if file.TooDeep? then Err(Recursion)
    else if !(file.Parsed? && file.json.Object?) then Ok(DEFAULT)
    else
      var decoded := Decode(file.json.fields, digits);
      if decoded.Uncaught? then Err(Overflow)
      else if decoded.Value? && ValidState(decoded.v) then Ok(decoded.v)
      else Ok(DEFAULT)
  }

  // A number too large in the file stops every cycle.
  lemma {:induction false} InfiniteCountRaises(digits: string -> Option<int>)
    ensures Load(Parsed(Object(map["failures" := Infinite])), digits) == Err(Overflow)
  {
    assert IntField(map["failures" := Infinite], INT_KEYS[0], digits) == Uncaught;
  }

  // Field i is infinite, and every numeric field before it converts.
  ghost predicate IsFirstInfinite(fields: map<string, Json>, keys: seq<string>, digits: string -> Option<int>, i: nat) {
    && i < |keys| && keys[i] in fields && fields[keys[i]].Infinite?
    && forall k | 0 <= k < i :: IntField(fields, keys[k], digits).Value?
  }

  lemma {:induction false} UncaughtIsInfinite(fields: map<string, Json>, keys: seq<string>,
                                              digits: string -> Option<int>)
    ensures IntFields(fields, keys, digits).Uncaught? <==> exists i :: IsFirstInfinite(fields, keys, digits, i)
  {
    if keys != [] {
      UncaughtIsInfinite(fields, keys[1..], digits);
      if IntField(fields, keys[0], digits).Uncaught? {
        assert IsFirstInfinite(fields, keys, digits, 0);
      }
      if i: nat :| IsFirstInfinite(fields, keys[1..], digits, i) && IntField(fields, keys[0], digits).Value? {
        forall k | 0 <= k < i + 1 ensures IntField(fields, keys[k], digits).Value? {
          if k > 0 { assert keys[1..][k - 1] == keys[k]; }
        }
        assert IsFirstInfinite(fields, keys, digits, i + 1);
      }
      if i: nat :| IsFirstInfinite(fields, keys, digits, i) && i > 0 {
        forall k | 0 <= k < i - 1 ensures IntField(fields, keys[1..][k], digits).Value? {
          assert keys[1..][k] == keys[k + 1];
        }
        assert IntField(fields, keys[0], digits).Value?;
        assert IsFirstInfinite(fields, keys[1..], digits, i - 1);
      }
    }
  }

  // Loading raises exactly for JSON nested too deep, and for an object whose first numeric field
  // that does not convert is infinite.
  lemma {:induction false} LoadRaises(file: File, digits: string -> Option<int>)
    ensures Load(file, digits).Err?
            <==> || file.TooDeep?
                 || (file.Parsed? && file.json.Object?
                     && exists i :: IsFirstInfinite(file.json.fields, INT_KEYS, digits, i))
  {
    if file.Parsed? && file.json.Object? { UncaughtIsInfinite(file.json.fields, INT_KEYS, digits); }
  }

  function Encode(s: State): Json {
    Object(map["failures" := Integer(s.failures),
               "last_restart_epoch" := Integer(s.lastRestartEpoch),
               "status" := Text(if s.status.Idle? then "idle" else "starting"),
               "launcher_pid" := Integer(s.launcherPid),
               "starting_epoch" := Integer(s.startingEpoch),
               "launcher_created_epoch" := Integer(s.launcherCreated),
               "service_pid" := Integer(s.servicePid),
               "service_created_epoch" := Integer(s.serviceCreated)])
  }

  lemma {:induction false} EncodedDecodes(s: State, digits: string -> Option<int>)
    ensures Decode(Encode(s).fields, digits) == Value(s)
  {
    var fields := Encode(s).fields;
    var ints := [s.failures, s.lastRestartEpoch, s.launcherPid, s.startingEpoch, s.launcherCreated, s.servicePid,
                 s.serviceCreated];
    forall i | 0 <= i < 7 ensures IntField(fields, INT_KEYS[i], digits) == Value(ints[i]) {
    }
    AllConvert(fields, INT_KEYS, digits, ints);
    assert StatusField(fields) == Some(s.status);
  }

  lemma {:induction false} AllConvert(fields: map<string, Json>, keys: seq<string>, digits: string -> Option<int>,
                                      ints: seq<int>)
    requires |keys| == |ints| && forall i | 0 <= i < |keys| :: IntField(fields, keys[i], digits) == Value(ints[i])
    ensures IntFields(fields, keys, digits) == Value(ints)
  {
    if keys != [] {
      forall i | 0 <= i < |keys[1..]| ensures IntField(fields, keys[1..][i], digits) == Value(ints[1..][i]) {
        assert keys[1..][i] == keys[i + 1] && ints[1..][i] == ints[i + 1];
      }
      AllConvert(fields, keys[1..], digits, ints[1..]);
      assert ints == [ints[0]] + ints[1..];
    }
  }

  // n is what the value is read as: fractions are cut off, text must be that of an integer.
  predicate Converts(json: Json, digits: string -> Option<int>, n: int) {
    match json
    case Integer(m) => n == m
    case Float(r) => if r >= 0.0 then n as real <= r < (n + 1) as real else (n - 1) as real < r <= n as real
    case Bool(b) => n == if b then 1 else 0
    case Text(s) => digits(s) == Some(n)
    case _ => false
  }

  lemma {:induction false} ToIntConverts(json: Json, digits: string -> Option<int>, n: int)
    ensures ToInt(json, digits) == Value(n) <==> Converts(json, digits, n)
  {
  }

  // The field has the value, or is missing and the value is zero.
  predicate HoldsInt(fields: map<string, Json>, key: string, digits: string -> Option<int>, n: int) {
    if key in fields then Converts(fields[key], digits, n) else n == 0
  }

  predicate HoldsStatus(fields: map<string, Json>, status: Status) {
    if "status" in fields then fields["status"] == Text(if status.Idle? then "idle" else "starting") else status.Idle?
  }

  // The file is an object whose fields are those of the state.
  predicate HoldsState(file: File, digits: string -> Option<int>, s: State) {
    && file.Parsed? && file.json.Object? && HoldsStatus(file.json.fields, s.status)
    && HoldsInt(file.json.fields, "failures", digits, s.failures)
    && HoldsInt(file.json.fields, "last_restart_epoch", digits, s.lastRestartEpoch)
    && HoldsInt(file.json.fields, "launcher_pid", digits, s.launcherPid)
    && HoldsInt(file.json.fields, "starting_epoch", digits, s.startingEpoch)
    && HoldsInt(file.json.fields, "launcher_created_epoch", digits, s.launcherCreated)
    && HoldsInt(file.json.fields, "service_pid", digits, s.servicePid)
    && HoldsInt(file.json.fields, "service_created_epoch", digits, s.serviceCreated)
  }

  lemma {:induction false} HoldsIntField(fields: map<string, Json>, key: string, digits: string -> Option<int>, n: int)
    ensures IntField(fields, key, digits) == Value(n) <==> HoldsInt(fields, key, digits, n)
  {
    if key in fields { ToIntConverts(fields[key], digits, n); }
  }

  lemma {:induction false} AllConverted(fields: map<string, Json>, keys: seq<string>, digits: string -> Option<int>)
    requires IntFields(fields, keys, digits).Value?
    ensures forall i | 0 <= i < |keys| ::
              IntField(fields, keys[i], digits) == Value(IntFields(fields, keys, digits).v[i])
  {
    if keys != [] {
      AllConverted(fields, keys[1..], digits);
      forall i | 0 < i < |keys|
        ensures IntField(fields, keys[i], digits) == Value(IntFields(fields, keys, digits).v[i])
      {
        assert keys[1..][i - 1] == keys[i];
      }
    }
  }

  lemma {:induction false} DecodeIsExact(fields: map<string, Json>, digits: string -> Option<int>, s: State)
    ensures Decode(fields, digits) == Value(s) <==> HoldsState(Parsed(Object(fields)), digits, s)
  {
    var ints := [s.failures, s.lastRestartEpoch, s.launcherPid, s.startingEpoch, s.launcherCreated, s.servicePid,
                 s.serviceCreated];
    assert forall i | 0 <= i < 7 :: HoldsInt(fields, INT_KEYS[i], digits, ints[i])
               <==> IntField(fields, INT_KEYS[i], digits) == Value(ints[i]) by {
      forall i | 0 <= i < 7
        ensures HoldsInt(fields, INT_KEYS[i], digits, ints[i])
                <==> IntField(fields, INT_KEYS[i], digits) == Value(ints[i])
      {
        HoldsIntField(fields, INT_KEYS[i], digits, ints[i]);
      }
    }
    hide IntFields, IntField, HoldsInt;
    if HoldsState(Parsed(Object(fields)), digits, s) {
      forall i | 0 <= i < 7 ensures IntField(fields, INT_KEYS[i], digits) == Value(ints[i]) {
        assert HoldsInt(fields, INT_KEYS[i], digits, ints[i]);
      }
      AllConvert(fields, INT_KEYS, digits, ints);
    }
    if Decode(fields, digits) == Value(s) {
      AllConverted(fields, INT_KEYS, digits);
      assert IntFields(fields, INT_KEYS, digits).v == ints;
      forall i | 0 <= i < 7 ensures HoldsInt(fields, INT_KEYS[i], digits, ints[i]) {
        assert IntField(fields, INT_KEYS[i], digits) == Value(ints[i]);
      }
    }
  }

  // A file that holds a valid state loads as that state; any other file that does not raise, a
  // missing or unreadable one among them, loads as the default.
  lemma {:induction false} LoadIsExact(file: File, digits: string -> Option<int>)
    ensures forall s | HoldsState(file, digits, s) && ValidState(s) :: Load(file, digits) == Ok(s)
    ensures Load(file, digits).Ok? && (forall s | HoldsState(file, digits, s) :: !ValidState(s)) ==>
              Load(file, digits) == Ok(DEFAULT)
    ensures file.Missing? || file.Unreadable? ==> Load(file, digits) == Ok(DEFAULT)
  {
    hide Decode, HoldsInt, HoldsStatus;
    if file.Parsed? && file.json.Object? {
      var fields := file.json.fields;
      forall s ensures Decode(fields, digits) == Value(s) <==> HoldsState(file, digits, s) {
        DecodeIsExact(fields, digits, s);
      }
    }
  }

  // A saved state loads back exactly when it is valid, and saving never makes loading raise.
  lemma {:induction false} SavedLoadsBack(s: State, digits: string -> Option<int>)
    ensures Load(Parsed(Encode(s)), digits).Ok?
    ensures Load(Parsed(Encode(s)), digits) == Ok(s) <==> ValidState(s)
  {
    EncodedDecodes(s, digits);
  }
}

/** Killing the listeners of the service port and launching the service anew. */
module ServiceRestart {
  import opened Common
  import opened SupervisorState

  datatype ProcessInfo = ProcessInfo(pid: int, created: int, executable: string, commandLine: string)

  datatype Effect = Listed(pids: seq<int>) | Checked(info: ProcessInfo) | Killed(pid: int) | Launched(pid: int)

  // Why a restart was given up: Foreign carries the process that failed a check.
  datatype Cause =
    | QueryFailed
    | Unidentified(pid: int)
    | Foreign(info: ProcessInfo)
    | KillFailed(pid: int)
    | StillListening(pids: seq<int>)
    | LaunchFailed

  predicate MatchesProcess(s: State, info: ProcessInfo) {
    || (s.servicePid == info.pid && s.serviceCreated == info.created)
    || (s.status.Starting? && s.launcherPid == info.pid && s.launcherCreated == info.created)
  }

  predicate Passes(belongs: ProcessInfo -> bool, s: State, info: ProcessInfo) {
    belongs(info) && MatchesProcess(s, info)
  }

  // The first |listeners| effects after the listing are passed checks, one for each listener.
  ghost predicate AllCheckedFirst(belongs: ProcessInfo -> bool, s: State, effects: seq<Effect>) {
    && effects != [] && effects[0].Listed? && |effects| > |effects[0].pids|
    && forall k | 0 <= k < |effects[0].pids| ::
         IsCheckOf(belongs, s, effects[1 + k], effects[0].pids[k])
  }

  ghost predicate IsCheckOf(belongs: ProcessInfo -> bool, s: State, e: Effect, pid: int) {
    e.Checked? && e.info.pid == pid && pid > 0 && e.info.created > 0 && Passes(belongs, s, e.info)
  }

  function KilledPids(effects: seq<Effect>): seq<int> {
    if effects == [] then []
    else KilledPids(effects[..|effects| - 1])
         + (if effects[|effects| - 1].Killed? then [effects[|effects| - 1].pid] else [])
  }

  // Nothing is killed before every listener has passed, and each kill directly follows a
  // passed check of the same process.
  ghost predicate IsGuardedKill(belongs: ProcessInfo -> bool, s: State, effects: seq<Effect>, i: nat) {
    && AllCheckedFirst(belongs, s, effects) && |effects[0].pids| + 1 < i < |effects|
    && effects[i].Killed? && IsCheckOf(belongs, s, effects[i - 1], effects[i].pid)
  }

  ghost predicate KillsAreGuarded(belongs: ProcessInfo -> bool, s: State, effects: seq<Effect>) {
    forall i: nat | i < |effects| && effects[i].Killed? :: IsGuardedKill(belongs, s, effects, i)
  }

  ghost predicate LaunchIsGuarded(effects: seq<Effect>) {
    forall i | 0 <= i < |effects| && effects[i].Launched? ::
      i == |effects| - 1 && i > 0 && effects[i - 1] == Listed([])
  }

  // The trace begins with a listing, and the killed are the first ones listed.
  ghost predicate KillsAreListed(effects: seq<Effect>) {
    effects != [] ==> effects[0].Listed? && KilledPids(effects) <= effects[0].pids
  }

  ghost predicate NoLaunch(effects: seq<Effect>) {
    forall i | 0 <= i < |effects| :: !effects[i].Launched?
  }

  /**
    What the system answers during one restart.  listing is the first query of the listeners;
    first and second are the answers about the k-th listener, before any kill and before its own;
    kills says whether its kill succeeds; polls are the queries that follow, up to number lastPoll,
    the last before the deadline; launch is the id of the launched process.  None is a failure.
   */
  datatype Answers = Answers(listing: Option<seq<int>>, first: nat -> Option<ProcessInfo>,
                             second: nat -> Option<ProcessInfo>, kills: nat -> bool,
                             polls: nat -> Option<seq<int>>, lastPoll: nat, launch: Option<int>)

  // What a query of the process table tells about a process: the answer must be about it.
  function Identified(answer: Option<ProcessInfo>, pid: int): (r: Option<ProcessInfo>)
    ensures r.Some? ==> r.value.pid == pid && r.value.created > 0 && pid > 0
  {
    if pid <= 0 || answer.None? || answer.value.pid != pid || answer.value.created <= 0 then None else answer
  }

  // The answer identifies the process, as one of the service's own and the one on record.
  predicate IsOwned(belongs: ProcessInfo -> bool, s: State, answer: Option<ProcessInfo>, pid: int) {
    && answer.Some? && answer.value.pid == pid > 0 && answer.value.created > 0
    && Passes(belongs, s, answer.value)
  }

  // The cause names a process that the answer does not identify, or one that fails a check.
  predicate IsRefusalOf(belongs: ProcessInfo -> bool, s: State, answer: Option<ProcessInfo>, pid: int, cause: Cause) {
    match cause
    case Unidentified(p) =>
      p == pid && (pid <= 0 || answer.None? || answer.value.pid != pid || answer.value.created <= 0)
    case Foreign(info) => answer == Some(info) && info.pid == pid && !Passes(belongs, s, info)
    case _ => false
  }

  // It ends at the first process that is not owned, and reports that one.
  method VerifyOwnership(belongs: ProcessInfo -> bool, s: State, pids: seq<int>, answers: nat -> Option<ProcessInfo>)
    returns (refusal: Option<Cause>, effects: seq<Effect>)
    ensures |effects| <= |pids| && (refusal.None? <==> |effects| == |pids|)
    ensures refusal.None? <==> forall k: nat | k < |pids| :: IsOwned(belongs, s, answers(k), pids[k])
    ensures refusal.Some? ==>
              IsRefusalOf(belongs, s, answers(|effects|), pids[|effects|], refusal.value)
    ensures forall k: nat | k < |effects| :: IsOwned(belongs, s, answers(k), pids[k])
    ensures forall k | 0 <= k < |effects| :: IsCheckOf(belongs, s, effects[k], pids[k])
  {
    effects := [];
    for i := 0 to |pids|
      invariant |effects| == i && forall k | 0 <= k < i :: IsCheckOf(belongs, s, effects[k], pids[k])
      invariant forall k: nat | k < i :: IsOwned(belongs, s, answers(k), pids[k])
    {
      var info := Identified(answers(i), pids[i]);
      if info.None? { return Some(Unidentified(pids[i])), effects; }
      if !belongs(info.value) || !MatchesProcess(s, info.value) { return Some(Foreign(info.value)), effects; }
      effects := effects + [Checked(info.value)];
    }
    refusal := None;
  }

  // Up to poll k, some process was still listening.
  predicate ListensUpTo(polls: nat -> Option<seq<int>>, k: nat) {
    forall j: nat | j < k :: polls(j).Some? && polls(j).value != []
  }

  // Some poll in time finds nothing listening, after others that did.
  ghost predicate IsReleased(polls: nat -> Option<seq<int>>, last: nat) {
    exists k: nat :: k <= last && ListensUpTo(polls, k) && polls(k) == Some([])
  }

  ghost predicate FailsToPoll(polls: nat -> Option<seq<int>>, last: nat) {
    exists k: nat :: k <= last && ListensUpTo(polls, k) && polls(k).None?
  }

  // Polls until nothing listens.
  method WaitForRelease(polls: nat -> Option<seq<int>>, last: nat) returns (cause: Option<Cause>, effects: seq<Effect>)
    ensures forall e | e in effects :: e.Listed?
    ensures cause.None? ==> effects != [] && effects[|effects| - 1] == Listed([])
    ensures cause.None? <==> IsReleased(polls, last)
    ensures cause == Some(QueryFailed) <==> FailsToPoll(polls, last)
    ensures cause.Some? && !cause.value.QueryFailed? ==>
              && ListensUpTo(polls, last + 1) && cause == Some(StillListening(polls(last).value))
              && effects != [] && effects[|effects| - 1] == Listed(polls(last).value)
  {
    effects := [];
    var k := 0;
    while true
      invariant k <= last && ListensUpTo(polls, k) && forall e | e in effects :: e.Listed?
      decreases last - k
    {
      if polls(k).None? { return Some(QueryFailed), effects; }
      var listeners := polls(k).value;
      effects := effects + [Listed(listeners)];
      if listeners == [] { return None, effects; }
      if k == last { return Some(StillListening(listeners)), effects; }
      k := k + 1;
    }
  }

  lemma {:induction false} KilledAppend(a: seq<Effect>, b: seq<Effect>)
    ensures KilledPids(a + b) == KilledPids(a) + KilledPids(b)
  {
    if b == [] {
      assert a + b == a;
    } else {
      KilledAppend(a, b[..|b| - 1]);
      assert (a + b)[..|a + b| - 1] == a + b[..|b| - 1];
    }
  }

  lemma {:induction false} NoneKilled(effects: seq<Effect>)
    requires forall e | e in effects :: !e.Killed?
    ensures KilledPids(effects) == []
  {
    if effects != [] {
      assert effects[|effects| - 1] in effects;
      NoneKilled(effects[..|effects| - 1]);
    }
  }

  // The check of one listener by itself.
  method CheckAgain(belongs: ProcessInfo -> bool, s: State, pid: int, answer: Option<ProcessInfo>)
    returns (refusal: Option<Cause>, check: Option<Effect>)
    ensures refusal.None? <==> IsOwned(belongs, s, answer, pid)
    ensures if refusal.None? then check.Some? && IsCheckOf(belongs, s, check.value, pid)
            else IsRefusalOf(belongs, s, answer, pid, refusal.value)
  {
    var answers: nat -> Option<ProcessInfo>, pids := _ => answer, [pid];
    var checks;
    assert answers(0) == answer && pids[0] == pid;
    refusal, checks := VerifyOwnership(belongs, s, pids, answers);
    check := if refusal.None? then Some(checks[0]) else None;
  }

  // Each of the first n listeners passed its second check and was killed.
  predicate AreKilled(belongs: ProcessInfo -> bool, s: State, listeners: seq<int>, answers: Answers, n: nat)
    requires n <= |listeners|
  {
    forall k: nat | k < n :: IsOwned(belongs, s, answers.second(k), listeners[k]) && answers.kills(k)
  }

  // The loop over the listeners: each is checked once more and then killed.  It ends at the first
  // that is refused or whose kill fails.
  method KillAll(belongs: ProcessInfo -> bool, s: State, before: seq<Effect>, answers: Answers)
    returns (cause: Option<Cause>, effects: seq<Effect>)
    requires AllCheckedFirst(belongs, s, before) && |before| == |before[0].pids| + 1
    ensures before <= effects && AllCheckedFirst(belongs, s, effects) && KillsAreGuarded(belongs, s, effects)
    ensures NoLaunch(effects)
    ensures KilledPids(effects) <= before[0].pids && (cause.None? ==> KilledPids(effects) == before[0].pids)
    ensures cause.None? <==> AreKilled(belongs, s, before[0].pids, answers, |before[0].pids|)
    ensures cause.Some? ==> exists k :: StopsAt(belongs, s, before[0].pids, answers, k, cause.value, effects)
  {
    hide AllCheckedFirst, KillsAreGuarded, IsOwned, IsRefusalOf, IsCheckOf;
    assert before != [] && before[0].Listed? by { CheckedIsListed(belongs, s, before); }
    var listeners := before[0].pids;
    effects := before;
    BeforeKills(belongs, s, before);
    for i := 0 to |listeners|
      invariant before <= effects && AllCheckedFirst(belongs, s, effects) && KillsAreGuarded(belongs, s, effects)
      invariant NoLaunch(effects)
      invariant KilledPids(effects) == listeners[..i] && AreKilled(belongs, s, listeners, answers, i)
    {
      var refusal, check := CheckAgain(belongs, s, listeners[i], answers.second(i));
      if refusal.Some? {
        assert StopsAt(belongs, s, listeners, answers, i, refusal.value, effects);
        return refusal, effects;
      }
      effects := KillNext(belongs, s, effects, check.value, listeners[i]);
      if !answers.kills(i) {
        assert StopsAt(belongs, s, listeners, answers, i, KillFailed(listeners[i]), effects);
        return Some(KillFailed(listeners[i])), effects;
      }
    }
    cause := None;
  }

  lemma {:induction false} CheckedIsListed(belongs: ProcessInfo -> bool, s: State, effects: seq<Effect>)
    requires AllCheckedFirst(belongs, s, effects)
    ensures effects != [] && effects[0].Listed?
  {
  }

  // Listener k, and none before it, was refused, or its kill failed; those before it are killed.
  ghost predicate StopsAt(belongs: ProcessInfo -> bool, s: State, listeners: seq<int>, answers: Answers, k: nat,
                          cause: Cause, effects: seq<Effect>) {
    && k < |listeners| && AreKilled(belongs, s, listeners, answers, k)
    && if IsOwned(belongs, s, answers.second(k), listeners[k])
       then !answers.kills(k) && cause == KillFailed(listeners[k]) && KilledPids(effects) == listeners[..k + 1]
       else IsRefusalOf(belongs, s, answers.second(k), listeners[k], cause) && KilledPids(effects) == listeners[..k]
  }

  lemma {:induction false} BeforeKills(belongs: ProcessInfo -> bool, s: State, before: seq<Effect>)
    requires AllCheckedFirst(belongs, s, before) && |before| == |before[0].pids| + 1
    ensures NoLaunch(before) && KillsAreGuarded(belongs, s, before) && KilledPids(before) == []
  {
    forall i | 0 <= i < |before| ensures !before[i].Launched? && !before[i].Killed? {
      if i > 0 { assert IsCheckOf(belongs, s, before[1 + (i - 1)], before[0].pids[i - 1]); }
    }
    NoneKilled(before);
  }

  method KillNext(ghost belongs: ProcessInfo -> bool, ghost s: State, effects: seq<Effect>, check: Effect, pid: int)
    returns (r: seq<Effect>)
    requires AllCheckedFirst(belongs, s, effects) && KillsAreGuarded(belongs, s, effects)
    requires IsCheckOf(belongs, s, check, pid) && NoLaunch(effects)
    ensures r == effects + [check, Killed(pid)]
    ensures AllCheckedFirst(belongs, s, r) && KillsAreGuarded(belongs, s, r) && NoLaunch(r)
    ensures KilledPids(r) == KilledPids(effects) + [pid]
  {
    assert check.Checked?;
    hide IsCheckOf, Passes;
    r := effects + [check, Killed(pid)];
    var both := [check, Killed(pid)];
    NoneKilled([check]);
    assert both[..1] == [check] && KilledPids(both) == KilledPids(both[..1]) + [pid];
    KilledAppend(effects, [check, Killed(pid)]);
  }

  // The restart ended with the launch of a process.
  predicate HasLaunched(effects: seq<Effect>) {
    effects != [] && effects[|effects| - 1].Launched? && effects[|effects| - 1].pid > 0
  }

  // Every listener passes both checks and is killed, and the port is released in time.
  ghost predicate IsCleared(belongs: ProcessInfo -> bool, s: State, answers: Answers) {
    && answers.listing.Some?
    && (forall k: nat | k < |answers.listing.value| ::
          IsOwned(belongs, s, answers.first(k), answers.listing.value[k]))
    && AreKilled(belongs, s, answers.listing.value, answers, |answers.listing.value|)
    && (answers.listing.value != [] ==> IsReleased(answers.polls, answers.lastPoll))
  }

  // When each cause is given: that very step went wrong.
  ghost predicate IsCauseOf(belongs: ProcessInfo -> bool, s: State, answers: Answers, cause: Cause) {
    match cause
    case QueryFailed =>
      answers.listing.None? || (answers.listing.value != [] && FailsToPoll(answers.polls, answers.lastPoll))
    case Unidentified(_) | Foreign(_) => answers.listing.Some? && IsRefused(belongs, s, answers, cause)
    case KillFailed(pid) =>
      answers.listing.Some?
      && exists k: nat :: k < |answers.listing.value| && answers.listing.value[k] == pid && !answers.kills(k)
    case StillListening(pids) => ListensUpTo(answers.polls, answers.lastPoll + 1)
                                 && answers.polls(answers.lastPoll) == Some(pids)
    case LaunchFailed => answers.launch.None? && IsCleared(belongs, s, answers)
  }

  // One of the two checks of some listener fails in the way the cause says.
  ghost predicate IsRefused(belongs: ProcessInfo -> bool, s: State, answers: Answers, cause: Cause)
    requires answers.listing.Some?
  {
    exists k: nat :: k < |answers.listing.value| && IsRefusedAt(belongs, s, answers, k, cause)
  }

  ghost predicate IsRefusedAt(belongs: ProcessInfo -> bool, s: State, answers: Answers, k: nat, cause: Cause)
    requires answers.listing.Some? && k < |answers.listing.value|
  {
    || IsRefusalOf(belongs, s, answers.first(k), answers.listing.value[k], cause)
    || IsRefusalOf(belongs, s, answers.second(k), answers.listing.value[k], cause)
  }

  /**
    The whole restart.  An error is an exception.  It launches exactly if nothing that it asks for
    fails and every listener passes both of its checks; otherwise it says what went wrong.
    Whatever happens, the trace of effects is guarded, and a service is launched only after all
    listeners it listed have been killed.
   */
  method Restart(belongs: ProcessInfo -> bool, s: State, answers: Answers)
    returns (r: Result<int, Cause>, effects: seq<Effect>)
    ensures KillsAreGuarded(belongs, s, effects) && LaunchIsGuarded(effects)
    ensures KillsAreListed(effects)
    ensures r.Ok? <==> IsCleared(belongs, s, answers) && answers.launch.Some?
    ensures r.Ok? ==> |effects| > 1 && effects[0] == Listed(answers.listing.value)
                      && effects[|effects| - 1] == Launched(r.value) && r.value == answers.launch.value
                      && KilledPids(effects) == answers.listing.value
    ensures r.Err? ==> !HasLaunched(effects) && IsCauseOf(belongs, s, answers, r.error)
  {
    hide AllCheckedFirst, KillsAreGuarded, KilledPids, IsCheckOf, IsOwned, IsRefusalOf, IsReleased, FailsToPoll,
         ListensUpTo;
    effects := [];
    NothingDone(belongs, s);
    if answers.listing.None? { return Err(QueryFailed), effects; }
    var listeners := answers.listing.value;
    effects := [Listed(listeners)];
    NothingKilledYet(belongs, s, listeners, []);
    assert effects + [] == effects;
    if listeners != [] {
      var cause;
      cause, effects := ClearPort(belongs, s, answers);
      if cause.Some? { return Err(cause.value), effects; }
    }
    if answers.launch.None? { return Err(LaunchFailed), effects; }
    LaunchEnds(belongs, s, effects, answers.launch.value);
    return Ok(answers.launch.value), effects + [Launched(answers.launch.value)];
  }

  // The part of the restart that frees an occupied port.
  method ClearPort(belongs: ProcessInfo -> bool, s: State, answers: Answers)
    returns (cause: Option<Cause>, effects: seq<Effect>)
    requires answers.listing.Some? && answers.listing.value != []
    ensures effects != [] && effects[0] == Listed(answers.listing.value)
    ensures KillsAreGuarded(belongs, s, effects) && NoLaunch(effects)
    ensures KilledPids(effects) <= answers.listing.value
    ensures cause.None? <==> IsCleared(belongs, s, answers)
    ensures cause.None? ==> |effects| > 1 && effects[|effects| - 1] == Listed([])
                            && KilledPids(effects) == answers.listing.value
    ensures cause.Some? ==> !cause.value.LaunchFailed? && IsCauseOf(belongs, s, answers, cause.value)
  {
    hide AllCheckedFirst, KillsAreGuarded, KilledPids, IsCheckOf, IsOwned, IsRefusalOf, IsReleased, FailsToPoll,
         ListensUpTo;
    var listeners := answers.listing.value;
    var checks;
    cause, checks := VerifyOwnership(belongs, s, listeners, answers.first);
    effects := [Listed(listeners)] + checks;
    NothingKilledYet(belongs, s, listeners, checks);
    if cause.Some? {
      assert IsRefusedAt(belongs, s, answers, |checks|, cause.value);
      RefusalIsOne(belongs, s, answers.first(|checks|), listeners[|checks|], cause.value);
      return;
    }
    cause, effects := KillAll(belongs, s, effects, answers);
    if cause.Some? {
      ghost var k: nat :| StopsAt(belongs, s, listeners, answers, k, cause.value, effects);
      StopIsCause(belongs, s, answers, k, cause.value, effects);
      return;
    }
    ghost var kills := effects;
    var queries;
    cause, queries := WaitForRelease(answers.polls, answers.lastPoll);
    effects := effects + queries;
    QueriesChangeNothing(belongs, s, kills, queries);
  }

  lemma {:induction false} RefusalIsOne(belongs: ProcessInfo -> bool, s: State, answer: Option<ProcessInfo>, pid: int,
                                        cause: Cause)
    requires IsRefusalOf(belongs, s, answer, pid, cause)
    ensures (cause.Unidentified? || cause.Foreign?) && !IsOwned(belongs, s, answer, pid)
  {
  }

  lemma {:induction false} StopIsCause(belongs: ProcessInfo -> bool, s: State, answers: Answers, k: nat, cause: Cause,
                                       effects: seq<Effect>)
    requires answers.listing.Some? && StopsAt(belongs, s, answers.listing.value, answers, k, cause, effects)
    ensures !cause.LaunchFailed? && IsCauseOf(belongs, s, answers, cause)
  {
    if !IsOwned(belongs, s, answers.second(k), answers.listing.value[k]) {
      assert IsRefusedAt(belongs, s, answers, k, cause);
    }
  }

  lemma {:induction false} NothingDone(belongs: ProcessInfo -> bool, s: State)
    ensures KillsAreGuarded(belongs, s, [])
  {
  }

  lemma {:induction false} NothingKilledYet(belongs: ProcessInfo -> bool, s: State, listeners: seq<int>,
                                            checks: seq<Effect>)
    requires |checks| <= |listeners|
    requires forall k | 0 <= k < |checks| :: IsCheckOf(belongs, s, checks[k], listeners[k])
    ensures var effects := [Listed(listeners)] + checks;
            && KillsAreGuarded(belongs, s, effects) && NoLaunch(effects) && KilledPids(effects) == []
            && (|checks| == |listeners| ==> AllCheckedFirst(belongs, s, effects))
  {
    var effects := [Listed(listeners)] + checks;
    forall i | 0 <= i < |effects| ensures !effects[i].Killed? && !effects[i].Launched? {
      if i > 0 { assert IsCheckOf(belongs, s, checks[i - 1], listeners[i - 1]); }
    }
    NoneKilled(effects);
  }

  lemma {:induction false} QueriesChangeNothing(belongs: ProcessInfo -> bool, s: State, effects: seq<Effect>,
                                                queries: seq<Effect>)
    requires AllCheckedFirst(belongs, s, effects) && KillsAreGuarded(belongs, s, effects)
    requires NoLaunch(effects) && forall e | e in queries :: e.Listed?
    ensures KillsAreGuarded(belongs, s, effects + queries) && NoLaunch(effects + queries)
    ensures KilledPids(effects + queries) == KilledPids(effects)
  {
    var all := effects + queries;
    NoneKilled(queries);
    KilledAppend(effects, queries);
    forall i | |effects| <= i < |all| ensures all[i].Listed? {
      assert all[i] == queries[i - |effects|];
    }
  }

  lemma {:induction false} CheckedStays(belongs: ProcessInfo -> bool, s: State, effects: seq<Effect>, more: seq<Effect>)
    requires AllCheckedFirst(belongs, s, effects)
    ensures AllCheckedFirst(belongs, s, effects + more)
  {
  }

  lemma {:induction false} LaunchEnds(belongs: ProcessInfo -> bool, s: State, effects: seq<Effect>, pid: int)
    requires KillsAreGuarded(belongs, s, effects) && NoLaunch(effects)
    requires effects != [] && effects[|effects| - 1] == Listed([])
    ensures KillsAreGuarded(belongs, s, effects + [Launched(pid)]) && LaunchIsGuarded(effects + [Launched(pid)])
    ensures KilledPids(effects + [Launched(pid)]) == KilledPids(effects)
  {
    hide AllCheckedFirst, IsCheckOf, KilledPids;
    var all := effects + [Launched(pid)];
    forall i: nat | i < |all| && all[i].Killed? ensures IsGuardedKill(belongs, s, all, i) {
      assert effects[i].Killed?;
      assert IsGuardedKill(belongs, s, effects, i);
      CheckedStays(belongs, s, effects, [Launched(pid)]);
    }
    NoneKilled([Launched(pid)]);
    KilledAppend(effects, [Launched(pid)]);
  }
}

/** The supervision cycle, over all runs and crashes. */
module Supervision {
  import opened Common
  import opened SupervisorState
  import opened ServiceRestart

  datatype Config = Config(failureThreshold: int, cooldown: int, startingTimeout: real,
                           startHealthTimeout: real, startHealthPoll: real,
                           belongs: ProcessInfo -> bool, digits: string -> Option<int>)

  /**
    What happened: an unhealthy cycle was counted; a healthy probe was recorded (seen is the
    service identity recorded with it); a restart was attempted; its launch was recorded.
   */
  datatype Event =
    | Counted
    | Marked(at: int, confirmed: bool, seen: Option<ProcessInfo>)
    | Attempted(now: int, occupied: bool, effects: seq<Effect>)
    | Recorded(at: int, pid: int)

  // What the listener query and the process query behind a healthy probe answer.
  datatype Sighting = Sighting(listing: Option<seq<int>>, info: Option<ProcessInfo>)

  /**
    The probes that wait for a launched service: whether probe k is healthy, whether the launcher
    is alive after it, how long it took, and by how much the pause after it was overslept.
   */
  datatype Probes = Probes(healthy: nat -> bool, alive: nat -> bool, took: nat -> real, overslept: nat -> real,
                           sighting: Sighting)

  /**
    What a cycle observes: its probe, the listeners (None when they cannot be queried), and the
    answers to whatever it asks in turn.
   */
  datatype Observed = Observed(healthy: bool, sighting: Sighting, listeners: Option<seq<int>>, restart: Answers,
                               launcher: Option<ProcessInfo>, probes: Probes)

  function NotNegative(x: real): (r: real)
    ensures r >= 0.0 && r >= x && (r == 0.0 || r == x)
  {
    if x < 0.0 then 0.0 else x
  }

  // A pause lasts as long as is set, but a hundredth of a second at least, and no longer than is left.
  function Nap(config: Config, left: real): (nap: real)
    ensures nap <= left && (nap == left || (nap >= 0.01 && nap >= config.startHealthPoll))
    ensures nap <= 0.01 || nap <= config.startHealthPoll
  {
    var poll := if config.startHealthPoll < 0.01 then 0.01 else config.startHealthPoll;
    if poll < left then poll else left
  }

  // The time left before probe k, and after it.
  function Left(config: Config, probes: Probes, k: nat): real
    decreases k, 0
  {
    if k == 0 then NotNegative(config.startHealthTimeout)
    else
      var left := LeftAfter(config, probes, k - 1);
      left - Nap(config, left) - NotNegative(probes.overslept(k - 1))
  }

  function LeftAfter(config: Config, probes: Probes, k: nat): real
    decreases k, 1
  {
    Left(config, probes, k) - NotNegative(probes.took(k))
  }

  // Probe k is made in time and healthy, and all before it were made in vain by a live launcher.
  ghost predicate IsConfirmedAt(config: Config, probes: Probes, k: nat) {
    && Left(config, probes, k) > 0.0 && probes.healthy(k)
    && forall j: nat | j < k :: GoesOnAfter(config, probes, j)
  }

  predicate GoesOnAfter(config: Config, probes: Probes, j: nat) {
    Left(config, probes, j) > 0.0 && !probes.healthy(j) && probes.alive(j) && LeftAfter(config, probes, j) > 0.0
  }

  ghost predicate IsConfirmed(config: Config, probes: Probes) {
    exists k: nat :: IsConfirmedAt(config, probes, k)
  }

  // The identity of the service behind a healthy probe, when it can be told.
  function SeenService(belongs: ProcessInfo -> bool, sighting: Sighting): Option<ProcessInfo> {
    if sighting.listing.None? || |sighting.listing.value| != 1 then None
    else
      var info := Identified(sighting.info, sighting.listing.value[0]);
      if info.None? || !belongs(info.value) then None else info
  }

  // It is told exactly if a single listener was found and the process query answered about it,
  // and it is one of the service's own.
  lemma {:induction false} ServiceIsSeen(belongs: ProcessInfo -> bool, sighting: Sighting, info: ProcessInfo)
    ensures SeenService(belongs, sighting) == Some(info)
            <==> && sighting.listing == Some([info.pid]) && sighting.info == Some(info)
                 && info.pid > 0 && info.created > 0 && belongs(info)
  {
    if sighting.listing.Some? && |sighting.listing.value| == 1 {
      assert sighting.listing.value == [sighting.listing.value[0]];
    }
  }

  // Unhealthy cycles counted since the last recorded healthy probe.
  function Failures(h: seq<Event>): nat {
    if h == [] then 0
    else
      var last := h[|h| - 1];
      if last.Marked? then 0 else Failures(h[..|h| - 1]) + if last.Counted? then 1 else 0
  }

  // When the last start was confirmed; 0 when none was.
  function LastConfirmed(h: seq<Event>): int {
    if h == [] then 0
    else
      var last := h[|h| - 1];
      if last.Marked? && last.confirmed then last.at else LastConfirmed(h[..|h| - 1])
  }

  // The service identity on record: the last one seen at a healthy probe and not given up by a launch.
  function Service(h: seq<Event>): (int, int) {
    if h == [] then (0, 0)
    else
      match h[|h| - 1]
      case Recorded(_, _) => (0, 0)
      case Marked(_, _, Some(info)) => (info.pid, info.created)
      case _ => Service(h[..|h| - 1])
  }

  // When the last launch was recorded, and of which process.
  function LastLaunch(h: seq<Event>): Option<(int, int)> {
    if h == [] then None
    else
      var last := h[|h| - 1];
      if last.Recorded? then Some((last.at, last.pid)) else LastLaunch(h[..|h| - 1])
  }

  predicate IsUnmarked(h: seq<Event>, i: nat, j: nat)
    requires i <= j <= |h|
  {
    forall k | i <= k < j :: !h[k].Marked?
  }

  // Recorded launches with no recorded healthy probe between them are far apart.
  ghost predicate LaunchesAreApart(config: Config, h: seq<Event>) {
    forall i: nat, j: nat | i < j < |h| && h[i].Recorded? && h[j].Recorded? && IsUnmarked(h, i, j) ::
      (h[j].at - h[i].at) as real >= config.startingTimeout
  }

  // When a restart may be attempted, and what it may kill.
  ghost predicate AttemptIsDue(config: Config, h: seq<Event>, i: nat)
    requires i < |h| && h[i].Attempted?
  {
    && i > 0 && h[i - 1].Counted?
    && (h[i].occupied ==>
          && Failures(h[..i]) >= config.failureThreshold
          && (LastConfirmed(h[..i]) == 0 || h[i].now - LastConfirmed(h[..i]) >= config.cooldown))
  }

  // A kill of a process that passed both checks as the service on record.
  ghost predicate IsOwnKill(config: Config, h: seq<Event>, effects: seq<Effect>, k: nat) {
    && 0 < k < |effects| && effects[k].Killed? && effects[k - 1].Checked?
    && var info := effects[k - 1].info;
       config.belongs(info) && effects[k].pid == info.pid > 0 && Service(h) == (info.pid, info.created)
  }

  ghost predicate KillsAreOwn(config: Config, h: seq<Event>, effects: seq<Effect>) {
    forall k: nat | k < |effects| && effects[k].Killed? :: IsOwnKill(config, h, effects, k)
  }

  ghost predicate AttemptIsOk(config: Config, h: seq<Event>, i: nat)
    requires i < |h| && h[i].Attempted?
  {
    && AttemptIsDue(config, h, i) && KillsAreOwn(config, h[..i], h[i].effects)
    && LaunchIsGuarded(h[i].effects) && KillsAreListed(h[i].effects)
  }

  // A launch was recorded, and no healthy probe since.
  ghost predicate HasPending(h: seq<Event>) {
    exists j: nat :: j < |h| && IsPending(h, j)
  }

  ghost predicate IsPending(h: seq<Event>, j: nat)
    requires j < |h|
  {
    h[j].Recorded? && IsUnmarked(h, j, |h|)
  }

  // A healthy probe confirms a start that is pending, and leaves unconfirmed only timed out ones.
  ghost predicate MarkIsHonest(config: Config, h: seq<Event>, i: nat)
    requires i < |h| && h[i].Marked?
  {
    if h[i].confirmed then HasPending(h[..i])
    else forall j: nat | j < i && IsPending(h[..i], j) :: (h[i].at - h[j].at) as real >= config.startingTimeout
  }

  ghost predicate Disciplined(config: Config, h: seq<Event>) {
    && LaunchesAreApart(config, h)
    && (forall i: nat | i < |h| && h[i].Attempted? :: AttemptIsOk(config, h, i))
    && forall i: nat | i < |h| && h[i].Marked? :: MarkIsHonest(config, h, i)
  }

  /******* The state on disk tells the history *******/

  // Launches not yet followed by a recorded healthy probe lie in the past of the starting
  // state, or have timed out.
  ghost predicate PendingIsKnown(config: Config, s: State, h: seq<Event>, clock: int) {
    forall i: nat | i < |h| && IsPending(h, i) ::
      if s.status.Starting? then h[i].at <= s.startingEpoch
      else (clock - h[i].at) as real >= config.startingTimeout
  }

  ghost predicate Tells(config: Config, s: State, h: seq<Event>, clock: int) {
    && ValidState(s) && clock > 0
    && s.failures == Failures(h) && s.lastRestartEpoch == LastConfirmed(h) <= clock
    && (s.servicePid, s.serviceCreated) == Service(h)
    && (s.status.Starting? ==>
          s.startingEpoch <= clock && HasPending(h) && LastLaunch(h) == Some((s.startingEpoch, s.launcherPid)))
    && (forall i | 0 <= i < |h| && h[i].Recorded? :: h[i].at <= clock)
    && PendingIsKnown(config, s, h, clock)
  }

  lemma {:induction false} TellsLater(config: Config, s: State, h: seq<Event>, clock: int, later: int)
    requires Tells(config, s, h, clock) && clock <= later
    ensures Tells(config, s, h, later)
  {
  }

  lemma {:induction false} LastDropped(h: seq<Event>, e: Event)
    ensures (h + [e])[..|h + [e]| - 1] == h
  {
  }

  lemma {:induction false} StaysDisciplined(config: Config, h: seq<Event>, e: Event)
    requires Disciplined(config, h)
    requires e.Attempted? ==> AttemptIsOk(config, h + [e], |h|)
    requires e.Marked? ==> MarkIsHonest(config, h + [e], |h|)
    requires e.Recorded? ==> forall i: nat | i < |h| && IsPending(h, i) ::
               (e.at - h[i].at) as real >= config.startingTimeout
    ensures Disciplined(config, h + [e])
  {
    var g := h + [e];
    forall i: nat, j: nat | i < j < |g| && g[i].Recorded? && g[j].Recorded? && IsUnmarked(g, i, j)
      ensures (g[j].at - g[i].at) as real >= config.startingTimeout
    {
      assert IsUnmarked(h, i, j) by {
        forall k | i <= k < j ensures !h[k].Marked? { assert g[k] == h[k]; }
      }
      if j == |h| { assert IsPending(h, i); }
    }
    forall i: nat | i < |g| && g[i].Attempted? ensures AttemptIsOk(config, g, i) {
      if i < |h| {
        assert g[..i] == h[..i];
        assert AttemptIsOk(config, h, i);
      }
    }
    forall i: nat | i < |g| && g[i].Marked? ensures MarkIsHonest(config, g, i) {
      if i < |h| {
        assert g[..i] == h[..i];
        assert MarkIsHonest(config, h, i);
      }
    }
  }

  // Each event keeps the state on disk and the history in step.
  lemma {:induction false} CountTells(config: Config, s: State, h: seq<Event>, clock: int)
    requires Tells(config, s, h, clock)
    ensures Tells(config, s.(failures := s.failures + 1), h + [Counted], clock)
  {
    LastDropped(h, Counted);
    UnmarkedStays(h, Counted);
  }

  lemma {:induction false} UnmarkedStays(h: seq<Event>, e: Event)
    requires !e.Marked? && !e.Recorded?
    ensures forall i: nat | i < |h| + 1 :: IsPending(h + [e], i) <==> i < |h| && IsPending(h, i)
    ensures HasPending(h) <==> HasPending(h + [e])
  {
    forall i: nat | i < |h| + 1 ensures IsPending(h + [e], i) <==> i < |h| && IsPending(h, i) {
      if i < |h| && IsPending(h + [e], i) {
        forall k | i <= k < |h| ensures !h[k].Marked? { assert (h + [e])[k] == h[k]; }
      }
    }
    if j: nat :| j < |h| && IsPending(h, j) { assert IsPending(h + [e], j); }
    if j: nat :| j < |h| + 1 && IsPending(h + [e], j) { assert IsPending(h, j); }
  }

  lemma {:induction false} MarkTells(config: Config, s: State, h: seq<Event>, clock: int, e: Event, t: State)
    requires Tells(config, s, h, clock) && e.Marked? && e.confirmed == s.status.Starting? && e.at == clock
    requires e.seen.Some? ==> e.seen.value.pid >= 0 && e.seen.value.created >= 0
    requires t == ClearStarting(
                    s.(failures := 0, lastRestartEpoch := if e.confirmed then clock else s.lastRestartEpoch,
                       servicePid := if e.seen.Some? then e.seen.value.pid else s.servicePid,
                       serviceCreated := if e.seen.Some? then e.seen.value.created else s.serviceCreated))
    ensures Tells(config, t, h + [e], clock) && MarkIsHonest(config, h + [e], |h|)
  {
    LastDropped(h, e);
    var g := h + [e];
    assert g[|h|] == e && g[..|h|] == h;
    assert forall i: nat | i < |g| :: !IsPending(g, i);
  }

  lemma {:induction false} AttemptTells(config: Config, s: State, h: seq<Event>, clock: int, e: Event)
    requires Tells(config, s, h, clock) && e.Attempted?
    ensures Tells(config, s, h + [e], clock)
  {
    LastDropped(h, e);
    UnmarkedStays(h, e);
  }

  lemma {:induction false} RecordTells(config: Config, s: State, h: seq<Event>, clock: int, launcherPid: int)
    requires Tells(config, s, h, clock) && s.status.Idle? && launcherPid > 0
    ensures Tells(config, Launching(s, launcherPid, clock), h + [Recorded(clock, launcherPid)], clock)
  {
    LastDropped(h, Recorded(clock, launcherPid));
    var g := h + [Recorded(clock, launcherPid)];
    assert IsPending(g, |h|);
    forall i: nat | i < |g| && IsPending(g, i) ensures g[i].at <= clock {
    }
  }

  // What an idle state tells.
  lemma {:induction false} IdleTells(config: Config, s: State, h: seq<Event>, clock: int)
    requires Tells(config, s, h, clock) && s.status.Idle?
    ensures s.failures == Failures(h) && s.lastRestartEpoch == LastConfirmed(h) <= clock
    ensures forall i: nat | i < |h| && IsPending(h, i) :: (clock - h[i].at) as real >= config.startingTimeout
  {
  }

  lemma {:induction false} LauncherTells(config: Config, s: State, h: seq<Event>, clock: int, created: int)
    requires Tells(config, s, h, clock) && created >= 0
    ensures Tells(config, s.(launcherCreated := created), h, clock)
  {
  }

  // The last recorded launch is pending if any is.
  lemma {:induction false} LastLaunchIsPending(h: seq<Event>)
    requires HasPending(h)
    ensures exists j: nat :: j < |h| && IsPending(h, j) && LastLaunch(h) == Some((h[j].at, h[j].pid))
  {
    var last := |h| - 1;
    var i: nat :| i < |h| && IsPending(h, i);
    if h[last].Recorded? {
      assert IsPending(h, last);
    } else {
      assert IsPending(h[..last], i);
      LastLaunchIsPending(h[..last]);
      var j: nat :| && j < last && IsPending(h[..last], j)
                    && LastLaunch(h[..last]) == Some((h[..last][j].at, h[..last][j].pid));
      assert !h[last].Marked?;
      forall k | j <= k < |h| ensures !h[k].Marked? {
        if k < last { assert h[..last][k] == h[k]; }
      }
      assert IsPending(h, j);
    }
  }

  // A starting state can be cleared exactly when it has timed out.
  lemma {:induction false} ClearTells(config: Config, s: State, h: seq<Event>, clock: int)
    requires Tells(config, s, h, clock) && s.status.Starting?
    ensures Tells(config, ClearStarting(s), h, clock) <==> (clock - s.startingEpoch) as real >= config.startingTimeout
  {
    LastLaunchIsPending(h);
    var j: nat :| j < |h| && IsPending(h, j) && LastLaunch(h) == Some((h[j].at, h[j].pid));
    if Tells(config, ClearStarting(s), h, clock) {
      assert (clock - h[j].at) as real >= config.startingTimeout;
    }
  }

  function ClearStarting(s: State): State {
    s.(status := Idle, launcherPid := 0, startingEpoch := 0, launcherCreated := 0)
  }

  function Launching(s: State, launcherPid: int, now: int): State {
    s.(status := Starting, launcherPid := launcherPid, startingEpoch := now, launcherCreated := 0,
       servicePid := 0, serviceCreated := 0)
  }

  function Max(a: int, b: int): int { if a < b then b else a }

  // After an attempt comes the record of the process it launched, or none if it launched none.
  predicate LaunchIsRecorded(h: seq<Event>) {
    && h != [] && h[0].Attempted?
    && var effects := h[0].effects;
       if HasLaunched(effects)
       then |h| > 1 && h[1].Recorded? && h[1].pid == effects[|effects| - 1].pid
       else h == [h[0]]
  }

  // A launch was recorded and may still become healthy.
  predicate InStartup(config: Config, s: State, now: int) {
    s.status.Starting? && Max(0, now - s.startingEpoch) as real < config.startingTimeout
  }

  // One more unhealthy cycle makes a restart due.
  predicate IsDue(config: Config, h: seq<Event>, now: int, occupied: bool) {
    occupied ==>
      && Failures(h) + 1 >= config.failureThreshold
      && (LastConfirmed(h) == 0 || Max(0, now - LastConfirmed(h)) >= config.cooldown)
  }

  // The cycle was counted, and a restart was attempted exactly when it was due; the attempt starts
  // the service exactly if nothing it asks for fails and it may kill what it finds.
  ghost predicate HasActed(config: Config, s: State, h: seq<Event>, h': seq<Event>, now: int, observed: Observed)
    requires observed.listeners.Some?
  {
    var occupied := observed.listeners.value != [];
    && |h'| > |h| && h <= h' && h'[|h|] == Counted
    && if IsDue(config, h, now, occupied)
       then && |h'| > |h| + 1 && h'[|h| + 1].Attempted? && h'[|h| + 1].occupied == occupied && h'[|h| + 1].now == now
            && if Launches(config, s.(status := Idle), observed.restart)
               then HasStarted(config, h'[..|h| + 2], h', observed)
               else |h'| == |h| + 2
       else h' == h + [Counted]
  }

  // One healthy probe was recorded, with what was seen behind it.
  predicate IsMarked(config: Config, h: seq<Event>, h': seq<Event>, confirmed: bool, sighting: Sighting) {
    && |h'| == |h| + 1 && h <= h' && h'[|h|].Marked? && h'[|h|].confirmed == confirmed
    && h'[|h|].seen == SeenService(config.belongs, sighting)
  }

  // A restart from this state finds nothing that fails or is refused, and launches a process.
  ghost predicate Launches(config: Config, s: State, answers: Answers) {
    IsCleared(config.belongs, s, answers) && answers.launch.Some? && answers.launch.value > 0
  }

  // Whether a restart launches depends on the service on record only, while none is starting.
  lemma {:induction false} LaunchesAlike(config: Config, s: State, t: State, answers: Answers)
    requires s.status.Idle? && t.status.Idle? && (s.servicePid, s.serviceCreated) == (t.servicePid, t.serviceCreated)
    ensures Launches(config, s, answers) <==> Launches(config, t, answers)
  {
    assert forall info :: Passes(config.belongs, s, info) <==> Passes(config.belongs, t, info);
    assert forall answer, pid :: IsOwned(config.belongs, s, answer, pid) <==> IsOwned(config.belongs, t, answer, pid);
  }

  // A launched process is recorded, with its identity if that can be told; the first probe in time
  // that is healthy is recorded too.
  ghost predicate HasStarted(config: Config, h: seq<Event>, h': seq<Event>, observed: Observed) {
    && |h'| > |h| && h <= h' && h'[|h|].Recorded? && Some(h'[|h|].pid) == observed.restart.launch
    && if IsConfirmed(config, observed.probes)
       then IsMarked(config, h'[..|h| + 1], h', true, observed.probes.sighting)
       else |h'| == |h| + 1
  }

  class Supervisor {
    const config: Config

    // Survives the process.
    var file: File
    // The clock, in whole seconds; it never runs backwards.
    var clock: int
    ghost var history: seq<Event>

    constructor (config: Config, now: int)
      requires now > 0
      ensures Valid() && history == [] && this.config == config
    {
      this.config, file, clock, history := config, Missing, now, [];
    }

    ghost predicate Valid()
      reads this
    {
      && Load(file, config.digits).Ok?
      && Tells(config, Load(file, config.digits).value, history, clock) && Disciplined(config, history)
    }

    // The state that the next cycle starts from.
    ghost function OnDisk(): State
      requires Load(file, config.digits).Ok?
      reads this
    {
      Load(file, config.digits).value
    }

    method Now() returns (now: int)
      modifies this`clock
      ensures old(clock) <= clock == now
    {
      var tick: int := *;
      clock := clock + Max(0, tick);
      now := clock;
    }

    // The file is replaced as a whole; the process may die before or after, unless it is reliable.
    method Save(s: State, ghost events: seq<Event>, reliable: bool) returns (died: bool)
      requires Valid() && Tells(config, s, history + events, clock) && Disciplined(config, history + events)
      modifies this`file, this`history
      ensures Valid() && (reliable ==> !died)
      ensures !died ==> OnDisk() == s && history == old(history) + events
      ensures history == old(history) || history == old(history) + events
    {
      died := *;
      if died && !reliable { return; }
      SavedLoadsBack(s, config.digits);
      file := Parsed(Encode(s));
      history := history + events;
      died := *;
      died := died && !reliable;
    }

    method MarkHealthy(s: State, sighting: Sighting, reliable: bool) returns (died: bool)
      requires Valid() && Tells(config, s, history, clock)
      modifies this
      ensures Valid() && (reliable ==> !died)
      ensures || IsMarked(config, old(history), history, s.status.Starting?, sighting)
              || (died && history == old(history))
      ensures !died ==>
                && IsMarked(config, old(history), history, s.status.Starting?, sighting)
                && var seen := SeenService(config.belongs, sighting);
                   OnDisk() == s.(failures := 0,
                                  lastRestartEpoch := if s.status.Starting? then clock else s.lastRestartEpoch,
                                  status := Idle, launcherPid := 0, startingEpoch := 0, launcherCreated := 0,
                                  servicePid := if seen.Some? then seen.value.pid else s.servicePid,
                                  serviceCreated := if seen.Some? then seen.value.created else s.serviceCreated)
    {
      var completedStart := s.status.Starting?;
      var seen := SeenService(config.belongs, sighting);
      var t := s;
      if seen.Some? { t := t.(servicePid := seen.value.pid, serviceCreated := seen.value.created); }
      t := t.(failures := 0);
      var now := Now();
      if completedStart { t := t.(lastRestartEpoch := now); }
      t := ClearStarting(t);
      ghost var e := Marked(clock, completedStart, seen);
      TellsLater(config, s, history, old(clock), clock);
      MarkTells(config, s, history, clock, e, t);
      TellsLater(config, OnDisk(), history, old(clock), clock);
      StaysDisciplined(config, history, e);
      died := Save(t, [e], reliable);
    }

    /**
      Attempts the restart and waits for the service to become healthy.  occupied is whether
      the cycle saw a listener on the port.
     */
    method StartAndConfirm(s: State, now: int, occupied: bool, observed: Observed, reliable: bool)
      returns (r: Option<int>)
      requires Valid() && Tells(config, s, history, clock) && s.status.Idle? && now <= clock
      requires history != [] && history[|history| - 1].Counted?
      requires forall i: nat | i < |history| && IsPending(history, i) ::
                 (now - history[i].at) as real >= config.startingTimeout
      requires occupied ==> && s.failures >= config.failureThreshold
                            && (s.lastRestartEpoch == 0 || now - s.lastRestartEpoch >= config.cooldown)
      modifies this
      ensures Valid() && old(history) < history && r != Some(0) && (reliable ==> r.Some?)
      ensures var e := history[|old(history)|];
              && e.Attempted? && e.occupied == occupied && e.now == now
              && (HasLaunched(e.effects) <==> Launches(config, s, observed.restart))
      ensures r.Some? ==>
                if Launches(config, s, observed.restart)
                then HasStarted(config, history[..|old(history)| + 1], history, observed)
                else |history| == |old(history)| + 1
      ensures r.Some? ==> LaunchIsRecorded(history[|old(history)|..])
    {
      hide Tells, Disciplined, AttemptIsOk, KillsAreGuarded, LaunchIsGuarded, IsPending, Load, IsCleared, IsCauseOf,
           IsConfirmed;
      var launched, effects := Restart(config.belongs, s, observed.restart);
      ghost var e := Attempted(now, occupied, effects);
      AttemptIsGuarded(config, s, history, clock, e);
      AttemptTells(config, s, history, clock, e);
      AttemptTells(config, OnDisk(), history, clock, e);
      StaysDisciplined(config, history, e);
      UnmarkedStays(history, e);
      history := history + [e];
      if launched.Err? || launched.value <= 0 { return Some(1); }
      ghost var before := history;
      r := RecordAndConfirm(s, launched.value, now, observed, reliable);
      assert history[..|before|] == before;
    }

    method RecordAndConfirm(s: State, launcherPid: int, ghost now: int, observed: Observed, reliable: bool)
      returns (r: Option<int>)
      requires Valid() && Tells(config, s, history, clock) && s.status.Idle? && now <= clock && launcherPid > 0
      requires observed.restart.launch == Some(launcherPid)
      requires forall i: nat | i < |history| && IsPending(history, i) ::
                 (now - history[i].at) as real >= config.startingTimeout
      modifies this
      ensures Valid() && old(history) <= history && r != Some(0) && (reliable ==> r.Some?)
      ensures r.Some? ==> HasStarted(config, old(history), history, observed)
      ensures r.Some? && !IsConfirmed(config, observed.probes) ==>
                var info := Identified(observed.launcher, launcherPid);
                OnDisk().launcherCreated == if info.Some? && config.belongs(info.value) then info.value.created else 0
    {
      hide Tells, Disciplined, IsConfirmed, Load, SeenService;
      var launchedAt := Now();
      var t := Launching(s, launcherPid, launchedAt);
      TellsLater(config, s, history, old(clock), clock);
      TellsLater(config, OnDisk(), history, old(clock), clock);
      RecordTells(config, s, history, clock, launcherPid);
      StaysDisciplined(config, history, Recorded(clock, launcherPid));
      var died := Save(t, [Recorded(clock, launcherPid)], reliable);
      if died { return None; }
      var info := Identified(observed.launcher, launcherPid);
      if info.Some? && config.belongs(info.value) {
        LauncherTells(config, t, history, clock, info.value.created);
        t := t.(launcherCreated := info.value.created);
        assert history + [] == history;
        died := Save(t, [], reliable);
        if died { return None; }
      }
      r := Confirm(t, observed.probes, reliable);
    }

    // Probes until the service is healthy, its launcher is gone or the time is up.
    method Confirm(s: State, probes: Probes, reliable: bool) returns (r: Option<int>)
      requires Valid() && Tells(config, s, history, clock) && s.status.Starting?
      modifies this
      ensures Valid() && r != Some(0) && (reliable ==> r.Some?)
      ensures history == old(history) || IsMarked(config, old(history), history, true, probes.sighting)
      ensures r.Some? ==>
                if IsConfirmed(config, probes) then IsMarked(config, old(history), history, true, probes.sighting)
                else history == old(history) && OnDisk() == old(OnDisk())
    {
      ghost var file' := file;
      var k := 0;
      var remaining := NotNegative(config.startHealthTimeout);
      while true
        invariant Valid() && Tells(config, s, history, clock) && history == old(history) && file == file'
        invariant remaining == Left(config, probes, k) && forall j: nat | j < k :: GoesOnAfter(config, probes, j)
        decreases if remaining <= 0.0 then 0 else (remaining * 100.0).Floor + 1
      {
        if remaining <= 0.0 {
          NotConfirmed(config, probes, k);
          return Some(1);
        }
        if probes.healthy(k) {
          assert IsConfirmedAt(config, probes, k);
          var died := MarkHealthy(s, probes.sighting, reliable);
          return if died then None else Some(1);
        }
        var left := remaining - NotNegative(probes.took(k));
        if !probes.alive(k) || left <= 0.0 {
          NotConfirmed(config, probes, k);
          return Some(1);
        }
        remaining := left - Nap(config, left) - NotNegative(probes.overslept(k));
        k := k + 1;
      }
    }

    /**
      One cycle under the lock.  None: the process died.  now is the clock reading of an
      unhealthy cycle.
     */
    method RunLocked(observed: Observed, reliable: bool) returns (r: Option<int>, now: int)
      requires Valid()
      modifies this
      ensures Valid() && old(history) <= history && (reliable ==> r.Some?)
      ensures r == Some(0) ==> observed.healthy
      ensures r.Some? && observed.healthy ==>
                && r == Some(0)
                && IsMarked(config, old(history), history, old(OnDisk()).status.Starting?, observed.sighting)
      ensures r.Some? && !observed.healthy && (InStartup(config, old(OnDisk()), now) || observed.listeners.None?) ==>
                && history == old(history)
                && OnDisk() == if InStartup(config, old(OnDisk()), now) || old(OnDisk()).status.Idle? then old(OnDisk())
                               else old(OnDisk()).(status := Idle, launcherPid := 0, startingEpoch := 0,
                                                   launcherCreated := 0)
      ensures r.Some? && !observed.healthy && !InStartup(config, old(OnDisk()), now) && observed.listeners.Some? ==>
                HasActed(config, old(OnDisk()), old(history), history, now, observed)
    {
      var s := Load(file, config.digits).value;
      now := clock;
      if observed.healthy {
        var died := MarkHealthy(s, observed.sighting, reliable);
        r := if died then None else Some(0);
        return;
      }
      now := Now();
      TellsLater(config, s, history, old(clock), clock);
      ghost var loaded := s;
      if s.status.Starting? {
        var age := Max(0, now - s.startingEpoch);
        if age as real < config.startingTimeout { r := Some(1); return; }
        ClearTells(config, s, history, clock);
        s := ClearStarting(s);
        assert history + [] == history;
        var died := Save(s, [], reliable);
        if died { r := None; return; }
      }
      if observed.listeners.None? { r := Some(1); return; }
      r := CountAndAct(s, now, observed, reliable);
      LaunchesAlike(config, s, loaded.(status := Idle), observed.restart);
    }

    method CountAndAct(s: State, now: int, observed: Observed, reliable: bool) returns (r: Option<int>)
      requires Valid() && Tells(config, s, history, clock) && s.status.Idle? && now == clock
      requires observed.listeners.Some?
      modifies this
      ensures Valid() && old(history) <= history && r != Some(0) && (reliable ==> r.Some?)
      ensures r.Some? ==> HasActed(config, s, old(history), history, now, observed)
    {
      hide Tells, Disciplined, IsPending, Failures, LastConfirmed, IsCleared, IsConfirmed;
      var t := s.(failures := s.failures + 1);
      CountTells(config, s, history, clock);
      IdleTells(config, s, history, clock);
      IdleTells(config, t, history + [Counted], clock);
      StaysDisciplined(config, history, Counted);
      LaunchesAlike(config, s, t, observed.restart);
      ghost var before := history;
      var died := Save(t, [Counted], reliable);
      if died { return None; }
      if observed.listeners.value == [] { r := StartAndConfirm(t, now, false, observed, reliable); return; }
      if t.failures < config.failureThreshold { return Some(1); }
      var elapsed := Max(0, now - t.lastRestartEpoch);
      if t.lastRestartEpoch != 0 && elapsed < config.cooldown { return Some(1); }
      r := StartAndConfirm(t, now, true, observed, reliable);
    }

    // Any number of cycles, each dying or not, whatever they observe.
    method RunCycles(cycles: seq<(Observed, bool)>)
      requires Valid()
      modifies this
      ensures Valid() && old(history) <= history
    {
      for i := 0 to |cycles|
        invariant Valid() && old(history) <= history
      {
        var _, _ := RunLocked(cycles[i].0, cycles[i].1);
      }
    }
  }

  // After probes in vain, a probe that is out of time, or unhealthy with nothing left to wait for,
  // ends the wait.
  lemma {:induction false} NotConfirmed(config: Config, probes: Probes, k: nat)
    requires forall j: nat | j < k :: GoesOnAfter(config, probes, j)
    requires || Left(config, probes, k) <= 0.0
             || (!probes.healthy(k) && (!probes.alive(k) || LeftAfter(config, probes, k) <= 0.0))
    ensures !IsConfirmed(config, probes)
  {
    hide Left, LeftAfter;
    forall i: nat ensures !IsConfirmedAt(config, probes, i) {
      if i < k { assert GoesOnAfter(config, probes, i); }
      assert k < i ==> !GoesOnAfter(config, probes, k);
    }
  }

  lemma {:induction false} AttemptIsGuarded(config: Config, s: State, h: seq<Event>, clock: int, e: Event)
    requires Tells(config, s, h, clock) && s.status.Idle? && e.Attempted? && e.now <= clock
    requires h != [] && h[|h| - 1].Counted?
    requires KillsAreGuarded(config.belongs, s, e.effects) && LaunchIsGuarded(e.effects)
    requires KillsAreListed(e.effects)
    requires e.occupied ==> && s.failures >= config.failureThreshold
                            && (s.lastRestartEpoch == 0 || e.now - s.lastRestartEpoch >= config.cooldown)
    ensures AttemptIsOk(config, h + [e], |h|)
  {
    assert (h + [e])[..|h|] == h;
    forall k: nat | k < |e.effects| && e.effects[k].Killed? ensures IsOwnKill(config, h, e.effects, k) {
      assert IsGuardedKill(config.belongs, s, e.effects, k);
      assert IsCheckOf(config.belongs, s, e.effects[k - 1], e.effects[k].pid);
    }
  }

  /******* What a disciplined history says *******/

  lemma {:induction false} LaunchesRise(launches: seq<nat>)
    requires launches != [] && forall k | 0 < k < |launches| :: launches[k - 1] < launches[k]
    ensures launches[0] <= launches[|launches| - 1]
  {
    if |launches| > 1 { LaunchesRise(launches[..|launches| - 1]); }
  }

  // n launches without a recorded healthy probe between them take n - 1 starting timeouts.
  lemma {:induction false} LaunchesSpread(config: Config, h: seq<Event>, launches: seq<nat>)
    requires Disciplined(config, h) && launches != []
    requires forall k | 0 <= k < |launches| :: launches[k] < |h| && h[launches[k]].Recorded?
    requires forall k | 0 < k < |launches| :: launches[k - 1] < launches[k]
    requires launches[0] <= launches[|launches| - 1] && IsUnmarked(h, launches[0], launches[|launches| - 1])
    ensures (h[launches[|launches| - 1]].at - h[launches[0]].at) as real
            >= (|launches| - 1) as real * config.startingTimeout
    decreases |launches|
  {
    hide Disciplined;
    if |launches| > 1 {
      var last := launches[|launches| - 1];
      assert launches[1..][|launches| - 2] == last;
      LaunchesRise(launches[1..]);
      LaunchesSpread(config, h, launches[1..]);
      LaunchesApart(config, h, launches[0], launches[1]);
      OneTimeoutMore(|launches| - 2, config.startingTimeout, (h[last].at - h[launches[1]].at) as real,
                     (h[launches[1]].at - h[launches[0]].at) as real);
    }
  }

  lemma {:induction false} OneTimeoutMore(n: int, timeout: real, rest: real, first: real)
    requires rest >= n as real * timeout && first >= timeout
    ensures rest + first >= (n + 1) as real * timeout
  {
    assert (n + 1) as real * timeout == n as real * timeout + timeout;
  }

  lemma {:induction false} LaunchesApart(config: Config, h: seq<Event>, i: nat, j: nat)
    requires Disciplined(config, h) && i < j < |h| && h[i].Recorded? && h[j].Recorded? && IsUnmarked(h, i, j)
    ensures (h[j].at - h[i].at) as real >= config.startingTimeout
  {
  }

  ghost predicate SeenAt(h: seq<Event>, j: nat, pid: int, created: int) {
    && j < |h| && h[j].Marked? && h[j].seen.Some?
    && h[j].seen.value.pid == pid && h[j].seen.value.created == created
    && forall k | j < k < |h| :: !h[k].Recorded?
  }

  ghost predicate WasSeen(h: seq<Event>, pid: int, created: int) {
    exists j: nat :: SeenAt(h, j, pid, created)
  }

  lemma {:induction false} ServiceWasSeen(h: seq<Event>)
    requires Service(h).0 != 0
    ensures WasSeen(h, Service(h).0, Service(h).1)
  {
    var last := |h| - 1;
    if h[last].Marked? && h[last].seen.Some? {
      assert SeenAt(h, last, Service(h).0, Service(h).1);
    } else {
      ServiceWasSeen(h[..last]);
      var j: nat :| SeenAt(h[..last], j, Service(h).0, Service(h).1);
      forall k | j < k < |h| ensures !h[k].Recorded? {
        if k < last { assert h[..last][k] == h[k]; }
      }
      assert SeenAt(h, j, Service(h).0, Service(h).1);
    }
  }

  // Whatever is killed was the service behind a healthy probe, and nothing was launched since.
  lemma {:induction false} KilledWasSeen(config: Config, h: seq<Event>, i: nat, k: nat)
    requires Disciplined(config, h) && i < |h| && h[i].Attempted?
    requires k < |h[i].effects| && h[i].effects[k].Killed?
    ensures k > 0 && h[i].effects[k - 1].Checked?
    ensures WasSeen(h[..i], h[i].effects[k].pid, h[i].effects[k - 1].info.created)
  {
    assert AttemptIsOk(config, h, i);
    assert IsOwnKill(config, h[..i], h[i].effects, k);
    ServiceWasSeen(h[..i]);
  }

  // The counter is the number of unhealthy cycles counted since the last recorded healthy probe.
  lemma {:induction false} FailuresAreCounted(h: seq<Event>, m: nat)
    requires m <= |h| && IsUnmarked(h, m, |h|) && (m == 0 || h[m - 1].Marked?)
    ensures Failures(h) == |CountedFrom(h, m)|
    decreases |h|
  {
    if m == |h| {
      assert CountedFrom(h, m) == {};
    } else {
      var last := |h| - 1;
      assert !h[last].Marked?;
      FailuresAreCounted(h[..last], m);
      LastCounts(h, m);
    }
  }

  function CountedFrom(h: seq<Event>, m: nat): set<nat> {
    set k: nat | m <= k < |h| && h[k].Counted?
  }

  lemma {:induction false} LastCounts(h: seq<Event>, m: nat)
    requires m < |h|
    ensures |CountedFrom(h, m)| == |CountedFrom(h[..|h| - 1], m)| + if h[|h| - 1].Counted? then 1 else 0
  {
    var last := |h| - 1;
    var earlier := CountedFrom(h[..last], m);
    assert last !in earlier;
    assert CountedFrom(h, m) == if h[last].Counted? then earlier + {last} else earlier;
  }

  /******* A listener that appears between the two queries *******/

  ghost predicate IsKill(h: seq<Event>, i: nat) {
    i < |h| && h[i].Attempted? && KilledPids(h[i].effects) != []
  }

  ghost predicate HasThreshold(config: Config, h: seq<Event>, i: nat)
    requires i < |h|
  {
    Failures(h[..i]) >= config.failureThreshold
  }

  ghost predicate HasCooledDown(config: Config, h: seq<Event>, i: nat)
    requires i < |h| && h[i].Attempted?
  {
    LastConfirmed(h[..i]) == 0 || h[i].now - LastConfirmed(h[..i]) >= config.cooldown
  }

  // A restart that kills before the threshold or within the cooldown.
  ghost predicate IsEarlyKill(config: Config, h: seq<Event>, i: nat) {
    IsKill(h, i) && !(HasThreshold(config, h, i) && HasCooledDown(config, h, i))
  }

  // No kill is early in a cycle that saw the port occupied; otherwise the restart found, on
  // listing the port again, a listener that the cycle had not seen.
  lemma {:induction false} EarlyKillsWereUnseen(config: Config, h: seq<Event>, i: nat)
    requires Disciplined(config, h) && IsEarlyKill(config, h, i)
    ensures !h[i].occupied && h[i].effects != [] && h[i].effects[0].Listed? && h[i].effects[0].pids != []
  {
    assert AttemptIsOk(config, h, i);
  }

  // The trace of a restart that checks, checks again and kills one listener.
  function OneKill(info: ProcessInfo): seq<Effect> {
    [Listed([info.pid]), Checked(info), Checked(info), Killed(info.pid)]
  }

  // The service was healthy, missed one probe with nothing listening, and listens again when
  // the restart looks: it is killed at one failure, whatever the threshold.
  function EarlyKillHistory(info: ProcessInfo, now: int): seq<Event> {
    [Marked(now, false, Some(info)), Counted, Attempted(now, false, OneKill(info))]
  }

  lemma {:induction false} EarlyKillHappens(config: Config, info: ProcessInfo, now: int)
    requires config.failureThreshold > 1 && config.belongs(info) && info.pid > 0 && info.created > 0
    ensures var h := EarlyKillHistory(info, now);
            Disciplined(config, h) && IsKill(h, 2) && !h[2].occupied && !HasThreshold(config, h, 2)
    ensures KillsAreGuarded(config.belongs, DEFAULT.(servicePid := info.pid, serviceCreated := info.created),
                            OneKill(info))
  {
    var h := EarlyKillHistory(info, now);
    assert h[..2] == [h[0], h[1]] && h[..2][..1] == [h[0]] && h[..1] == [h[0]] && [h[0]][..0] == [] && h[..0] == [];
    assert Service([h[0]]) == (info.pid, info.created) && Service(h[..2]) == Service([h[0]]);
    assert Failures([h[0]]) == 0 && Failures(h[..2]) == 1;
    OneKillIsOwn(config, h[..2], info);
    assert AttemptIsOk(config, h, 2);
    assert MarkIsHonest(config, h, 0);
  }

  lemma {:induction false} OneKillIsOwn(config: Config, h: seq<Event>, info: ProcessInfo)
    requires config.belongs(info) && info.pid > 0 && Service(h) == (info.pid, info.created)
    ensures KillsAreOwn(config, h, OneKill(info)) && LaunchIsGuarded(OneKill(info)) && KillsAreListed(OneKill(info))
    ensures KilledPids(OneKill(info)) == [info.pid]
  {
    var effects := OneKill(info);
    assert IsOwnKill(config, h, effects, 3);
    NoneKilled(effects[..3]);
    assert KilledPids(effects) == KilledPids(effects[..3]) + [info.pid] == [info.pid] == effects[0].pids;
  }

  // A start was confirmed a moment ago; the service misses one probe with nothing listening, and
  // listens again when the restart looks.
  function KillInCooldown(info: ProcessInfo, now: int): seq<Event> {
    [Counted, Attempted(now, false, [Listed([]), Launched(info.pid)]), Recorded(now, info.pid),
     Marked(now, true, Some(info)), Counted, Attempted(now, false, OneKill(info))]
  }

  lemma {:induction false} KillInCooldownHappens(config: Config, info: ProcessInfo, now: int)
    requires config.cooldown > 0 && now > 0 && config.belongs(info) && info.pid > 0 && info.created > 0
    ensures var h := KillInCooldown(info, now);
            Disciplined(config, h) && IsKill(h, 5) && !h[5].occupied && !HasCooledDown(config, h, 5)
    ensures KillsAreGuarded(config.belongs, DEFAULT.(servicePid := info.pid, serviceCreated := info.created),
                            OneKill(info))
  {
    var h := KillInCooldown(info, now);
    BeforeKillInCooldown(info, now);
    OneKillIsOwn(config, h[..5], info);
    NoneKilled(h[1].effects);
    assert IsPending(h[..3], 2) && MarkIsHonest(config, h, 3);
    hide Service, LastConfirmed, Failures, OneKill, KillsAreOwn;
    assert AttemptIsOk(config, h, 5);
    assert AttemptIsOk(config, h, 1) by { NoneKilled(h[1].effects); NothingIsOwn(config, h[..1], h[1].effects); }
  }

  lemma {:induction false} NothingIsOwn(config: Config, h: seq<Event>, effects: seq<Effect>)
    requires forall e | e in effects :: !e.Killed?
    ensures KillsAreOwn(config, h, effects)
  {
  }

  lemma {:induction false} BeforeKillInCooldown(info: ProcessInfo, now: int)
    ensures var h := KillInCooldown(info, now);
            Service(h[..5]) == (info.pid, info.created) && LastConfirmed(h[..5]) == now
  {
    var h := KillInCooldown(info, now);
    assert h[..5][..4] == h[..4];
    assert Service(h[..4]) == (info.pid, info.created) && Service(h[..5]) == Service(h[..4]);
    assert LastConfirmed(h[..4]) == now && LastConfirmed(h[..5]) == LastConfirmed(h[..4]);
  }

  // Between startups a process may be killed exactly if it is one of the service's own and the last
  // one seen at a healthy probe, with no launch recorded since.
  lemma {:induction false} OnRecordMayBeKilled(config: Config, s: State, h: seq<Event>, clock: int, info: ProcessInfo)
    requires Tells(config, s, h, clock) && s.status.Idle?
    ensures Passes(config.belongs, s, info) <==> config.belongs(info) && Service(h) == (info.pid, info.created)
  {
  }

  // While a launch is pending, the launched process may be killed as well.
  lemma {:induction false} LaunchedMayBeKilled(config: Config, s: State, info: ProcessInfo)
    requires s.status.Starting? && config.belongs(info)
    ensures Passes(config.belongs, s, info)
            <==> (info.pid, info.created) in {(s.servicePid, s.serviceCreated), (s.launcherPid, s.launcherCreated)}
  {
  }

  // If there is anything to wait for, all kills waited exactly in the cycles that saw the port occupied.
  lemma {:induction false} KillsWaitExactly(config: Config, info: ProcessInfo, occupied: bool)
    requires config.failureThreshold > 1 || config.cooldown > 0
    requires config.belongs(info) && info.pid > 0 && info.created > 0
    ensures (forall h: seq<Event>, i: nat | Disciplined(config, h) && IsKill(h, i) && h[i].occupied == occupied ::
               HasThreshold(config, h, i) && HasCooledDown(config, h, i))
            <==> occupied
  {
    hide Failures, LastConfirmed, EarlyKillHistory, KillInCooldown;
    if occupied {
      forall h: seq<Event>, i: nat | Disciplined(config, h) && IsKill(h, i) && h[i].occupied
        ensures HasThreshold(config, h, i) && HasCooledDown(config, h, i)
      {
        assert AttemptIsOk(config, h, i);
      }
    } else if config.failureThreshold > 1 {
      EarlyKillHappens(config, info, 1);
    } else {
      KillInCooldownHappens(config, info, 1);
    }
  }
}
