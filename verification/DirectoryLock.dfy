/**
  The supervisor's directory lock, as processes that interleave one filesystem operation at a
  time.  A process may stop at any step (a crash or an exit), and stopping drops the guard file
  lock, as the operating system does.  The lock path holds at most one directory; a directory
  is identified by the process that made it, which makes at most one.  Process ids are fresh,
  so an id that has stopped never runs again, and a process's random token is its id.
 */
module DirectoryLock {
  import opened Common

  type Pid = p: nat | p > 0 witness 1

  // The owner file inside a directory: absent, created but not yet written, or complete.
  datatype Owner = NoFile | Partial | Record(pid: Pid, token: Pid)

  datatype Directory = Directory(creator: Pid, mtime: real, owner: Owner)

  // The operation a process performs next.
  datatype Phase =
    | TryMkdir
    | OpenOwner
    | WriteOwner(target: Pid)  // the owner file of target's directory is open
    | UndoUnlink
    | UndoRmdir
    | TryGuard
    | Stat
    | ReadOwner
    | CheckAlive(seen: nat)  // 0 when no process id could be read
    | Rename
    | RetryMkdir
    | Sweep(won: bool)
    | DropGuard(won: bool)
    | Running
    | ReadToken
    | Unlink
    | Rmdir
    | Done

  // now is the clock reading of the lock object; since is the time of the successful mkdir.
  datatype Process = Process(phase: Phase, now: real, since: real, alive: bool, reclaiming: bool)

  datatype State = State(
    clock: real,
    lock: Option<Directory>,
    guard: Option<Pid>,
    procs: map<Pid, Process>)

  /******* Steps *******/

  function Goto(s: State, p: Pid, phase: Phase): (t: State)
    requires p in s.procs
    ensures p in t.procs && t.procs == s.procs[p := t.procs[p]] && t.clock == s.clock
    ensures t.procs[p] == s.procs[p].(phase := phase)
  {
    s.(procs := s.procs[p := s.procs[p].(phase := phase)])
  }

  function Made(s: State, p: Pid, reclaiming: bool): (t: State)
    requires p in s.procs
    ensures p in t.procs && t.procs == s.procs[p := t.procs[p]] && t.clock == s.clock
    ensures t.procs[p].alive == s.procs[p].alive && t.procs[p].since == s.clock
  {
    s.(lock := Some(Directory(p, s.clock, NoFile)),
       procs := s.procs[p := s.procs[p].(phase := OpenOwner, since := s.clock, reclaiming := reclaiming)])
  }

  // Creating or removing the owner file updates the directory's modification time.
  function Truncated(d: Directory, clock: real): (r: Directory)
    ensures r.creator == d.creator && r.owner.Partial? && (r.mtime == clock || (r.mtime == d.mtime && !d.owner.NoFile?))
  {
    d.(owner := Partial, mtime := if d.owner.NoFile? then clock else d.mtime)
  }

  function Emptied(d: Directory, clock: real): (r: Directory)
    ensures r.creator == d.creator && r.owner.NoFile? && (r.mtime == clock || (r.mtime == d.mtime && d.owner.NoFile?))
  {
    if d.owner.NoFile? then d else d.(owner := NoFile, mtime := clock)
  }

  function Written(s: State, p: Pid, target: Pid): Option<Directory> {
    if s.lock.Some? && s.lock.value.creator == target && !s.lock.value.owner.NoFile? then
      Some(s.lock.value.(owner := Record(p, p)))
    else
      s.lock
  }

  function AfterClaim(me: Process): Phase { if me.reclaiming then Sweep(true) else Running }

  function AfterUndo(me: Process): Phase { if me.reclaiming then Sweep(false) else Done }

  function Age(now: real, mtime: real): real {
    if now - mtime > 0.0 then now - mtime else 0.0
  }

  predicate IsLive(s: State, id: nat) { id > 0 && id in s.procs && s.procs[id].alive }

  // One operation of a process in which nothing fails.
  function Operated(stale: real, s: State, p: Pid): State
    requires p in s.procs
  {
    var me := s.procs[p];
    match me.phase
    case TryMkdir => if s.lock.None? then Made(s, p, false) else Goto(s, p, TryGuard)
    case OpenOwner =>
      if s.lock.None? then Goto(s, p, UndoUnlink)
      else Goto(s, p, WriteOwner(s.lock.value.creator)).(lock := Some(Truncated(s.lock.value, s.clock)))
    case WriteOwner(target) => Goto(s, p, AfterClaim(me)).(lock := Written(s, p, target))
    case UndoUnlink =>
      if s.lock.None? then Goto(s, p, UndoRmdir)
      else Goto(s, p, UndoRmdir).(lock := Some(Emptied(s.lock.value, s.clock)))
    case UndoRmdir =>
      if s.lock.Some? && s.lock.value.owner.NoFile? then Goto(s, p, AfterUndo(me)).(lock := None)
      else Goto(s, p, AfterUndo(me))
    case TryGuard => if s.guard.None? then Goto(s, p, Stat).(guard := Some(p)) else Goto(s, p, Done)
    case Stat =>
      if s.lock.Some? && Age(me.now, s.lock.value.mtime) >= stale then Goto(s, p, ReadOwner)
      else Goto(s, p, DropGuard(false))
    case ReadOwner =>
      Goto(s, p, CheckAlive(if s.lock.Some? && s.lock.value.owner.Record? then s.lock.value.owner.pid else 0))
    case CheckAlive(seen) => Goto(s, p, if IsLive(s, seen) then DropGuard(false) else Rename)
    case Rename =>
      if s.lock.Some? then Goto(s, p, RetryMkdir).(lock := None) else Goto(s, p, DropGuard(false))
    case RetryMkdir => if s.lock.None? then Made(s, p, true) else Goto(s, p, Sweep(false))
    case Sweep(won) => Goto(s, p, DropGuard(won))
    case DropGuard(won) => Goto(s, p, if won then Running else Done).(guard := None)
    case Running => Goto(s, p, ReadToken)
    case ReadToken =>
      if s.lock.Some? && s.lock.value.owner.Record? && s.lock.value.owner.token == p then Goto(s, p, Unlink)
      else Goto(s, p, Done)
    case Unlink =>
      if s.lock.Some? && !s.lock.value.owner.NoFile?
      then Goto(s, p, Rmdir).(lock := Some(Emptied(s.lock.value, s.clock)))
      else Goto(s, p, Done)
    case Rmdir =>
      if s.lock.Some? && s.lock.value.owner.NoFile? then Goto(s, p, Done).(lock := None) else Goto(s, p, Done)
    case Done => s
  }

  // Where an operation that fails leaves the process, if it can fail; nothing else changes.
  function AfterFailure(me: Process): Option<Phase> {
    match me.phase
    case TryMkdir | TryGuard | ReadToken | Unlink | Rmdir => Some(Done)
    case OpenOwner | WriteOwner(_) => Some(UndoUnlink)
    case UndoUnlink | UndoRmdir => Some(AfterUndo(me))
    case Stat | Rename => Some(DropGuard(false))
    case ReadOwner => Some(CheckAlive(0))
    case RetryMkdir => Some(Sweep(false))
    case CheckAlive(_) | Sweep(_) | DropGuard(_) | Running | Done => None
  }

  // One operation of a live process, which may fail.
  predicate Act(stale: real, s: State, s': State, p: Pid)
    requires p in s.procs
  {
    var failure := AfterFailure(s.procs[p]);
    || (!s.procs[p].phase.Done? && s' == Operated(stale, s, p))
    || (failure.Some? && s' == Goto(s, p, failure.value))
  }

  function Started(s: State, p: Pid): State {
    s.(procs := s.procs[p := Process(TryMkdir, s.clock, 0.0, true, false)])
  }

  function Stopped(s: State, p: Pid): State
    requires p in s.procs
  {
    s.(procs := s.procs[p := s.procs[p].(alive := false)],
       guard := if s.guard == Some(p) then None else s.guard)
  }

  datatype Step = Start(p: Pid) | Stop(p: Pid) | Operate(p: Pid) | Fail(p: Pid) | Wait(clock: real)

  predicate Next(stale: real, s: State, step: Step, s': State) {
    match step
    case Start(p) => p !in s.procs && s' == Started(s, p)
    case Stop(p) => p in s.procs && s.procs[p].alive && s' == Stopped(s, p)
    case Operate(p) =>
      p in s.procs && s.procs[p].alive && !s.procs[p].phase.Done? && s' == Operated(stale, s, p)
    case Fail(p) =>
      && p in s.procs && s.procs[p].alive
      && var failure := AfterFailure(s.procs[p]); failure.Some? && s' == Goto(s, p, failure.value)
    case Wait(clock) => clock >= s.clock && s' == s.(clock := clock)
  }

  /******* Runs and what is claimed about them *******/

  // From the successful mkdir until the rmdir of that directory has been performed or given up.
  predicate Holds(me: Process) {
    me.alive &&
    match me.phase
    case OpenOwner | WriteOwner(_) | UndoUnlink | UndoRmdir | Running | ReadToken | Unlink | Rmdir => true
    case Sweep(won) => won
    case DropGuard(won) => won
    case _ => false
  }

  // The timing the design relies on: a live process gives its directory back in less than
  // the stale threshold.
  predicate BoundedHold(stale: real, s: State) {
    forall p | p in s.procs && Holds(s.procs[p]) :: s.clock - s.procs[p].since < stale
  }

  predicate Init(s: State) { s.lock.None? && s.guard.None? && s.procs == map[] }

  predicate IsRun(stale: real, run: seq<State>, steps: seq<Step>) {
    && |run| == |steps| + 1
    && Init(run[0])
    && forall i | 0 <= i < |steps| :: Next(stale, run[i], steps[i], run[i + 1])
  }

  predicate Timely(stale: real, run: seq<State>) {
    forall s | s in run :: BoundedHold(stale, s)
  }

  predicate HoldersOwnTheLock(s: State) {
    forall p | p in s.procs && Holds(s.procs[p]) :: s.lock.Some? && s.lock.value.creator == p
  }

  predicate MutuallyExclusive(s: State) {
    forall p, q | p in s.procs && q in s.procs && Holds(s.procs[p]) && Holds(s.procs[q]) :: p == q
  }

  /******* The inductive invariant *******/

  predicate Guarded(me: Process) {
    me.alive &&
    match me.phase
    case Stat | ReadOwner | CheckAlive(_) | Rename | RetryMkdir | Sweep(_) | DropGuard(_) => true
    case OpenOwner | WriteOwner(_) | UndoUnlink | UndoRmdir => me.reclaiming
    case _ => false
  }

  // Has looked at the directory on the lock path and is about to move it away.
  predicate Judged(me: Process) {
    me.alive && (me.phase.ReadOwner? || me.phase.CheckAlive? || me.phase.Rename?)
  }

  // What the owner file of a holder holds: while it is under the lock, its own record.
  predicate HasOwnerFor(d: Directory, phase: Phase, p: Pid) {
    match phase
    case OpenOwner | UndoRmdir | Rmdir => d.owner.NoFile?
    case WriteOwner(target) => d.owner.Partial? && target == p
    case UndoUnlink => !d.owner.Record?
    case _ => d.owner == Record(p, p)
  }

  predicate ProcessOk(s: State, p: Pid)
    requires p in s.procs
  {
    var me := s.procs[p];
    && me.now <= s.clock
    && (Holds(me) ==>
          && s.lock.Some? && s.lock.value.creator == p
          && me.since <= s.lock.value.mtime
          && HasOwnerFor(s.lock.value, me.phase, p))
    && (Guarded(me) ==> s.guard == Some(p))
    && (Judged(me) ==> s.lock.Some? && (s.lock.value.creator in s.procs ==> !Holds(s.procs[s.lock.value.creator])))
  }

  predicate LockOk(s: State) {
    s.lock.Some? ==>
      var d := s.lock.value;
      && d.creator in s.procs
      && (s.procs[d.creator].alive ==> Holds(s.procs[d.creator]) || s.procs[d.creator].phase.Done?
                                       || s.procs[d.creator].phase == Sweep(false)
                                       || s.procs[d.creator].phase == DropGuard(false))
      && (d.owner.Record? ==> d.owner == Record(d.creator, d.creator))
      && d.mtime <= s.clock
  }

  // The guard is held by a live reclaimer or by nobody.
  predicate GuardOk(s: State) {
    s.guard.Some? ==> s.guard.value in s.procs && Guarded(s.procs[s.guard.value])
  }

  predicate Inv(s: State) {
    && LockOk(s) && GuardOk(s)
    && (forall p | p in s.procs :: ProcessOk(s, p))
  }


  lemma {:induction false} LifecycleKeepsInv(stale: real, s: State, step: Step, s': State)
    requires Inv(s) && Next(stale, s, step, s') && !step.Operate? && !step.Fail?
    ensures Inv(s')
  {
    forall q | q in s'.procs ensures ProcessOk(s', q) {
      if q in s.procs { assert ProcessOk(s, q); }
    }
  }

  // A free path means that nobody holds.
  lemma {:induction false} TryMkdirKeepsInv(stale: real, s: State, s': State, p: Pid)
    requires Inv(s) && p in s.procs && s.procs[p].alive && Act(stale, s, s', p)
    requires s.procs[p].phase.TryMkdir?
    ensures Inv(s')
  {
    hide Written, Truncated, Emptied, Age;
    assert ProcessOk(s, p);
  }

  // A claim writes into the claimant's own directory.
  lemma {:induction false} ClaimKeepsInv(stale: real, s: State, s': State, p: Pid)
    requires Inv(s) && p in s.procs && s.procs[p].alive && Act(stale, s, s', p)
    requires s.procs[p].phase.OpenOwner? || s.procs[p].phase.WriteOwner?
    ensures Inv(s')
  {
    assert ProcessOk(s, p);
  }

  // A failed claim removes the claimant's own directory or abandons it.
  lemma {:induction false} UndoKeepsInv(stale: real, s: State, s': State, p: Pid)
    requires Inv(s) && p in s.procs && s.procs[p].alive && Act(stale, s, s', p)
    requires s.procs[p].phase.UndoUnlink? || s.procs[p].phase.UndoRmdir?
    ensures Inv(s')
  {
    hide Written, Truncated, Age, AfterClaim, IsLive;
  }

  // At most one reclaimer passes the guard.
  lemma {:induction false} TryGuardKeepsInv(stale: real, s: State, s': State, p: Pid)
    requires Inv(s) && p in s.procs && s.procs[p].alive && Act(stale, s, s', p)
    requires s.procs[p].phase.TryGuard?
    ensures Inv(s')
  {
    hide Written, Truncated, Emptied, AfterClaim, AfterUndo;
  }

  // Only here does the timing matter: an old enough directory has no live holder.
  lemma {:induction false} StatKeepsInv(stale: real, s: State, s': State, p: Pid)
    requires Inv(s) && BoundedHold(stale, s) && p in s.procs && s.procs[p].alive && Act(stale, s, s', p)
    requires s.procs[p].phase.Stat?
    ensures Inv(s')
  {
    hide Written, Truncated, Emptied, AfterClaim, AfterUndo;
    assert ProcessOk(s, p);
    if s.lock.Some? { assert ProcessOk(s, s.lock.value.creator); }
    forall q | q in s'.procs ensures ProcessOk(s', q) {
      assert ProcessOk(s, q);
    }
  }

  // What the reclaimer saw stays true: the abandoned directory stays on the path.
  lemma {:induction false} JudgeKeepsInv(stale: real, s: State, s': State, p: Pid)
    requires Inv(s) && p in s.procs && s.procs[p].alive && Act(stale, s, s', p)
    requires s.procs[p].phase.ReadOwner? || s.procs[p].phase.CheckAlive?
    ensures Inv(s')
  {
    hide Written, Truncated, Emptied, AfterClaim, AfterUndo;
  }

  // Moving the directory away takes it from nobody.
  lemma {:induction false} RenameKeepsInv(stale: real, s: State, s': State, p: Pid)
    requires Inv(s) && p in s.procs && s.procs[p].alive && Act(stale, s, s', p)
    requires s.procs[p].phase.Rename?
    ensures Inv(s')
  {
    hide Written, Truncated, Emptied, AfterClaim, AfterUndo;
  }

  // Another process may have taken the path since the rename.
  lemma {:induction false} RetryMkdirKeepsInv(stale: real, s: State, s': State, p: Pid)
    requires Inv(s) && p in s.procs && s.procs[p].alive && Act(stale, s, s', p)
    requires s.procs[p].phase.RetryMkdir?
    ensures Inv(s')
  {
    hide Written, Truncated, Emptied, AfterClaim, AfterUndo;
  }

  // Deleting the moved directory touches nothing on the path.
  lemma {:induction false} FinishKeepsInv(stale: real, s: State, s': State, p: Pid)
    requires Inv(s) && p in s.procs && s.procs[p].alive && Act(stale, s, s', p)
    requires s.procs[p].phase.Sweep? || s.procs[p].phase.DropGuard?
    ensures Inv(s')
  {
    hide Written, Truncated, Emptied, Age;
    assert ProcessOk(s, p);
  }

  // A run under the lock.
  lemma {:induction false} RunKeepsInv(stale: real, s: State, s': State, p: Pid)
    requires Inv(s) && p in s.procs && s.procs[p].alive && Act(stale, s, s', p)
    requires s.procs[p].phase.Running? || s.procs[p].phase.ReadToken?
    ensures Inv(s')
  {
    hide Written, Truncated, Emptied, AfterClaim, AfterUndo;
  }

  // A release empties and removes the process's own directory.
  lemma {:induction false} ReleaseKeepsInv(stale: real, s: State, s': State, p: Pid)
    requires Inv(s) && p in s.procs && s.procs[p].alive && Act(stale, s, s', p)
    requires s.procs[p].phase.Unlink? || s.procs[p].phase.Rmdir?
    ensures Inv(s')
  {
    hide Written, Truncated, Age, AfterClaim, IsLive;
  }

  lemma {:induction false} OperateKeepsInv(stale: real, s: State, s': State, p: Pid)
    requires Inv(s) && BoundedHold(stale, s) && p in s.procs && s.procs[p].alive && Act(stale, s, s', p)
    ensures Inv(s')
  {
    match s.procs[p].phase
    case TryMkdir => TryMkdirKeepsInv(stale, s, s', p);
    case OpenOwner | WriteOwner(_) => ClaimKeepsInv(stale, s, s', p);
    case UndoUnlink | UndoRmdir => UndoKeepsInv(stale, s, s', p);
    case TryGuard => TryGuardKeepsInv(stale, s, s', p);
    case Stat => StatKeepsInv(stale, s, s', p);
    case ReadOwner | CheckAlive(_) => JudgeKeepsInv(stale, s, s', p);
    case Rename => RenameKeepsInv(stale, s, s', p);
    case RetryMkdir => RetryMkdirKeepsInv(stale, s, s', p);
    case Sweep(_) | DropGuard(_) => FinishKeepsInv(stale, s, s', p);
    case Running | ReadToken => RunKeepsInv(stale, s, s', p);
    case Unlink | Rmdir => ReleaseKeepsInv(stale, s, s', p);
    case Done =>
  }

  lemma {:induction false} StepKeepsInv(stale: real, s: State, step: Step, s': State)
    requires Inv(s) && BoundedHold(stale, s) && Next(stale, s, step, s')
    ensures Inv(s')
  {
    if step.Operate? || step.Fail? {
      OperateKeepsInv(stale, s, s', step.p);
    } else {
      LifecycleKeepsInv(stale, s, step, s');
    }
  }

  lemma {:induction false} RunKeepsInvariant(stale: real, run: seq<State>, steps: seq<Step>, i: nat)
    requires IsRun(stale, run, steps) && Timely(stale, run) && i < |run|
    ensures Inv(run[i])
  {
    if i > 0 {
      RunKeepsInvariant(stale, run, steps, i - 1);
      StepKeepsInv(stale, run[i - 1], steps[i - 1], run[i]);
    }
  }

  /******* Main results *******/

  // In every timely run, every live process between its mkdir and its rmdir is the creator of
  // the directory on the lock path, so at most one process is under the lock.
  lemma {:induction false} MutualExclusion(stale: real, run: seq<State>, steps: seq<Step>, i: nat)
    requires IsRun(stale, run, steps) && Timely(stale, run) && i < |run|
    ensures HoldersOwnTheLock(run[i]) && MutuallyExclusive(run[i])
  {
    RunKeepsInvariant(stale, run, steps, i);
    forall p | p in run[i].procs && Holds(run[i].procs[p])
      ensures run[i].lock.Some? && run[i].lock.value.creator == p
    {
      assert ProcessOk(run[i], p);
    }
  }

  // A crash never leaves the guard behind.
  lemma {:induction false} GuardIsOfTheLiving(stale: real, run: seq<State>, steps: seq<Step>, i: nat)
    requires IsRun(stale, run, steps) && Timely(stale, run) && i < |run| && run[i].guard.Some?
    ensures IsLive(run[i], run[i].guard.value) && Guarded(run[i].procs[run[i].guard.value])
  {
    RunKeepsInvariant(stale, run, steps, i);
  }

  // Whoever is under the lock can read its own record there.
  lemma {:induction false} HolderHasItsRecord(stale: real, run: seq<State>, steps: seq<Step>, i: nat, p: Pid)
    requires IsRun(stale, run, steps) && Timely(stale, run) && i < |run|
    requires p in run[i].procs && run[i].procs[p].alive
    requires run[i].procs[p].phase.Running? || run[i].procs[p].phase.ReadToken?
    ensures run[i].lock.Some? && run[i].lock.value.creator == p && run[i].lock.value.owner == Record(p, p)
  {
    RunKeepsInvariant(stale, run, steps, i);
    assert ProcessOk(run[i], p);
  }

  lemma {:induction false} OthersCannotTakeIt(stale: real, s: State, step: Step, s': State)
    requires Inv(s) && Next(stale, s, step, s')
    requires s.lock.Some? && Holds(s.procs[s.lock.value.creator])
    requires step != Operate(s.lock.value.creator)
    ensures s'.lock.Some? && s'.lock.value.creator == s.lock.value.creator
  {
    if step.Operate? || step.Fail? {
      assert ProcessOk(s, step.p);
    }
  }

  // The directory of a live holder leaves the lock path only by that holder's own operation.
  lemma {:induction false} HolderKeepsItsDirectory(stale: real, run: seq<State>, steps: seq<Step>, i: nat)
    requires IsRun(stale, run, steps) && Timely(stale, run) && i < |steps|
    requires run[i].lock.Some? && run[i].lock.value.creator in run[i].procs
    requires Holds(run[i].procs[run[i].lock.value.creator])
    requires run[i + 1].lock.None? || run[i + 1].lock.value.creator != run[i].lock.value.creator
    ensures steps[i] == Operate(run[i].lock.value.creator)
  {
    RunKeepsInvariant(stale, run, steps, i);
    if steps[i] != Operate(run[i].lock.value.creator) {
      OthersCannotTakeIt(stale, run[i], steps[i], run[i + 1]);
    }
  }

  /******* What a process does when it is alone and nothing fails *******/

  // The state after n operations of p, none of which fails; a process that is done does no more.
  function Works(stale: real, s: State, p: Pid, n: nat): (t: State)
    requires p in s.procs
    ensures p in t.procs
    decreases n
  {
    if n == 0 then s else Works(stale, Operated(stale, s, p), p, n - 1)
  }

  lemma {:induction false} Worked(stale: real, s: State, p: Pid, n: nat, t: State)
    requires p in s.procs && n > 0 && Operated(stale, s, p) == t
    ensures Works(stale, s, p, n) == Works(stale, t, p, n - 1) && (n == 1 ==> Works(stale, s, p, n) == t)
  {
  }

  lemma {:induction false} DoneStays(stale: real, s: State, p: Pid, n: nat)
    requires p in s.procs && s.procs[p].phase.Done?
    ensures Works(stale, s, p, n) == s
  {
    if n > 0 { DoneStays(stale, s, p, n - 1); }
  }

  // t differs from s in the lock path and in process p only.
  predicate IsBut(s: State, p: Pid, t: State, lock: Option<Directory>, phase: Phase) {
    && p in s.procs && p in t.procs && t.procs[p].phase == phase && t.procs[p].alive == s.procs[p].alive
    && t.lock == lock && t.guard == s.guard && t.clock == s.clock && t.procs - {p} == s.procs - {p}
  }

  predicate OwnerIsLive(s: State) {
    s.lock.Some? && s.lock.value.owner.Record? && IsLive(s, s.lock.value.owner.pid)
  }

  // The path is free, or its directory is old, names no live owner and nobody is reclaiming.
  predicate MayAcquire(stale: real, s: State, now: real) {
    || s.lock.None?
    || (s.guard.None? && Age(now, s.lock.value.mtime) >= stale && !OwnerIsLive(s))
  }

  function Own(s: State, p: Pid): Option<Directory> { Some(Directory(p, s.clock, Record(p, p))) }

  lemma {:induction false} AcquiresFree(stale: real, s: State, p: Pid)
    requires p in s.procs && s.procs[p].phase.TryMkdir? && s.lock.None?
    ensures IsBut(s, p, Works(stale, s, p, 3), Own(s, p), Running)
    ensures var me := Works(stale, s, p, 3).procs[p]; me.since == s.clock && !me.reclaiming
  {
    hide Works;
    var t1 := Made(s, p, false);
    var t2 := Goto(t1, p, WriteOwner(p)).(lock := Some(Directory(p, s.clock, Partial)));
    var t3 := Goto(t2, p, Running).(lock := Own(s, p));
    assert Operated(stale, t1, p) == t2 && Operated(stale, t2, p) == t3;
    Worked(stale, s, p, 3, t1);
    Worked(stale, t1, p, 2, t2);
    Worked(stale, t2, p, 1, t3);
  }

  lemma {:induction false} LeavesAlone(stale: real, s: State, p: Pid)
    requires p in s.procs && s.procs[p].phase.TryMkdir? && s.lock.Some? && !MayAcquire(stale, s, s.procs[p].now)
    ensures IsBut(s, p, Works(stale, s, p, 11), s.lock, Done)
  {
    hide Works;
    var t1 := Goto(s, p, TryGuard);
    Worked(stale, s, p, 11, t1);
    if s.guard.Some? {
      Worked(stale, t1, p, 10, Goto(t1, p, Done));
      DoneStays(stale, Goto(t1, p, Done), p, 9);
    } else {
      var t2 := Goto(t1, p, Stat).(guard := Some(p));
      Worked(stale, t1, p, 10, t2);
      LeavesUnderGuard(stale, s, p, t2);
    }
  }

  lemma {:induction false} LeavesUnderGuard(stale: real, s: State, p: Pid, t: State)
    requires p in s.procs && s.procs[p].phase.TryMkdir? && s.lock.Some? && !MayAcquire(stale, s, s.procs[p].now)
    requires s.guard.None? && t == Goto(s, p, Stat).(guard := Some(p))
    ensures IsBut(s, p, Works(stale, t, p, 9), s.lock, Done)
  {
    hide Works;
    if Age(s.procs[p].now, s.lock.value.mtime) >= stale {
      JudgesLive(stale, t, p);
      hide Operated;
      DropsGuard(stale, s, p, Goto(t, p, DropGuard(false)), 6);
    } else {
      Worked(stale, t, p, 9, Goto(t, p, DropGuard(false)));
      hide Operated;
      DropsGuard(stale, s, p, Goto(t, p, DropGuard(false)), 8);
    }
  }

  lemma {:induction false} JudgesLive(stale: real, t: State, p: Pid)
    requires p in t.procs && t.procs[p].phase.Stat? && OwnerIsLive(t)
    requires Age(t.procs[p].now, t.lock.value.mtime) >= stale
    ensures Works(stale, t, p, 9) == Works(stale, Goto(t, p, DropGuard(false)), p, 6)
  {
    hide Works;
    var t1 := Goto(t, p, ReadOwner);
    var t2 := Goto(t1, p, CheckAlive(t.lock.value.owner.pid));
    var t3 := Goto(t2, p, DropGuard(false));
    assert Operated(stale, t, p) == t1;
    assert Operated(stale, t1, p) == t2;
    assert Operated(stale, t2, p) == t3;
    hide Operated;
    Worked(stale, t, p, 9, t1);
    Worked(stale, t1, p, 8, t2);
    Worked(stale, t2, p, 7, t3);
    assert t3 == Goto(t, p, DropGuard(false));
  }

  lemma {:induction false} DropsGuard(stale: real, s: State, p: Pid, t: State, n: nat)
    requires p in s.procs && n > 0 && s.guard.None? && IsBut(s.(guard := Some(p)), p, t, s.lock, DropGuard(false))
    ensures IsBut(s, p, Works(stale, t, p, n), s.lock, Done)
  {
    Worked(stale, t, p, n, Goto(t, p, Done).(guard := None));
    DoneStays(stale, Goto(t, p, Done).(guard := None), p, n - 1);
  }

  lemma {:induction false} JudgesStale(stale: real, s: State, p: Pid)
    requires p in s.procs && s.procs[p].phase.TryMkdir? && s.lock.Some? && MayAcquire(stale, s, s.procs[p].now)
    ensures Works(stale, s, p, 6) == Goto(s, p, RetryMkdir).(guard := Some(p), lock := None)
  {
    hide Works;
    var t1 := Goto(s, p, TryGuard);
    var t2 := Goto(t1, p, Stat).(guard := Some(p));
    var t3 := Goto(t2, p, ReadOwner);
    var t4 := Goto(t3, p, CheckAlive(if s.lock.value.owner.Record? then s.lock.value.owner.pid else 0));
    var t5 := Goto(t4, p, Rename);
    var t6 := Goto(t5, p, RetryMkdir).(lock := None);
    assert Operated(stale, t1, p) == t2 && Operated(stale, t2, p) == t3;
    assert Operated(stale, t3, p) == t4 && Operated(stale, t4, p) == t5;
    assert Operated(stale, t5, p) == t6 == Goto(s, p, RetryMkdir).(guard := Some(p), lock := None);
    hide Operated;
    Worked(stale, s, p, 6, t1);
    Worked(stale, t1, p, 5, t2);
    Worked(stale, t2, p, 4, t3);
    Worked(stale, t3, p, 3, t4);
    Worked(stale, t4, p, 2, t5);
    Worked(stale, t5, p, 1, t6);
  }

  lemma {:induction false} RetriesFree(stale: real, s: State, p: Pid)
    requires p in s.procs && s.procs[p].phase.RetryMkdir? && s.lock.None?
    ensures IsBut(s.(guard := None), p, Works(stale, s, p, 5), Own(s, p), Running)
    ensures var me := Works(stale, s, p, 5).procs[p]; me.since == s.clock && me.reclaiming
  {
    hide Works;
    var t1 := Made(s, p, true);
    var t2 := Goto(t1, p, WriteOwner(p)).(lock := Some(Directory(p, s.clock, Partial)));
    var t3 := Goto(t2, p, Sweep(true)).(lock := Own(s, p));
    var t4 := Goto(t3, p, DropGuard(true));
    var t5 := Goto(t4, p, Running).(guard := None);
    assert Operated(stale, s, p) == t1 && Operated(stale, t1, p) == t2;
    assert Operated(stale, t2, p) == t3;
    assert Operated(stale, t3, p) == t4 && Operated(stale, t4, p) == t5;
    hide Operated;
    Worked(stale, s, p, 5, t1);
    Worked(stale, t1, p, 4, t2);
    Worked(stale, t2, p, 3, t3);
    Worked(stale, t3, p, 2, t4);
    Worked(stale, t4, p, 1, t5);
  }

  lemma {:induction false} WorksOn(stale: real, s: State, p: Pid, m: nat, n: nat)
    requires p in s.procs
    ensures Works(stale, s, p, m + n) == Works(stale, Works(stale, s, p, m), p, n)
    decreases m
  {
    hide Operated;
    if m > 0 {
      assert p in Operated(stale, s, p).procs by { Worked(stale, s, p, 1, Operated(stale, s, p)); }
      WorksOn(stale, Operated(stale, s, p), p, m - 1, n);
    }
  }

  // A process that starts on a free path makes three operations, otherwise at most eleven.
  function Turns(s: State): nat { if s.lock.None? then 3 else 11 }

  // From any state whatsoever, a process that wants the lock and runs alone gets it, with a
  // directory and a record of its own, exactly if it may; otherwise it leaves everything as it was.
  lemma {:induction false} AcquiresAlone(stale: real, s: State, p: Pid)
    requires p in s.procs && s.procs[p].phase.TryMkdir?
    ensures var acquired := MayAcquire(stale, s, s.procs[p].now);
            && IsBut(s, p, Works(stale, s, p, Turns(s)), if acquired then Own(s, p) else s.lock,
                     if acquired then Running else Done)
            && var me := Works(stale, s, p, Turns(s)).procs[p];
               acquired ==> me.since == s.clock && me.reclaiming == s.lock.Some?
  {
    hide Operated, Works;
    if s.lock.None? {
      AcquiresFree(stale, s, p);
    } else if MayAcquire(stale, s, s.procs[p].now) {
      JudgesStale(stale, s, p);
      var t := Goto(s, p, RetryMkdir).(guard := Some(p), lock := None);
      RetriesFree(stale, t, p);
      WorksOn(stale, s, p, 6, 5);
    } else {
      LeavesAlone(stale, s, p);
    }
  }

  predicate HasToken(s: State, p: Pid) {
    s.lock.Some? && s.lock.value.owner.Record? && s.lock.value.owner.token == p
  }

  // From any state whatsoever, a process that is through frees the path if the directory on it
  // carries its token, and otherwise leaves it as it is.
  lemma {:induction false} ReleasesAlone(stale: real, s: State, p: Pid)
    requires p in s.procs && s.procs[p].phase.Running?
    ensures IsBut(s, p, Works(stale, s, p, 4), if HasToken(s, p) then None else s.lock, Done)
  {
    hide Works;
    var t := Goto(s, p, ReadToken);
    Worked(stale, s, p, 4, t);
    if HasToken(s, p) {
      RemovesOwn(stale, t, p);
    } else {
      Worked(stale, t, p, 3, Goto(t, p, Done));
      hide Operated;
      DoneStays(stale, Goto(t, p, Done), p, 2);
    }
  }

  lemma {:induction false} RemovesOwn(stale: real, s: State, p: Pid)
    requires p in s.procs && s.procs[p].phase.ReadToken? && HasToken(s, p)
    ensures IsBut(s, p, Works(stale, s, p, 3), None, Done)
  {
    hide Works;
    var t1 := Goto(s, p, Unlink);
    var t2 := Goto(t1, p, Rmdir).(lock := Some(Emptied(s.lock.value, s.clock)));
    var t3 := Goto(t2, p, Done).(lock := None);
    assert Operated(stale, s, p) == t1;
    assert Operated(stale, t1, p) == t2;
    assert Operated(stale, t2, p) == t3;
    hide Operated, Emptied;
    Worked(stale, s, p, 3, t1);
    Worked(stale, t1, p, 2, t2);
    Worked(stale, t2, p, 1, t3);
  }

  // A claim that failed frees the path again.
  lemma {:induction false} UndoesAlone(stale: real, s: State, p: Pid)
    requires p in s.procs && s.procs[p].phase.UndoUnlink?
    ensures IsBut(s, p, Works(stale, s, p, 2), None, AfterUndo(s.procs[p]))
  {
    var t := Operated(stale, s, p);
    assert t == Goto(s, p, UndoRmdir).(lock := t.lock) && (t.lock.Some? ==> t.lock.value.owner.NoFile?);
    Worked(stale, s, p, 2, t);
    Worked(stale, t, p, 1, Goto(t, p, AfterUndo(s.procs[p])).(lock := None));
  }

  // Working alone is a run of single steps, and keeps the timing assumption.
  lemma {:induction false} WorksIsPath(stale: real, bound: real, s: State, p: Pid, n: nat)
    returns (states: seq<State>, steps: seq<Step>)
    requires p in s.procs && s.procs[p].alive && BoundedHold(bound, s) && 0.0 < bound
    ensures IsPath(stale, states, steps) && states[0] == s && states[|states| - 1] == Works(stale, s, p, n)
    ensures Timely(bound, states) && forall k | 0 <= k < |steps| :: steps[k] == Operate(p)
    decreases n
  {
    if n == 0 || s.procs[p].phase.Done? {
      states, steps := [s], [];
      if n > 0 { DoneStays(stale, s, p, n); }
    } else {
      var t := Operated(stale, s, p);
      OperatedStaysTimely(stale, bound, s, p);
      hide Operated;
      Worked(stale, s, p, n, t);
      var rest, more := WorksIsPath(stale, bound, t, p, n - 1);
      states, steps := [s] + rest, [Operate(p)] + more;
      assert states[|states| - 1] == rest[|rest| - 1];
      forall i | 0 <= i < |steps| ensures Next(stale, states[i], steps[i], states[i + 1]) {
        if i > 0 { assert Next(stale, rest[i - 1], more[i - 1], rest[i]); }
      }
    }
  }

  // An operation touches no other process.
  lemma {:induction false} OperatedTouchesOne(stale: real, s: State, p: Pid)
    requires p in s.procs
    ensures var t := Operated(stale, s, p);
            && t.clock == s.clock && p in t.procs && t.procs == s.procs[p := t.procs[p]]
            && t.procs[p].alive == s.procs[p].alive
  {
    hide Goto, Made, Written, Truncated, Emptied, Age, IsLive, AfterClaim, AfterUndo;
  }

  // A hold starts at its own time.
  lemma {:induction false} OperatedHolds(stale: real, s: State, p: Pid)
    requires p in s.procs && p in Operated(stale, s, p).procs && Holds(Operated(stale, s, p).procs[p])
    ensures var since := Operated(stale, s, p).procs[p].since;
            since == s.clock || (Holds(s.procs[p]) && since == s.procs[p].since)
  {
    hide Goto, Made, Written, Truncated, Emptied, Age, IsLive;
  }

  lemma {:induction false} OperatedChangesOne(stale: real, s: State, p: Pid)
    requires p in s.procs
    ensures var t := Operated(stale, s, p);
            && t.clock == s.clock && p in t.procs && t.procs == s.procs[p := t.procs[p]]
            && t.procs[p].alive == s.procs[p].alive
            && (Holds(t.procs[p]) ==> || t.procs[p].since == s.clock
                                      || (Holds(s.procs[p]) && t.procs[p].since == s.procs[p].since))
  {
    OperatedTouchesOne(stale, s, p);
    if Holds(Operated(stale, s, p).procs[p]) { OperatedHolds(stale, s, p); }
    hide Operated, Holds;
  }

  lemma {:induction false} OperatedStaysTimely(stale: real, bound: real, s: State, p: Pid)
    requires p in s.procs && s.procs[p].alive && BoundedHold(bound, s) && 0.0 < bound
    ensures BoundedHold(bound, Operated(stale, s, p))
    ensures p in Operated(stale, s, p).procs && Operated(stale, s, p).procs[p].alive
  {
    OperatedChangesOne(stale, s, p);
    hide Operated, Holds;
  }

  // From any reachable state, whoever runs under the lock and is through gives it back by its own
  // steps, and the next process gets it at once, without waiting for it to become stale.
  lemma {:induction false} ReleaseFrees(stale: real, run: seq<State>, steps: seq<Step>, i: nat, p: Pid, q: Pid)
    returns (more: seq<State>, moreSteps: seq<Step>, released: nat)
    requires IsRun(stale, run, steps) && Timely(stale, run) && i < |run| && 0.0 < stale
    requires p in run[i].procs && run[i].procs[p].alive && run[i].procs[p].phase.Running? && q !in run[i].procs
    ensures IsPath(stale, more, moreSteps) && more[0] == run[i] && Timely(stale, more) && released < |moreSteps|
    ensures forall k | 0 <= k < |moreSteps| ::
              moreSteps[k] == if k < released then Operate(p) else if k == released then Start(q) else Operate(q)
    ensures IsBut(run[i], p, more[released], None, Done)
    ensures var end := more[|more| - 1];
            && IsBut(more[released + 1], q, end, Own(run[i], q), Running) && !end.procs[q].reclaiming
            && MutuallyExclusive(end)
  {
    hide Operated, Works;
    var s := run[i];
    HolderHasItsRecord(stale, run, steps, i, p);
    RunKeepsInvariant(stale, run, steps, i);
    assert BoundedHold(stale, s) by { assert s in run; }
    ReleasesAlone(stale, s, p);
    more, moreSteps := WorksIsPath(stale, stale, s, p, 4);
    released := |moreSteps|;
    var freed := more[released];
    var started := Started(freed, q);
    assert q !in freed.procs - {p};
    assert BoundedHold(stale, freed) by { assert freed in more; }
    AcquiresFree(stale, started, q);
    var rest, restSteps := WorksIsPath(stale, stale, started, q, 3);
    OnlyHolder(s, p, freed, q, rest[|rest| - 1]);
    assert IsPath(stale, [freed, started], [Start(q)]);
    JoinPaths(stale, [freed, started], [Start(q)], rest, restSteps);
    JoinPaths(stale, more, moreSteps, [freed, started] + rest[1..], [Start(q)] + restSteps);
    more, moreSteps := more + ([freed, started] + rest[1..])[1..], moreSteps + ([Start(q)] + restSteps);
  }

  lemma {:induction false} OnlyHolder(s: State, p: Pid, freed: State, q: Pid, end: State)
    requires Inv(s) && p in s.procs && Holds(s.procs[p]) && q !in s.procs
    requires IsBut(s, p, freed, None, Done) && q in end.procs
    requires end.procs - {q} == freed.procs - {q}
    ensures MutuallyExclusive(end)
  {
    assert ProcessOk(s, p);
    forall r | r in end.procs && r != q ensures !Holds(end.procs[r]) {
      assert r in end.procs - {q} && end.procs[r] == (end.procs - {q})[r] == freed.procs[r];
      if r != p {
        assert r in freed.procs - {p} && freed.procs[r] == (freed.procs - {p})[r] == s.procs[r];
        assert ProcessOk(s, r);
      }
    }
  }

  /******* A crashed holder's lock is recovered *******/

  predicate IsPath(stale: real, states: seq<State>, steps: seq<Step>) {
    && |states| == |steps| + 1
    && forall i | 0 <= i < |steps| :: Next(stale, states[i], steps[i], states[i + 1])
  }

  // Only p moves: it starts and makes operations that do not fail.
  predicate IsSoloPath(stale: real, s: State, p: Pid, states: seq<State>, steps: seq<Step>) {
    && IsPath(stale, states, steps) && steps != [] && states[0] == s && steps[0] == Start(p)
    && forall k | 0 < k < |steps| :: steps[k] == Operate(p)
  }

  // A fresh process gets the lock, alone.
  lemma {:induction false} StartsAndAcquires(stale: real, bound: real, s: State, p: Pid)
    returns (states: seq<State>, steps: seq<Step>)
    requires p !in s.procs && BoundedHold(bound, s) && 0.0 < bound && MayAcquire(stale, s, s.clock)
    requires s.lock.Some? && s.lock.value.owner.Record? ==> s.lock.value.owner.pid in s.procs
    ensures IsSoloPath(stale, s, p, states, steps) && Timely(bound, states)
    ensures var end := states[|states| - 1];
            && IsBut(Started(s, p), p, end, Own(s, p), Running) && end.procs[p].since == s.clock
            && end.procs[p].reclaiming == s.lock.Some?
  {
    hide Operated, Works;
    var t := Started(s, p);
    AcquiresAlone(stale, t, p);
    var rest, more := WorksIsPath(stale, bound, t, p, Turns(t));
    states, steps := [s] + rest, [Start(p)] + more;
    assert states[|states| - 1] == rest[|rest| - 1];
    forall i | 0 <= i < |steps| ensures Next(stale, states[i], steps[i], states[i + 1]) {
      if i > 0 { assert Next(stale, rest[i - 1], more[i - 1], rest[i]); }
    }
  }

  lemma {:induction false} NobodyHolds(s: State)
    requires Inv(s) && s.lock.Some? && !IsLive(s, s.lock.value.creator)
    ensures forall q | q in s.procs :: !Holds(s.procs[q])
  {
    forall q | q in s.procs ensures !Holds(s.procs[q]) {
      assert ProcessOk(s, q);
    }
  }

  // Whatever happened before, a directory left on the path by a crashed process stops nobody
  // for good: once it is old and no reclaimer is at work, any new process running alone gets
  // the lock, and the timing assumption keeps holding on the way.
  lemma {:induction false} CrashRecovery(stale: real, run: seq<State>, steps: seq<Step>, i: nat, p: Pid)
    returns (more: seq<State>, moreSteps: seq<Step>)
    requires IsRun(stale, run, steps) && Timely(stale, run) && i < |run| && 0.0 < stale
    requires var s := run[i];
             && s.lock.Some? && !IsLive(s, s.lock.value.creator) && s.guard.None?
             && Age(s.clock, s.lock.value.mtime) >= stale && p !in s.procs
    ensures IsSoloPath(stale, run[i], p, more, moreSteps) && Timely(stale, more)
    ensures var end := more[|more| - 1];
            && p in end.procs && end.procs[p].phase.Running? && MutuallyExclusive(end)
            && end.lock == Some(Directory(p, end.clock, Record(p, p)))
  {
    hide Operated, Works;
    var s := run[i];
    RunKeepsInvariant(stale, run, steps, i);
    assert BoundedHold(stale, s) by { assert s in run; }
    NobodyHolds(s);
    more, moreSteps := StartsAndAcquires(stale, stale, s, p);
    var end := more[|more| - 1];
    forall q | q in end.procs && q != p ensures !Holds(end.procs[q]) {
      assert q in end.procs - {p} && end.procs[q] == (end.procs - {p})[q] == Started(s, p).procs[q];
    }
  }

  /******* Exactly the timing assumption makes the lock exclude *******/

  predicate HasCrash(steps: seq<Step>) {
    exists step :: step in steps && step.Stop?
  }

  lemma {:induction false} JoinPaths(stale: real, a: seq<State>, x: seq<Step>, b: seq<State>, y: seq<Step>)
    requires IsPath(stale, a, x) && IsPath(stale, b, y) && a[|a| - 1] == b[0]
    ensures IsPath(stale, a + b[1..], x + y)
  {
    var states, steps := a + b[1..], x + y;
    forall i | 0 <= i < |steps| ensures Next(stale, states[i], steps[i], states[i + 1]) {
      if i < |x| {
        assert Next(stale, a[i], x[i], a[i + 1]);
      } else {
        assert Next(stale, b[i - |x|], y[i - |x|], b[i - |x| + 1]);
        assert states[i] == b[i - |x|] && states[i + 1] == b[i - |x| + 1];
      }
    }
  }

  function AtLeastZero(x: real): real { if x > 0.0 then x else 0.0 }

  // Process 1 makes its directory and is then delayed up to the stale threshold.
  lemma {:induction false} DelayedClaim(stale: real, bound: real) returns (states: seq<State>, steps: seq<Step>)
    requires AtLeastZero(stale) < bound
    ensures IsPath(stale, states, steps) && Init(states[0]) && Timely(bound, states) && !HasCrash(steps)
    ensures states[|states| - 1] == State(AtLeastZero(stale), Some(Directory(1, 0.0, NoFile)), None,
                                          map[1 := Process(OpenOwner, 0.0, 0.0, true, false)])
  {
    var s0 := State(0.0, None, None, map[]);
    var s1 := Started(s0, 1);
    var s2 := Made(s1, 1, false);
    var s3 := s2.(clock := AtLeastZero(stale));
    states, steps := [s0, s1, s2, s3], [Start(1), Operate(1), Wait(AtLeastZero(stale))];
    assert s3.procs == map[1 := Process(OpenOwner, 0.0, 0.0, true, false)];
  }

  // Process 1 wakes up and claims through the path, which now leads to another directory.
  lemma {:induction false} LateClaim(stale: real, bound: real, s: State, d: Directory)
    returns (states: seq<State>, steps: seq<Step>)
    requires 1 in s.procs && s.procs[1].alive && s.procs[1].phase.OpenOwner? && !s.procs[1].reclaiming
    requires s.lock == Some(d) && d.owner.Record? && BoundedHold(bound, s)
    ensures IsPath(stale, states, steps) && states[0] == s && Timely(bound, states) && !HasCrash(steps)
    ensures states[|states| - 1] ==
            s.(procs := s.procs[1 := s.procs[1].(phase := Running)], lock := Some(d.(owner := Record(1, 1))))
  {
    var s1 := Goto(s, 1, WriteOwner(d.creator)).(lock := Some(Truncated(d, s.clock)));
    var s2 := Goto(s1, 1, Running).(lock := Written(s1, 1, d.creator));
    states, steps := [s, s1, s2], [Operate(1), Operate(1)];
    assert s2.procs == s.procs[1 := s.procs[1].(phase := Running)];
  }

  // No stale threshold makes the lock safe by itself: for each one, and for each bound on the
  // holds above it, there is a run without any crash that keeps the bound, and at whose end two
  // live processes are both running under the lock.
  lemma {:induction false} TimingIsNeeded(stale: real, bound: real) returns (run: seq<State>, steps: seq<Step>)
    requires AtLeastZero(stale) < bound
    ensures IsRun(stale, run, steps) && Timely(bound, run) && !HasCrash(steps)
    ensures var procs := run[|run| - 1].procs;
            && 1 in procs && procs[1].alive && procs[1].phase.Running?
            && 2 in procs && procs[2].alive && procs[2].phase.Running?
    ensures !MutuallyExclusive(run[|run| - 1])
  {
    run, steps := DelayedClaim(stale, bound);
    var s := run[|run| - 1];
    var b, y := StartsAndAcquires(stale, bound, s, 2);
    assert 1 in b[|b| - 1].procs - {2};
    assert (b[|b| - 1].procs - {2})[1] == (Started(s, 2).procs - {2})[1] == s.procs[1];
    JoinPaths(stale, run, steps, b, y);
    run, steps := run + b[1..], steps + y;
    var c, z := LateClaim(stale, bound, run[|run| - 1], run[|run| - 1].lock.value);
    JoinPaths(stale, run, steps, c, z);
    run, steps := run + c[1..], steps + z;
  }

  // Every run in which no live process holds for bound seconds or more excludes.
  ghost predicate Excludes(stale: real, bound: real) {
    forall run, steps | IsRun(stale, run, steps) && Timely(bound, run) :: forall s | s in run :: MutuallyExclusive(s)
  }

  predicate HoldsArePast(s: State) {
    forall p | p in s.procs && Holds(s.procs[p]) :: s.procs[p].since <= s.clock
  }

  lemma {:induction false} ActKeepsPast(stale: real, s: State, s': State, p: Pid)
    requires HoldsArePast(s) && p in s.procs && s.procs[p].alive && Act(stale, s, s', p)
    ensures HoldsArePast(s')
  {
    if AfterFailure(s.procs[p]).Some? && s' == Goto(s, p, AfterFailure(s.procs[p]).value) {
      hide Operated;
    } else {
      OperatedKeepsPast(stale, s, p);
      hide Operated;
    }
  }

  lemma {:induction false} OperatedKeepsPast(stale: real, s: State, p: Pid)
    requires HoldsArePast(s) && p in s.procs && s.procs[p].alive
    ensures HoldsArePast(Operated(stale, s, p))
  {
    OperatedChangesOne(stale, s, p);
    hide Operated, Holds;
  }

  lemma {:induction false} HoldsStayPast(stale: real, run: seq<State>, steps: seq<Step>, i: nat)
    requires IsRun(stale, run, steps) && i < |run|
    ensures HoldsArePast(run[i])
  {
    if i > 0 {
      HoldsStayPast(stale, run, steps, i - 1);
      var s, step := run[i - 1], steps[i - 1];
      assert Next(stale, s, step, run[i]);
      hide Act;
      if step.Operate? || step.Fail? { ActKeepsPast(stale, s, run[i], step.p); }
    }
  }

  // The lock excludes exactly when the bound on the holds is at most the stale threshold.
  lemma {:induction false} TimingIsExact(stale: real, bound: real)
    ensures Excludes(stale, bound) <==> bound <= AtLeastZero(stale)
  {
    if bound <= AtLeastZero(stale) {
      forall run, steps, s | IsRun(stale, run, steps) && Timely(bound, run) && s in run ensures MutuallyExclusive(s) {
        var i :| 0 <= i < |run| && run[i] == s;
        if bound <= stale {
          forall t | t in run ensures BoundedHold(stale, t) { assert BoundedHold(bound, t); }
          MutualExclusion(stale, run, steps, i);
        } else {
          HoldsStayPast(stale, run, steps, i);
          assert BoundedHold(bound, s);
        }
      }
    } else {
      var run, steps := TimingIsNeeded(stale, bound);
      assert run[|run| - 1] in run && !MutuallyExclusive(run[|run| - 1]);
    }
  }
}
