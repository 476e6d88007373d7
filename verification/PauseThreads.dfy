/** The stop-the-world pause of thread.c, as the hash table's maintenance thread uses it around
    `assoc_expand`. The pauser takes the locks of the three background threads, then the hang lock,
    resets `init_count`, sends every worker a byte, and waits for `init_count` to reach the number
    of workers. A worker that reads the byte counts itself and then queues on the hang lock.

    Every lock operation, pipe write and pipe read is a step of its own. */
module PauseThreads {

  /** A worker serves connections, with or without a table operation in progress; has read the byte
      (or just been created) and is about to count itself; has counted itself and queues on the
      hang lock. */
  datatype Worker = Serving(inOperation: bool) | Registering | AtHangLock

  /** The slab rebalancer, the LRU crawler and the LRU maintainer: awake means holding its lock. */
  const HELPERS := 3

  datatype Pauser =
    | Booting                      // the main thread waits for the first registrations
    | Idle
    | TakingHelpers(taken: nat)    // slabs_rebalancer_pause, lru_crawler_pause, lru_maintainer_pause
    | HasHangLock
    | Notifying(sent: nat)         // init_count reset; holds init_lock
    | Waiting                      // in pthread_cond_wait: init_lock released
    | Paused                       // pause_threads(PAUSE_ALL_THREADS) has returned
    | Releasing(kept: nat)         // pause_threads(RESUME_ALL_THREADS): helpers first, then the hang lock

  /** `pipes` counts unread pause bytes. `registered` records which workers counted themselves since
      the last reset of `init_count`. */
  datatype Sys = Sys(workers: seq<Worker>, pipes: seq<nat>, registered: seq<bool>, initCount: nat,
                     pauser: Pauser, awake: seq<bool>)

  datatype Step =
    | BeginOperation(w: nat) | EndOperation(w: nat)
    | ReadByte(w: nat) | Register(w: nat) | PassHangLock(w: nat)
    | HelperWakes(h: nat) | HelperSleeps(h: nat)
    | BootDone | BeginPause | TakeHelper | TakeHangLock | ResetCount | SendByte | BeginWait | PauseReturns
    | BeginResume | ReleaseHelper | ReleaseHangLock

  predicate HangLockHeld(p: Pauser) {
    p.HasHangLock? || p.Notifying? || p.Waiting? || p.Paused? || p.Releasing?
  }

  predicate HelperLockHeld(p: Pauser, h: nat) {
    match p
    case TakingHelpers(taken) => h < taken
    case Releasing(kept) => h < kept
    case _ => p.HasHangLock? || p.Notifying? || p.Waiting? || p.Paused?
  }

  ghost predicate Sized(s: Sys) {
    |s.workers| == |s.pipes| == |s.registered| && |s.awake| == HELPERS
  }

  ghost predicate Enabled(s: Sys, step: Step)
    requires Sized(s)
  {
    match step
    case BeginOperation(w) => w < |s.workers| && s.workers[w] == Serving(false)
    case EndOperation(w) => w < |s.workers| && s.workers[w] == Serving(true)
    case ReadByte(w) => w < |s.workers| && s.workers[w] == Serving(false) && s.pipes[w] > 0
    case Register(w) => w < |s.workers| && s.workers[w] == Registering && !s.pauser.Notifying?
    case PassHangLock(w) => w < |s.workers| && s.workers[w] == AtHangLock && !HangLockHeld(s.pauser)
    case HelperWakes(h) => h < HELPERS && !s.awake[h] && !HelperLockHeld(s.pauser, h)
    case HelperSleeps(h) => h < HELPERS && s.awake[h]
    case BootDone => s.pauser == Booting && s.initCount >= |s.workers|
    case BeginPause => s.pauser == Idle
    case TakeHelper => s.pauser.TakingHelpers? && s.pauser.taken < HELPERS && !s.awake[s.pauser.taken]
    case TakeHangLock => s.pauser == TakingHelpers(HELPERS)
    case ResetCount => s.pauser == HasHangLock
    case SendByte => s.pauser.Notifying? && s.pauser.sent < |s.workers|
    case BeginWait => s.pauser == Notifying(|s.workers|)
    case PauseReturns => s.pauser == Waiting && s.initCount >= |s.workers|
    case BeginResume => s.pauser == Paused
    case ReleaseHelper => s.pauser.Releasing? && s.pauser.kept > 0
    case ReleaseHangLock => s.pauser == Releasing(0)
  }

  ghost function Next(s: Sys, step: Step): Sys
    requires Sized(s) && Enabled(s, step)
  {
    match step
    case BeginOperation(w) => s.(workers := s.workers[w := Serving(true)])
    case EndOperation(w) => s.(workers := s.workers[w := Serving(false)])
    case ReadByte(w) => s.(workers := s.workers[w := Registering], pipes := s.pipes[w := s.pipes[w] - 1])
    case Register(w) =>
      s.(workers := s.workers[w := AtHangLock], initCount := s.initCount + 1, registered := s.registered[w := true])
    case PassHangLock(w) => s.(workers := s.workers[w := Serving(false)])
    case HelperWakes(h) => s.(awake := s.awake[h := true])
    case HelperSleeps(h) => s.(awake := s.awake[h := false])
    case BootDone => s.(pauser := Idle)
    case BeginPause => s.(pauser := TakingHelpers(0))
    case TakeHelper => s.(pauser := TakingHelpers(s.pauser.taken + 1))
    case TakeHangLock => s.(pauser := HasHangLock)
    case ResetCount =>
      s.(pauser := Notifying(0), initCount := 0, registered := seq(|s.workers|, _ => false))
    case SendByte =>
      s.(pauser := Notifying(s.pauser.sent + 1), pipes := s.pipes[s.pauser.sent := s.pipes[s.pauser.sent] + 1])
    case BeginWait => s.(pauser := Waiting)
    case PauseReturns => s.(pauser := Paused)
    case BeginResume => s.(pauser := Releasing(HELPERS))
    case ReleaseHelper => s.(pauser := Releasing(s.pauser.kept - 1))
    case ReleaseHangLock => s.(pauser := Idle)
  }

  // ----- counting registrations

  function Count(bs: seq<bool>): (n: nat)
    ensures n <= |bs|
  {
    if bs == [] then 0 else (if bs[0] then 1 else 0) + Count(bs[1..])
  }

  lemma {:induction false} CountSet(bs: seq<bool>, i: nat)
    requires i < |bs| && !bs[i]
    ensures Count(bs[i := true]) == Count(bs) + 1
  {
    if i > 0 {
      CountSet(bs[1..], i - 1);
      assert bs[i := true][1..] == bs[1..][i - 1 := true];
    } else {
      assert bs[0 := true][1..] == bs[1..];
    }
  }

  /** All count exactly when the count is the number of entries. */
  lemma {:induction false} CountAll(bs: seq<bool>)
    ensures Count(bs) == |bs| <==> forall i :: 0 <= i < |bs| ==> bs[i]
  {
    if bs != [] {
      CountAll(bs[1..]);
      assert forall i :: 0 <= i < |bs| - 1 ==> bs[1..][i] == bs[i + 1];
      if forall i :: 0 <= i < |bs| ==> bs[i] {
        assert forall i :: 0 <= i < |bs| - 1 ==> bs[1..][i];
      }
      if Count(bs) == |bs| {
        forall i | 0 <= i < |bs| ensures bs[i] {
          assert i > 0 ==> bs[i] == bs[1..][i - 1];
        }
      }
    }
  }

  lemma {:induction false} CountNone(n: nat)
    ensures Count(seq(n, _ => false)) == 0
  {
    if n > 0 {
      CountNone(n - 1);
      assert seq(n, _ => false)[1..] == seq(n - 1, _ => false);
    }
  }

  // ----- the invariant

  /** The bytes, registrations in progress and registrations of a worker since the last reset. */
  ghost function Tokens(s: Sys, w: nat): nat
    requires Sized(s) && w < |s.workers|
  {
    s.pipes[w] + (if s.workers[w] == Registering then 1 else 0) + (if s.registered[w] then 1 else 0)
  }

  /** Each worker has one token for the current pause, from the moment its byte is sent. While the
      hang lock is held since before the reset, a worker that has counted itself is queued on it. */
  ghost predicate WorkerOk(s: Sys, w: nat)
    requires Sized(s) && w < |s.workers|
  {
    && Tokens(s, w) == (if s.pauser.Notifying? && w >= s.pauser.sent then 0 else 1)
    && (s.pauser.Notifying? || s.pauser.Waiting? || s.pauser.Paused? || s.pauser.Releasing? ==>
          s.registered[w] ==> s.workers[w] == AtHangLock)
    && (!s.pauser.Booting? && !s.pauser.Notifying? && !s.pauser.Waiting? ==> s.registered[w])
    && (s.pauser.Booting? ==> s.pipes[w] == 0)
  }

  ghost predicate Inv(s: Sys) {
    && Sized(s)
    && s.initCount == Count(s.registered)
    && (s.pauser.Notifying? ==> s.pauser.sent <= |s.workers|)
    && (s.pauser.TakingHelpers? ==> s.pauser.taken <= HELPERS)
    && (s.pauser.Releasing? ==> s.pauser.kept <= HELPERS)
    && (forall h :: 0 <= h < HELPERS && HelperLockHeld(s.pauser, h) ==> !s.awake[h])
    && (forall w {:trigger WorkerOk(s, w)} :: 0 <= w < |s.workers| ==> WorkerOk(s, w))
  }

  /** All workers have just been created and nobody has counted itself. */
  ghost predicate Start(s: Sys) {
    && Sized(s) && s.pauser == Booting && s.initCount == 0
    && s.registered == seq(|s.workers|, _ => false)
    && (forall w :: 0 <= w < |s.workers| ==> s.workers[w] == Registering && s.pipes[w] == 0)
    && (forall h :: 0 <= h < HELPERS ==> !s.awake[h])
  }

  lemma StartIsInv(s: Sys)
    requires Start(s)
    ensures Inv(s)
  {
    CountNone(|s.workers|);
  }

  lemma StepKeepsCount(s: Sys, step: Step)
    requires Inv(s) && Enabled(s, step)
    ensures Next(s, step).initCount == Count(Next(s, step).registered)
  {
    match step
    case Register(w) =>
      assert WorkerOk(s, w);
      CountSet(s.registered, w);
    case ResetCount => CountNone(|s.workers|);
    case _ =>
  }

  lemma StepKeepsWorker(s: Sys, step: Step, w: nat)
    requires Inv(s) && Enabled(s, step) && w < |s.workers|
    ensures Sized(Next(s, step)) && WorkerOk(Next(s, step), w)
  {
    assert WorkerOk(s, w);
    if step.BootDone? || step.PauseReturns? {
      CountAll(s.registered);
    }
  }

  lemma StepKeepsInv(s: Sys, step: Step)
    requires Inv(s) && Enabled(s, step)
    ensures Inv(Next(s, step))
  {
    StepKeepsCount(s, step);
    forall w | 0 <= w < |Next(s, step).workers| ensures WorkerOk(Next(s, step), w) {
      StepKeepsWorker(s, step, w);
    }
  }

  // ----- over whole runs

  ghost predicate StepAt(states: seq<Sys>, steps: seq<Step>, i: nat)
    requires i < |steps| && |states| == |steps| + 1
  {
    Sized(states[i]) && Enabled(states[i], steps[i]) && states[i + 1] == Next(states[i], steps[i])
  }

  ghost predicate IsRun(states: seq<Sys>, steps: seq<Step>) {
    && |states| == |steps| + 1 && Start(states[0])
    && forall i {:trigger StepAt(states, steps, i)} :: 0 <= i < |steps| ==> StepAt(states, steps, i)
  }

  lemma {:induction false} RunKeepsInv(states: seq<Sys>, steps: seq<Step>, i: nat)
    requires IsRun(states, steps) && i <= |steps|
    ensures Inv(states[i])
  {
    if i == 0 {
      StartIsInv(states[0]);
    } else {
      RunKeepsInv(states, steps, i - 1);
      assert StepAt(states, steps, i - 1);
      StepKeepsInv(states[i - 1], steps[i - 1]);
    }
  }

  /** In every reachable state `init_count` is the number of workers registered since the last reset.
      From the return of the pause until the resume begins, every worker has registered and is queued
      on the hang lock and every background thread is asleep: nobody else touches the table. */
  lemma PausedMeansParked(states: seq<Sys>, steps: seq<Step>, i: nat)
    requires IsRun(states, steps) && i <= |steps|
    ensures Sized(states[i]) && states[i].initCount == Count(states[i].registered)
    ensures states[i].pauser == Paused ==>
              && (forall w :: 0 <= w < |states[i].workers| ==> states[i].workers[w] == AtHangLock)
              && (forall h :: 0 <= h < HELPERS ==> !states[i].awake[h])
  {
    RunKeepsInv(states, steps, i);
    var s := states[i];
    if s.pauser == Paused {
      forall w | 0 <= w < |s.workers| ensures s.workers[w] == AtHangLock {
        assert WorkerOk(s, w);
      }
    }
  }

  /** The world stays stopped: the only step possible while paused is the pauser's own resume. */
  lemma PausedMeansStopped(states: seq<Sys>, steps: seq<Step>, i: nat)
    requires IsRun(states, steps) && i < |steps| && states[i].pauser == Paused
    ensures steps[i] == BeginResume && states[i + 1] == states[i].(pauser := Releasing(HELPERS))
  {
    PausedMeansParked(states, steps, i);
    assert StepAt(states, steps, i);
  }
}
