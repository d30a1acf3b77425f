/**
 * `p_exit` of the daemon and of the radio controller: a static call counter
 * makes the shutdown sequence run on the first call only; every call ends
 * in `exit` with the code it was given.
 */
module ExitGuard {

  /** The shutdown steps the two programs run. */
  datatype Cleanup =
    | GddQuit
    | CommQuit
    | LogQuit
    | OsQuit
    | NrfDisableRadio
    | SpiMasterClose

  /** The daemon's shutdown sequence. */
  const DaemonCleanup: seq<Cleanup> := [GddQuit, CommQuit, LogQuit, OsQuit]

  /** The radio controller's shutdown sequence. */
  const ControllerCleanup: seq<Cleanup> := [NrfDisableRadio, SpiMasterClose, LogQuit, OsQuit]

  const ExitSuccess := 0
  const ExitFailure := 1

  /** Whether a call that finds the counter at `count` runs the shutdown sequence. */
  predicate RunsCleanup(count: nat)
  {
    count + 1 <= 1
  }

  /** How many of `k` consecutive calls, starting with the counter at `count`, run the sequence. */
  function CleanupRuns(count: nat, k: nat): nat
    decreases k
  {
    if k == 0 then 0
    else (if RunsCleanup(count) then 1 else 0) + CleanupRuns(count + 1, k - 1)
  }

  /** However often it is called, the sequence runs once at most, and on the first call. */
  lemma {:induction false} CleanupAtMostOnce(count: nat, k: nat)
    ensures CleanupRuns(count, k) <= 1
    ensures CleanupRuns(count, k) == 1 <==> count == 0 && k > 0
    decreases k
  {
    if k > 0 {
      CleanupAtMostOnce(count + 1, k - 1);
    }
  }

  /** `steps` performed `n` times over. */
  function Repeat(steps: seq<Cleanup>, n: nat): (r: seq<Cleanup>)
    ensures |r| == n * |steps|
  {
    if n == 0 then [] else steps + Repeat(steps, n - 1)
  }

  /**
   * The `static int c` counter, the shutdown steps performed and the codes
   * passed to `exit`. In the program a call never returns; the model returns
   * so that a later call (from a signal handler) can be described.
   */
  class Guard {
    const steps: seq<Cleanup>
    var count: nat
    var performed: seq<Cleanup>
    var exits: seq<int>

    ghost predicate Valid()
      reads this
    {
      performed == Repeat(steps, CleanupRuns(0, count)) && |exits| == count
    }

    constructor (steps: seq<Cleanup>)
      ensures Valid() && this.steps == steps && count == 0 && exits == []
    {
      this.steps := steps;
      count := 0;
      performed := [];
      exits := [];
    }

    /** Count the call, run the shutdown steps if it is the first, then exit with `code`. */
    method Exit(code: int)
      requires Valid()
      modifies this
      ensures Valid()
      ensures count == old(count) + 1 && exits == old(exits) + [code]
      ensures old(count) == 0 ==> performed == steps
      ensures old(count) > 0 ==> performed == old(performed)
    {
      count := count + 1;
      CleanupAtMostOnce(0, count - 1);
      CleanupAtMostOnce(0, count);
      if count > 1 {
        exits := exits + [code];
        return;
      }
      assert Repeat(steps, 1) == steps + [];
      performed := performed + steps;
      exits := exits + [code];
    }
  }
}
