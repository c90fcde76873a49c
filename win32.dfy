/**
 * The native side of the tray icon, abstracted: the Win32 calls the coordinator makes, the
 * exceptions they may raise, how those exceptions are classified, and what a `try` block
 * that issues a sequence of such calls does when one of them raises.
 */
module Win32 {
  import opened Wrappers
  import opened Seqs

  /** The exceptions the tray code can meet. */
  datatype Exception =
    | OSError(winerror: int)         // an OSError carrying a Windows error code
    | AttributeError(name: string)   // reading an attribute the icon object does not have
    | OtherError(message: string)    // any other exception

  /** ERROR_INVALID_WINDOW_HANDLE: the handle was already destroyed by a racing teardown. */
  const ERROR_INVALID_WINDOW_HANDLE: int := 1400

  /** The one error every handler swallows without a word. */
  predicate IsBenign(e: Exception)
  {
    e.OSError? && e.winerror == ERROR_INVALID_WINDOW_HANDLE
  }

  /** A line printed to the console: a fixed prefix followed by the exception's text. */
  datatype Report = Report(prefix: string, error: Exception)

  /** What an `except` clause prints for the exception that reached it, if any. */
  function Reported(prefix: string, raised: Option<Exception>): (lines: seq<Report>)
    ensures lines == [] <==> raised.None? || IsBenign(raised.value)
    ensures lines != [] ==> lines == [Report(prefix, raised.value)]
  {
    if raised.Some? && !IsBenign(raised.value) then [Report(prefix, raised.value)] else []
  }

  const WM_CLOSE: nat := 0x0010
  const WM_QUIT: nat := 0x0012

  /** The native calls the coordinator issues; 0 stands for a null handle. */
  datatype NativeCall =
    | PostMessage(hwnd: nat, msg: nat)   // PostMessageW(hwnd, msg, 0, 0)
    | DestroyWindow(hwnd: nat)
    | UnregisterClass(atom: nat)         // UnregisterClassW(atom, 0)
    | PumpMessages                       // one drain of the calling thread's message queue
    | Sleep(ms: nat)                     // time.sleep
    | RunIcon                            // pystray's blocking icon loop, until it returns

  /**
   * The operating system's answer to the k-th native call of the run: the exception it
   * raises, if any. Every property below holds for every oracle.
   */
  type Oracle = (nat, NativeCall) -> Option<Exception>

  /** `time.sleep` never raises; every other call raises whatever the oracle says. */
  function Fault(os: Oracle, k: nat, c: NativeCall): Option<Exception>
  {
    if c.Sleep? then None else os(k, c)
  }

  /** One statement of a `try` block: a native call, or raising an exception outright. */
  datatype Step = Call(call: NativeCall) | Raise(error: Exception)

  /** What a `try` block did: the calls it issued, in order, and the exception that left it. */
  datatype Outcome = Outcome(issued: seq<NativeCall>, raised: Option<Exception>)

  /**
   * Running the statements of a `try` block whose first native call is the k-th of the run:
   * each step runs only while no exception is pending, so the first step that raises ends it.
   */
  function Execute(steps: seq<Step>, os: Oracle, k: nat): (r: Outcome)
    ensures |r.issued| <= |steps|
    ensures r.raised.None? ==> |r.issued| == |steps|
  {
    ExecuteFirst(steps, |steps|, os, k)
  }

  /** Running only the first `n` statements of the block. */
  function ExecuteFirst(steps: seq<Step>, n: nat, os: Oracle, k: nat): (r: Outcome)
    requires n <= |steps|
    ensures |r.issued| <= n
    ensures r.raised.None? ==> |r.issued| == n
  {
    if n == 0 then Outcome([], None)
    else
      var before := ExecuteFirst(steps, n - 1, os, k);
      if before.raised.Some? then before
      else match steps[n - 1]
        case Raise(e) => Outcome(before.issued, Some(e))
        case Call(c) => Outcome(before.issued + [c], Fault(os, k + |before.issued|, c))
  }

  /**
   * What a block does: it issues its leading calls in order, every issued call but the last
   * succeeded, and it either completes or stops at the step that raised, which is a `raise`
   * statement or the last call issued.
   */
  lemma ExecuteStopsAtFirstRaise(steps: seq<Step>, os: Oracle, k: nat)
    ensures var r := Execute(steps, os, k);
            (forall i :: 0 <= i < |r.issued| ==> steps[i] == Call(r.issued[i]))
            && (forall i :: 0 <= i < |r.issued| - 1 ==> Fault(os, k + i, r.issued[i]).None?)
            && (r.raised.None? <==>
                 |r.issued| == |steps| && (r.issued == [] || Fault(os, k + |r.issued| - 1, r.issued[|r.issued| - 1]).None?))
            && (r.raised.Some? ==>
                 (|r.issued| < |steps| && steps[|r.issued|] == Raise(r.raised.value))
                 || (r.issued != [] && r.raised == Fault(os, k + |r.issued| - 1, r.issued[|r.issued| - 1])))
  {
    FirstStopsAtFirstRaise(steps, |steps|, os, k);
  }

  /** `ExecuteStopsAtFirstRaise` for the first `n` statements, by induction on `n`. */
  lemma {:induction false} FirstStopsAtFirstRaise(steps: seq<Step>, n: nat, os: Oracle, k: nat)
    requires n <= |steps|
    ensures var r := ExecuteFirst(steps, n, os, k);
            (forall i :: 0 <= i < |r.issued| ==> steps[i] == Call(r.issued[i]))
            && (forall i :: 0 <= i < |r.issued| - 1 ==> Fault(os, k + i, r.issued[i]).None?)
            && (r.raised.None? <==>
                 |r.issued| == n && (r.issued == [] || Fault(os, k + |r.issued| - 1, r.issued[|r.issued| - 1]).None?))
            && (r.raised.Some? ==>
                 (|r.issued| < n && steps[|r.issued|] == Raise(r.raised.value))
                 || (r.issued != [] && r.raised == Fault(os, k + |r.issued| - 1, r.issued[|r.issued| - 1])))
  {
    if n > 0 {
      FirstStopsAtFirstRaise(steps, n - 1, os, k);
      var before := ExecuteFirst(steps, n - 1, os, k);
      if before.raised.None? {
        match steps[n - 1]
        case Raise(e) =>
        case Call(c) =>
          var r := ExecuteFirst(steps, n, os, k);
          assert r.issued == before.issued + [c];
          assert forall i :: 0 <= i < |before.issued| ==> r.issued[i] == before.issued[i];
      }
    }
  }

  /** Once the first `n` statements have raised, the statements after them change nothing. */
  lemma ExecuteIgnoresStepsAfterRaise(steps: seq<Step>, n: nat, os: Oracle, k: nat)
    requires n <= |steps|
    requires ExecuteFirst(steps, n, os, k).raised.Some?
    ensures Execute(steps, os, k) == ExecuteFirst(steps, n, os, k)
  {
    FirstIgnoresStepsAfterRaise(steps, n, |steps|, os, k);
  }

  /** `ExecuteIgnoresStepsAfterRaise` up to any later statement `m`, by induction on `m`. */
  lemma {:induction false} FirstIgnoresStepsAfterRaise(steps: seq<Step>, n: nat, m: nat, os: Oracle, k: nat)
    requires n <= m <= |steps|
    requires ExecuteFirst(steps, n, os, k).raised.Some?
    ensures ExecuteFirst(steps, m, os, k) == ExecuteFirst(steps, n, os, k)
    decreases m
  {
    if n < m {
      FirstIgnoresStepsAfterRaise(steps, n, m - 1, os, k);
    }
  }

  /** The first statements of a block extended at its end run as they did before. */
  lemma {:induction false} FirstOfAppend(a: seq<Step>, b: seq<Step>, n: nat, os: Oracle, k: nat)
    requires n <= |a|
    ensures ExecuteFirst(a + b, n, os, k) == ExecuteFirst(a, n, os, k)
  {
    if n > 0 {
      FirstOfAppend(a, b, n - 1, os, k);
      assert (a + b)[n - 1] == a[n - 1];
    }
  }

  /** A block made of two parts runs the first, then, unless it raised, the second after it. */
  lemma ExecuteAppend(a: seq<Step>, b: seq<Step>, os: Oracle, k: nat)
    ensures Execute(a, os, k).raised.Some? ==> Execute(a + b, os, k) == Execute(a, os, k)
    ensures Execute(a, os, k).raised.None? ==>
              Execute(a + b, os, k) == Outcome(Execute(a, os, k).issued + Execute(b, os, k + |Execute(a, os, k).issued|).issued,
                                               Execute(b, os, k + |Execute(a, os, k).issued|).raised)
  {
    FirstOfAppend(a, b, |a|, os, k);
    var ra := Execute(a, os, k);
    if ra.raised.Some? {
      FirstIgnoresStepsAfterRaise(a + b, |a|, |a + b|, os, k);
    } else {
      FirstOfSecondPart(a, b, |b|, os, k);
    }
  }

  /** After a first part that completed, the block runs the first `j` statements of the second. */
  lemma {:induction false} FirstOfSecondPart(a: seq<Step>, b: seq<Step>, j: nat, os: Oracle, k: nat)
    requires j <= |b|
    requires ExecuteFirst(a + b, |a|, os, k) == Execute(a, os, k)
    requires Execute(a, os, k).raised.None?
    ensures var ra := Execute(a, os, k);
            var rb := ExecuteFirst(b, j, os, k + |ra.issued|);
            ExecuteFirst(a + b, |a| + j, os, k) == Outcome(ra.issued + rb.issued, rb.raised)
  {
    var ra := Execute(a, os, k);
    if j == 0 {
      assert ra.issued + [] == ra.issued;
    } else {
      FirstOfSecondPart(a, b, j - 1, os, k);
      var rb := ExecuteFirst(b, j - 1, os, k + |ra.issued|);
      assert (a + b)[|a| + j - 1] == b[j - 1];
      if rb.raised.None? {
        match b[j - 1]
        case Raise(e) =>
        case Call(c) =>
          AppendAssoc(ra.issued, rb.issued, [c]);
      }
    }
  }

  /** The calls of a block that only calls. */
  function CallsOf(steps: seq<Step>): (calls: seq<NativeCall>)
    requires forall i :: 0 <= i < |steps| ==> steps[i].Call?
    ensures |calls| == |steps|
    ensures forall i :: 0 <= i < |steps| ==> steps[i] == Call(calls[i])
  {
    seq(|steps|, i requires 0 <= i < |steps| && steps[i].Call? => steps[i].call)
  }

  /** An operating system that never raises. */
  ghost predicate NeverFails(os: Oracle)
  {
    forall k, c :: os(k, c).None?
  }

  /** When nothing fails, a block that only calls issues all of its calls, in order. */
  lemma ExecuteWithoutFaults(steps: seq<Step>, os: Oracle, k: nat)
    requires NeverFails(os)
    requires forall i :: 0 <= i < |steps| ==> steps[i].Call?
    ensures Execute(steps, os, k) == Outcome(CallsOf(steps), None)
  {
    FirstWithoutFaults(steps, |steps|, os, k);
  }

  /** `ExecuteWithoutFaults` for the first `n` statements, by induction on `n`. */
  lemma {:induction false} FirstWithoutFaults(steps: seq<Step>, n: nat, os: Oracle, k: nat)
    requires NeverFails(os)
    requires n <= |steps|
    requires forall i :: 0 <= i < |steps| ==> steps[i].Call?
    ensures var r := ExecuteFirst(steps, n, os, k);
            r.raised.None? && |r.issued| == n && forall i :: 0 <= i < n ==> steps[i] == Call(r.issued[i])
  {
    if n > 0 {
      FirstWithoutFaults(steps, n - 1, os, k);
      var before := ExecuteFirst(steps, n - 1, os, k);
      assert os(k + |before.issued|, steps[n - 1].call).None?;
    }
  }

  /** The calls of a block that only calls are read off step by step. */
  lemma CallsOfEach(steps: seq<Step>, calls: seq<NativeCall>)
    requires |steps| == |calls| && forall i :: 0 <= i < |steps| ==> steps[i] == Call(calls[i])
    ensures CallsOf(steps) == calls
  {
  }

  /** Time spent in `time.sleep` by one call. */
  function SleepTime(c: NativeCall): nat
  {
    if c.Sleep? then c.ms else 0
  }

  /** Total time spent in `time.sleep` by a sequence of calls. */
  function PauseTime(calls: seq<NativeCall>): (t: nat)
  {
    PauseTimeFirst(calls, |calls|)
  }

  /** Time spent in `time.sleep` by the first `n` calls. */
  function PauseTimeFirst(calls: seq<NativeCall>, n: nat): nat
    requires n <= |calls|
  {
    if n == 0 then 0 else PauseTimeFirst(calls, n - 1) + SleepTime(calls[n - 1])
  }

  /** The first `n` calls never pause longer than the first `m`, for `n <= m`. */
  lemma {:induction false} PauseTimeGrows(calls: seq<NativeCall>, n: nat, m: nat)
    requires n <= m <= |calls|
    ensures PauseTimeFirst(calls, n) <= PauseTimeFirst(calls, m)
    decreases m
  {
    if n < m {
      PauseTimeGrows(calls, n, m - 1);
    }
  }

  /** Pauses depend only on the calls counted. */
  lemma {:induction false} PauseTimeOfSameCalls(a: seq<NativeCall>, b: seq<NativeCall>, n: nat)
    requires n <= |a| && n <= |b|
    requires forall i :: 0 <= i < n ==> a[i] == b[i]
    ensures PauseTimeFirst(a, n) == PauseTimeFirst(b, n)
  {
    if n > 0 {
      PauseTimeOfSameCalls(a, b, n - 1);
    }
  }

  /** Issuing only some leading calls never pauses longer than issuing all of them. */
  lemma PauseTimeOfPrefix(issued: seq<NativeCall>, calls: seq<NativeCall>)
    requires |issued| <= |calls| && forall i :: 0 <= i < |issued| ==> issued[i] == calls[i]
    ensures PauseTime(issued) <= PauseTime(calls)
  {
    PauseTimeOfSameCalls(issued, calls, |issued|);
    PauseTimeGrows(calls, |issued|, |calls|);
  }
}
