/** `activate_notepad_window`: up to three attempts to bring the window to the
    foreground. The window manager is an oracle: for each attempt, the handle
    `FindWindow` returns, whether the window is minimised, the handle `GetForegroundWindow`
    reports, and the call (if any) that raises. The result records the calls issued. */
module Activation {

  import opened Wrappers
  import opened Windows

  const MaxRetries: nat := 3

  /** The call of an attempt that raises, if any. */
  datatype Fault = NoFault | AtFindWindow | AtIsIconic | AtShowWindow | AtSetForeground | AtGetForeground

  /** The window manager's answers during one attempt. */
  datatype Attempt = Attempt(handle: int, iconic: bool, foreground: int, fault: Fault)

  /** One answer per attempt the loop can make. */
  type Script = s: seq<Attempt> | |s| >= MaxRetries
    witness [Attempt(0, false, 0, NoFault), Attempt(0, false, 0, NoFault), Attempt(0, false, 0, NoFault)]

  /** A request to the window manager, or the one-second backoff between attempts. */
  datatype Call =
    | FindWindow(title: string)
    | IsIconic(hwnd: int)
    | Restore(hwnd: int)
    | SetForeground(hwnd: int)
    | GetForeground
    | Backoff

  datatype AttemptRun = AttemptRun(succeeded: bool, calls: seq<Call>)

  datatype Activation = Activation(ok: bool, calls: seq<Call>)

  /** Some call the attempt actually reaches raises: nothing after `FindWindow` is
      reached for a zero handle, and `ShowWindow` only for a minimised window. */
  predicate Raises(a: Attempt) {
    || a.fault == AtFindWindow
    || (a.handle != 0 &&
        (a.fault == AtIsIconic || (a.fault == AtShowWindow && a.iconic) ||
         a.fault == AtSetForeground || a.fault == AtGetForeground))
  }

  /** The attempt ends with the located window in the foreground. */
  predicate Succeeds(a: Attempt) {
    a.handle != 0 && !Raises(a) && a.foreground == a.handle
  }

  predicate IsHandleCall(c: Call) {
    c.IsIconic? || c.Restore? || c.SetForeground?
  }

  /** Number of attempts in a call trace. */
  function FindCount(calls: seq<Call>): nat
  {
    if calls == [] then 0 else (if calls[0].FindWindow? then 1 else 0) + FindCount(calls[1..])
  }

  /** Number of backoffs in a call trace. */
  function BackoffCount(calls: seq<Call>): nat
  {
    if calls == [] then 0 else (if calls[0].Backoff? then 1 else 0) + BackoffCount(calls[1..])
  }

  lemma {:induction false} CallCountsAppend(a: seq<Call>, b: seq<Call>)
    ensures FindCount(a + b) == FindCount(a) + FindCount(b)
    ensures BackoffCount(a + b) == BackoffCount(a) + BackoffCount(b)
  {
    if a == [] {
      assert a + b == b;
    } else {
      assert (a + b)[1..] == a[1..] + b;
      CallCountsAppend(a[1..], b);
    }
  }

  lemma {:induction false} NoAttemptCounts(calls: seq<Call>)
    requires forall i :: 0 <= i < |calls| ==> !calls[i].FindWindow? && !calls[i].Backoff?
    ensures FindCount(calls) == 0 && BackoffCount(calls) == 0
  {
    if calls != [] {
      NoAttemptCounts(calls[1..]);
    }
  }

  /** One pass of the loop body (lines 155-172): find the handle, restore it if
      minimised, bring it forward and check the foreground window. */
  function RunAttempt(title: string, a: Attempt): AttemptRun
  {
    var h := a.handle;
    if a.fault == AtFindWindow || h == 0 then AttemptRun(false, [FindWindow(title)])
    else if a.fault == AtIsIconic then AttemptRun(false, [FindWindow(title), IsIconic(h)])
    else if a.iconic && a.fault == AtShowWindow then
      AttemptRun(false, [FindWindow(title), IsIconic(h), Restore(h)])
    else
      var shown := if a.iconic then [FindWindow(title), IsIconic(h), Restore(h)]
                   else [FindWindow(title), IsIconic(h)];
      if a.fault == AtSetForeground then AttemptRun(false, shown + [SetForeground(h)])
      else AttemptRun(a.fault != AtGetForeground && a.foreground == h, shown + [SetForeground(h), GetForeground])
  }

  /** One attempt succeeds exactly when it ends with its handle in the foreground; it
      issues exactly one `FindWindow`, first; a zero handle issues nothing else; a restore
      is issued only for a live, minimised window, and every handle call uses the live
      handle just found. */
  lemma AttemptFacts(title: string, a: Attempt)
    ensures var r := RunAttempt(title, a);
      && (r.succeeded <==> Succeeds(a))
      && r.calls != [] && r.calls[0] == FindWindow(title)
      && (a.handle == 0 ==> r.calls == [FindWindow(title)])
      && (forall i :: 1 <= i < |r.calls| ==>
            !r.calls[i].FindWindow? && !r.calls[i].Backoff? &&
            (IsHandleCall(r.calls[i]) ==> r.calls[i].hwnd == a.handle != 0))
      && ((exists i :: 0 <= i < |r.calls| && r.calls[i].Restore?) <==>
            a.handle != 0 && a.iconic && a.fault != AtFindWindow && a.fault != AtIsIconic)
      && FindCount(r.calls) == 1 && BackoffCount(r.calls) == 0
  {
    var r := RunAttempt(title, a);
    NoAttemptCounts(r.calls[1..]);
    assert r.calls == [r.calls[0]] + r.calls[1..];
    CallCountsAppend([r.calls[0]], r.calls[1..]);
    if !(a.handle != 0 && a.iconic && a.fault != AtFindWindow && a.fault != AtIsIconic) {
      assert forall i :: 0 <= i < |r.calls| ==> !r.calls[i].Restore?;
    } else {
      assert r.calls[2].Restore?;
    }
  }

  /** The body of the retry loop against the window manager's answers `a`, issuing the
      calls one by one and stopping at the first one that raises. */
  method TryActivate(title: string, a: Attempt) returns (succeeded: bool, calls: seq<Call>)
    ensures AttemptRun(succeeded, calls) == RunAttempt(title, a)
  {
    calls := [FindWindow(title)];
    if a.fault == AtFindWindow {
      return false, calls;
    }
    var hwnd := a.handle;
    if hwnd == 0 {
      return false, calls;
    }
    calls := calls + [IsIconic(hwnd)];
    if a.fault == AtIsIconic {
      return false, calls;
    }
    if a.iconic {
      calls := calls + [Restore(hwnd)];
      if a.fault == AtShowWindow {
        return false, calls;
      }
    }
    calls := calls + [SetForeground(hwnd)];
    if a.fault == AtSetForeground {
      return false, calls;
    }
    calls := calls + [GetForeground];
    if a.fault == AtGetForeground {
      return false, calls;
    }
    succeeded := a.foreground == hwnd;
  }

  /** The loop from `retry_count == k` on. */
  function ActivateFrom(title: string, script: Script, k: nat): (r: Activation)
    decreases MaxRetries - k
  {
    if k >= MaxRetries then Activation(false, [])
    else
      var a := RunAttempt(title, script[k]);
      if a.succeeded then Activation(true, a.calls)
      else
        var rest := ActivateFrom(title, script, k + 1);
        Activation(rest.ok, a.calls + Gap(k) + rest.calls)
  }

  /** The loop's result when `calls` have been issued and attempt `k` is next. */
  function Resume(title: string, script: Script, calls: seq<Call>, k: nat): Activation
  {
    var rest := ActivateFrom(title, script, k);
    Activation(rest.ok, calls + rest.calls)
  }

  /** One pass of the loop body moves `Resume` on to the next attempt. */
  lemma ResumeStep(title: string, script: Script, calls: seq<Call>, k: nat)
    requires k < MaxRetries
    ensures var a := RunAttempt(title, script[k]);
      Resume(title, script, calls, k) ==
        if a.succeeded then Activation(true, calls + a.calls)
        else Resume(title, script, calls + a.calls + Gap(k), k + 1)
  {
    var a := RunAttempt(title, script[k]);
    var rest := ActivateFrom(title, script, k + 1);
    assert calls + (a.calls + Gap(k) + rest.calls) == calls + a.calls + Gap(k) + rest.calls;
  }

  /** The backoff after failed attempt `k`: only when another attempt follows. */
  function Gap(k: nat): seq<Call>
  {
    if k + 1 < MaxRetries then [Backoff] else []
  }

  /** What `activate_notepad_window` returns and asks of the window manager. */
  function Activate(window: Option<Window>, script: Script): Activation
  {
    match window
    case None => Activation(false, [])
    case Some(w) => ActivateFrom(w.title, script, 0)
  }

  /** The retry loop of lines 149-186. */
  method ActivateNotepadWindow(window: Option<Window>, script: Script) returns (ok: bool, calls: seq<Call>)
    ensures Activation(ok, calls) == Activate(window, script)
  {
    if window.None? {
      return false, [];
    }
    var title := window.value.title;
    calls := [];
    var retryCount := 0;
    while retryCount < MaxRetries
      invariant 0 <= retryCount <= MaxRetries
      invariant Activate(window, script) == Resume(title, script, calls, retryCount)
    {
      var succeeded, attemptCalls := TryActivate(title, script[retryCount]);
      ResumeStep(title, script, calls, retryCount);
      calls := calls + attemptCalls;
      if succeeded {
        return true, calls;
      }
      calls := calls + Gap(retryCount);
      retryCount := retryCount + 1;
    }
    assert calls + [] == calls;
    ok := false;
  }

  /** An invalid window is refused without any call to the window manager. */
  lemma ActivateNoWindow(script: Script)
    ensures Activate(None, script) == Activation(false, [])
  {
  }

  /** From attempt `k` on, the loop succeeds exactly when a remaining attempt succeeds. */
  lemma {:induction false} ActivateFromOk(title: string, script: Script, k: nat)
    requires k <= MaxRetries
    ensures ActivateFrom(title, script, k).ok <==> exists j :: k <= j < MaxRetries && Succeeds(script[j])
    decreases MaxRetries - k
  {
    if k < MaxRetries {
      AttemptFacts(title, script[k]);
      ActivateFromOk(title, script, k + 1);
    }
  }

  /** The number of attempts the loop makes from `retry_count == k` on: it stops after
      the first successful attempt or when the three attempts are used up. */
  function AttemptsFrom(script: Script, k: nat): (n: nat)
    ensures k + n <= MaxRetries || (k >= MaxRetries && n == 0)
    decreases MaxRetries - k
  {
    if k >= MaxRetries then 0
    else if Succeeds(script[k]) then 1
    else 1 + AttemptsFrom(script, k + 1)
  }

  /** The trace holds one `FindWindow` per attempt made and one backoff fewer, and
      starts with `FindWindow` whenever an attempt is left. */
  lemma {:induction false} ActivateFromCounts(title: string, script: Script, k: nat)
    requires k <= MaxRetries
    ensures var r := ActivateFrom(title, script, k);
      && FindCount(r.calls) == AttemptsFrom(script, k)
      && BackoffCount(r.calls) == (if k == MaxRetries then 0 else AttemptsFrom(script, k) - 1)
      && (k < MaxRetries ==> r.calls != [] && r.calls[0] == FindWindow(title))
    decreases MaxRetries - k
  {
    if k < MaxRetries {
      var a := RunAttempt(title, script[k]);
      AttemptFacts(title, script[k]);
      if !a.succeeded {
        ActivateFromCounts(title, script, k + 1);
        var rest := ActivateFrom(title, script, k + 1);
        CallCountsAppend(a.calls, Gap(k));
        CallCountsAppend(a.calls + Gap(k), rest.calls);
        assert ActivateFrom(title, script, k).calls == a.calls + Gap(k) + rest.calls;
      }
    }
  }

  /** From attempt `k` on, the attempts made end at the first success, all earlier ones
      failed, and all remaining attempts are used when none succeeds. */
  lemma {:induction false} AttemptsFromFacts(script: Script, k: nat)
    requires k < MaxRetries
    ensures var n := AttemptsFrom(script, k);
      && n >= 1
      && (forall j :: k <= j < k + n - 1 ==> !Succeeds(script[j]))
      && ((exists j :: k <= j < MaxRetries && Succeeds(script[j])) ==> Succeeds(script[k + n - 1]))
      && (!(exists j :: k <= j < MaxRetries && Succeeds(script[j])) ==> n == MaxRetries - k)
    decreases MaxRetries - k
  {
    if !Succeeds(script[k]) && k + 1 < MaxRetries {
      AttemptsFromFacts(script, k + 1);
    }
  }

  /** From attempt `k` on, every backoff is immediately followed by the next attempt's
      `FindWindow`, so none comes after the last attempt. */
  lemma {:induction false} ActivateFromBackoffs(title: string, script: Script, k: nat)
    requires k <= MaxRetries
    ensures var calls := ActivateFrom(title, script, k).calls;
      forall i :: 0 <= i < |calls| && calls[i].Backoff? ==> i + 1 < |calls| && calls[i + 1] == FindWindow(title)
    decreases MaxRetries - k
  {
    if k < MaxRetries {
      var a := RunAttempt(title, script[k]);
      AttemptFacts(title, script[k]);
      if !a.succeeded {
        ActivateFromBackoffs(title, script, k + 1);
        ActivateFromCounts(title, script, k + 1);
        var rest := ActivateFrom(title, script, k + 1);
        var calls := a.calls + Gap(k) + rest.calls;
        assert calls == ActivateFrom(title, script, k).calls;
        forall i | 0 <= i < |calls| && calls[i].Backoff?
          ensures i + 1 < |calls| && calls[i + 1] == FindWindow(title)
        {
          if i < |a.calls| {
            assert false;
          } else if i < |a.calls| + |Gap(k)| {
            assert calls[i + 1] == rest.calls[0];
          } else {
            assert calls[i] == rest.calls[i - |a.calls| - |Gap(k)|];
            assert calls[i + 1] == rest.calls[i + 1 - |a.calls| - |Gap(k)|];
          }
        }
      }
    }
  }

  /** `activate_notepad_window` returns true exactly when one of its three attempts
      succeeds, makes at least one and at most three attempts, stops at the first
      success, and backs off only between attempts, never after the last. */
  lemma ActivateResult(w: Window, script: Script)
    ensures var r := Activate(Some(w), script);
      && (r.ok <==> exists j :: 0 <= j < MaxRetries && Succeeds(script[j]))
      && 1 <= FindCount(r.calls) <= MaxRetries
      && (r.ok ==> Succeeds(script[FindCount(r.calls) - 1]))
      && (forall j :: 0 <= j < FindCount(r.calls) - 1 ==> !Succeeds(script[j]))
      && (!r.ok ==> FindCount(r.calls) == MaxRetries)
      && BackoffCount(r.calls) == FindCount(r.calls) - 1
      && r.calls[|r.calls| - 1] != Backoff
  {
    ActivateFromOk(w.title, script, 0);
    ActivateFromCounts(w.title, script, 0);
    AttemptsFromFacts(script, 0);
    ActivateFromBackoffs(w.title, script, 0);
  }

  /** Every restore, minimised-state query and foreground request in the trace is made
      on a non-zero handle. */
  predicate LiveHandles(calls: seq<Call>) {
    forall i :: 0 <= i < |calls| && IsHandleCall(calls[i]) ==> calls[i].hwnd != 0
  }

  lemma LiveHandlesAppend(a: seq<Call>, b: seq<Call>)
    requires LiveHandles(a) && LiveHandles(b)
    ensures LiveHandles(a + b)
  {
    forall i | 0 <= i < |a + b| && IsHandleCall((a + b)[i]) ensures (a + b)[i].hwnd != 0 {
      if i < |a| {
        assert (a + b)[i] == a[i];
      } else {
        assert (a + b)[i] == b[i - |a|];
      }
    }
  }

  /** Iconic queries, restores and foreground requests are only ever made on a non-zero
      handle. That it is the handle `FindWindow` returned in the same attempt is
      `AttemptFacts`. */
  lemma {:induction false} HandleCallsAreLive(title: string, script: Script, k: nat)
    requires k <= MaxRetries
    ensures LiveHandles(ActivateFrom(title, script, k).calls)
    decreases MaxRetries - k
  {
    if k < MaxRetries {
      var a := RunAttempt(title, script[k]);
      AttemptFacts(title, script[k]);
      assert LiveHandles(a.calls);
      if !a.succeeded {
        HandleCallsAreLive(title, script, k + 1);
        var rest := ActivateFrom(title, script, k + 1);
        assert LiveHandles(Gap(k));
        LiveHandlesAppend(a.calls, Gap(k));
        LiveHandlesAppend(a.calls + Gap(k), rest.calls);
        assert ActivateFrom(title, script, k).calls == a.calls + Gap(k) + rest.calls;
      }
    }
  }
}
