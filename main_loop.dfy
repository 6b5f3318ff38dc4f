/** One iteration of the `while True` loop of main.py (lines 205-275) over the two
    globals `last_joke_time` and `is_processing`. Time is an integer tick; every call
    into the window manager, the pointer, the service and the clock is an oracle answer
    in `Env`. */
module MainLoop {

  import opened Wrappers
  import opened Windows
  import opened Activation
  import opened Clipboard
  import opened Joke
  import opened Timestamp

  /** `JOKE_INTERVAL`. */
  const JokeInterval: int := 10

  /** The `pyautogui.press('enter')` that raises, if any (caught at line 258). */
  datatype EnterFault = NoEnterFault | OnFirstEnter | OnSecondEnter

  /** The answers the outside world gives during one iteration. */
  datatype Env = Env(
    openCheck: Enumeration,   // getWindowsWithTitle('Notepad') in is_notepad_open
    lookup: Lookup,           // the enumerations of get_notepad_window
    positionFault: bool,      // a fault at lines 225-228: pyautogui.position() or a window coordinate read
    attempts: Script,         // the window manager during activate_notepad_window
    pointer: Option<Point>,   // is_cursor_in_window: None when position() or a window edge read raises (197-199)
    response: Response,       // the service call of get_joke
    clock: Clock,             // the local time time.strftime formats
    stampFault: PasteFault,   // paste_text of the timestamp line
    jokeFault: PasteFault,    // paste_text of the joke
    enterFault: EnterFault)

  datatype Tick = Tick(now: int, env: Env)

  /** Where an iteration ended. */
  datatype Outcome =
    | Waiting          // the interval gate (line 216)
    | NotepadClosed    // is_notepad_open false (line 269)
    | WindowNotFound   // get_notepad_window returned None
    | LoopFault        // the exception handler of line 273
    | ActivationFailed // line 267
    | PointerOutside   // line 265
    | NoJoke           // line 262
    | DeliveryFault    // the exception handler of line 258
    | Delivered        // line 256

  /** The globals and the clipboard between iterations. */
  datatype World = World(lastJokeTime: int, isProcessing: bool, clipboard: string)

  datatype StepResult = StepResult(world: World, outcome: Outcome, inputs: seq<Input>)

  /** One iteration: the interval gate, then `is_processing = False` and the cycle. */
  function Iteration(w: World, apiKey: Option<string>, t: Tick): StepResult
  {
    var sinceLast := t.now - w.lastJokeTime;
    if (sinceLast < JokeInterval || w.isProcessing) && JokeInterval - sinceLast > 0
    then StepResult(w, Waiting, [])
    else Cycle(w.(isProcessing := false), apiKey, t)
  }

  /** Lines 221-275: locate, activate, check the pointer, fetch, deliver. */
  function Cycle(w: World, apiKey: Option<string>, t: Tick): StepResult
  {
    var env := t.env;
    if !IsNotepadOpen(env.openCheck) then StepResult(w, NotepadClosed, [])
    else match GetNotepadWindow(env.lookup)
      case None => StepResult(w, WindowNotFound, [])
      case Some(window) =>
        if env.positionFault then StepResult(w, LoopFault, [])
        else if !Activate(Some(window), env.attempts).ok then StepResult(w, ActivationFailed, [])
        else if !IsCursorInWindow(window, env.pointer) then StepResult(w, PointerOutside, [])
        else
          var joke := GetJoke(apiKey, env.response);
          if !IsJoke(joke) then StepResult(w, NoJoke, [])
          else Deliver(w, joke.value, t)
  }

  /** Lines 241-260: paste the timestamp line, paste the joke, press Enter twice, then
      commit. `paste_text` catches its own faults, so only an Enter press can abort. */
  function Deliver(w: World, joke: string, t: Tick): StepResult
  {
    var stamp := PasteEffect(w.clipboard, TimestampLine(t.env.clock), t.env.stampFault);
    var body := PasteEffect(stamp.clipboard, joke, t.env.jokeFault);
    var pasted := stamp.inputs + body.inputs;
    match t.env.enterFault
    case NoEnterFault => StepResult(World(t.now, true, body.clipboard), Delivered, pasted + [EnterKey, EnterKey])
    case OnFirstEnter => StepResult(World(w.lastJokeTime, false, body.clipboard), DeliveryFault, pasted)
    case OnSecondEnter => StepResult(World(w.lastJokeTime, false, body.clipboard), DeliveryFault, pasted + [EnterKey])
  }

  /** Every check between the gate and the delivery passes. */
  predicate ReadyToDeliver(apiKey: Option<string>, env: Env) {
    && IsNotepadOpen(env.openCheck)
    && GetNotepadWindow(env.lookup).Some?
    && !env.positionFault
    && Activate(GetNotepadWindow(env.lookup), env.attempts).ok
    && IsCursorInWindow(GetNotepadWindow(env.lookup).value, env.pointer)
    && IsJoke(GetJoke(apiKey, env.response))
  }

  /** The gate skips the iteration exactly when less than `JOKE_INTERVAL` has passed
      since the last commit, whatever `is_processing` holds, and the flag changes nothing
      else about the iteration. */
  lemma GateIgnoresProcessing(w: World, apiKey: Option<string>, t: Tick)
    ensures Iteration(w, apiKey, t).outcome == Waiting <==> t.now - w.lastJokeTime < JokeInterval
    ensures var flipped := Iteration(w.(isProcessing := !w.isProcessing), apiKey, t);
      && flipped.outcome == Iteration(w, apiKey, t).outcome
      && flipped.inputs == Iteration(w, apiKey, t).inputs
      && flipped.world.lastJokeTime == Iteration(w, apiKey, t).world.lastJokeTime
      && flipped.world.clipboard == Iteration(w, apiKey, t).world.clipboard
      && (flipped.outcome != Waiting ==> flipped.world == Iteration(w, apiKey, t).world)
  {
  }

  /** A skipped iteration changes nothing and issues no input. */
  lemma WaitingChangesNothing(w: World, apiKey: Option<string>, t: Tick)
    requires Iteration(w, apiKey, t).outcome == Waiting
    ensures Iteration(w, apiKey, t).world == w && Iteration(w, apiKey, t).inputs == []
  {
  }

  /** Past the gate, `is_processing` ends true only on a completed delivery: every
      failure path leaves it false. */
  lemma ProcessingFlagAfterCycle(w: World, apiKey: Option<string>, t: Tick)
    requires Iteration(w, apiKey, t).outcome != Waiting
    ensures Iteration(w, apiKey, t).world.isProcessing <==> Iteration(w, apiKey, t).outcome == Delivered
  {
  }

  /** `last_joke_time` becomes the iteration's start time exactly when the gate is open,
      a window was found, activated and holds the pointer, a non-empty joke was fetched
      and both Enter presses went through; otherwise it is unchanged. */
  lemma CommitRule(w: World, apiKey: Option<string>, t: Tick)
    ensures var r := Iteration(w, apiKey, t);
      && (r.outcome == Delivered <==>
            t.now - w.lastJokeTime >= JokeInterval && ReadyToDeliver(apiKey, t.env) &&
            t.env.enterFault == NoEnterFault)
      && r.world.lastJokeTime == (if r.outcome == Delivered then t.now else w.lastJokeTime)
  {
  }

  /** Every abort before the delivery leaves the clipboard alone and issues no input;
      input only ever happens on the delivery path. */
  lemma AbortBeforeDeliveryIsSilent(w: World, apiKey: Option<string>, t: Tick)
    ensures var r := Iteration(w, apiKey, t);
      r.outcome != Delivered && r.outcome != DeliveryFault ==> r.inputs == [] && r.world.clipboard == w.clipboard
    ensures var r := Iteration(w, apiKey, t);
      r.outcome == Delivered || r.outcome == DeliveryFault ==> ReadyToDeliver(apiKey, t.env)
  {
  }

  /** `is_notepad_open` asks only for `'Notepad'`: when that list is empty the
      iteration stops, even if a `'记事本'` window exists. */
  lemma OnlyNotepadHintOpensCycle(w: World, apiKey: Option<string>, t: Tick)
    requires t.env.openCheck == Some([])
    ensures Iteration(w, apiKey, t).outcome in {Waiting, NotepadClosed}
  {
  }

  /** The inputs of a delivery whose Enter presses went through. */
  lemma DeliverInputs(w: World, joke: string, t: Tick)
    requires t.env.enterFault == NoEnterFault
    ensures var r := Deliver(w, joke, t);
      var line := TimestampLine(t.env.clock);
      && Pasted(r.inputs) ==
           (if t.env.stampFault in {NoPasteFault, OnRestore} then [line] else []) +
           (if joke != [] && t.env.jokeFault in {NoPasteFault, OnRestore} then [joke] else [])
      && EnterCount(r.inputs) == 2
      && |r.inputs| >= 2 && r.inputs[|r.inputs| - 2..] == [EnterKey, EnterKey]
  {
    var line := TimestampLine(t.env.clock);
    var stamp := PasteEffect(w.clipboard, line, t.env.stampFault);
    var body := PasteEffect(stamp.clipboard, joke, t.env.jokeFault);
    PasteShape(w.clipboard, line, t.env.stampFault);
    PasteShape(stamp.clipboard, joke, t.env.jokeFault);
    var enters := [EnterKey, EnterKey];
    assert Deliver(w, joke, t).inputs == stamp.inputs + body.inputs + enters;
    InputCountsAppend(stamp.inputs, body.inputs);
    InputCountsAppend(stamp.inputs + body.inputs, enters);
    assert Pasted(enters) == [] && EnterCount(enters) == 2;
  }

  /** On the delivery path the pasted strings are, in order, the timestamp line and the
      joke (each dropped only when its own paste faulted before Ctrl+V), and a commit is
      followed by exactly two Enter presses at the end. */
  lemma DeliveryOrder(w: World, apiKey: Option<string>, t: Tick)
    requires Iteration(w, apiKey, t).outcome == Delivered
    ensures var r := Iteration(w, apiKey, t);
      var line := TimestampLine(t.env.clock);
      var joke := GetJoke(apiKey, t.env.response).value;
      && Pasted(r.inputs) ==
           (if t.env.stampFault in {NoPasteFault, OnRestore} then [line] else []) +
           (if t.env.jokeFault in {NoPasteFault, OnRestore} then [joke] else [])
      && EnterCount(r.inputs) == 2
      && |r.inputs| >= 2 && r.inputs[|r.inputs| - 2..] == [EnterKey, EnterKey]
  {
    CommitRule(w, apiKey, t);
    var joke := GetJoke(apiKey, t.env.response).value;
    assert Iteration(w, apiKey, t) == Deliver(w.(isProcessing := false), joke, t);
    DeliverInputs(w.(isProcessing := false), joke, t);
  }

  /** The fault-free success path: the clipboard receives the timestamp line and then
      the joke, is restored to its original content after each, two Enter presses
      follow, and `last_joke_time` becomes the iteration's time. */
  lemma SuccessPath(w: World, apiKey: Option<string>, t: Tick)
    requires t.now - w.lastJokeTime >= JokeInterval && ReadyToDeliver(apiKey, t.env)
    requires t.env.stampFault == NoPasteFault && t.env.jokeFault == NoPasteFault
    requires t.env.enterFault == NoEnterFault
    ensures var r := Iteration(w, apiKey, t);
      var line := TimestampLine(t.env.clock);
      var joke := GetJoke(apiKey, t.env.response).value;
      && r.outcome == Delivered
      && r.world == World(t.now, true, w.clipboard)
      && r.inputs == [SetClipboard(line), PasteKeys(line), SetClipboard(w.clipboard),
                      SetClipboard(joke), PasteKeys(joke), SetClipboard(w.clipboard),
                      EnterKey, EnterKey]
  {
  }

  /** A worked success iteration: at 1 January 2024, 12:00:00, with the joke
      `Why did...`, the clipboard receives `[2024-01-01 12:00:00]` and a newline, then
      the joke, ends as it began, two Enter presses follow and the iteration's time is
      committed. */
  lemma NoonScenario(w: World, apiKey: Option<string>, t: Tick)
    requires t.now - w.lastJokeTime >= JokeInterval && ReadyToDeliver(apiKey, t.env)
    requires t.env.stampFault == NoPasteFault && t.env.jokeFault == NoPasteFault
    requires t.env.enterFault == NoEnterFault
    requires t.env.clock == DateTime(2024, 1, 1, 12, 0, 0)
    requires GetJoke(apiKey, t.env.response) == Some("Why did...")
    ensures var r := Iteration(w, apiKey, t);
      && Pasted(r.inputs) == ["[2024-01-01 12:00:00]\n", "Why did..."]
      && EnterCount(r.inputs) == 2
      && r.world == World(t.now, true, w.clipboard)
  {
    SuccessPath(w, apiKey, t);
    DeliveryOrder(w, apiKey, t);
    NoonExample();
  }

  /** `paste_text` swallows its faults, so the cycle commits even when neither paste
      reached Ctrl+V: nothing was typed, yet the interval restarts. */
  lemma PasteFaultsStillCommit(w: World, apiKey: Option<string>, t: Tick)
    requires t.now - w.lastJokeTime >= JokeInterval && ReadyToDeliver(apiKey, t.env)
    requires t.env.stampFault == OnSave && t.env.jokeFault == OnSave
    requires t.env.enterFault == NoEnterFault
    ensures var r := Iteration(w, apiKey, t);
      && r.outcome == Delivered && r.world.lastJokeTime == t.now
      && r.inputs == [EnterKey, EnterKey] && r.world.clipboard == w.clipboard
  {
  }

  /** After a successful delivery `is_processing` stays true (nothing resets it), yet
      the next iteration behaves exactly as with the flag false. */
  lemma ProcessingFlagAfterDeliveryIsHarmless(w: World, apiKey: Option<string>, t: Tick, next: Tick)
    requires Iteration(w, apiKey, t).outcome == Delivered
    ensures var after := Iteration(w, apiKey, t).world;
      && after.isProcessing
      && Iteration(after, apiKey, next).outcome == Iteration(after.(isProcessing := false), apiKey, next).outcome
      && Iteration(after, apiKey, next).inputs == Iteration(after.(isProcessing := false), apiKey, next).inputs
      && Iteration(after, apiKey, next).world.lastJokeTime == Iteration(after.(isProcessing := false), apiKey, next).world.lastJokeTime
      && Iteration(after, apiKey, next).world.clipboard == Iteration(after.(isProcessing := false), apiKey, next).world.clipboard
  {
    GateIgnoresProcessing(Iteration(w, apiKey, t).world, apiKey, next);
  }

  // ---------------------------------------------------------------------------------
  // Repeated iterations

  /** The worlds before and after each tick of a run. */
  function States(w: World, apiKey: Option<string>, ticks: seq<Tick>): (ws: seq<World>)
    ensures |ws| == |ticks| + 1 && ws[0] == w
    decreases |ticks|
  {
    if ticks == [] then [w] else [w] + States(Iteration(w, apiKey, ticks[0]).world, apiKey, ticks[1..])
  }

  /** Where the `k`-th iteration of a run ended. */
  function OutcomeAt(w: World, apiKey: Option<string>, ticks: seq<Tick>, k: nat): Outcome
    requires k < |ticks|
  {
    Iteration(States(w, apiKey, ticks)[k], apiKey, ticks[k]).outcome
  }

  /** Each world of a run is the iteration applied to the one before. */
  lemma {:induction false} StatesStep(w: World, apiKey: Option<string>, ticks: seq<Tick>, k: nat)
    requires k < |ticks|
    ensures States(w, apiKey, ticks)[k + 1] == Iteration(States(w, apiKey, ticks)[k], apiKey, ticks[k]).world
    decreases k
  {
    if k > 0 {
      var w' := Iteration(w, apiKey, ticks[0]).world;
      StatesStep(w', apiKey, ticks[1..], k - 1);
      assert States(w, apiKey, ticks)[k] == States(w', apiKey, ticks[1..])[k - 1];
      assert States(w, apiKey, ticks)[k + 1] == States(w', apiKey, ticks[1..])[k];
    }
  }

  /** One iteration never moves `last_joke_time` back; a commit moves it forward by at
      least `JOKE_INTERVAL`, even when the clock itself goes backwards. */
  lemma IterationLastJokeTime(w: World, apiKey: Option<string>, t: Tick)
    ensures var r := Iteration(w, apiKey, t);
      && r.world.lastJokeTime >= w.lastJokeTime
      && (r.outcome == Delivered ==> r.world.lastJokeTime == t.now >= w.lastJokeTime + JokeInterval)
  {
    CommitRule(w, apiKey, t);
  }

  /** Over a run, `last_joke_time` never decreases. */
  lemma {:induction false} LastJokeTimeMonotone(w: World, apiKey: Option<string>, ticks: seq<Tick>, i: nat, j: nat)
    requires i <= j <= |ticks|
    ensures States(w, apiKey, ticks)[i].lastJokeTime <= States(w, apiKey, ticks)[j].lastJokeTime
    decreases j - i
  {
    if i < j {
      LastJokeTimeMonotone(w, apiKey, ticks, i, j - 1);
      StepKeepsOrder(w, apiKey, ticks, j - 1);
    }
  }

  lemma StepKeepsOrder(w: World, apiKey: Option<string>, ticks: seq<Tick>, k: nat)
    requires k < |ticks|
    ensures States(w, apiKey, ticks)[k].lastJokeTime <= States(w, apiKey, ticks)[k + 1].lastJokeTime
  {
    StatesStep(w, apiKey, ticks, k);
    IterationLastJokeTime(States(w, apiKey, ticks)[k], apiKey, ticks[k]);
  }

  /** The rate limit: any two deliveries of a run are at least `JOKE_INTERVAL` apart. */
  lemma RateLimit(w: World, apiKey: Option<string>, ticks: seq<Tick>, i: nat, j: nat)
    requires i < j < |ticks|
    requires OutcomeAt(w, apiKey, ticks, i) == Delivered && OutcomeAt(w, apiKey, ticks, j) == Delivered
    ensures ticks[j].now >= ticks[i].now + JokeInterval
  {
    DeliveryCommits(w, apiKey, ticks, i);
    LastJokeTimeMonotone(w, apiKey, ticks, i + 1, j);
    DeliveryCommits(w, apiKey, ticks, j);
  }

  /** A delivery at tick `k` happens at least `JOKE_INTERVAL` after the commit time it
      finds and makes its own start time the new commit time. */
  lemma DeliveryCommits(w: World, apiKey: Option<string>, ticks: seq<Tick>, k: nat)
    requires k < |ticks| && OutcomeAt(w, apiKey, ticks, k) == Delivered
    ensures ticks[k].now >= States(w, apiKey, ticks)[k].lastJokeTime + JokeInterval
    ensures States(w, apiKey, ticks)[k + 1].lastJokeTime == ticks[k].now
  {
    StatesStep(w, apiKey, ticks, k);
    IterationLastJokeTime(States(w, apiKey, ticks)[k], apiKey, ticks[k]);
  }

  /** A run without a delivery never changes `last_joke_time`, and after an iteration
      that got past the gate `is_processing` is false, so repeated aborted cycles leave
      the program ready for the next one. */
  lemma {:induction false} AbortedRunKeepsLastJokeTime(w: World, apiKey: Option<string>, ticks: seq<Tick>, k: nat)
    requires k <= |ticks|
    requires forall m :: 0 <= m < k ==> OutcomeAt(w, apiKey, ticks, m) != Delivered
    ensures States(w, apiKey, ticks)[k].lastJokeTime == w.lastJokeTime
    ensures k > 0 && OutcomeAt(w, apiKey, ticks, k - 1) != Waiting ==> !States(w, apiKey, ticks)[k].isProcessing
    decreases k
  {
    if k > 0 {
      AbortedRunKeepsLastJokeTime(w, apiKey, ticks, k - 1);
      var ws := States(w, apiKey, ticks);
      StatesStep(w, apiKey, ticks, k - 1);
      CommitRule(ws[k - 1], apiKey, ticks[k - 1]);
      if OutcomeAt(w, apiKey, ticks, k - 1) != Waiting {
        ProcessingFlagAfterCycle(ws[k - 1], apiKey, ticks[k - 1]);
      }
    }
  }

  // ---------------------------------------------------------------------------------
  // The program's state

  /** The globals `last_joke_time` and `is_processing`, with the API key read at start-up. */
  class PollState {
    var lastJokeTime: int
    var isProcessing: bool
    const apiKey: Option<string>

    /** Lines 21 and 28-31. */
    constructor (apiKey: Option<string>)
      ensures lastJokeTime == 0 && !isProcessing && this.apiKey == apiKey
    {
      this.apiKey := apiKey;
      lastJokeTime := 0;
      isProcessing := false;
    }

    /** One pass of the main loop at time `now`. */
    method Step(now: int, env: Env, desktop: Desktop) returns (outcome: Outcome)
      modifies this, desktop
      ensures var r := Iteration(World(old(lastJokeTime), old(isProcessing), old(desktop.clipboard)),
                                 apiKey, Tick(now, env));
        && lastJokeTime == r.world.lastJokeTime
        && isProcessing == r.world.isProcessing
        && desktop.clipboard == r.world.clipboard
        && desktop.inputs == old(desktop.inputs) + r.inputs
        && outcome == r.outcome
    {
      var timeSinceLast := now - lastJokeTime;
      if timeSinceLast < JokeInterval || isProcessing {
        var remaining := JokeInterval - timeSinceLast;
        if remaining > 0 {
          return Waiting;
        }
      }
      isProcessing := false;
      if !IsNotepadOpen(env.openCheck) {
        return NotepadClosed;
      }
      var found := GetNotepadWindow(env.lookup);
      if found.None? {
        return WindowNotFound;
      }
      var window := found.value;
      if env.positionFault {
        isProcessing := false;
        return LoopFault;
      }
      var activated, _ := ActivateNotepadWindow(found, env.attempts);
      if !activated {
        return ActivationFailed;
      }
      if !IsCursorInWindow(window, env.pointer) {
        return PointerOutside;
      }
      isProcessing := true;
      var joke := GetJoke(apiKey, env.response);
      if !IsJoke(joke) {
        isProcessing := false;
        return NoJoke;
      }
      assert Iteration(World(old(lastJokeTime), old(isProcessing), desktop.clipboard), apiKey, Tick(now, env))
        == Deliver(World(lastJokeTime, false, desktop.clipboard), joke.value, Tick(now, env));
      outcome := DeliverJoke(now, joke.value, env, desktop);
    }

    /** Lines 241-260: the two pastes, the two Enter presses and the commit. */
    method DeliverJoke(now: int, joke: string, env: Env, desktop: Desktop) returns (outcome: Outcome)
      requires isProcessing
      modifies this, desktop
      ensures var r := Deliver(World(old(lastJokeTime), false, old(desktop.clipboard)), joke, Tick(now, env));
        && lastJokeTime == r.world.lastJokeTime
        && isProcessing == r.world.isProcessing
        && desktop.clipboard == r.world.clipboard
        && desktop.inputs == old(desktop.inputs) + r.inputs
        && outcome == r.outcome
    {
      ghost var stamp := PasteEffect(desktop.clipboard, TimestampLine(env.clock), env.stampFault);
      ghost var body := PasteEffect(stamp.clipboard, joke, env.jokeFault);
      PasteText(desktop, TimestampLine(env.clock), env.stampFault);
      PasteText(desktop, joke, env.jokeFault);
      assert desktop.inputs == old(desktop.inputs) + (stamp.inputs + body.inputs);
      if env.enterFault == OnFirstEnter {
        isProcessing := false;
        return DeliveryFault;
      }
      desktop.PressEnter();
      if env.enterFault == OnSecondEnter {
        isProcessing := false;
        return DeliveryFault;
      }
      desktop.PressEnter();
      lastJokeTime := now;
      outcome := Delivered;
    }
  }
}
