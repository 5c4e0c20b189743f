/**
 The turns of the event loop, as values: which turns pass, how a turn after a failure goes, and what a launch and its turns
 leave behind.
 */
module ImageTurns {
  import opened Wrappers
  import opened Bytes
  import opened ImageReceipt
  import opened ImageLifetimes
  import opened ImageEvents

  // ----- the turns of a run without a failure ---------------------------------------------------

  /** What the event loop goes by. */
  datatype Watch = Watch(lives: Lives, pipes: Pipes, events: nat, rootExited: bool, rootReaped: bool, draining: bool)

  const NO_WATCH := Watch(NO_LIVES, NO_PIPES, 0, false, false, false)

  predicate SameWatch(w: Watch, v: Watch) {
    && SameFacts(w.lives, v.lives) && w.pipes == v.pipes && w.events == v.events
    && w.rootExited == v.rootExited && w.rootReaped == v.rootReaped && w.draining == v.draining
  }

  predicate Reaped(w: Watch, turn: Turn) {
    w.rootReaped || (w.rootExited && turn.rootPolled)
  }

  /** The root is reaped, no process is live and both pipes have ended. */
  predicate AllEnded(w: Watch, turn: Turn) {
    var p := Pumped(w.pipes, turn.pump);
    Reaped(w, turn) && w.lives.live == map[] && p.eof.0 && p.eof.1
  }

  /** The pipes, the clocks and the job give no reason to fail. */
  predicate StartOk(l: Limits, w: Watch, turn: Turn) {
    && PumpOk(w.pipes, turn.pump) && Pumped(w.pipes, turn.pump).Total() <= l.output
    && !turn.late && !(w.draining && turn.drainLate) && (AllEnded(w, turn) ==> turn.active.Ok?)
  }

  /** The turn ends the loop: everything has ended and the job is empty. */
  predicate EndsLoop(w: Watch, turn: Turn) {
    AllEnded(w, turn) && turn.active == Ok(0)
  }

  /** The handle of the event is closed, the event is continued, and the cleanup limit is kept. */
  predicate Dismissed(l: Limits, d: Delivery, handleClosed: bool, released: bool, event: nat) {
    ((d.event.code == 3 || d.event.code == 6) ==> handleClosed) && released && event <= l.events + 16384
  }

  /** The wait gives no reason to fail: nothing came, or an event that is admitted, closed and continued. */
  predicate WaitOk(x: Lives, p: Pipes, l: Limits, joined: bool, root: Root, turn: Turn, event: nat) {
    match turn.wait
    case NoEvent => true
    case WaitFails => false
    case Event(d, handleClosed, released) =>
      Admits(x, p, l, joined, root, d, event) && Dismissed(l, d, handleClosed, released, event)
  }

  predicate ExitsRoot(d: Delivery, root: Root) {
    d.event.code == 5 && d.event.pid == root.pid
  }

  /** What a wait without a failure changes. */
  predicate Waited(l: Limits, joined: bool, root: Root, w: Watch, turn: Turn, next: Watch) {
    if !turn.wait.Event? then SameWatch(w, next)
    else
      var d := turn.wait.delivery;
      && Effect(w.lives, next.lives, d, w.events + 1, root)
      && next.pipes == EventPipes(w.lives, w.pipes, l, joined, root, d, w.events + 1)
      && next.events == w.events + 1 && next.rootReaped == w.rootReaped
      && next.rootExited == (w.rootExited || ExitsRoot(d, root)) && next.draining == (w.draining || ExitsRoot(d, root))
  }

  /** The loop comes to its wait with the pipes pumped and the root reaped, if it has ended. */
  function AtWait(w: Watch, turn: Turn): Watch {
    w.(pipes := Pumped(w.pipes, turn.pump), rootReaped := Reaped(w, turn))
  }

  /** The wait of a turn gives no reason to fail. */
  predicate WaitPasses(l: Limits, joined: bool, root: Root, w: Watch, turn: Turn) {
    WaitOk(w.lives, Pumped(w.pipes, turn.pump), l, joined, root, turn, w.events + 1)
  }

  /** The turns lead from `w` to the end of the loop without a reason to fail. */
  ghost predicate PassingRun(l: Limits, joined: bool, root: Root, w: Watch, turns: seq<Turn>)
    decreases |turns|
  {
    && turns != [] && StartOk(l, w, turns[0])
    && (EndsLoop(w, turns[0])
        || (WaitPasses(l, joined, root, w, turns[0])
            && exists next :: Waited(l, joined, root, AtWait(w, turns[0]), turns[0], next)
                              && PassingRun(l, joined, root, next, turns[1..])))
  }

  // ----- the turns of a run that fails ----------------------------------------------------------

  /** What the event loop goes by once a failure is recorded: events are only counted, and exiting processes forgotten. */
  datatype Sweep = Sweep(live: set<nat>, eof: (bool, bool), events: nat, rootExited: bool, rootReaped: bool)

  function SweepOf(w: Watch): Sweep {
    Sweep(w.lives.live.Keys, w.pipes.eof, w.events, w.rootExited, w.rootReaped)
  }

  /** How a turn ends after a failure: with a spoiled cleanup, with the loop, or with another turn. */
  datatype Verdict = Spoiled | Finished | Goes(sweep: Sweep)

  /** Nothing is left to wait for but the job. */
  predicate Idle(s: Sweep) {
    s.rootReaped && s.live == {} && s.eof.0 && s.eof.1
  }

  function CleanWait(l: Limits, root: Root, s: Sweep, turn: Turn): Verdict {
    match turn.wait
    case NoEvent => Goes(s)
    case WaitFails => Spoiled
    case Event(d, handleClosed, released) =>
      if !Dismissed(l, d, handleClosed, released, s.events + 1) then Spoiled
      else Goes(s.(live := if d.event.code == 5 then s.live - {d.event.pid} else s.live, events := s.events + 1,
                   rootExited := s.rootExited || ExitsRoot(d, root)))
  }

  /** The rest of a turn after the clocks, with the pipes pumped and the root reaped. */
  function CleanRest(l: Limits, root: Root, s: Sweep, turn: Turn): Verdict {
    if Idle(s) && turn.active.Refused? then Spoiled
    else if Idle(s) && turn.active.value == 0 then Finished
    else CleanWait(l, root, s, turn)
  }

  /** The pipes and the clocks of a turn after a failure; None where they spoil the cleanup. */
  function CleanStart(s: Sweep, turn: Turn): Option<Sweep> {
    var p := Pipes([], [], s.eof);
    if !PumpOk(p, turn.pump) || turn.cleanupLate then None
    else Some(s.(eof := Pumped(p, turn.pump).eof, rootReaped := s.rootReaped || (s.rootExited && turn.rootPolled)))
  }

  /** A turn after a failure, with the job terminated. */
  function CleanTurn(l: Limits, root: Root, s: Sweep, turn: Turn): Verdict {
    match CleanStart(s, turn)
    case None => Spoiled
    case Some(t) => CleanRest(l, root, t, turn)
  }

  /** The output limit or the deadline is passed. */
  predicate Early(l: Limits, w: Watch, turn: Turn) {
    Pumped(w.pipes, turn.pump).Total() > l.output || turn.late
  }

  /** A failure before the wait: the job has to be terminated, and the cleanup deadline not to have passed. */
  function FailStart(l: Limits, joined: bool, w: Watch, turn: Turn): Option<Sweep> {
    if !PumpOk(w.pipes, turn.pump) || (joined && !turn.killed) || (Early(l, w, turn) && turn.cleanupLate) then None
    else Some(SweepOf(AtWait(w, turn)))
  }

  /** A failure of the wait, which only an event that is not admitted survives. */
  function FailWait(l: Limits, joined: bool, root: Root, w: Watch, turn: Turn): Verdict {
    match turn.wait
    case NoEvent => Spoiled
    case WaitFails => Spoiled
    case Event(d, handleClosed, released) =>
      if !Dismissed(l, d, handleClosed, released, w.events + 1) || (joined && !turn.killed) then Spoiled
      else Goes(Sweep(LiveAfter(w.lives, l, joined, root, d, w.events + 1),
                      EventPipes(w.lives, w.pipes, l, joined, root, d, w.events + 1).eof, w.events + 1,
                      w.rootExited || ExitsRoot(d, root), w.rootReaped))
  }

  /** A turn with the first failure. */
  function FailTurn(l: Limits, joined: bool, root: Root, w: Watch, turn: Turn): Verdict {
    if !PumpOk(w.pipes, turn.pump) then Spoiled
    else if Early(l, w, turn) || (w.draining && turn.drainLate) then
      match FailStart(l, joined, w, turn)
      case None => Spoiled
      case Some(s) => CleanRest(l, root, s, turn)
    else if AllEnded(w, turn) && turn.active.Refused? then Spoiled
    else FailWait(l, joined, root, AtWait(w, turn), turn)
  }

  function Rested(l: Limits, root: Root, start: Option<Sweep>, turn: Turn): Verdict {
    match start
    case None => Spoiled
    case Some(s) => CleanRest(l, root, s, turn)
  }

  /** A turn goes as its start and its rest. */
  lemma TurnVerdicts(l: Limits, joined: bool, root: Root, w: Watch, s: Sweep, turn: Turn)
    ensures CleanTurn(l, root, s, turn) == Rested(l, root, CleanStart(s, turn), turn)
    ensures PumpOk(w.pipes, turn.pump) && (Early(l, w, turn) || (w.draining && turn.drainLate)) ==>
              FailTurn(l, joined, root, w, turn) == Rested(l, root, FailStart(l, joined, w, turn), turn)
  {
    hide Early, CleanStart, FailStart, CleanRest;
  }

  /** The turn went as `v` says, from a clean cleanup iff `was` to a clean one iff `ok`, and on with `s`. */
  predicate Follows(v: Verdict, end: LoopEnd, was: bool, ok: bool, s: Sweep) {
    match v
    case Spoiled => !ok
    case Finished => ok == was && (was ==> end.Break?)
    case Goes(t) => ok == was && (was ==> end.Continue? && s == t)
  }

  /** The turn came before its wait as `start` says. */
  predicate Opens(start: Option<Sweep>, turn: Turn, r: Result<LoopEnd, Refusal>, was: bool, ok: bool, s: Sweep) {
    match start
    case None => r.Refused? || !ok
    case Some(t) =>
      && ok == was
      && (was ==> && s == t && (r.Refused? <==> Idle(t) && turn.active.Refused?)
                  && (r == Ok(Break) <==> Idle(t) && turn.active == Ok(0)))
  }

  /** A turn that opens as its start says, and waits as the rest says, goes as both say. */
  lemma RestFollows(l: Limits, root: Root, start: Option<Sweep>, turn: Turn, r: Result<LoopEnd, Refusal>, was: bool,
                    middle: bool, at: Sweep, end: LoopEnd, ok: bool, s: Sweep)
    requires Opens(start, turn, r, was, middle, at) && (ok ==> middle) && (middle ==> was) && (r.Refused? ==> !ok)
    requires r == Ok(Break) ==> end.Break? && ok == middle
    requires r == Ok(Continue) ==> Follows(CleanWait(l, root, at, turn), end, middle, ok, s)
    ensures Follows(Rested(l, root, start, turn), end, was, ok, s)
  {
    hide Idle, CleanWait;
    if start.Some? && was {
      match r
      case Refused(_) =>
        assert CleanRest(l, root, at, turn) == Spoiled;
      case Ok(Break) =>
        assert CleanRest(l, root, at, turn) == Finished;
      case Ok(Continue) =>
        assert CleanRest(l, root, at, turn) == CleanWait(l, root, at, turn);
    }
  }

  /** How the wait of a turn with an event goes. */
  lemma EventVerdicts(l: Limits, joined: bool, root: Root, w: Watch, turn: Turn)
    requires turn.wait.Event?
    ensures var d := turn.wait.delivery;
            var ok := Dismissed(l, d, turn.wait.handleClosed, turn.wait.released, w.events + 1);
            && (WaitOk(w.lives, w.pipes, l, joined, root, turn, w.events + 1) <==>
                  ok && Admits(w.lives, w.pipes, l, joined, root, d, w.events + 1))
            && FailWait(l, joined, root, w, turn) == (
                 if !ok || (joined && !turn.killed) then Spoiled
                 else Goes(Sweep(LiveAfter(w.lives, l, joined, root, d, w.events + 1),
                                 EventPipes(w.lives, w.pipes, l, joined, root, d, w.events + 1).eof, w.events + 1,
                                 w.rootExited || ExitsRoot(d, root), w.rootReaped)))
            && CleanWait(l, root, SweepOf(w), turn) == (
                 if !ok then Spoiled
                 else Goes(Sweep(if d.event.code == 5 then w.lives.live.Keys - {d.event.pid} else w.lives.live.Keys, w.pipes.eof,
                                 w.events + 1, w.rootExited || ExitsRoot(d, root), w.rootReaped)))
  {
    hide Dismissed, Admits, LiveAfter, EventPipes, ExitsRoot;
  }

  /** After a failure, the turns lead to the end of the loop with a clean cleanup. */
  predicate EndsClean(l: Limits, root: Root, s: Sweep, turns: seq<Turn>)
    decreases |turns|
  {
    turns != [] &&
    match CleanTurn(l, root, s, turns[0])
    case Spoiled => false
    case Finished => true
    case Goes(next) => EndsClean(l, root, next, turns[1..])
  }

  predicate FailsClean(l: Limits, root: Root, v: Verdict, rest: seq<Turn>) {
    match v
    case Spoiled => false
    case Finished => true
    case Goes(s) => EndsClean(l, root, s, rest)
  }

  /** With or without a failure, the turns lead from `w` to the end of the loop with a clean cleanup. */
  ghost predicate CleanRun(l: Limits, joined: bool, root: Root, w: Watch, turns: seq<Turn>)
    decreases |turns|
  {
    turns != [] &&
    if StartOk(l, w, turns[0]) && EndsLoop(w, turns[0]) then true
    else if StartOk(l, w, turns[0]) && WaitPasses(l, joined, root, w, turns[0]) then
      exists next :: Waited(l, joined, root, AtWait(w, turns[0]), turns[0], next)
                     && CleanRun(l, joined, root, next, turns[1..])
    else FailsClean(l, root, FailTurn(l, joined, root, w, turns[0]), turns[1..])
  }

  /** The launch and the turns leave nothing behind: no root was started, or the loop ends with a clean cleanup. */
  ghost predicate CleanedUp(l: Limits, launch: LaunchInput, turns: seq<Turn>) {
    if !Starts(launch) then true
    else if LaunchOk(launch) then CleanRun(l, true, RootOf(launch), NO_WATCH, turns)
    else (launch.joined ==> launch.killed) && EndsClean(l, RootOf(launch), SweepOf(NO_WATCH), turns)
  }

  // ----- what a turn goes by is determined ------------------------------------------------------

  lemma WaitSame(x: Lives, w: Lives, p: Pipes, l: Limits, joined: bool, root: Root, turn: Turn, event: nat)
    requires SameFacts(x, w)
    ensures WaitOk(x, p, l, joined, root, turn, event) <==> WaitOk(w, p, l, joined, root, turn, event)
  {
    if turn.wait.Event? {
      AdmitsSame(x, w, p, l, joined, root, turn.wait.delivery, event);
    }
  }

  lemma StartSame(l: Limits, w: Watch, v: Watch, turn: Turn)
    requires SameWatch(w, v)
    ensures StartOk(l, w, turn) <==> StartOk(l, v, turn)
    ensures EndsLoop(w, turn) <==> EndsLoop(v, turn)
  {
  }

  /** The effect of an event is determined. */
  lemma EffectUnique(x: Lives, w: Lives, y: Lives, z: Lives, d: Delivery, event: nat, root: Root)
    requires SameFacts(x, w) && Effect(x, y, d, event, root) && Effect(w, z, d, event, root)
    ensures SameFacts(y, z)
  {
    if d.event.code == 5 {
      assert y.view.images == z.view.images;
    }
  }

  lemma PipesSame(x: Lives, w: Lives, p: Pipes, l: Limits, joined: bool, root: Root, d: Delivery, event: nat)
    requires SameFacts(x, w)
    ensures EventPipes(x, p, l, joined, root, d, event) == EventPipes(w, p, l, joined, root, d, event)
    ensures LiveAfter(x, l, joined, root, d, event) == LiveAfter(w, l, joined, root, d, event)
  {
    hide ReleasePipes, PumpedTo;
  }

  lemma SameFactsTwice(x: Lives, w: Lives, y: Lives, z: Lives)
    requires SameFacts(x, w)
    ensures SameFacts(x, y) && SameFacts(w, z) ==> SameFacts(y, z)
    ensures SameFacts(w, y) <==> SameFacts(x, y)
  {
  }

  lemma AtWaitSame(w: Watch, v: Watch, turn: Turn)
    requires SameWatch(w, v)
    ensures SameWatch(AtWait(w, turn), AtWait(v, turn))
  {
    hide SameFacts;
  }

  /** A wait leads from equal states to equal states. */
  lemma WaitedUnique(l: Limits, joined: bool, root: Root, w: Watch, v: Watch, turn: Turn, next: Watch, other: Watch)
    requires SameWatch(w, v) && Waited(l, joined, root, w, turn, next) && Waited(l, joined, root, v, turn, other)
    ensures SameWatch(next, other)
  {
    hide Effect, EventPipes, SameFacts, LiveAfter;
    SameFactsTwice(w.lives, v.lives, next.lives, other.lives);
    if turn.wait.Event? {
      EffectUnique(w.lives, v.lives, next.lives, other.lives, turn.wait.delivery, w.events + 1, root);
      PipesSame(w.lives, v.lives, w.pipes, l, joined, root, turn.wait.delivery, w.events + 1);
    }
  }

  lemma WaitedSame(l: Limits, joined: bool, root: Root, w: Watch, v: Watch, turn: Turn, next: Watch)
    requires SameWatch(w, v) && Waited(l, joined, root, v, turn, next)
    ensures Waited(l, joined, root, w, turn, next)
  {
    hide Effect, EventPipes, SameFacts, LiveAfter;
    SameFactsTwice(w.lives, v.lives, next.lives, next.lives);
    if turn.wait.Event? {
      EffectOfSame(w.lives, v.lives, next.lives, turn.wait.delivery, w.events + 1, root);
      PipesSame(w.lives, v.lives, w.pipes, l, joined, root, turn.wait.delivery, w.events + 1);
    }
  }

  lemma WatchReflexive(w: Watch)
    ensures SameWatch(w, w)
  {
  }

  lemma WatchSymmetric(w: Watch, v: Watch)
    requires SameWatch(w, v)
    ensures SameWatch(v, w)
  {
  }

  /** Equal states pass the same turns. */
  lemma {:induction false} PassingSame(l: Limits, joined: bool, root: Root, w: Watch, v: Watch, turns: seq<Turn>)
    requires SameWatch(w, v) && PassingRun(l, joined, root, w, turns)
    ensures PassingRun(l, joined, root, v, turns)
  {
    hide StartOk, EndsLoop, WaitOk, Waited, SameFacts;
    var turn := turns[0];
    StartSame(l, w, v, turn);
    WaitSame(w.lives, v.lives, Pumped(w.pipes, turn.pump), l, joined, root, turn, w.events + 1);
    if !EndsLoop(w, turn) {
      var next :| Waited(l, joined, root, AtWait(w, turn), turn, next) && PassingRun(l, joined, root, next, turns[1..]);
      WatchSymmetric(w, v);
      AtWaitSame(v, w, turn);
      WaitedSame(l, joined, root, AtWait(v, turn), AtWait(w, turn), turn, next);
    }
  }

  /** A wait without a failure decides nothing yet. */
  lemma PassingGoes(l: Limits, joined: bool, root: Root, w: Watch, turns: seq<Turn>, next: Watch)
    requires turns != [] && StartOk(l, w, turns[0]) && !EndsLoop(w, turns[0]) && WaitPasses(l, joined, root, w, turns[0])
    requires Waited(l, joined, root, AtWait(w, turns[0]), turns[0], next)
    ensures PassingRun(l, joined, root, w, turns) <==> PassingRun(l, joined, root, next, turns[1..])
  {
    hide StartOk, EndsLoop, WaitPasses, Waited, SameWatch, AtWait;
    if PassingRun(l, joined, root, w, turns) {
      var other :| Waited(l, joined, root, AtWait(w, turns[0]), turns[0], other) && PassingRun(l, joined, root, other, turns[1..]);
      WatchReflexive(AtWait(w, turns[0]));
      WaitedUnique(l, joined, root, AtWait(w, turns[0]), AtWait(w, turns[0]), turns[0], other, next);
      PassingSame(l, joined, root, other, next, turns[1..]);
    }
  }

  lemma FailSame(l: Limits, joined: bool, root: Root, w: Watch, v: Watch, turn: Turn)
    requires SameWatch(w, v)
    ensures FailTurn(l, joined, root, w, turn) == FailTurn(l, joined, root, v, turn)
  {
    hide EventPipes, LiveAfter, Dismissed, CleanRest, Idle;
    if turn.wait.Event? {
      PipesSame(w.lives, v.lives, Pumped(w.pipes, turn.pump), l, joined, root, turn.wait.delivery, w.events + 1);
    }
  }

  /** After a start without a failure only the wait can fail. */
  lemma FailsAtWait(l: Limits, joined: bool, root: Root, w: Watch, at: Watch, turn: Turn)
    requires StartOk(l, w, turn) && SameWatch(AtWait(w, turn), at)
    ensures FailTurn(l, joined, root, w, turn) == FailWait(l, joined, root, at, turn)
  {
    hide EventPipes, LiveAfter, Dismissed, CleanRest, Idle;
    if turn.wait.Event? {
      PipesSame(w.lives, at.lives, at.pipes, l, joined, root, turn.wait.delivery, w.events + 1);
    }
  }

  /** Equal states are cleaned up by the same turns. */
  lemma {:induction false} CleanSame(l: Limits, joined: bool, root: Root, w: Watch, v: Watch, turns: seq<Turn>)
    requires SameWatch(w, v) && CleanRun(l, joined, root, w, turns)
    ensures CleanRun(l, joined, root, v, turns)
  {
    hide StartOk, EndsLoop, WaitOk, Waited, SameFacts, FailTurn, FailsClean;
    var turn := turns[0];
    StartSame(l, w, v, turn);
    WaitSame(w.lives, v.lives, Pumped(w.pipes, turn.pump), l, joined, root, turn, w.events + 1);
    FailSame(l, joined, root, w, v, turn);
    if !(StartOk(l, w, turn) && EndsLoop(w, turn)) && StartOk(l, w, turn) && WaitPasses(l, joined, root, w, turn) {
      var next :| Waited(l, joined, root, AtWait(w, turn), turn, next) && CleanRun(l, joined, root, next, turns[1..]);
      WatchSymmetric(w, v);
      AtWaitSame(v, w, turn);
      WaitedSame(l, joined, root, AtWait(v, turn), AtWait(w, turn), turn, next);
    }
  }

  lemma CleanGoes(l: Limits, joined: bool, root: Root, w: Watch, turns: seq<Turn>, next: Watch)
    requires turns != [] && StartOk(l, w, turns[0]) && !EndsLoop(w, turns[0]) && WaitPasses(l, joined, root, w, turns[0])
    requires Waited(l, joined, root, AtWait(w, turns[0]), turns[0], next)
    ensures CleanRun(l, joined, root, w, turns) <==> CleanRun(l, joined, root, next, turns[1..])
  {
    hide StartOk, EndsLoop, WaitPasses, Waited, SameWatch, AtWait, FailTurn, FailsClean;
    if CleanRun(l, joined, root, w, turns) {
      var other :| Waited(l, joined, root, AtWait(w, turns[0]), turns[0], other) && CleanRun(l, joined, root, other, turns[1..]);
      WatchReflexive(AtWait(w, turns[0]));
      WaitedUnique(l, joined, root, AtWait(w, turns[0]), AtWait(w, turns[0]), turns[0], other, next);
      CleanSame(l, joined, root, other, next, turns[1..]);
    }
  }

  /** A run without a failure is cleaned up. */
  lemma {:induction false} PassingIsClean(l: Limits, joined: bool, root: Root, w: Watch, turns: seq<Turn>)
    requires PassingRun(l, joined, root, w, turns)
    ensures CleanRun(l, joined, root, w, turns)
    decreases |turns|
  {
    hide StartOk, EndsLoop, WaitPasses, Waited, AtWait, FailTurn, FailsClean;
    if !EndsLoop(w, turns[0]) {
      var next :| Waited(l, joined, root, AtWait(w, turns[0]), turns[0], next) && PassingRun(l, joined, root, next, turns[1..]);
      PassingIsClean(l, joined, root, next, turns[1..]);
    }
  }

  // ----- the parts of a turn --------------------------------------------------------------------

  /** What a turn does before its wait: from `w`, without a failure iff `none`, to `at`, without a failure iff `still`. */
  predicate StartGoes(l: Limits, joined: bool, root: Root, w: Watch, turn: Turn, none: bool, was: bool, still: bool,
                      middle: bool, r: Result<LoopEnd, Refusal>, at: Watch) {
    && SameFacts(w.lives, at.lives) && at.pipes == Pumped(w.pipes, turn.pump) && at.events == w.events
    && at.rootExited == w.rootExited && at.draining == w.draining && (middle ==> was)
    && (r.Ok? && still <==> none && StartOk(l, w, turn))
    && (r.Ok? && still ==> (r.value.Break? <==> EndsLoop(w, turn)) && SameWatch(AtWait(w, turn), at))
    && (still ==> none && middle == was)
    && (r.Refused? && still ==> FailTurn(l, joined, root, w, turn) == Spoiled)
    && (none && !still ==>
          && PumpOk(w.pipes, turn.pump) && (Early(l, w, turn) || (w.draining && turn.drainLate))
          && Opens(FailStart(l, joined, w, turn), turn, r, was, middle, SweepOf(at)))
    && (!none ==> Opens(CleanStart(SweepOf(w), turn), turn, r, was, middle, SweepOf(at)))
  }

  /** What the wait of a turn does. */
  predicate WaitGoes(l: Limits, joined: bool, root: Root, w: Watch, turn: Turn, none: bool, was: bool, still: bool, ok: bool,
                     end: LoopEnd, next: Watch) {
    && (still <==> none && WaitOk(w.lives, w.pipes, l, joined, root, turn, w.events + 1))
    && (still ==> ok == was && end.Continue? && Waited(l, joined, root, w, turn, next))
    && (none && !still ==> Follows(FailWait(l, joined, root, w, turn), end, was, ok, SweepOf(next)))
    && (!none ==> Follows(CleanWait(l, root, SweepOf(w), turn), end, was, ok, SweepOf(next)))
    && (end.Break? ==> !ok) && (ok ==> was)
  }

  /** What a whole turn does. */
  predicate TurnGoes(l: Limits, joined: bool, root: Root, w: Watch, turn: Turn, none: bool, was: bool, still: bool, ok: bool,
                     end: LoopEnd, next: Watch) {
    && (still <==> none && StartOk(l, w, turn) && (EndsLoop(w, turn) || WaitPasses(l, joined, root, w, turn)))
    && (still ==> ok == was && (end.Break? <==> EndsLoop(w, turn)))
    && (still && end.Continue? ==> Waited(l, joined, root, AtWait(w, turn), turn, next))
    && (none && !still ==> Follows(FailTurn(l, joined, root, w, turn), end, was, ok, SweepOf(next)))
    && (!none ==> Follows(CleanTurn(l, root, SweepOf(w), turn), end, was, ok, SweepOf(next)))
    && (ok ==> was)
  }

  /** The part before the wait and the wait make the turn. */
  lemma TurnComposes(l: Limits, joined: bool, root: Root, w: Watch, turn: Turn, none: bool, was: bool, still: bool, middle: bool,
                     r: Result<LoopEnd, Refusal>, at: Watch, after: bool, ok: bool, end: LoopEnd, next: Watch)
    requires StartGoes(l, joined, root, w, turn, none, was, still, middle, r, at)
    requires match r
             case Refused(_) => !after && !ok && end.Break?
             case Ok(Break) => after == still && ok == middle && end.Break?
             case Ok(Continue) => WaitGoes(l, joined, root, at, turn, still, middle, after, ok, end, next)
    ensures TurnGoes(l, joined, root, w, turn, none, was, after, ok, end, next)
  {
    hide FailWait, CleanWait, CleanStart, FailStart, Early, PumpOk, Idle, FailTurn, CleanTurn, Rested, SweepOf, AtWait, Opens,
         StartOk, EndsLoop, Waited, WaitOk, SameWatch, SameFacts, Pumped;
    TurnVerdicts(l, joined, root, w, SweepOf(w), turn);
    WaitSame(w.lives, at.lives, at.pipes, l, joined, root, turn, w.events + 1);
    if r == Ok(Continue) && still {
      FailsAtWait(l, joined, root, w, at, turn);
      if after {
        WaitedSame(l, joined, root, AtWait(w, turn), at, turn, next);
      }
    }
    if !none {
      RestFollows(l, root, CleanStart(SweepOf(w), turn), turn, r, was, middle, SweepOf(at), end, ok, SweepOf(next));
    } else if !still {
      RestFollows(l, root, FailStart(l, joined, w, turn), turn, r, was, middle, SweepOf(at), end, ok, SweepOf(next));
    }
  }

  /** What a pump does to the ends of the pipes does not depend on what was read. */
  lemma PipesAlone(w: Watch, input: PumpInput)
    ensures PumpOk(Pipes([], [], SweepOf(w).eof), input) <==> PumpOk(w.pipes, input)
    ensures Pumped(Pipes([], [], SweepOf(w).eof), input).eof == Pumped(w.pipes, input).eof
    ensures SweepOf(w).rootReaped == w.rootReaped && SweepOf(w).rootExited == w.rootExited
  {
  }

  /** A pump that fails. */
  lemma StartRefused(l: Limits, joined: bool, root: Root, w: Watch, turn: Turn, none: bool, was: bool,
                     r: Result<LoopEnd, Refusal>, at: Watch)
    requires SameFacts(w.lives, at.lives) && at.pipes == Pumped(w.pipes, turn.pump) && at.events == w.events
    requires at.rootExited == w.rootExited && at.draining == w.draining && !PumpOk(w.pipes, turn.pump) && r.Refused?
    ensures StartGoes(l, joined, root, w, turn, none, was, none, was, r, at)
  {
    hide PumpOk, Pumped;
    PipesAlone(w, turn.pump);
  }

  /** The clocks, the root and the job, after a pump that passed. */
  lemma StartComposes(l: Limits, joined: bool, root: Root, w: Watch, turn: Turn, none: bool, was: bool, mid: bool, ok: bool,
                      still: bool, middle: bool, r: Result<LoopEnd, Refusal>, at: Watch)
    requires SameFacts(w.lives, at.lives) && at.pipes == Pumped(w.pipes, turn.pump) && at.events == w.events
    requires at.rootExited == w.rootExited && at.draining == w.draining && PumpOk(w.pipes, turn.pump)
    requires (mid <==> none && !Early(l, w, turn)) && (mid || !none ==> ok == was)
    requires none && !mid ==> (ok <==> was && (joined ==> turn.killed))
    requires var passed, late := !mid && turn.cleanupLate, mid && w.draining && turn.drainLate;
             && (still <==> mid && !late) && (middle <==> ok && !passed && (late && joined ==> turn.killed))
             && (passed ==> r == Ok(Break))
             && (!passed ==> && at.rootReaped == Reaped(w, turn)
                             && (r.Refused? <==> Idle(SweepOf(at)) && turn.active.Refused?)
                             && (r == Ok(Break) <==> Idle(SweepOf(at)) && turn.active == Ok(0)))
    ensures StartGoes(l, joined, root, w, turn, none, was, still, middle, r, at)
  {
    hide PumpOk, Pumped;
    PipesAlone(w, turn.pump);
  }

  /** A turn decides about all of the remaining turns, or leaves it to those after it. */
  lemma Decides(l: Limits, joined: bool, root: Root, w: Watch, rest: seq<Turn>, none: bool, was: bool, still: bool, ok: bool,
                end: LoopEnd, next: Watch)
    requires rest != [] && TurnGoes(l, joined, root, w, rest[0], none, was, still, ok, end, next)
    ensures still && end.Break? ==> PassingRun(l, joined, root, w, rest) && CleanRun(l, joined, root, w, rest) && ok == was
    ensures still && end.Continue? ==>
              && (PassingRun(l, joined, root, w, rest) <==> PassingRun(l, joined, root, next, rest[1..]))
              && (CleanRun(l, joined, root, w, rest) <==> CleanRun(l, joined, root, next, rest[1..])) && ok == was
    ensures still ==> none
    ensures none && !still ==>
              && !PassingRun(l, joined, root, w, rest)
              && (CleanRun(l, joined, root, w, rest) && was <==>
                    ok && (end.Break? || EndsClean(l, root, SweepOf(next), rest[1..])))
    ensures !none ==> (EndsClean(l, root, SweepOf(w), rest) && was <==>
                         ok && (end.Break? || EndsClean(l, root, SweepOf(next), rest[1..])))
    ensures ok ==> was
  {
    hide FailTurn, CleanTurn, SweepOf, AtWait, StartOk, EndsLoop, Waited, WaitPasses;
    if still && end.Continue? {
      PassingGoes(l, joined, root, w, rest, next);
      CleanGoes(l, joined, root, w, rest, next);
    }
  }
}
