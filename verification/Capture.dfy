/**
 The bounded two-reader capture (`_Capture`, `_drain` and the wait, stop, join and record order of `run_process`).

 `Shared` is what the two readers and the main thread share under the lock. `Capture` is the class that
 updates it. The protocol is a state machine whose actions are the steps between lock acquisitions, in any
 interleaving.
 */
module CaptureProtocol {
  import opened Wrappers
  import opened Bytes

  const CHUNK := 65536

  datatype Shared = Shared(remaining: nat, limited: bool, openStreams: int, eofStreams: int, buffers: seq<seq<byte>>)

  function Initial(limit: nat): Shared {
    Shared(limit, false, 2, 0, [[], []])
  }

  /** The locked region that retains a chunk. */
  function Absorb(s: Shared, i: nat, chunk: seq<byte>): Shared
    requires i < |s.buffers|
  {
    if |chunk| > s.remaining then
      s.(buffers := s.buffers[i := s.buffers[i] + chunk[..s.remaining]], remaining := 0, limited := true)
    else
      s.(buffers := s.buffers[i := s.buffers[i] + chunk], remaining := s.remaining - |chunk|)
  }

  /** `_Capture`: the fields that the readers update, and the regions that hold `cond`. */
  class Capture {
    var remaining: nat
    var limited: bool
    var openStreams: int
    var eofStreams: int
    var buffers: seq<seq<byte>>

    ghost predicate Valid()
      reads this
    {
      |buffers| == 2
    }

    ghost function Value(): Shared
      reads this
    {
      Shared(remaining, limited, openStreams, eofStreams, buffers)
    }

    constructor (limit: nat)
      ensures Valid() && Value() == Initial(limit)
    {
      remaining, limited, openStreams, eofStreams, buffers := limit, false, 2, 0, [[], []];
    }

    /** Retain what fits; `notify` tells whether the waiting main thread is woken. */
    method Retain(i: nat, chunk: seq<byte>) returns (notify: bool)
      requires Valid() && i < 2
      modifies this
      ensures Valid() && Value() == Absorb(old(Value()), i, chunk)
      ensures notify <==> limited && !old(limited)
    {
      notify := false;
      var room := remaining;
      if |chunk| > room {
        buffers := buffers[i := buffers[i] + chunk[..room]];
        remaining := 0;
        if !limited {
          limited := true;
          notify := true;
        }
      } else {
        buffers := buffers[i := buffers[i] + chunk];
        remaining := remaining - |chunk|;
      }
    }

    method CountEof()
      requires Valid()
      modifies this`eofStreams
      ensures Valid() && Value() == old(Value()).(eofStreams := old(eofStreams) + 1)
    {
      eofStreams := eofStreams + 1;
    }

    method CloseStream()
      requires Valid()
      modifies this`openStreams
      ensures Valid() && Value() == old(Value()).(openStreams := old(openStreams) - 1)
    {
      openStreams := openStreams - 1;
    }

    /** The locked region that reader `i` of `s` enters next: it is that step of the protocol. */
    method EnterRegion(i: nat, pc: Pc, ghost s: State) returns (notify: bool)
      requires Valid() && i < 2 && (pc.Holding? || pc.SawEof? || pc.Closing?)
      requires |s.readers| == 2 && s.readers[i].pc == pc && s.shared == Value()
      modifies this
      ensures Valid() && Apply(s, RegionOf(i, pc)).Some?
      ensures var t := Apply(s, RegionOf(i, pc)).value;
              t.shared == Value() && t.main == if notify then Wake(s.main) else s.main
    {
      if pc.Holding? {
        notify := Retain(i, pc.chunk);
      } else if pc.SawEof? {
        CountEof();
        notify := false;
      } else {
        CloseStream();
        notify := true;
      }
    }
  }

  // ----- the protocol -------------------------------------------------------------------------

  /** Where a reader thread is. `Closing` is the `finally` part, `Dead` a finished thread. */
  datatype Pc = Checking | Reading | Holding(chunk: seq<byte>) | SawEof | Closing | Dead

  /** A reader and its pipe: what was written to it, and what `os.read` returned so far. */
  datatype Reader = Reader(pc: Pc, written: seq<byte>, closed: bool, delivered: seq<byte>, absorbed: seq<byte>,
                           counted: bool)

  datatype Record = Record(timedOut: bool, outputLimited: bool, cleanupOk: bool, stdout: seq<byte>, stderr: seq<byte>)

  /** The main thread, from the wait loop to the record, in evaluation order. */
  datatype Main =
    | Testing
    | Asleep
    | Sweeping(timedOut: bool)
    | Joining(timedOut: bool)
    | ReadLimited(timedOut: bool, outputLimited: bool)
    | ReadEof(timedOut: bool, outputLimited: bool, ok: bool)
    | ReadAlive(timedOut: bool, outputLimited: bool, ok: bool)
    | ReadAliveBoth(timedOut: bool, outputLimited: bool, ok: bool)
    | ReadStdout(timedOut: bool, outputLimited: bool, ok: bool, stdout: seq<byte>)
    | Recorded(record: Record)

  datatype State = State(shared: Shared, readers: seq<Reader>, stop: bool, main: Main)

  datatype Action =
    | Write(i: nat, bytes: seq<byte>)      // the child writes
    | CloseWriters(i: nat)                 // the last writer of the pipe is gone
    | CheckStop(i: nat)                    // `while not capture.stop.is_set()`
    | WouldBlock(i: nat)                   // BlockingIOError, then the poll wait
    | ReadFails(i: nat)                    // OSError
    | ReadChunk(i: nat, size: nat)
    | ReadEnd(i: nat)
    | LockRetain(i: nat)
    | LockEof(i: nat)
    | LockClose(i: nat)
    | MainTest(late: bool, exited: bool)   // one turn of the wait loop; `late`: the deadline has passed
    | MainTimeout                          // the wait ends by its own timeout
    | MainStop                             // after the sweep and the first joins
    | MainReadLimited
    | MainReadEof(swept: bool)             // killed, stopped and reaped
    | MainReadAlive
    | MainReadAliveBoth(inTime: bool)
    | MainReadStdout
    | MainRecord

  /** The locked region that a reader enters next. */
  function RegionOf(i: nat, pc: Pc): Action
    requires pc.Holding? || pc.SawEof? || pc.Closing?
  {
    match pc
    case Holding(_) => LockRetain(i)
    case SawEof => LockEof(i)
    case Closing => LockClose(i)
  }

  function Start(limit: nat): State {
    var reader := Reader(Checking, [], false, [], [], false);
    State(Initial(limit), [reader, reader], false, Testing)
  }

  /** `notify_all`: a sleeping main thread tests its condition again. */
  function Wake(m: Main): Main {
    if m.Asleep? then Testing else m
  }

  function WithReader(s: State, i: nat, r: Reader): State
    requires i < |s.readers|
  {
    s.(readers := s.readers[i := r])
  }

  function ReaderStep(s: State, a: Action): Option<State>
    requires |s.readers| == 2 && |s.shared.buffers| == 2
  {
    match a
    case CheckStop(i) =>
      if i < 2 && s.readers[i].pc.Checking?
      then Some(WithReader(s, i, s.readers[i].(pc := if s.stop then Closing else Reading))) else None
    case WouldBlock(i) =>
      if i < 2 && s.readers[i].pc.Reading? then Some(WithReader(s, i, s.readers[i].(pc := Checking))) else None
    case ReadFails(i) =>
      if i < 2 && s.readers[i].pc.Reading? then Some(WithReader(s, i, s.readers[i].(pc := Closing))) else None
    case ReadChunk(i, size) =>
      if i < 2 && s.readers[i].pc.Reading? && 0 < size <= CHUNK
         && |s.readers[i].delivered| + size <= |s.readers[i].written|
      then
        var r := s.readers[i];
        var chunk := r.written[|r.delivered|..|r.delivered| + size];
        Some(WithReader(s, i, r.(pc := Holding(chunk), delivered := r.delivered + chunk)))
      else None
    case ReadEnd(i) =>
      if i < 2 && s.readers[i].pc.Reading? && s.readers[i].closed && s.readers[i].delivered == s.readers[i].written
      then Some(WithReader(s, i, s.readers[i].(pc := SawEof))) else None
    case LockRetain(i) =>
      if i < 2 && s.readers[i].pc.Holding? then
        var r := s.readers[i];
        var shared := Absorb(s.shared, i, r.pc.chunk);
        var main := if shared.limited && !s.shared.limited then Wake(s.main) else s.main;
        Some(WithReader(s, i, r.(pc := Checking, absorbed := r.absorbed + r.pc.chunk)).(shared := shared, main := main))
      else None
    case LockEof(i) =>
      if i < 2 && s.readers[i].pc.SawEof?
      then Some(WithReader(s, i, s.readers[i].(pc := Closing, counted := true))
                .(shared := s.shared.(eofStreams := s.shared.eofStreams + 1)))
      else None
    case LockClose(i) =>
      if i < 2 && s.readers[i].pc.Closing?
      then Some(WithReader(s, i, s.readers[i].(pc := Dead))
                .(shared := s.shared.(openStreams := s.shared.openStreams - 1), main := Wake(s.main)))
      else None
    case _ => None
  }

  function MainStep(s: State, a: Action): Option<State>
    requires |s.readers| == 2 && |s.shared.buffers| == 2
  {
    match (a, s.main)
    case (MainTest(late, exited), Testing) =>
      if s.shared.openStreams != 0 && !s.shared.limited && !late then Some(s.(main := Asleep))
      else
        // limited: timed out only by the clock; drained: by the exit wait; neither: timed out
        var timedOut := if s.shared.limited then late else if s.shared.openStreams == 0 then !exited else true;
        Some(s.(main := Sweeping(timedOut)))
    case (MainTimeout, Asleep) => Some(s.(main := Testing))
    case (MainStop, Sweeping(t)) => Some(s.(main := Joining(t), stop := true))
    case (MainReadLimited, Joining(t)) => Some(s.(main := ReadLimited(t, s.shared.limited)))
    case (MainReadEof(swept), ReadLimited(t, l)) => Some(s.(main := ReadEof(t, l, swept && s.shared.eofStreams == 2)))
    case (MainReadAlive, ReadEof(t, l, ok)) => Some(s.(main := ReadAlive(t, l, ok && s.readers[0].pc.Dead?)))
    case (MainReadAliveBoth(inTime), ReadAlive(t, l, ok)) =>
      Some(s.(main := ReadAliveBoth(t, l, ok && s.readers[1].pc.Dead? && inTime)))
    case (MainReadStdout, ReadAliveBoth(t, l, ok)) => Some(s.(main := ReadStdout(t, l, ok, s.shared.buffers[0])))
    case (MainRecord, ReadStdout(t, l, ok, out)) =>
      Some(s.(main := Recorded(Record(t, l, ok, out, s.shared.buffers[1]))))
    case _ => None
  }

  function ChildStep(s: State, a: Action): Option<State>
    requires |s.readers| == 2
  {
    match a
    case Write(i, bytes) =>
      if i < 2 && !s.readers[i].closed
      then Some(WithReader(s, i, s.readers[i].(written := s.readers[i].written + bytes))) else None
    case CloseWriters(i) =>
      if i < 2 then Some(WithReader(s, i, s.readers[i].(closed := true))) else None
    case _ => None
  }

  function Apply(s: State, a: Action): (r: Option<State>)
    requires |s.readers| == 2 && |s.shared.buffers| == 2
    ensures r.Some? ==> |r.value.readers| == 2 && |r.value.shared.buffers| == 2
  {
    match a
    case Write(_, _) => ChildStep(s, a)
    case CloseWriters(_) => ChildStep(s, a)
    case CheckStop(_) => ReaderStep(s, a)
    case WouldBlock(_) => ReaderStep(s, a)
    case ReadFails(_) => ReaderStep(s, a)
    case ReadChunk(_, _) => ReaderStep(s, a)
    case ReadEnd(_) => ReaderStep(s, a)
    case LockRetain(_) => ReaderStep(s, a)
    case LockEof(_) => ReaderStep(s, a)
    case LockClose(_) => ReaderStep(s, a)
    case _ => MainStep(s, a)
  }

  /** The state after `actions`, or None when some action was not possible. */
  function Run(limit: nat, actions: seq<Action>): (r: Option<State>)
    ensures r.Some? ==> |r.value.readers| == 2 && |r.value.shared.buffers| == 2
  {
    if actions == [] then Some(Start(limit))
    else
      match Run(limit, actions[..|actions| - 1])
      case None => None
      case Some(s) => Apply(s, actions[|actions| - 1])
  }

  // ----- the invariant ------------------------------------------------------------------------

  /** A reader handed on everything it read, and counted an end only at the end of a closed pipe. */
  ghost predicate ReaderOk(r: Reader) {
    && r.delivered == r.absorbed + (if r.pc.Holding? then r.pc.chunk else [])
    && r.delivered <= r.written
    && (r.pc.SawEof? || r.counted ==> r.closed && r.delivered == r.written)
    && (r.counted ==> r.pc.Closing? || r.pc.Dead?)
  }

  function Flag(b: bool): int {
    if b then 1 else 0
  }

  /** The shared budget: nothing is lost or invented, and `limited` says exactly that the limit was exceeded. */
  ghost predicate Budget(limit: nat, s: Shared, absorbed0: seq<byte>, absorbed1: seq<byte>)
    requires |s.buffers| == 2
  {
    && |s.buffers[0]| + |s.buffers[1]| + s.remaining == limit
    && s.buffers[0] <= absorbed0 && s.buffers[1] <= absorbed1
    && (s.limited <==> |absorbed0| + |absorbed1| > limit)
    && (s.limited ==> s.remaining == 0)
    && (!s.limited ==> s.buffers == [absorbed0, absorbed1])
  }

  ghost predicate Counts(s: State)
    requires |s.readers| == 2
  {
    && s.shared.openStreams == Flag(!s.readers[0].pc.Dead?) + Flag(!s.readers[1].pc.Dead?)
    && s.shared.eofStreams == Flag(s.readers[0].counted) + Flag(s.readers[1].counted)
  }

  /** A reader that will not count an end any more, once `stop` is set. */
  predicate Cut(r: Reader) {
    !r.counted && (r.pc.Checking? || r.pc.Closing? || r.pc.Dead?)
  }

  /** What the main thread has evaluated so far: (timedOut, outputLimited, ok, stdout), each when known. */
  datatype Known = Known(timedOut: Option<bool>, outputLimited: Option<bool>, ok: Option<bool>, stdout: Option<seq<byte>>)

  function Knows(m: Main): Known {
    match m
    case Testing => Known(None, None, None, None)
    case Asleep => Known(None, None, None, None)
    case Sweeping(t) => Known(Some(t), None, None, None)
    case Joining(t) => Known(Some(t), None, None, None)
    case ReadLimited(t, l) => Known(Some(t), Some(l), None, None)
    case ReadEof(t, l, ok) => Known(Some(t), Some(l), Some(ok), None)
    case ReadAlive(t, l, ok) => Known(Some(t), Some(l), Some(ok), None)
    case ReadAliveBoth(t, l, ok) => Known(Some(t), Some(l), Some(ok), None)
    case ReadStdout(t, l, ok, out) => Known(Some(t), Some(l), Some(ok), Some(out))
    case Recorded(r) => Known(Some(r.timedOut), Some(r.outputLimited), Some(r.cleanupOk), Some(r.stdout))
  }

  ghost predicate MainOk(s: State)
    requires |s.readers| == 2 && |s.shared.buffers| == 2
  {
    var k := Knows(s.main);
    && (s.stop <==> s.main.Joining? || k.outputLimited.Some?)
    && (s.main.Asleep? ==> s.shared.openStreams != 0 && !s.shared.limited)
    && (k.timedOut == Some(false) ==> s.shared.limited || s.shared.openStreams == 0)
    && (k.timedOut == Some(false) && k.outputLimited == Some(false) ==> s.shared.openStreams == 0)
    && (k.outputLimited == Some(true) ==> s.shared.limited)
    && (k.outputLimited == Some(false) && s.shared.limited ==> Cut(s.readers[0]) || Cut(s.readers[1]))
    && (k.ok == Some(true) ==> s.shared.eofStreams == 2)
    && (k.stdout.Some? ==> k.stdout.value <= s.shared.buffers[0])
    && (k.stdout.Some? && (k.outputLimited == Some(true) || k.ok == Some(true)) ==> k.stdout.value == s.shared.buffers[0])
  }

  ghost predicate RecordOk(limit: nat, s: State)
    requires |s.readers| == 2 && |s.shared.buffers| == 2
  {
    s.main.Recorded? ==>
      var r := s.main.record;
      && r.stderr <= s.shared.buffers[1]
      && (r.outputLimited || r.cleanupOk ==> r.stderr == s.shared.buffers[1])
  }

  ghost predicate Inv(limit: nat, s: State) {
    && |s.readers| == 2 && |s.shared.buffers| == 2
    && ReaderOk(s.readers[0]) && ReaderOk(s.readers[1])
    && Budget(limit, s.shared, s.readers[0].absorbed, s.readers[1].absorbed)
    && Counts(s) && MainOk(s) && RecordOk(limit, s)
  }

  lemma AbsorbKeepsBudget(limit: nat, s: Shared, absorbed: seq<seq<byte>>, i: nat, chunk: seq<byte>)
    requires |s.buffers| == 2 && |absorbed| == 2 && i < 2 && Budget(limit, s, absorbed[0], absorbed[1])
    ensures var after := absorbed[i := absorbed[i] + chunk];
            Budget(limit, Absorb(s, i, chunk), after[0], after[1])
    ensures s.limited ==> Absorb(s, i, chunk).buffers == s.buffers && Absorb(s, i, chunk).limited
    ensures Absorb(s, i, chunk).openStreams == s.openStreams && Absorb(s, i, chunk).eofStreams == s.eofStreams
    ensures s.buffers[0] <= Absorb(s, i, chunk).buffers[0] && s.buffers[1] <= Absorb(s, i, chunk).buffers[1]
  {
    var after := Absorb(s, i, chunk);
    assert s.limited ==> s.buffers[i] + chunk[..s.remaining] == s.buffers[i];
    if !after.limited {
      assert after.buffers[0] == after.buffers[0] && after.buffers == [after.buffers[0], after.buffers[1]];
    }
  }

  lemma WakeKeeps(m: Main)
    ensures Knows(Wake(m)) == Knows(m) && !Wake(m).Asleep?
    ensures (Wake(m).Joining? <==> m.Joining?) && (m.Recorded? || Wake(m).Recorded? ==> Wake(m) == m)
    ensures m.Recorded? ==> Knows(m).ok == Some(m.record.cleanupOk)
                            && Knows(m).outputLimited == Some(m.record.outputLimited)
  {
  }

  lemma RetainKeepsInv(limit: nat, s: State, i: nat)
    requires Inv(limit, s) && Apply(s, LockRetain(i)).Some?
    ensures Inv(limit, Apply(s, LockRetain(i)).value)
  {
    hide Budget, Knows, Wake, Absorb;
    WakeKeeps(s.main);
    AbsorbKeepsBudget(limit, s.shared, [s.readers[0].absorbed, s.readers[1].absorbed], i, s.readers[i].pc.chunk);
    var t := Apply(s, LockRetain(i)).value;
    assert !s.readers[i].counted;
    assert Budget(limit, t.shared, t.readers[0].absorbed, t.readers[1].absorbed);
    if Knows(s.main).stdout.Some? {
      PrefixOf(Knows(s.main).stdout.value, s.shared.buffers[0], t.shared.buffers[0]);
    }
    if s.main.Recorded? {
      PrefixOf(s.main.record.stderr, s.shared.buffers[1], t.shared.buffers[1]);
    }
  }

  lemma PrefixOf(a: seq<byte>, b: seq<byte>, c: seq<byte>)
    requires a <= b <= c
    ensures a <= c
  {
  }

  /** A step of one reader or of its pipe that touches nothing shared. */
  lemma LocalKeepsInv(limit: nat, s: State, i: nat, r: Reader)
    requires Inv(limit, s) && i < 2 && ReaderOk(r)
    requires r.absorbed == s.readers[i].absorbed && r.counted == s.readers[i].counted
    requires r.pc.Dead? == s.readers[i].pc.Dead? && (s.stop && Cut(s.readers[i]) ==> Cut(r))
    ensures Inv(limit, WithReader(s, i, r))
  {
    hide Budget, ReaderOk, Cut, Knows;
  }

  lemma EofKeepsInv(limit: nat, s: State, i: nat)
    requires Inv(limit, s) && ReaderStep(s, LockEof(i)).Some?
    ensures Inv(limit, ReaderStep(s, LockEof(i)).value)
  {
    hide Knows;
    var t := ReaderStep(s, LockEof(i)).value;
    assert t.readers[1 - i] == s.readers[1 - i] && t.readers[i] == s.readers[i].(pc := Closing, counted := true);
    assert Counts(t);
    assert MainOk(t);
    assert RecordOk(limit, t);
  }

  lemma CloseKeepsInv(limit: nat, s: State, i: nat)
    requires Inv(limit, s) && ReaderStep(s, LockClose(i)).Some?
    ensures Inv(limit, ReaderStep(s, LockClose(i)).value)
  {
    var t := ReaderStep(s, LockClose(i)).value;
    assert t.readers[1 - i] == s.readers[1 - i] && t.readers[i] == s.readers[i].(pc := Dead);
    assert Counts(t);
    assert MainOk(t);
    assert RecordOk(limit, t);
  }

  lemma ReaderKeepsInv(limit: nat, s: State, a: Action)
    requires Inv(limit, s) && !a.LockRetain? && |s.readers| == 2 && |s.shared.buffers| == 2 && ReaderStep(s, a).Some?
    ensures Inv(limit, ReaderStep(s, a).value)
  {
    hide Inv;
    if a.LockEof? {
      EofKeepsInv(limit, s, a.i);
    } else if a.LockClose? {
      CloseKeepsInv(limit, s, a.i);
    } else {
      InvReaders(limit, s, a.i);
      if a.ReadChunk? {
        var r := s.readers[a.i];
        assert r.delivered + r.written[|r.delivered|..|r.delivered| + a.size] == r.written[..|r.delivered| + a.size];
      }
      LocalKeepsInv(limit, s, a.i, ReaderStep(s, a).value.readers[a.i]);
    }
  }

  lemma InvReaders(limit: nat, s: State, i: nat)
    requires Inv(limit, s) && i < 2
    ensures |s.readers| == 2 && |s.shared.buffers| == 2
    ensures ReaderOk(s.readers[i]) && (s.stop <==> s.main.Joining? || Knows(s.main).outputLimited.Some?)
  {
  }

  predicate IsWait(a: Action) {
    a.MainTest? || a.MainTimeout? || a.MainStop? || a.MainReadLimited?
  }

  lemma WaitKeepsInv(limit: nat, s: State, a: Action)
    requires Inv(limit, s) && IsWait(a) && MainStep(s, a).Some?
    ensures Inv(limit, MainStep(s, a).value)
  {
    hide Budget, ReaderOk, Cut;
  }

  lemma EvaluateKeepsInv(limit: nat, s: State, a: Action)
    requires Inv(limit, s) && !IsWait(a) && MainStep(s, a).Some?
    ensures Inv(limit, MainStep(s, a).value)
  {
    hide Budget, ReaderOk, Cut;
  }

  lemma MainKeepsInv(limit: nat, s: State, a: Action)
    requires Inv(limit, s) && |s.readers| == 2 && |s.shared.buffers| == 2 && MainStep(s, a).Some?
    ensures Inv(limit, MainStep(s, a).value)
  {
    hide Inv, MainStep;
    if IsWait(a) {
      WaitKeepsInv(limit, s, a);
    } else {
      EvaluateKeepsInv(limit, s, a);
    }
  }

  lemma ChildKeepsInv(limit: nat, s: State, a: Action)
    requires Inv(limit, s) && |s.readers| == 2 && ChildStep(s, a).Some?
    ensures Inv(limit, ChildStep(s, a).value)
  {
    hide Inv;
    InvReaders(limit, s, a.i);
    LocalKeepsInv(limit, s, a.i, ChildStep(s, a).value.readers[a.i]);
  }

  /** The invariant holds after every run, whatever the interleaving. */
  lemma {:induction false} RunKeepsInv(limit: nat, actions: seq<Action>)
    requires Run(limit, actions).Some?
    ensures Inv(limit, Run(limit, actions).value)
  {
    hide Inv, MainStep, ReaderStep, ChildStep;
    if actions == [] {
      StartInv(limit);
    } else {
      var before, a := Run(limit, actions[..|actions| - 1]).value, actions[|actions| - 1];
      RunKeepsInv(limit, actions[..|actions| - 1]);
      match a
      case Write(_, _) => ChildKeepsInv(limit, before, a);
      case CloseWriters(_) => ChildKeepsInv(limit, before, a);
      case CheckStop(_) => ReaderKeepsInv(limit, before, a);
      case WouldBlock(_) => ReaderKeepsInv(limit, before, a);
      case ReadFails(_) => ReaderKeepsInv(limit, before, a);
      case ReadChunk(_, _) => ReaderKeepsInv(limit, before, a);
      case ReadEnd(_) => ReaderKeepsInv(limit, before, a);
      case LockRetain(i) => RetainKeepsInv(limit, before, i);
      case LockEof(_) => ReaderKeepsInv(limit, before, a);
      case LockClose(_) => ReaderKeepsInv(limit, before, a);
      case _ => MainKeepsInv(limit, before, a);
    }
  }

  lemma StartInv(limit: nat)
    ensures Inv(limit, Start(limit))
  {
  }

  // ----- what every run keeps -------------------------------------------------------------------

  /** The shared byte budget is conserved, and each buffer is a prefix of what its pipe carried. */
  lemma BudgetConserved(limit: nat, actions: seq<Action>)
    requires Run(limit, actions).Some?
    ensures var s := Run(limit, actions).value;
            && |s.shared.buffers[0]| + |s.shared.buffers[1]| + s.shared.remaining == limit
            && (forall i | 0 <= i < 2 :: s.shared.buffers[i] <= s.readers[i].delivered <= s.readers[i].written)
  {
    RunKeepsInv(limit, actions);
    var s := Run(limit, actions).value;
    hide Counts, MainOk, RecordOk, Run;
    assert s.shared.buffers[0] <= s.readers[0].absorbed <= s.readers[0].delivered;
    assert s.shared.buffers[1] <= s.readers[1].absorbed <= s.readers[1].delivered;
  }

  /** `limited` means exactly that more than the limit was handed over, and then exactly the limit is kept. */
  lemma LimitedExactly(limit: nat, actions: seq<Action>)
    requires Run(limit, actions).Some?
    ensures var s := Run(limit, actions).value;
            && (s.shared.limited <==> |s.readers[0].absorbed| + |s.readers[1].absorbed| > limit)
            && (s.shared.limited ==> |s.shared.buffers[0]| + |s.shared.buffers[1]| == limit)
            && (!s.shared.limited ==> s.shared.buffers == [s.readers[0].absorbed, s.readers[1].absorbed])
  {
    RunKeepsInv(limit, actions);
  }

  /** No wakeup is lost: a sleeping main thread has nothing to act on. */
  lemma NoLostWakeup(limit: nat, actions: seq<Action>)
    requires Run(limit, actions).Some? && Run(limit, actions).value.main.Asleep?
    ensures var s := Run(limit, actions).value;
            !s.shared.limited && exists i | 0 <= i < 2 :: !s.readers[i].pc.Dead?
  {
    RunKeepsInv(limit, actions);
    var s := Run(limit, actions).value;
    assert !s.readers[0].pc.Dead? || !s.readers[1].pc.Dead?;
  }

  /**
   A record with `cleanup_ok` and without `output_limited` holds both streams to their end, although `limited`
   is read before the ends are counted: a chunk that overflows in between leaves its reader without an end.
   */
  lemma CleanRecordIsComplete(limit: nat, actions: seq<Action>)
    requires Run(limit, actions).Some? && Run(limit, actions).value.main.Recorded?
    ensures var s := Run(limit, actions).value;
            var r := s.main.record;
            r.cleanupOk && !r.outputLimited ==>
              && s.readers[0].closed && r.stdout == s.readers[0].written
              && s.readers[1].closed && r.stderr == s.readers[1].written
              && |r.stdout| + |r.stderr| <= limit
  {
    RunKeepsInv(limit, actions);
    var s := Run(limit, actions).value;
    var r := s.main.record;
    if r.cleanupOk && !r.outputLimited {
      assert Knows(s.main).ok == Some(true);
      assert s.readers[0].counted && s.readers[1].counted;
      assert !s.shared.limited;
    }
  }

  /** A record with `output_limited` retains exactly the limit, as prefixes of the two streams. */
  lemma LimitedRecordIsExact(limit: nat, actions: seq<Action>)
    requires Run(limit, actions).Some? && Run(limit, actions).value.main.Recorded?
    ensures var s := Run(limit, actions).value;
            var r := s.main.record;
            && r.stdout <= s.readers[0].written && r.stderr <= s.readers[1].written
            && |r.stdout| + |r.stderr| <= limit
            && (r.outputLimited ==> |r.stdout| + |r.stderr| == limit
                                    && |s.readers[0].written| + |s.readers[1].written| > limit)
  {
    RunKeepsInv(limit, actions);
    BudgetConserved(limit, actions);
    var s := Run(limit, actions).value;
    var r := s.main.record;
    assert Knows(s.main).stdout == Some(r.stdout) && Knows(s.main).outputLimited == Some(r.outputLimited);
    assert r.stdout <= s.shared.buffers[0] && r.stderr <= s.shared.buffers[1];
  }

  /** A record that neither timed out nor was limited was written after both readers had finished. */
  lemma UntimedRecordIsDrained(limit: nat, actions: seq<Action>)
    requires Run(limit, actions).Some? && Run(limit, actions).value.main.Recorded?
    ensures var s := Run(limit, actions).value;
            !s.main.record.timedOut && !s.main.record.outputLimited ==>
              s.readers[0].pc.Dead? && s.readers[1].pc.Dead?
  {
    RunKeepsInv(limit, actions);
  }

  // ----- complete records exist -----------------------------------------------------------------

  lemma Follow(limit: nat, s: State, actions: seq<Action>, a: Action, t: State) returns (longer: seq<Action>)
    requires |s.readers| == 2 && |s.shared.buffers| == 2
    requires Run(limit, actions) == Some(s) && Apply(s, a) == Some(t)
    ensures Run(limit, longer) == Some(t)
  {
    hide Apply;
    longer := actions + [a];
    assert longer[..|longer| - 1] == actions;
  }

  /** A reader whose closed pipe holds no more than the budget, while the main thread waits. */
  predicate Drainable(s: State, i: nat) {
    && |s.readers| == 2 && |s.shared.buffers| == 2 && i < 2
    && s.readers[i].pc.Checking? && s.readers[i].closed && !s.stop && s.main.Testing? && !s.shared.limited
    && s.readers[i].delivered <= s.readers[i].written && s.shared.buffers[i] == s.readers[i].delivered
    && |s.readers[i].written| - |s.readers[i].delivered| <= s.shared.remaining
  }

  /** The same state with the pipe drained and the reader finished. */
  function Drained(s: State, i: nat): State
    requires Drainable(s, i)
  {
    var r := s.readers[i];
    var rest := r.written[|r.delivered|..];
    State(Shared(s.shared.remaining - |rest|, false, s.shared.openStreams - 1, s.shared.eofStreams + 1,
                 s.shared.buffers[i := r.written]),
          s.readers[i := Reader(Dead, r.written, true, r.written, r.absorbed + rest, true)], false, Testing)
  }

  /** A reader takes and retains one more chunk. */
  lemma DrainChunk(limit: nat, s: State, actions: seq<Action>, i: nat, size: nat)
    returns (t: State, longer: seq<Action>)
    requires Drainable(s, i) && Run(limit, actions) == Some(s)
    requires 0 < size <= CHUNK && |s.readers[i].delivered| + size <= |s.readers[i].written|
    ensures var r := s.readers[i];
            var chunk := r.written[|r.delivered|..|r.delivered| + size];
            t == State(Shared(s.shared.remaining - size, false, s.shared.openStreams, s.shared.eofStreams,
                              s.shared.buffers[i := s.shared.buffers[i] + chunk]),
                       s.readers[i := Reader(Checking, r.written, true, r.delivered + chunk, r.absorbed + chunk, r.counted)],
                       false, Testing)
    ensures Run(limit, longer) == Some(t)
  {
    hide Run;
    var r := s.readers[i];
    var chunk := r.written[|r.delivered|..|r.delivered| + size];
    var s1 := WithReader(s, i, r.(pc := Reading));
    var a1 := Follow(limit, s, actions, CheckStop(i), s1);
    var s2 := WithReader(s, i, r.(pc := Holding(chunk), delivered := r.delivered + chunk));
    assert s2 == WithReader(s1, i, s1.readers[i].(pc := Holding(chunk), delivered := r.delivered + chunk));
    var a2 := Follow(limit, s1, a1, ReadChunk(i, size), s2);
    var r3 := r.(pc := Checking, delivered := r.delivered + chunk, absorbed := r.absorbed + chunk);
    t := WithReader(s, i, r3).(shared := Absorb(s.shared, i, chunk));
    assert t == WithReader(s2, i, r3).(shared := Absorb(s2.shared, i, chunk));
    longer := Follow(limit, s2, a2, LockRetain(i), t);
  }

  /** A reader at the end of its pipe finishes. */
  lemma DrainEnd(limit: nat, s: State, actions: seq<Action>, i: nat) returns (t: State, longer: seq<Action>)
    requires Drainable(s, i) && Run(limit, actions) == Some(s) && s.readers[i].delivered == s.readers[i].written
    ensures t == Drained(s, i) && Run(limit, longer) == Some(t)
  {
    hide Run;
    var r := s.readers[i];
    var s1 := WithReader(s, i, r.(pc := Reading));
    var a1 := Follow(limit, s, actions, CheckStop(i), s1);
    var s2 := WithReader(s, i, r.(pc := SawEof));
    assert s2 == WithReader(s1, i, r.(pc := SawEof));
    var a2 := Follow(limit, s1, a1, ReadEnd(i), s2);
    var s3 := WithReader(s, i, r.(pc := Closing, counted := true))
              .(shared := s.shared.(eofStreams := s.shared.eofStreams + 1));
    assert s3.readers == s2.readers[i := r.(pc := Closing, counted := true)];
    var a3 := Follow(limit, s2, a2, LockEof(i), s3);
    assert r.written[|r.delivered|..] == [] && s.shared.buffers[i := r.written] == s.shared.buffers;
    assert r.absorbed + r.written[|r.delivered|..] == r.absorbed;
    t := Drained(s, i);
    assert t.readers == s3.readers[i := r.(pc := Dead, counted := true)];
    longer := Follow(limit, s3, a3, LockClose(i), t);
  }

  lemma {:induction false} Drain(limit: nat, s: State, actions: seq<Action>, i: nat)
    returns (t: State, longer: seq<Action>)
    requires Drainable(s, i) && Run(limit, actions) == Some(s)
    ensures t == Drained(s, i) && Run(limit, longer) == Some(t)
    decreases |s.readers[i].written| - |s.readers[i].delivered|
  {
    hide Run;
    var r := s.readers[i];
    var rest := |r.written| - |r.delivered|;
    if rest == 0 {
      assert r.delivered == r.written;
      t, longer := DrainEnd(limit, s, actions, i);
    } else {
      var size := if rest < CHUNK then rest else CHUNK;
      var mid, half := DrainChunk(limit, s, actions, i, size);
      var chunk := r.written[|r.delivered|..|r.delivered| + size];
      assert r.delivered + chunk == r.written[..|r.delivered| + size];
      t, longer := Drain(limit, mid, half, i);
      assert chunk + r.written[|r.delivered| + size..] == r.written[|r.delivered|..];
      DrainedTwice(s, mid, i, size);
    }
  }

  lemma DrainedTwice(s: State, mid: State, i: nat, size: nat)
    requires Drainable(s, i) && Drainable(mid, i) && |s.readers[i].delivered| + size <= |s.readers[i].written|
    requires var r := s.readers[i];
             var chunk := r.written[|r.delivered|..|r.delivered| + size];
             && mid.shared == Shared(s.shared.remaining - size, false, s.shared.openStreams, s.shared.eofStreams,
                                     s.shared.buffers[i := s.shared.buffers[i] + chunk])
             && mid.readers == s.readers[i := Reader(Checking, r.written, true, r.delivered + chunk, r.absorbed + chunk,
                                                     r.counted)]
    ensures Drained(mid, i) == Drained(s, i)
  {
    var r := s.readers[i];
    var chunk := r.written[|r.delivered|..|r.delivered| + size];
    assert chunk + r.written[|r.delivered| + size..] == r.written[|r.delivered|..];
    assert r.absorbed + chunk + r.written[|r.delivered| + size..] == r.absorbed + r.written[|r.delivered|..];
  }

  /** The two streams are written and closed. */
  function Written(limit: nat, stdout: seq<byte>, stderr: seq<byte>): State {
    State(Initial(limit), [Reader(Checking, stdout, true, [], [], false), Reader(Checking, stderr, true, [], [], false)],
          false, Testing)
  }

  lemma WriteBoth(limit: nat, stdout: seq<byte>, stderr: seq<byte>) returns (actions: seq<Action>)
    ensures Run(limit, actions) == Some(Written(limit, stdout, stderr))
  {
    assert Run(limit, []) == Some(Start(limit));
    hide Run;
    var fresh0 := Reader(Checking, [], false, [], [], false);
    var half, first := fresh0.(written := stdout), fresh0.(written := stdout, closed := true);
    var last := fresh0.(written := stderr);
    assert [] + stdout == stdout && [] + stderr == stderr;
    var s0 := Start(limit);
    var s1 := s0.(readers := [half, fresh0]);
    assert s1.readers == s0.readers[0 := half];
    var a1 := Follow(limit, s0, [], Write(0, stdout), s1);
    var s2 := s0.(readers := [first, fresh0]);
    assert s2.readers == s1.readers[0 := first];
    var a2 := Follow(limit, s1, a1, CloseWriters(0), s2);
    var s3 := s0.(readers := [first, last]);
    assert s3.readers == s2.readers[1 := last];
    var a3 := Follow(limit, s2, a2, Write(1, stderr), s3);
    var s4 := Written(limit, stdout, stderr);
    assert s4.readers == s3.readers[1 := last.(closed := true)];
    actions := Follow(limit, s3, a3, CloseWriters(1), s4);
  }

  /** Whatever two streams a child writes, within the limit some run records both of them completely. */
  lemma CompleteRecordExists(limit: nat, stdout: seq<byte>, stderr: seq<byte>) returns (actions: seq<Action>)
    requires |stdout| + |stderr| <= limit
    ensures Run(limit, actions).Some?
    ensures Run(limit, actions).value.main == Recorded(Record(false, false, true, stdout, stderr))
  {
    hide Run, Drained;
    var s0 := Written(limit, stdout, stderr);
    var a0 := WriteBoth(limit, stdout, stderr);
    AfterFirst(limit, s0, stdout, stderr);
    var s1, a1 := Drain(limit, s0, a0, 0);
    AfterSecond(limit, s1, stdout, stderr);
    var s2, a2 := Drain(limit, s1, a1, 1);
    actions := RecordBoth(limit, s2, a2);
  }

  lemma AfterFirst(limit: nat, s: State, stdout: seq<byte>, stderr: seq<byte>)
    requires |stdout| + |stderr| <= limit && s == Written(limit, stdout, stderr)
    ensures Drainable(s, 0) && Drained(s, 0).shared == Shared(limit - |stdout|, false, 1, 1, [stdout, []])
    ensures Drained(s, 0).readers[1] == s.readers[1] && |Drained(s, 0).readers| == 2
    ensures Drained(s, 0).readers[0].pc.Dead? && !Drained(s, 0).stop && Drained(s, 0).main.Testing?
  {
    assert stdout[0..] == stdout;
  }

  lemma AfterSecond(limit: nat, s: State, stdout: seq<byte>, stderr: seq<byte>)
    requires |stdout| + |stderr| <= limit && s.shared == Shared(limit - |stdout|, false, 1, 1, [stdout, []])
    requires |s.readers| == 2 && s.readers[1] == Reader(Checking, stderr, true, [], [], false) && s.readers[0].pc.Dead?
    requires !s.stop && s.main.Testing?
    ensures Drainable(s, 1)
    ensures Drained(s, 1).shared == Shared(limit - |stdout| - |stderr|, false, 0, 2, [stdout, stderr])
    ensures |Drained(s, 1).readers| == 2 && forall i | 0 <= i < 2 :: Drained(s, 1).readers[i].pc.Dead?
    ensures !Drained(s, 1).stop && Drained(s, 1).main.Testing?
  {
    assert stderr[0..] == stderr;
  }

  /** A state in which both readers have ended. */
  predicate Ended(s: State) {
    && |s.readers| == 2 && |s.shared.buffers| == 2 && s.readers[0].pc.Dead? && s.readers[1].pc.Dead?
    && s.shared.openStreams == 0 && s.shared.eofStreams == 2 && !s.shared.limited
  }

  lemma SweepSteps(limit: nat, s: State, actions: seq<Action>) returns (longer: seq<Action>)
    requires Ended(s) && Run(limit, actions) == Some(s) && s.main.Testing?
    ensures Run(limit, longer) == Some(s.(main := ReadLimited(false, false), stop := true))
  {
    hide Run;
    var s1 := s.(main := Sweeping(false));
    var a1 := Follow(limit, s, actions, MainTest(false, true), s1);
    var s2 := s.(main := Joining(false), stop := true);
    var a2 := Follow(limit, s1, a1, MainStop, s2);
    longer := Follow(limit, s2, a2, MainReadLimited, s.(main := ReadLimited(false, false), stop := true));
  }

  lemma JudgeSteps(limit: nat, s: State, actions: seq<Action>) returns (longer: seq<Action>)
    requires Ended(s) && Run(limit, actions) == Some(s) && s.main == ReadLimited(false, false)
    ensures Run(limit, longer) == Some(s.(main := ReadAliveBoth(false, false, true)))
  {
    hide Run;
    var s1 := s.(main := ReadEof(false, false, true));
    var a1 := Follow(limit, s, actions, MainReadEof(true), s1);
    var s2 := s.(main := ReadAlive(false, false, true));
    var a2 := Follow(limit, s1, a1, MainReadAlive, s2);
    longer := Follow(limit, s2, a2, MainReadAliveBoth(true), s.(main := ReadAliveBoth(false, false, true)));
  }

  /** With both readers finished in time, the main thread records what they retained. */
  lemma RecordBoth(limit: nat, s: State, actions: seq<Action>) returns (longer: seq<Action>)
    requires Ended(s) && Run(limit, actions) == Some(s) && s.main.Testing?
    ensures Run(limit, longer).Some?
    ensures Run(limit, longer).value.main == Recorded(Record(false, false, true, s.shared.buffers[0], s.shared.buffers[1]))
  {
    hide Run;
    var a1 := SweepSteps(limit, s, actions);
    var s1 := s.(main := ReadLimited(false, false), stop := true);
    var a2 := JudgeSteps(limit, s1, a1);
    var s2 := s1.(main := ReadAliveBoth(false, false, true));
    var s3 := s1.(main := ReadStdout(false, false, true, s.shared.buffers[0]));
    var a3 := Follow(limit, s2, a2, MainReadStdout, s3);
    var s4 := s1.(main := Recorded(Record(false, false, true, s.shared.buffers[0], s.shared.buffers[1])));
    longer := Follow(limit, s3, a3, MainRecord, s4);
  }
}
