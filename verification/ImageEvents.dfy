/**
 What the debug-event observer does, as values: the inputs it gets from the system, the bytes it takes from the two
 pipes, which events it admits, and what an admitted event changes.

 Each datatype ending in `Input` holds the results that one method receives from the system.
 */
module ImageEvents {
  import opened Wrappers
  import opened Bytes
  import opened Sets
  import opened ImageReceipt
  import opened ImageLifetimes

  datatype Refusal =
    | SystemCall | UnknownDebugEvent | EventLimit | ProcessLimitOrDuplicate | ProcessOutsideJob | FirstProcessNotRoot
    | EventForUnknownProcess | DuplicateThread | EventForUnknownThread | MissingImageHandle | ImageLimit
    | DuplicateImageBase | RootImageIdentity | ImageEventIdentity | ImageDigestChanged | UnloadForUnknownImage
    | DebugRip | DeadlineExceeded | OutputLimitExceeded | DescendantsSurvivedRoot | RootCleanupDeadline
    | CleanupEventLimit | DebugWaitFailed | DebugContinueFailed | HandleClose | OwnedJobNotEmpty
    | ProcessCountMismatch | ImageLifetimesIncomplete | PipeShortRead

  datatype Peek = PipeEnd | Quiet | Block(bytes: seq<byte>) | PeekFails

  datatype PumpInput = PumpInput(out: Peek, err: Peek)

  /** The pumps between the reads of a file, and its digest or the refusal of a read. */
  datatype HashInput = HashInput(pumps: seq<PumpInput>, result: Result<string, Refusal>)

  /** Opening and inspecting an image file. */
  datatype PinInput = PinInput(pumps: seq<PumpInput>, result: Result<Pin, Refusal>)

  datatype BindInput = BindInput(fileOk: bool, reopened: PinInput, seen: Result<(string, nat), Refusal>)

  datatype DebugEvent = DebugEvent(code: nat, pid: nat, tid: nat, base: nat, exitCode: int, loaderBreakpoint: bool)

  datatype EventInput = EventInput(inJob: bool, bind: BindInput, hashes: nat -> HashInput,
                                   pinClosed: nat -> bool)

  /** A delivered debug event with what the system answers while it is handled. */
  datatype Delivery = Delivery(event: DebugEvent, input: EventInput)

  datatype Wait = NoEvent | WaitFails | Event(delivery: Delivery, handleClosed: bool, released: bool)

  /** One turn of the event loop: clocks, pipes, the job and the next debug event. */
  datatype Turn = Turn(pump: PumpInput, late: bool, cleanupLate: bool, drainLate: bool, rootPolled: bool,
                       active: Result<nat, Refusal>, killed: bool, wait: Wait)

  datatype LoopEnd = Continue | Break

  /** The steps of `launch`, and whether a root that is left behind by a failed launch could be terminated. */
  datatype LaunchInput = LaunchInput(rootPin: Result<Pin, Refusal>, job: bool, started: bool, joined: bool, resumed: bool,
                                     rootPid: nat, killed: bool)

  datatype FinishInput = FinishInput(rootPolled: bool, job: Result<(nat, nat), Refusal>, pinsClosed: bool)

  // ----- the pipes ------------------------------------------------------------------------------

  /** What has been read of the two pipes. */
  datatype Pipes = Pipes(out: seq<byte>, err: seq<byte>, eof: (bool, bool)) {

    function Total(): nat {
      |out| + |err|
    }

    function Ended(stream: nat): bool {
      if stream == 0 then eof.0 else eof.1
    }
  }

  const NO_PIPES := Pipes([], [], (false, false))

  /** An ended pipe is not asked again. */
  predicate PeekOk(ended: bool, peek: Peek) {
    ended || (peek != PeekFails && peek != Block([]))
  }

  /** The pipes after one of them was asked. */
  function Peeked(p: Pipes, stream: nat, peek: Peek): Pipes {
    if p.Ended(stream) then p
    else match peek
      case PipeEnd => p.(eof := if stream == 0 then (true, p.eof.1) else (p.eof.0, true))
      case Block(bytes) => if stream == 0 then p.(out := p.out + bytes) else p.(err := p.err + bytes)
      case _ => p
  }

  predicate PumpOk(p: Pipes, input: PumpInput) {
    PeekOk(p.eof.0, input.out) && PeekOk(p.eof.1, input.err)
  }

  /** `pump`: both pipes in order; the second one is not asked when the first refuses. */
  function Pumped(p: Pipes, input: PumpInput): Pipes {
    if PeekOk(p.eof.0, input.out) then Peeked(Peeked(p, 0, input.out), 1, input.err) else p
  }

  function PumpedAll(p: Pipes, inputs: seq<PumpInput>): Pipes {
    if inputs == [] then p else Pumped(PumpedAll(p, inputs[..|inputs| - 1]), inputs[|inputs| - 1])
  }

  /** No pump fails, and none takes the output past the limit. */
  predicate PumpsPass(p: Pipes, limit: nat, inputs: seq<PumpInput>) {
    inputs == []
    || (var front := inputs[..|inputs| - 1];
        && PumpsPass(p, limit, front) && PumpOk(PumpedAll(p, front), inputs[|inputs| - 1])
        && PumpedAll(p, inputs).Total() <= limit)
  }

  /** Pumps up to the first one that fails or takes the output past the limit. */
  function PumpedTo(p: Pipes, limit: nat, inputs: seq<PumpInput>): Pipes {
    if inputs == [] then p
    else
      var front := inputs[..|inputs| - 1];
      var before := PumpedTo(p, limit, front);
      if PumpsPass(p, limit, front) then Pumped(before, inputs[|inputs| - 1]) else before
  }

  /** Pumps that pass are all made. */
  lemma {:induction false} PumpedToEnd(p: Pipes, limit: nat, inputs: seq<PumpInput>)
    requires PumpsPass(p, limit, inputs)
    ensures PumpedTo(p, limit, inputs) == PumpedAll(p, inputs)
  {
    if inputs != [] {
      PumpedToEnd(p, limit, inputs[..|inputs| - 1]);
    }
  }

  /** The pump that does not pass is the last one. */
  lemma {:induction false} PumpedToStop(p: Pipes, limit: nat, inputs: seq<PumpInput>, n: nat)
    requires n < |inputs| && PumpsPass(p, limit, inputs[..n]) && !PumpsPass(p, limit, inputs[..n + 1])
    ensures PumpedTo(p, limit, inputs) == PumpedAll(p, inputs[..n + 1])
    decreases |inputs|
  {
    var front := inputs[..|inputs| - 1];
    if n == |inputs| - 1 {
      assert inputs[..n + 1] == inputs && inputs[..n] == front;
      PumpedToEnd(p, limit, front);
    } else {
      assert front[..n] == inputs[..n] && front[..n + 1] == inputs[..n + 1];
      PumpedToStop(p, limit, front, n);
      if PumpsPass(p, limit, front) {
        PassPrefix(p, limit, front, n + 1);
      }
    }
  }

  lemma PumpedNext(p: Pipes, inputs: seq<PumpInput>, input: PumpInput)
    ensures PumpedAll(p, inputs + [input]) == Pumped(PumpedAll(p, inputs), input)
  {
    assert (inputs + [input])[..|inputs|] == inputs;
  }

  lemma OtherPipe(p: Pipes, peek: Peek)
    ensures Peeked(p, 0, peek).eof.1 == p.eof.1 && Peeked(p, 0, peek).Ended(1) == p.Ended(1)
  {
  }

  lemma RefusedPeek(p: Pipes, stream: nat, peek: Peek)
    requires !PeekOk(p.Ended(stream), peek)
    ensures Peeked(p, stream, peek) == p
  {
  }

  lemma PassNext(p: Pipes, limit: nat, inputs: seq<PumpInput>, input: PumpInput)
    ensures PumpsPass(p, limit, inputs + [input]) <==>
            && PumpsPass(p, limit, inputs) && PumpOk(PumpedAll(p, inputs), input)
            && PumpedAll(p, inputs + [input]).Total() <= limit
  {
    assert (inputs + [input])[..|inputs|] == inputs;
  }

  lemma {:induction false} PumpedMore(p: Pipes, a: seq<PumpInput>, b: seq<PumpInput>)
    ensures PumpedAll(p, a + b) == PumpedAll(PumpedAll(p, a), b)
  {
    if b == [] {
      assert a + b == a;
    } else {
      assert (a + b)[..|a + b| - 1] == a + b[..|b| - 1];
      PumpedMore(p, a, b[..|b| - 1]);
    }
  }

  lemma {:induction false} PassPrefix(p: Pipes, limit: nat, inputs: seq<PumpInput>, n: nat)
    requires n <= |inputs| && PumpsPass(p, limit, inputs)
    ensures PumpsPass(p, limit, inputs[..n])
    decreases |inputs|
  {
    if n < |inputs| {
      PassPrefix(p, limit, inputs[..|inputs| - 1], n);
      assert inputs[..|inputs| - 1][..n] == inputs[..n];
    } else {
      assert inputs[..n] == inputs;
    }
  }

  /** What was printed of one pipe after a block of which `kept` was retained. */
  lemma PrintedMore(shown: seq<byte>, read: seq<byte>, kept: seq<byte>, block: seq<byte>)
    requires shown <= read && kept <= block && (kept == [] || shown == read)
    ensures shown + kept <= read + block
    ensures kept == block && shown == read ==> shown + kept == read + block
  {
    assert read + block == read[..|shown|] + (read[|shown|..] + block);
  }

  /** What was printed is what was read, up to the limit. */
  predicate Printed(limit: nat, bytes: nat, stdout: seq<byte>, stderr: seq<byte>, p: Pipes, limited: bool) {
    && |stdout| + |stderr| == bytes <= limit
    && stdout <= p.out && stderr <= p.err
    && (limited <==> p.Total() > limit)
    && (!limited ==> stdout == p.out && stderr == p.err)
    && (limited ==> bytes == limit)
  }

  // ----- what an event changes ------------------------------------------------------------------

  /** The root process of a launch and its pinned executable. */
  datatype Root = Root(pid: nat, pin: Option<Pin>)

  function RootOf(launch: LaunchInput): Root {
    Root(launch.rootPid, if launch.rootPin.Ok? then Some(launch.rootPin.value) else None)
  }

  /** A job is created and a root process started. */
  predicate Starts(launch: LaunchInput) {
    launch.rootPin.Ok? && launch.job && launch.started
  }

  predicate LaunchOk(launch: LaunchInput) {
    Starts(launch) && launch.joined && launch.resumed
  }

  /** The first process is the root exactly when it has the launched process id. */
  predicate IsRoot(x: Lives, e: DebugEvent, root: Root) {
    e.pid == root.pid && x.view.processes == []
  }

  /** The file an image is bound to: the root's own executable, or the file reopened for the event. */
  function BoundPin(own: bool, root: Root, input: BindInput): Option<Pin> {
    if own then root.pin
    else match input.reopened.result
      case Ok(pin) => Some(pin)
      case Refused(_) => None
  }

  /** A new process, after its record and before its image. */
  function Started(x: Lives, e: DebugEvent, event: nat, own: bool): Lives {
    var k := |x.view.processes|;
    AddProcess(x, e.pid, NewLive(k, e.tid, own), ProcessEntry(k, e.pid, own, event, None))
  }

  /** A new process with its executable image. */
  predicate Created(x: Lives, y: Lives, d: Delivery, event: nat, root: Root) {
    var e, own := d.event, IsRoot(x, d.event, root);
    var pin := BoundPin(own, root, d.input.bind);
    && e.pid !in x.live && pin.Some?
    && Binds(Started(x, e, event, own), y, e.pid, e.base, Executable, pin.value, event)
  }

  /** What a handled event of a live process does to lifetimes; Created is the case of a new process. */
  predicate Handled(x: Lives, y: Lives, d: Delivery, event: nat) {
    var e := d.event;
    && e.pid in x.live
    && var p := x.live[e.pid];
    && match e.code
       case 1 => Touches(x, y, e.pid, p.threads, true)
       case 2 => Touches(x, y, e.pid, p.threads + {e.tid}, p.exceptionSeen)
       case 4 => Touches(x, y, e.pid, p.threads - {e.tid}, p.exceptionSeen)
       case 5 => Exits(x, y, e.pid, event, e.exitCode)
       case 6 =>
         && d.input.bind.reopened.result.Ok?
         && Binds(x, y, e.pid, e.base, Dll, d.input.bind.reopened.result.value, event)
       case 7 => Unbinds(x, y, e.pid, e.base, event, true)
       case 8 => y.live == x.live && y.pins == x.pins && y.view.images == x.view.images && y.view.processes == x.view.processes
       case _ => false
  }

  /** Whether the event is continued as handled: all but the exceptions that are not the loader breakpoint. */
  predicate ContinuesHandled(x: Lives, e: DebugEvent) {
    e.code == 1 && e.pid in x.live ==>
      !x.live[e.pid].exceptionSeen && e.tid == x.live[e.pid].initialThread && e.loaderBreakpoint
  }

  function EntryOf(e: DebugEvent, event: nat): EventEntry {
    EventEntry(event, e.code, e.pid, e.tid)
  }

  /** The whole effect of an admitted event. */
  predicate Effect(x: Lives, y: Lives, d: Delivery, event: nat, root: Root) {
    && y.view.events == x.view.events + [EntryOf(d.event, event)]
    && if d.event.code == 3 then Created(x, y, d, event, root) else Handled(x, y, d, event)
  }

  /** The effect does not depend on pipe output. */
  lemma EffectOfSame(x: Lives, w: Lives, y: Lives, d: Delivery, event: nat, root: Root)
    requires SameFacts(x, w) && Effect(w, y, d, event, root)
    ensures Effect(x, y, d, event, root)
  {
  }

  // ----- which events are admitted --------------------------------------------------------------

  predicate BindAdmits(p: Pipes, l: Limits, images: nat, taken: map<nat, nat>, base: nat, own: bool, root: Root,
                       input: BindInput) {
    && input.fileOk && images < l.images && base != 0 && base !in taken
    && (!own ==> PumpsPass(p, l.output, input.reopened.pumps))
    && var pin := BoundPin(own, root, input);
    && pin.Some? && input.seen == Ok((pin.value.path, pin.value.identity))
  }

  /** A release that finds the digest the image was pinned with. */
  predicate ReleaseAdmits(p: Pipes, l: Limits, sha: string, hash: HashInput, closed: bool) {
    PumpsPass(p, l.output, hash.pumps) && hash.result == Ok(sha) && closed
  }

  /** The releases of an exit, in the order in which the images were loaded. */
  predicate ReleasesAdmit(p: Pipes, l: Limits, images: seq<ImageEntry>, indices: set<nat>, input: EventInput)
    decreases indices
  {
    indices == {}
    || (var i := Least(indices);
        && i < |images| && ReleaseAdmits(p, l, images[i].sha, input.hashes(i), input.pinClosed(i))
        && ReleasesAdmit(PumpedAll(p, input.hashes(i).pumps), l, images, indices - {i}, input))
  }

  /** The conditions under which a new process is recorded, before its image is bound. */
  predicate CreateStarts(x: Lives, joined: bool, root: Root, d: Delivery) {
    && d.event.pid !in x.live && |x.view.processes| < MAX_PROCESSES && joined && d.input.inJob
    && (x.view.processes == [] ==> IsRoot(x, d.event, root))
  }

  predicate CreateAdmits(x: Lives, p: Pipes, l: Limits, joined: bool, root: Root, d: Delivery) {
    && CreateStarts(x, joined, root, d)
    && BindAdmits(p, l, |x.view.images|, map[], d.event.base, IsRoot(x, d.event, root), root, d.input.bind)
  }

  predicate LiveAdmits(x: Lives, p: Pipes, l: Limits, root: Root, d: Delivery) {
    var e := d.event;
    && e.pid in x.live
    && var process := x.live[e.pid];
    && (e.tid in process.threads <==> e.code != 2)
    && match e.code
       case 5 => ReleasesAdmit(p, l, x.view.images, process.images.Values, d.input)
       case 6 => BindAdmits(p, l, |x.view.images|, process.images, e.base, false, root, d.input.bind)
       case 7 =>
         && e.base in process.images
         && var i := process.images[e.base];
         && i < |x.view.images|
         && ReleaseAdmits(p, l, x.view.images[i].sha, d.input.hashes(i), d.input.pinClosed(i))
       case 9 => false
       case _ => true
  }

  /** The pipes after an image was bound, or was not: its file is only hashed once the other conditions hold. */
  function BindPipes(p: Pipes, l: Limits, images: nat, taken: map<nat, nat>, base: nat, own: bool, input: BindInput): Pipes {
    if own || !input.fileOk || images >= l.images || base == 0 || base in taken then p
    else PumpedTo(p, l.output, input.reopened.pumps)
  }

  /** The pipes after the releases of an exit, up to the first one that is not admitted. */
  function ReleasePipes(p: Pipes, l: Limits, images: seq<ImageEntry>, indices: set<nat>, input: EventInput): Pipes
    decreases indices
  {
    if indices == {} then p
    else
      var i := Least(indices);
      var q := PumpedTo(p, l.output, input.hashes(i).pumps);
      if i < |images| && ReleaseAdmits(p, l, images[i].sha, input.hashes(i), input.pinClosed(i))
      then ReleasePipes(q, l, images, indices - {i}, input) else q
  }

  /** The pipes after an event of a live process: files are hashed with a pump before each read. */
  function LivePipes(x: Lives, p: Pipes, l: Limits, d: Delivery): Pipes {
    var e := d.event;
    if e.pid !in x.live || (e.tid in x.live[e.pid].threads <==> e.code == 2) then p
    else
      var images := x.live[e.pid].images;
      match e.code
      case 5 => ReleasePipes(p, l, x.view.images, images.Values, d.input)
      case 6 => BindPipes(p, l, |x.view.images|, images, e.base, false, d.input.bind)
      case 7 => if e.base in images then PumpedTo(p, l.output, d.input.hashes(images[e.base]).pumps) else p
      case _ => p
  }

  function CreatePipes(x: Lives, p: Pipes, l: Limits, joined: bool, root: Root, d: Delivery): Pipes {
    if CreateStarts(x, joined, root, d)
    then BindPipes(p, l, |x.view.images|, map[], d.event.base, IsRoot(x, d.event, root), d.input.bind) else p
  }

  /** The pipes after an event, admitted or not. */
  function EventPipes(x: Lives, p: Pipes, l: Limits, joined: bool, root: Root, d: Delivery, event: nat): Pipes {
    if !(1 <= d.event.code <= 9) || event > l.events then p
    else if d.event.code == 3 then CreatePipes(x, p, l, joined, root, d)
    else LivePipes(x, p, l, d)
  }

  /** The live processes after an event, admitted or not: an exiting process is forgotten in any case. */
  function LiveAfter(x: Lives, l: Limits, joined: bool, root: Root, d: Delivery, event: nat): set<nat> {
    var e := d.event;
    if e.code == 5 then x.live.Keys - {e.pid}
    else if e.code == 3 && event <= l.events && CreateStarts(x, joined, root, d) then x.live.Keys + {e.pid}
    else x.live.Keys
  }

  /** Pipes and live processes after an event, by its code. */
  lemma ByCode(x: Lives, p: Pipes, l: Limits, joined: bool, root: Root, d: Delivery, event: nat)
    ensures var e, known := d.event, 1 <= d.event.code <= 9 && event <= l.events;
            && EventPipes(x, p, l, joined, root, d, event) ==
               (if !known then p else if e.code == 3 then CreatePipes(x, p, l, joined, root, d) else LivePipes(x, p, l, d))
            && LiveAfter(x, l, joined, root, d, event) ==
               (if known && e.code == 3 then x.live.Keys + if CreateStarts(x, joined, root, d) then {e.pid} else {}
                else x.live.Keys - if e.code == 5 then {e.pid} else {})
  {
    hide CreatePipes, LivePipes, CreateStarts;
  }

  /** Whether the observer handles the event without a failure. */
  predicate Admits(x: Lives, p: Pipes, l: Limits, joined: bool, root: Root, d: Delivery, event: nat) {
    && 1 <= d.event.code <= 9 && event <= l.events
    && if d.event.code == 3 then CreateAdmits(x, p, l, joined, root, d) else LiveAdmits(x, p, l, root, d)
  }

  /** The lifetimes just after an event was recorded. */
  function Recorded(x: Lives, e: DebugEvent, event: nat): Lives {
    x.(view := x.view.(events := x.view.events + [EntryOf(e, event)]))
  }

  /** The record of an event changes neither admission nor effect. */
  lemma RecordedAdmits(x: Lives, w: Lives, p: Pipes, l: Limits, joined: bool, root: Root, d: Delivery, event: nat)
    requires w == Recorded(x, d.event, event)
    ensures CreateAdmits(w, p, l, joined, root, d) <==> CreateAdmits(x, p, l, joined, root, d)
    ensures LiveAdmits(w, p, l, root, d) <==> LiveAdmits(x, p, l, root, d)
    ensures ContinuesHandled(w, d.event) <==> ContinuesHandled(x, d.event)
    ensures CreateStarts(w, joined, root, d) <==> CreateStarts(x, joined, root, d)
    ensures EventPipes(w, p, l, joined, root, d, event) == EventPipes(x, p, l, joined, root, d, event)
  {
  }

  lemma RecordedEffect(x: Lives, w: Lives, y: Lives, d: Delivery, event: nat, root: Root)
    requires w == Recorded(x, d.event, event)
    ensures Created(w, y, d, event, root) ==> Created(x, y, d, event, root)
    ensures Handled(w, y, d, event) ==> Handled(x, y, d, event)
  {
  }

  lemma AdmitsSame(x: Lives, w: Lives, p: Pipes, l: Limits, joined: bool, root: Root, d: Delivery, event: nat)
    requires SameFacts(x, w)
    ensures Admits(x, p, l, joined, root, d, event) <==> Admits(w, p, l, joined, root, d, event)
  {
  }

  // ----- the trace of a run ---------------------------------------------------------------------

  const NO_LIVES := Lives(map[], map[], EMPTY_VIEW, map[], map[])

  /** The event records of a sequence of deliveries. */
  function Entries(ds: seq<Delivery>): (r: seq<EventEntry>)
    ensures |r| == |ds|
  {
    seq(|ds|, i requires 0 <= i < |ds| => EntryOf(ds[i].event, i + 1))
  }

  /** The lifetimes after each of the first deliveries, each the effect of its event on the ones before. */
  predicate Chain(history: seq<Lives>, ds: seq<Delivery>, root: Root) {
    && 0 < |history| <= |ds| + 1
    && SameFacts(history[0], NO_LIVES)
    && forall i | 0 <= i < |history| - 1 :: Effect(history[i], history[i + 1], ds[i], i + 1, root)
  }

  lemma ChainMore(history: seq<Lives>, ds: seq<Delivery>, root: Root, x: Lives, y: Lives, d: Delivery)
    requires Chain(history, ds, root) && |history| == |ds| + 1 && SameFacts(history[|history| - 1], x)
    requires Effect(x, y, d, |ds| + 1, root)
    ensures Chain(history + [y], ds + [d], root)
  {
    hide Effect, SameFacts;
    EffectOfSame(history[|history| - 1], x, y, d, |ds| + 1, root);
  }

  /** Before the first delivery, the launched root does not matter. */
  lemma ChainOfNone(history: seq<Lives>, root: Root, other: Root)
    requires Chain(history, [], root)
    ensures Chain(history, [], other)
  {
  }

  lemma ChainLater(history: seq<Lives>, ds: seq<Delivery>, root: Root, d: Delivery)
    requires Chain(history, ds, root)
    ensures Chain(history, ds + [d], root)
  {
    hide Effect, SameFacts;
  }

  lemma EntriesMore(ds: seq<Delivery>, d: Delivery)
    ensures Entries(ds + [d]) == Entries(ds) + [EntryOf(d.event, |ds| + 1)]
  {
  }

  /** The deliveries of the turns that waited. */
  function Deliveries(turns: seq<Turn>): seq<Delivery> {
    if turns == [] then []
    else Deliveries(turns[..|turns| - 1]) + DeliveryOf(turns[|turns| - 1])
  }

  function DeliveryOf(turn: Turn): seq<Delivery> {
    if turn.wait.Event? then [turn.wait.delivery] else []
  }

  lemma DeliveriesNext(turns: seq<Turn>, n: nat)
    requires n < |turns|
    ensures Deliveries(turns[..n + 1]) == Deliveries(turns[..n]) + DeliveryOf(turns[n])
  {
    assert turns[..n + 1][..n] == turns[..n];
  }

  // ----- processes ------------------------------------------------------------------------------

  /** The number of deliveries that create a process. */
  function Creations(ds: seq<Delivery>): nat {
    if ds == [] then 0 else Creations(ds[..|ds| - 1]) + if ds[|ds| - 1].event.code == 3 then 1 else 0
  }

  lemma EffectCounts(x: Lives, y: Lives, d: Delivery, event: nat, root: Root)
    requires Effect(x, y, d, event, root)
    ensures |y.view.processes| == |x.view.processes| + if d.event.code == 3 then 1 else 0
  {
  }

  /** A chain of effects has as many processes as creations. */
  lemma {:induction false} ChainCounts(history: seq<Lives>, ds: seq<Delivery>, root: Root, n: nat)
    requires Chain(history, ds, root) && n < |history|
    ensures |history[n].view.processes| == Creations(ds[..n])
  {
    hide Effect;
    if n > 0 {
      ChainCounts(history, ds, root, n - 1);
      assert Effect(history[n - 1], history[n], ds[n - 1], n, root);
      EffectCounts(history[n - 1], history[n], ds[n - 1], n, root);
      assert ds[..n][..n - 1] == ds[..n - 1];
    }
  }
}
