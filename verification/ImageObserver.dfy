/**
 The debug-event observer (`_Observer`). Calls into Windows are inputs, so every method is verified for every result.
 */
module ImageObserver {
  import opened Wrappers
  import opened Bytes
  import opened Sets
  import opened ImageReceipt
  import opened ImageLifetimes
  import opened ImageEvents
  import opened ImageTurns

  /** Only pipe output was added to the rebuilt closure. */
  predicate SameLifetimes(v: View, w: View) {
    v.images == w.images && v.processes == w.processes && v.events == w.events && v.done == w.done
  }

  /** Some first pumps of `inputs` were taken. */
  predicate TookFirst(before: seq<PumpInput>, after: seq<PumpInput>, inputs: seq<PumpInput>) {
    exists k | 0 <= k <= |inputs| :: after == before + inputs[..k]
  }

  /** A pump between the reads of a file that is hashed for an event. */
  ghost predicate PumpOf(input: EventInput, pump: PumpInput) {
    pump in input.bind.reopened.pumps || exists i: nat :: pump in input.hashes(i).pumps
  }

  ghost predicate TookFromEvent(before: seq<PumpInput>, after: seq<PumpInput>, input: EventInput) {
    before <= after && forall j | |before| <= j < |after| :: PumpOf(input, after[j])
  }

  /** The pumps of a turn: its own, and then those of its event. */
  ghost predicate PumpsOfTurn(turn: Turn, pumps: seq<PumpInput>) {
    && pumps != [] && pumps[0] == turn.pump
    && forall j | 1 <= j < |pumps| :: turn.wait.Event? && PumpOf(turn.wait.delivery.input, pumps[j])
  }

  function Flatten(parts: seq<seq<PumpInput>>): seq<PumpInput> {
    if parts == [] then [] else Flatten(parts[..|parts| - 1]) + parts[|parts| - 1]
  }

  /** Deliveries and pumps are those of the first turns, of which `waited` came to their wait. */
  ghost predicate Followed(turns: seq<Turn>, waited: nat, parts: seq<seq<PumpInput>>, ds: seq<Delivery>,
                           took: seq<PumpInput>) {
    && waited <= |parts| <= |turns| && |parts| <= waited + 1
    && ds == Deliveries(turns[..waited]) && took == Flatten(parts)
    && forall i | 0 <= i < |parts| :: PumpsOfTurn(turns[i], parts[i])
  }

  lemma FollowedNone(turns: seq<Turn>)
    ensures Followed(turns, 0, [], [], [])
  {
    assert turns[..0] == [];
  }

  lemma FollowedMore(turns: seq<Turn>, parts: seq<seq<PumpInput>>, ds: seq<Delivery>, took: seq<PumpInput>,
                     pumps: seq<PumpInput>, came: bool)
    requires |parts| < |turns| && Followed(turns, |parts|, parts, ds, took) && PumpsOfTurn(turns[|parts|], pumps)
    ensures Followed(turns, if came then |parts| + 1 else |parts|, parts + [pumps],
                     ds + if came then DeliveryOf(turns[|parts|]) else [], took + pumps)
  {
    hide PumpsOfTurn, Deliveries, DeliveryOf;
    DeliveriesNext(turns, |parts|);
    assert (parts + [pumps])[..|parts|] == parts;
  }

  lemma TookAsEvent(before: seq<PumpInput>, after: seq<PumpInput>, pumps: seq<PumpInput>, input: EventInput)
    requires TookFirst(before, after, pumps) && forall pump | pump in pumps :: PumpOf(input, pump)
    ensures TookFromEvent(before, after, input)
  {
    var k :| 0 <= k <= |pumps| && after == before + pumps[..k];
    forall j | |before| <= j < |after| ensures PumpOf(input, after[j]) {
      assert after[j] == pumps[j - |before|];
    }
  }

  lemma TookMore(before: seq<PumpInput>, mid: seq<PumpInput>, after: seq<PumpInput>, input: EventInput)
    requires TookFromEvent(before, mid, input) && TookFromEvent(mid, after, input)
    ensures TookFromEvent(before, after, input)
  {
    hide PumpOf;
    assert forall j | |before| <= j < |mid| :: after[j] == mid[j];
  }

  class Observer {
    const limits: Limits
    var live: map<nat, Process>
    var pins: map<nat, Pin>
    var rootPin: Option<Pin>
    var rootPid: nat
    var processCount: nat
    var imageCount: nat
    var events: nat
    var continued: nat
    var outputBytes: nat
    var eof: (bool, bool)
    var reason: Option<Refusal>
    var jobOpen: bool        // the owned job exists
    var running: bool        // the root process exists
    var joined: bool         // the root process is in the owned job
    var resumed: bool
    var killed: bool
    var rootExited: bool
    var rootReaped: bool
    var cleaning: bool       // the cleanup deadline is set
    var draining: bool       // the root drain deadline is set
    var cleanupOk: bool
    var outputLimited: bool
    var timedOut: bool
    var emitted: seq<Record>

    // what the decoder will have rebuilt, and where each image and process is
    ghost var view: View
    ghost var owners: map<nat, (nat, nat)>
    ghost var pids: map<nat, nat>
    // every pump that was made, and the bytes that it took from the two pipes
    ghost var pumped: seq<PumpInput>
    ghost var readOut: seq<byte>
    ghost var readErr: seq<byte>
    // every delivered event, the lifetimes after each handled one, and the executable of the launch
    ghost var delivered: seq<Delivery>
    ghost var history: seq<Lives>
    ghost var launched: Option<Pin>

    ghost function State(): Lives
      reads this`live, this`pins, this`view, this`owners, this`pids
    {
      Lives(live, pins, view, owners, pids)
    }

    ghost function ReadPipes(): Pipes
      reads this`readOut, this`readErr, this`eof
    {
      Pipes(readOut, readErr, eof)
    }

    /** What the event loop goes by. */
    ghost function Now(): Watch
      reads this`live, this`pins, this`view, this`owners, this`pids, this`readOut, this`readErr, this`eof, this`events,
            this`rootExited, this`rootReaped, this`draining
    {
      Watch(State(), ReadPipes(), events, rootExited, rootReaped, draining)
    }

    ghost function LaunchRoot(): Root
      reads this`rootPid, this`launched
    {
      Root(rootPid, launched)
    }

    /** The emitted records decode to `view`, which agrees with the counters. */
    ghost predicate Decodes()
      reads this`emitted, this`view, this`imageCount, this`processCount, this`events
    {
      && DecodeAll(limits, emitted) == Some(view) && view.done.None? && AllUnreleased(emitted)
      && |view.images| == imageCount <= limits.images
      && |view.processes| == processCount <= MAX_PROCESSES
      && |view.events| <= events && |view.events| <= limits.events
      && DigestsKept(view.images)
    }

    /** What was printed is what was read of the pipes, up to the limit. */
    ghost predicate Prints()
      reads this`view, this`outputBytes, this`readOut, this`readErr, this`eof, this`outputLimited
    {
      Printed(limits.output, outputBytes, view.stdout, view.stderr, ReadPipes(), outputLimited)
    }

    /** What was read of the pipes is what the pumps took. */
    ghost predicate Taken()
      reads this`pumped, this`readOut, this`readErr, this`eof
    {
      ReadPipes() == PumpedAll(NO_PIPES, pumped)
    }

    ghost predicate Core()
      reads this`emitted, this`view, this`imageCount, this`processCount, this`events, this`outputBytes, this`readOut,
            this`readErr, this`eof, this`outputLimited, this`pumped
    {
      Decodes() && Prints() && Taken()
    }

    /** Lifetimes are coupled, and the root executable is pinned until its process is created. */
    ghost predicate Ready()
      reads this`live, this`pins, this`view, this`owners, this`pids, this`running, this`processCount, this`rootPin,
            this`launched
    {
      Coupled(State()) && (running && processCount == 0 ==> rootPin == launched && launched.Some?)
    }

    /** While no failure is recorded, every event was recorded. */
    ghost predicate Healthy()
      reads this`live, this`pins, this`view, this`owners, this`pids, this`events, this`running, this`processCount,
            this`rootPin, this`launched
    {
      Ready() && |view.events| == events
    }

    /** The recorded events are those of the first deliveries, and `history` is the chain of their effects. */
    ghost predicate TracedSoFar()
      reads this`delivered, this`history, this`view, this`events, this`rootPid, this`launched
    {
      |delivered| == events && view.events <= Entries(delivered) && Chain(history, delivered, LaunchRoot())
    }

    /** Every delivery was recorded and handled, and the last link of the chain is the present. */
    ghost predicate UpToDate()
      reads this`delivered, this`history, this`view, this`events, this`live, this`pins, this`owners, this`pids
    {
      |history| == events + 1 && SameFacts(history[events], State()) && view.events == Entries(delivered)
    }

    ghost predicate Traced()
      reads this`delivered, this`history, this`view, this`reason, this`events, this`live, this`pins, this`owners,
            this`pids, this`rootPid, this`launched
    {
      TracedSoFar() && (reason.None? ==> UpToDate())
    }

    /** The last delivery was counted but not handled yet. */
    ghost predicate Pending(d: Delivery)
      reads this`delivered, this`history, this`view, this`events, this`live, this`pins, this`owners, this`pids,
            this`rootPid, this`launched
    {
      && events > 0 && |delivered| == |history| == events && delivered[events - 1] == d
      && var before := delivered[..events - 1];
      && Chain(history, before, LaunchRoot()) && SameFacts(history[events - 1], State())
      && view.events == Entries(before)
    }

    ghost predicate Valid()
      reads this`emitted, this`view, this`imageCount, this`processCount, this`events, this`outputBytes, this`readOut,
            this`readErr, this`eof, this`outputLimited, this`pumped, this`delivered, this`history, this`reason, this`live,
            this`pins, this`owners, this`pids, this`rootPid, this`launched, this`running, this`rootPin, this`continued,
            this`cleaning
    {
      Sound() && (reason.None? ==> !outputLimited)
    }

    /** What holds also between a failure and its record. */
    ghost predicate Sound()
      reads this`emitted, this`view, this`imageCount, this`processCount, this`events, this`outputBytes, this`readOut,
            this`readErr, this`eof, this`outputLimited, this`pumped, this`delivered, this`history, this`reason, this`live,
            this`pins, this`owners, this`pids, this`rootPid, this`launched, this`running, this`rootPin, this`continued,
            this`cleaning
    {
      && Core() && Traced() && continued <= events
      && (reason.None? ==> Healthy() && continued == events && !cleaning)
    }

    /** An observer that has not been launched. */
    ghost predicate Unused()
      reads this
    {
      && Valid() && reason.None? && !jobOpen && !running && !joined && cleanupOk && processCount == 0
      && emitted == [] && delivered == [] && pumped == [] && continued == 0
      && !rootExited && !rootReaped && !draining && !killed
    }

    /** A failure starts the cleanup and, as long as that is clean, terminates the job. */
    ghost predicate Sweeping()
      reads this`reason, this`cleaning, this`cleanupOk, this`killed
    {
      if reason.None? then !killed else cleaning && (cleanupOk ==> killed)
    }

    constructor (limits: Limits)
      ensures Unused() && fresh(this) && this.limits == limits
    {
      this.limits := limits;
      live, pins, rootPin, rootPid, processCount, imageCount := map[], map[], None, 0, 0, 0;
      events, continued, outputBytes, eof, reason := 0, 0, 0, (false, false), None;
      jobOpen, running, joined, resumed, killed := false, false, false, false, false;
      rootExited, rootReaped := false, false;
      cleaning, draining, cleanupOk, outputLimited, timedOut := false, false, true, false, false;
      emitted, view, owners, pids, readOut, readErr := [], EMPTY_VIEW, map[], map[], [], [];
      pumped, delivered, history, launched := [], [], [NO_LIVES], None;
    }

    method Emit(r: Record)
      requires DecodeAll(limits, emitted) == Some(view) && Step(view, limits, r).Some?
      requires AllUnreleased(emitted) && (r.NewImage? ==> r.image.release.None?)
      modifies this`emitted, this`view
      ensures DecodeAll(limits, emitted) == Some(view) && view == Step(old(view), limits, r).value
      ensures emitted == old(emitted) + [r] && AllUnreleased(emitted)
    {
      DecodeMore(limits, emitted, r);
      emitted := emitted + [r];
      view := Step(view, limits, r).value;
    }

    // ----- the pipes ----------------------------------------------------------------------------

    /** Retain what fits the output limit, and note what does not. */
    method RetainBlock(stream: nat, block: seq<byte>)
      requires stream < 2 && Decodes() && Prints() && !ReadPipes().Ended(stream)
      modifies this`emitted, this`view, this`outputBytes, this`outputLimited, this`readOut, this`readErr
      ensures Decodes() && Prints() && SameLifetimes(view, old(view))
      ensures ReadPipes() == Peeked(old(ReadPipes()), stream, Block(block))
      ensures var kept := block[..old(Kept(block))];
              emitted == old(emitted) + if kept == [] then [] else [Output(stream, kept)]
    {
      hide DigestsKept, DecodeAll, AllUnreleased;
      var remaining := limits.output - outputBytes;
      var kept := if |block| <= remaining then block else block[..remaining];
      assert kept == block[..Kept(block)];
      if stream == 0 {
        PrintedMore(view.stdout, readOut, kept, block);
        readOut := readOut + block;
      } else {
        PrintedMore(view.stderr, readErr, kept, block);
        readErr := readErr + block;
      }
      if kept != [] {
        outputBytes := outputBytes + |kept|;
        Emit(Output(stream, kept));
      }
      if |block| > remaining {
        outputLimited := true;
      }
    }

    /** How much of a block still fits the output limit. */
    ghost function Kept(block: seq<byte>): (n: nat)
      reads this`outputBytes
      ensures n <= |block|
    {
      var remaining := if outputBytes < limits.output then limits.output - outputBytes else 0;
      if |block| <= remaining then |block| else remaining
    }

    /** One pipe of `pump`. */
    method PumpOne(stream: nat, peek: Peek) returns (r: Outcome<Refusal>)
      requires stream < 2 && Decodes() && Prints()
      modifies this`emitted, this`view, this`outputBytes, this`outputLimited, this`eof, this`readOut, this`readErr
      ensures Decodes() && Prints() && SameLifetimes(view, old(view)) && old(emitted) <= emitted
      ensures r.Pass? <==> PeekOk(old(ReadPipes()).Ended(stream), peek)
      ensures ReadPipes() == if r.Pass? then Peeked(old(ReadPipes()), stream, peek) else old(ReadPipes())
    {
      hide DigestsKept, DecodeAll, AllUnreleased;
      if (if stream == 0 then eof.0 else eof.1) {
        return Pass;
      }
      match peek {
        case PipeEnd =>
          eof := if stream == 0 then (true, eof.1) else (eof.0, true);
          return Pass;
        case Quiet =>
          return Pass;
        case PeekFails =>
          return Fail(SystemCall);
        case Block(block) =>
          if block == [] {
            return Fail(PipeShortRead);
          }
          RetainBlock(stream, block);
          return Pass;
      }
    }

    /** `pump`: both pipes, in order. */
    method Pump(input: PumpInput) returns (r: Outcome<Refusal>)
      requires Core()
      modifies this`emitted, this`view, this`outputBytes, this`outputLimited, this`eof, this`readOut, this`readErr,
               this`pumped
      ensures Core() && SameLifetimes(view, old(view))
      ensures running ==> ReadPipes() == Pumped(old(ReadPipes()), input) && pumped == old(pumped) + [input]
      ensures running ==> (r.Pass? <==> PumpOk(old(ReadPipes()), input))
      ensures !running ==> r.Pass? && emitted == old(emitted) && ReadPipes() == old(ReadPipes()) && pumped == old(pumped)
    {
      hide Decodes, Printed, PumpedAll, Peeked, PeekOk;
      if !running {
        return Pass;
      }
      PumpedNext(NO_PIPES, pumped, input);
      OtherPipe(ReadPipes(), input.out);
      pumped := pumped + [input];
      r := PumpOne(0, input.out);
      if r.Fail? {
        return;
      }
      ghost var second := ReadPipes();
      r := PumpOne(1, input.err);
      if r.Fail? {
        RefusedPeek(second, 1, input.err);
      }
    }

    /** Reading a file to its digest, with a pump before each read. */
    method HashFile(input: HashInput) returns (r: Result<string, Refusal>)
      requires Core() && running
      modifies this`emitted, this`view, this`outputBytes, this`outputLimited, this`eof, this`readOut, this`readErr,
               this`pumped
      ensures Core() && SameLifetimes(view, old(view))
      ensures r.Ok? <==> PumpsPass(old(ReadPipes()), limits.output, input.pumps) && input.result.Ok?
      ensures (r.Ok? ==> r == input.result) && ReadPipes() == PumpedTo(old(ReadPipes()), limits.output, input.pumps)
      ensures r.Ok? && !old(outputLimited) ==> !outputLimited
      ensures TookFirst(old(pumped), pumped, input.pumps)
    {
      hide Decodes, Printed, Prints, Taken, PumpOk, Pumped, PumpedAll, PumpsPass, PumpedTo;
      ghost var start := ReadPipes();
      ghost var took: seq<PumpInput> := [];
      NothingPumped(start);
      for k := 0 to |input.pumps|
        invariant Core() && SameLifetimes(view, old(view)) && pumped == old(pumped) + took && took == input.pumps[..k]
        invariant ReadPipes() == PumpedAll(start, took) && PumpsPass(start, limits.output, took)
        invariant !old(outputLimited) ==> !outputLimited
      {
        assert took + [input.pumps[k]] == input.pumps[..k + 1] && took == input.pumps[..k];
        PumpedNext(start, took, input.pumps[k]);
        PassNext(start, limits.output, took, input.pumps[k]);
        took := took + [input.pumps[k]];
        var result := Pump(input.pumps[k]);
        assert TookFirst(old(pumped), pumped, input.pumps);
        if result.Fail? {
          NotPassed(start, input.pumps, k);
          return Refused(result.error);
        }
        LimitedIsTotal();
        if outputLimited {
          NotPassed(start, input.pumps, k);
          return Refused(OutputLimitExceeded);
        }
      }
      assert took == input.pumps;
      assert pumped == old(pumped) + input.pumps[..|input.pumps|];
      PumpedToEnd(start, limits.output, input.pumps);
      r := input.result;
    }

    lemma NothingPumped(p: Pipes)
      ensures PumpedAll(p, []) == p && PumpsPass(p, limits.output, [])
    {
    }

    lemma LimitedIsTotal()
      requires Prints()
      ensures outputLimited <==> ReadPipes().Total() > limits.output
    {
    }

    lemma NotPassed(start: Pipes, pumps: seq<PumpInput>, n: nat)
      requires n < |pumps| && PumpsPass(start, limits.output, pumps[..n]) && !PumpsPass(start, limits.output, pumps[..n + 1])
      ensures !PumpsPass(start, limits.output, pumps)
      ensures PumpedTo(start, limits.output, pumps) == PumpedAll(start, pumps[..n + 1])
    {
      hide PumpsPass, PumpedTo, PumpedAll;
      if PumpsPass(start, limits.output, pumps) {
        PassPrefix(start, limits.output, pumps, n + 1);
      }
      PumpedToStop(start, limits.output, pumps, n);
    }

    // ----- images -------------------------------------------------------------------------------

    /** `bind`: pin the file of a loaded image and record it. */
    method Bind(pid: nat, base: nat, kind: Kind, input: BindInput) returns (r: Outcome<Refusal>)
      requires Core() && Coupled(State()) && pid in live && running
      requires kind.Executable? && live[pid].root ==> rootPin == launched && rootPin.Some?
      modifies this`emitted, this`view, this`outputBytes, this`outputLimited, this`eof, this`readOut, this`readErr,
               this`pumped, this`live, this`pins, this`owners, this`imageCount, this`rootPin
      ensures Core() && view.processes == old(view.processes) && view.events == old(view.events)
      ensures var own := kind.Executable? && old(live)[pid].root;
              && (r.Pass? <==> BindAdmits(old(ReadPipes()), limits, old(imageCount), old(live)[pid].images, base, own,
                                          LaunchRoot(), input))
              && (r.Pass? ==> Binds(old(State()), State(), pid, base, kind, BoundPin(own, LaunchRoot(), input).value, events))
      ensures r.Pass? ==> Coupled(State()) && (!old(outputLimited) ==> !outputLimited)
      ensures ReadPipes() == BindPipes(old(ReadPipes()), limits, old(imageCount), old(live)[pid].images, base,
                                       kind.Executable? && old(live)[pid].root, input)
      ensures live.Keys == old(live).Keys && (kind.Dll? ==> rootPin == old(rootPin))
      ensures TookFirst(old(pumped), pumped, input.reopened.pumps)
    {
      hide Decodes, Printed, Prints, Taken, PinsMatch, OwnersMatch, IndexesMatch, ProcessesMatch, PumpsPass, PumpedAll,
           PumpedTo, Binds, Coupled;
      assert pumped == old(pumped) + input.reopened.pumps[..0];
      CountIsLength();
      if !input.fileOk {
        return Fail(MissingImageHandle);
      }
      if imageCount >= limits.images {
        return Fail(ImageLimit);
      }
      if base == 0 || base in live[pid].images {
        return Fail(DuplicateImageBase);
      }
      ghost var before := State();
      var pin: Pin;
      if kind.Executable? && live[pid].root {
        pin := rootPin.value;
        if input.seen.Refused? {
          return Fail(input.seen.reason);
        }
        if input.seen.value != (pin.path, pin.identity) {
          return Fail(RootImageIdentity);
        }
        rootPin := None;
      } else {
        var inspected := HashFile(HashInput(input.reopened.pumps, Ok("")));
        if inspected.Refused? {
          return Fail(inspected.reason);
        }
        if input.reopened.result.Refused? {
          return Fail(input.reopened.result.reason);
        }
        pin := input.reopened.result.value;
        if input.seen.Refused? {
          return Fail(input.seen.reason);
        }
        if input.seen.value != (pin.path, pin.identity) {
          return Fail(ImageEventIdentity);
        }
      }
      OutputKeepsCoupled(before, view);
      ghost var after := State();
      RecordImage(pid, base, kind, pin);
      BindsFromSame(before, after, State(), pid, base, kind, pin);
      r := Pass;
    }

    lemma CountIsLength()
      requires Decodes()
      ensures imageCount == |view.images| && processCount == |view.processes|
    {
    }

    lemma OutputKeepsCoupled(before: Lives, v: View)
      requires Coupled(before) && SameLifetimes(v, before.view)
      ensures Coupled(before.(view := v))
    {
      OtherRecordsKeep(before, v);
    }

    lemma BindsFromSame(x: Lives, w: Lives, y: Lives, pid: nat, base: nat, kind: Kind, pin: Pin)
      requires SameFacts(x, w) && Binds(w, y, pid, base, kind, pin, events)
      ensures Binds(x, y, pid, base, kind, pin, events)
    {
    }

    method RecordImage(pid: nat, base: nat, kind: Kind, pin: Pin)
      requires Core() && Coupled(State()) && pid in live && base !in live[pid].images && imageCount < limits.images
      modifies this`emitted, this`view, this`live, this`pins, this`owners, this`imageCount
      ensures Core() && view.processes == old(view.processes) && view.events == old(view.events)
      ensures Coupled(State()) && live.Keys == old(live).Keys
      ensures Binds(old(State()), State(), pid, base, kind, pin, events)
    {
      hide Printed, DecodeAll, PinsMatch, OwnersMatch, IndexesMatch, ProcessesMatch, AllUnreleased, PumpedAll;
      var process := live[pid];
      var index := imageCount;
      var entry := ImageEntry(index, process.index, kind, pin.path, pin.identity, pin.sha, events, None);
      BindKeeps(State(), pid, base, pin, entry);
      BindBinds(State(), pid, base, pin, kind, events);
      hide Coupled, Binds, Matches;
      ghost var after := BindImage(State(), pid, base, pin, entry);
      imageCount := imageCount + 1;
      pins := pins[index := pin];
      live := live[pid := process.(images := process.images[base := index])];
      Emit(NewImage(entry));
      owners := after.owners;
      assert State() == after;
    }

    /**
     `release` of the image that `pid` has at `base`. The image also leaves the map of its process; the original
     leaves the map of an exiting process in place and then drops the process with it.
     */
    method ReleaseAt(pid: nat, base: nat, byUnload: bool, hash: HashInput, closed: bool) returns (r: Outcome<Refusal>)
      requires Core() && Coupled(State()) && pid in live && base in live[pid].images && running
      modifies this`emitted, this`view, this`outputBytes, this`outputLimited, this`eof, this`readOut, this`readErr,
               this`pumped, this`live, this`pins, this`owners
      ensures Core() && view.processes == old(view.processes) && view.events == old(view.events)
      ensures old(live)[pid].images[base] < |old(view).images|
      ensures var sha := old(view).images[old(live)[pid].images[base]].sha;
              r.Pass? <==> ReleaseAdmits(old(ReadPipes()), limits, sha, hash, closed)
      ensures r.Pass? ==> Coupled(State()) && Unbinds(old(State()), State(), pid, base, events, byUnload)
      ensures ReadPipes() == PumpedTo(old(ReadPipes()), limits.output, hash.pumps) && live.Keys == old(live).Keys
      ensures r.Pass? && !old(outputLimited) ==> !outputLimited
      ensures TookFirst(old(pumped), pumped, hash.pumps)
    {
      hide Decodes, Printed, Prints, Taken, PinsMatch, OwnersMatch, IndexesMatch, ProcessesMatch, PumpsPass, PumpedAll, PumpedTo,
           Unbinds, Coupled, TookFirst;
      ghost var before := State();
      OwnedIsPinned(before, pid, base);
      var index := live[pid].images[base];
      var pin := pins[index];
      var post := HashFile(hash);
      OutputKeepsCoupled(before, view);
      ghost var after := State();
      r := Pass;
      if post.Refused? {
        r := Fail(post.reason);
      } else if post.value != pin.sha {
        r := Fail(ImageDigestChanged);
      } else {
        RecordRelease(pid, base, index, Release(post.value, events, byUnload));
        UnbindsFromSame(before, after, State(), pid, base, byUnload);
      }
      if r.Fail? {
        pins := pins - {index};
        live := live[pid := live[pid].(images := live[pid].images - {base})];
      }
      if !closed {
        r := Fail(HandleClose);
      }
    }

    lemma UnbindsFromSame(x: Lives, w: Lives, y: Lives, pid: nat, base: nat, byUnload: bool)
      requires SameFacts(x, w) && Unbinds(w, y, pid, base, events, byUnload)
      ensures Unbinds(x, y, pid, base, events, byUnload)
    {
    }

    method RecordRelease(pid: nat, base: nat, index: nat, release: Release)
      requires Core() && Coupled(State()) && pid in live && base in live[pid].images && live[pid].images[base] == index
      requires index < |view.images| && view.images[index].release.None? && release.post == view.images[index].sha
      modifies this`emitted, this`view, this`live, this`pins, this`owners
      ensures Core() && view.processes == old(view.processes) && view.events == old(view.events)
      ensures Coupled(State()) && Unbinds(old(State()), State(), pid, base, release.event, release.byUnload)
    {
      hide Printed, DecodeAll, PinsMatch, OwnersMatch, IndexesMatch, ProcessesMatch, AllUnreleased, PumpedAll;
      ReleaseKeeps(State(), pid, base, release);
      ReleaseUnbinds(State(), pid, base, release);
      hide Coupled, Unbinds;
      ghost var after := ReleaseImage(State(), pid, base, release);
      Emit(Released(index, release));
      pins := pins - {index};
      live := live[pid := live[pid].(images := live[pid].images - {base})];
      owners := after.owners;
      assert State() == after;
    }

    /** The release loop of a process exit, after the images in `gone`. */
    ghost predicate Dropping(start: Lives, pid: nat, gone: set<nat>)
      reads this`live, this`pins, this`view, this`owners, this`pids, this`events
    {
      && pid in live && pid in start.live && live == start.live[pid := start.live[pid].(images := live[pid].images)]
      && Drops(start, State(), gone, events)
      && gone + live[pid].images.Values == start.live[pid].images.Values && gone !! live[pid].images.Values
    }

    /** One turn of the release loop: the image that was loaded first. */
    method ReleaseNext(pid: nat, input: EventInput, ghost start: Lives, ghost gone: set<nat>)
      returns (r: Outcome<Refusal>, ghost index: nat)
      requires Core() && Coupled(State()) && Dropping(start, pid, gone) && live[pid].images != map[] && running
      modifies this`emitted, this`view, this`outputBytes, this`outputLimited, this`eof, this`readOut, this`readErr,
               this`pumped, this`live, this`pins, this`owners
      ensures Core() && view.processes == old(view.processes) && view.events == old(view.events)
      ensures index == Least(old(live)[pid].images.Values) && index < |start.view.images|
      ensures r.Pass? <==> ReleaseAdmits(old(ReadPipes()), limits, start.view.images[index].sha, input.hashes(index),
                                         input.pinClosed(index))
      ensures r.Pass? ==> Coupled(State()) && Dropping(start, pid, gone + {index})
      ensures r.Pass? ==> live[pid].images.Keys < old(live)[pid].images.Keys
      ensures r.Pass? ==> live[pid].images.Values == old(live)[pid].images.Values - {index}
      ensures ReadPipes() == PumpedTo(old(ReadPipes()), limits.output, input.hashes(index).pumps)
      ensures live.Keys == old(live).Keys
      ensures r.Pass? && !old(outputLimited) ==> !outputLimited
      ensures TookFirst(old(pumped), pumped, input.hashes(index).pumps)
    {
      hide Core, PinsMatch, OwnersMatch, IndexesMatch, ProcessesMatch, Coupled, Drops, ReleaseAdmits, PumpedTo, TookFirst;
      var base := OldestBase(live[pid].images);
      var oldest := live[pid].images[base];
      index := oldest;
      ghost var before := State();
      DropsKeep(start, before, gone);
      r := ReleaseAt(pid, base, false, input.hashes(oldest), input.pinClosed(oldest));
      if r.Fail? {
        return;
      }
      DropsMore(start, before, State(), gone, pid, base, events);
      WithoutOne(before, pid, base);
    }

    /** The images that are not dropped yet are as before. */
    lemma DropsKeep(x: Lives, y: Lives, gone: set<nat>)
      requires Drops(x, y, gone, events)
      ensures |x.view.images| == |y.view.images|
      ensures forall i | 0 <= i < |x.view.images| && i !in gone :: y.view.images[i] == x.view.images[i]
    {
    }

    /** The release loop of a process exit, in the order in which the images were loaded. */
    method ReleaseAll(pid: nat, input: EventInput) returns (r: Outcome<Refusal>)
      requires Core() && Coupled(State()) && pid in live && running
      modifies this`emitted, this`view, this`outputBytes, this`outputLimited, this`eof, this`readOut, this`readErr,
               this`pumped, this`live, this`pins, this`owners
      ensures Core() && view.processes == old(view.processes) && view.events == old(view.events)
      ensures r.Pass? <==> ReleasesAdmit(old(ReadPipes()), limits, old(view).images, old(live)[pid].images.Values, input)
      ensures r.Pass? ==> Coupled(State()) && live == old(live)[pid := old(live)[pid].(images := map[])]
      ensures r.Pass? ==> Drops(old(State()), State(), old(live)[pid].images.Values, events)
      ensures ReadPipes() == ReleasePipes(old(ReadPipes()), limits, old(view).images, old(live)[pid].images.Values, input)
      ensures live.Keys == old(live).Keys
      ensures r.Pass? && !old(outputLimited) ==> !outputLimited
      ensures TookFromEvent(old(pumped), pumped, input)
    {
      hide Core, Coupled, Dropping, ReleasesAdmit, ReleaseAdmits, PumpedTo, TookFirst, TookFromEvent, ReleasePipes;
      ghost var start, gone := State(), {};
      ghost var all := ReleasesAdmit(ReadPipes(), limits, view.images, live[pid].images.Values, input);
      ghost var end := ReleasePipes(ReadPipes(), limits, view.images, live[pid].images.Values, input);
      DroppingNone(pid);
      TookNothing(pumped, input);
      while live[pid].images != map[]
        invariant Core() && view.processes == old(view.processes) && view.events == old(view.events)
        invariant Coupled(State()) && pid in live && Dropping(start, pid, gone)
        invariant TookFromEvent(old(pumped), pumped, input) && (!old(outputLimited) ==> !outputLimited)
        invariant all <==> ReleasesAdmit(ReadPipes(), limits, start.view.images, live[pid].images.Values, input)
        invariant end == ReleasePipes(ReadPipes(), limits, start.view.images, live[pid].images.Values, input)
        invariant live.Keys == old(live).Keys
        decreases live[pid].images.Keys
      {
        ghost var pipes, before := ReadPipes(), pumped;
        SomeValue(live[pid].images);
        ReleasesNext(pipes, start.view.images, live[pid].images.Values, input);
        ghost var index: nat;
        r, index := ReleaseNext(pid, input, start, gone);
        TookHash(old(pumped), before, pumped, index, input);
        if r.Fail? {
          return;
        }
        gone := gone + {index};
        DroppingLive(start, pid, gone);
      }
      DroppedAll(start, pid, gone);
      ReleasesNone(ReadPipes(), start.view.images, input);
      r := Pass;
    }

    lemma DroppingNone(pid: nat)
      requires pid in live
      ensures Dropping(State(), pid, {})
    {
      DropsNone(State());
    }

    lemma DroppingLive(start: Lives, pid: nat, gone: set<nat>)
      requires Dropping(start, pid, gone)
      ensures pid in live
    {
    }

    lemma DroppedAll(start: Lives, pid: nat, gone: set<nat>)
      requires Dropping(start, pid, gone) && live[pid].images == map[]
      ensures live == start.live[pid := start.live[pid].(images := map[])]
      ensures Drops(start, State(), start.live[pid].images.Values, events) && live[pid].images.Values == {}
    {
      assert live[pid].images.Values == {} && gone == start.live[pid].images.Values;
    }

    lemma SomeValue(images: map<nat, nat>)
      requires images != map[]
      ensures images.Values != {}
    {
      assert images.Keys != {};
      var any :| any in images.Keys;
      assert images[any] in images.Values;
    }

    lemma DropsNone(x: Lives)
      ensures Drops(x, x, {}, events)
    {
    }

    lemma ReleasesNone(p: Pipes, images: seq<ImageEntry>, input: EventInput)
      ensures ReleasesAdmit(p, limits, images, {}, input) && ReleasePipes(p, limits, images, {}, input) == p
    {
    }

    lemma ReleasesNext(p: Pipes, images: seq<ImageEntry>, indices: set<nat>, input: EventInput)
      requires indices != {}
      ensures var i := Least(indices);
              var q := PumpedTo(p, limits.output, input.hashes(i).pumps);
              && (ReleasesAdmit(p, limits, images, indices, input) <==>
                    && i < |images| && ReleaseAdmits(p, limits, images[i].sha, input.hashes(i), input.pinClosed(i))
                    && ReleasesAdmit(q, limits, images, indices - {i}, input))
              && ReleasePipes(p, limits, images, indices, input) ==
                 if i < |images| && ReleaseAdmits(p, limits, images[i].sha, input.hashes(i), input.pinClosed(i))
                 then ReleasePipes(q, limits, images, indices - {i}, input) else q
    {
      var i := Least(indices);
      if PumpsPass(p, limits.output, input.hashes(i).pumps) {
        PumpedToEnd(p, limits.output, input.hashes(i).pumps);
      }
    }

    lemma TookNothing(before: seq<PumpInput>, input: EventInput)
      ensures TookFromEvent(before, before, input)
    {
    }

    lemma TookHash(start: seq<PumpInput>, before: seq<PumpInput>, after: seq<PumpInput>, i: nat, input: EventInput)
      requires TookFromEvent(start, before, input) && TookFirst(before, after, input.hashes(i).pumps)
      ensures TookFromEvent(start, after, input)
    {
      TookAsEvent(before, after, input.hashes(i).pumps, input);
      TookMore(start, before, after, input);
    }

    lemma WithoutOne(x: Lives, pid: nat, base: nat)
      requires Coupled(x) && pid in x.live && base in x.live[pid].images
      ensures var images := x.live[pid].images; (images - {base}).Values == images.Values - {images[base]}
    {
      ValuesWithout(x, pid, base);
    }

    /** Where the first loaded image is. */
    method OldestBase(images: map<nat, nat>) returns (base: nat)
      requires images != map[]
      ensures base in images && images[base] == Least(images.Values)
    {
      SomeValue(images);
      base :| base in images && images[base] == Least(images.Values);
    }

    // ----- events -------------------------------------------------------------------------------

    /** The record of a created process. */
    method RecordProcess(pid: nat, tid: nat, root: bool)
      requires Core() && Coupled(State()) && pid !in live && processCount < MAX_PROCESSES
      modifies this`emitted, this`view, this`live, this`pids, this`processCount
      ensures Core() && view.events == old(view.events) && processCount == old(processCount) + 1
      ensures Coupled(State())
      ensures State() == AddProcess(old(State()), pid, NewLive(old(processCount), tid, root),
                                    ProcessEntry(old(processCount), pid, root, events, None))
    {
      hide Printed, DecodeAll, PinsMatch, OwnersMatch, IndexesMatch, ProcessesMatch, AllUnreleased, PumpedAll;
      var process := Process(processCount, root, map[], {tid}, tid, false);
      var entry := ProcessEntry(processCount, pid, root, events, None);
      AddProcessKeeps(State(), pid, process, entry);
      ghost var after := AddProcess(State(), pid, process, entry);
      processCount := processCount + 1;
      live := live[pid := process];
      Emit(NewProcess(entry));
      pids := after.pids;
      assert State() == after;
    }

    method RecordExit(pid: nat, exitCode: int)
      requires Core() && Coupled(State()) && pid in live && live[pid].images == map[]
      modifies this`emitted, this`view, this`live, this`pids
      ensures Core() && view.events == old(view.events)
      ensures Coupled(State()) && old(live)[pid].index < |old(view).processes|
      ensures State() == RemoveProcess(old(State()), pid, Exit(events, exitCode))
    {
      hide Printed, DecodeAll, PinsMatch, OwnersMatch, IndexesMatch, ProcessesMatch, AllUnreleased, PumpedAll;
      var exit := Exit(events, exitCode);
      RemoveKeeps(State(), pid, exit);
      ghost var after := RemoveProcess(State(), pid, exit);
      Emit(Exited(live[pid].index, exit));
      live := live - {pid};
      pids := after.pids;
      assert State() == after;
    }

    method RecordEvent(e: DebugEvent)
      requires Core() && Coupled(State()) && |view.events| + 1 == events && events <= limits.events
      modifies this`emitted, this`view
      ensures Core() && Coupled(State()) && |view.events| == events
      ensures view == old(view).(events := old(view).events + [EntryOf(e, events)])
    {
      hide DecodeAll, DigestsKept, AllUnreleased, PumpedAll;
      ghost var before := State();
      Emit(NewEvent(EventEntry(events, e.code, e.pid, e.tid)));
      OtherRecordsKeep(before, view);
    }

    /** Change the threads or the exception flag of a live process. */
    method Touch(pid: nat, threads: set<nat>, exceptionSeen: bool)
      requires Core() && Coupled(State()) && pid in live
      modifies this`live
      ensures Core() && Coupled(State()) && Touches(old(State()), State(), pid, threads, exceptionSeen)
    {
      hide DecodeAll, PinsMatch, OwnersMatch, IndexesMatch, ProcessesMatch, AllUnreleased, PumpedAll;
      var process := live[pid].(threads := threads, exceptionSeen := exceptionSeen);
      TouchKeeps(State(), pid, process);
      live := live[pid := process];
    }

    /** `event`: Ok tells whether the event is continued as handled. */
    method Handle(d: Delivery, ghost x: Lives, ghost p: Pipes, ghost root: Root) returns (r: Result<bool, Refusal>)
      requires x == State() && p == ReadPipes() && root == LaunchRoot()
      requires Core() && Coupled(State()) && |view.events| + 1 == events
      requires running && (processCount == 0 ==> rootPin == launched && launched.Some?)
      modifies this`emitted, this`view, this`outputBytes, this`outputLimited, this`eof, this`readOut, this`readErr,
               this`pumped, this`live, this`pins, this`owners, this`pids, this`imageCount, this`processCount, this`rootPin
      ensures Core() && (r.Ok? <==> Admits(x, p, limits, joined, root, d, events))
      ensures r.Ok? ==> Healthy() && Effect(x, State(), d, events, root)
      ensures ReadPipes() == EventPipes(x, p, limits, joined, root, d, events)
      ensures r.Refused? ==> live.Keys - (if d.event.code == 5 then {d.event.pid} else {})
                             == LiveAfter(x, limits, joined, root, d, events)
      ensures r.Ok? ==> (r.value <==> ContinuesHandled(x, d.event)) && (!old(outputLimited) ==> !outputLimited)
      ensures view.events == old(view).events || view.events == old(view).events + [EntryOf(d.event, events)]
      ensures TookFromEvent(old(pumped), pumped, d.input)
    {
      hide Core, Coupled, Handled, Created, CreateAdmits, LiveAdmits, TookFromEvent, SameFacts, CreatePipes, LivePipes,
           CreateStarts, EventPipes, LiveAfter;
      TookNothing(pumped, d.input);
      ByCode(x, p, limits, joined, root, d, events);
      if !(1 <= d.event.code <= 9) {
        return Refused(UnknownDebugEvent);
      }
      if events > limits.events {
        return Refused(EventLimit);
      }
      RecordEvent(d.event);
      ghost var after := State();
      RecordedAdmits(x, after, p, limits, joined, root, d, events);
      ByCode(after, p, limits, joined, root, d, events);
      if d.event.code == 3 {
        r := HandleCreate(d);
      } else {
        r := HandleLive(d);
      }
      RecordedEffect(x, after, State(), d, events, root);
    }

    method HandleCreate(d: Delivery) returns (r: Result<bool, Refusal>)
      requires Core() && Coupled(State()) && |view.events| == events && d.event.code == 3
      requires running && (processCount == 0 ==> rootPin == launched && launched.Some?)
      modifies this`emitted, this`view, this`outputBytes, this`outputLimited, this`eof, this`readOut, this`readErr,
               this`pumped, this`live, this`pins, this`owners, this`pids, this`imageCount, this`processCount, this`rootPin
      ensures Core() && view.events == old(view).events
      ensures r.Ok? <==> CreateAdmits(old(State()), old(ReadPipes()), limits, joined, LaunchRoot(), d)
      ensures r.Ok? ==> Healthy() && Created(old(State()), State(), d, events, LaunchRoot()) && r.value
      ensures ReadPipes() == CreatePipes(old(State()), old(ReadPipes()), limits, joined, LaunchRoot(), d)
      ensures live.Keys == old(live).Keys
                           + if old(CreateStarts(State(), joined, LaunchRoot(), d)) then {d.event.pid} else {}
      ensures r.Ok? && !old(outputLimited) ==> !outputLimited
      ensures TookFromEvent(old(pumped), pumped, d.input)
    {
      hide Core, Coupled, Binds, TookFromEvent, BindAdmits, BoundPin, IsRoot, Started, BindPipes;
      var e := d.event;
      CoreCounts();
      TookNothing(pumped, d.input);
      if e.pid in live || processCount >= MAX_PROCESSES {
        return Refused(ProcessLimitOrDuplicate);
      }
      if !joined || !d.input.inJob {
        return Refused(ProcessOutsideJob);
      }
      var own := e.pid == rootPid && processCount == 0;
      OwnIsRoot(e, own);
      if processCount == 0 && !own {
        return Refused(FirstProcessNotRoot);
      }
      var bound := Create(d, own);
      r := if bound.Pass? then Ok(true) else Refused(bound.error);
    }

    /** The record of a new process and its executable image. */
    method Create(d: Delivery, own: bool) returns (r: Outcome<Refusal>)
      requires Core() && Coupled(State()) && d.event.pid !in live && processCount < MAX_PROCESSES && running
      requires own ==> rootPin == launched && launched.Some?
      modifies this`emitted, this`view, this`outputBytes, this`outputLimited, this`eof, this`readOut, this`readErr,
               this`pumped, this`live, this`pins, this`owners, this`pids, this`imageCount, this`processCount, this`rootPin
      ensures Core() && view.events == old(view).events && processCount > 0
      ensures r.Pass? <==> BindAdmits(old(ReadPipes()), limits, |old(view).images|, map[], d.event.base, own, LaunchRoot(),
                                      d.input.bind)
      ensures var pin := BoundPin(own, LaunchRoot(), d.input.bind);
              r.Pass? ==> && Coupled(State()) && pin.Some?
                          && Binds(Started(old(State()), d.event, events, own), State(), d.event.pid, d.event.base,
                                   Executable, pin.value, events)
      ensures ReadPipes() == BindPipes(old(ReadPipes()), limits, |old(view).images|, map[], d.event.base, own, d.input.bind)
      ensures live.Keys == old(live).Keys + {d.event.pid}
      ensures r.Pass? && !old(outputLimited) ==> !outputLimited
      ensures TookFromEvent(old(pumped), pumped, d.input)
    {
      hide Core, Coupled, Binds, TookFromEvent, BindAdmits, BoundPin, BindPipes;
      var e := d.event;
      ghost var before, pipes, took := State(), ReadPipes(), pumped;
      CoreCounts();
      RecordProcess(e.pid, e.tid, own);
      assert State() == Started(before, e, events, own);
      CoreCounts();
      r := Bind(e.pid, e.base, Executable, d.input.bind);
      TookAsEvent(took, pumped, d.input.bind.reopened.pumps, d.input);
      if r.Pass? {
        AdmittedPin(pipes, |before.view.images|, map[], e.base, own, d.input.bind);
      }
    }

    lemma OwnIsRoot(e: DebugEvent, own: bool)
      requires processCount == |view.processes| && own == (e.pid == rootPid && processCount == 0)
      ensures own == IsRoot(State(), e, LaunchRoot())
      ensures processCount == 0 <==> State().view.processes == []
    {
    }

    lemma AdmittedPin(p: Pipes, images: nat, taken: map<nat, nat>, base: nat, own: bool, input: BindInput)
      requires BindAdmits(p, limits, images, taken, base, own, LaunchRoot(), input)
      ensures BoundPin(own, LaunchRoot(), input).Some?
    {
    }

    lemma CoreCounts()
      requires Core()
      ensures imageCount == |view.images| && processCount == |view.processes|
    {
    }

    method HandleExit(d: Delivery) returns (r: Outcome<Refusal>)
      requires Core() && Coupled(State()) && d.event.pid in live && running
      modifies this`emitted, this`view, this`outputBytes, this`outputLimited, this`eof, this`readOut, this`readErr,
               this`pumped, this`live, this`pins, this`owners, this`pids
      ensures Core() && view.events == old(view).events
      ensures r.Pass? <==> ReleasesAdmit(old(ReadPipes()), limits, old(view).images,
                                         old(live)[d.event.pid].images.Values, d.input)
      ensures r.Pass? ==> Coupled(State()) && Exits(old(State()), State(), d.event.pid, events, d.event.exitCode)
      ensures ReadPipes() == ReleasePipes(old(ReadPipes()), limits, old(view).images,
                                          old(live)[d.event.pid].images.Values, d.input)
      ensures r.Fail? ==> live.Keys == old(live).Keys
      ensures r.Pass? && !old(outputLimited) ==> !outputLimited
      ensures TookFromEvent(old(pumped), pumped, d.input)
    {
      hide Core, Coupled, Drops, Exits, TookFromEvent, ReleasesAdmit, ReleasePipes;
      ghost var before := State();
      r := ReleaseAll(d.event.pid, d.input);
      if r.Pass? {
        ghost var mid := State();
        RecordExit(d.event.pid, d.event.exitCode);
        ReleasedThenRemoved(before, mid, State(), d.event.pid, events, d.event.exitCode);
      }
    }

    method HandleLoad(d: Delivery) returns (r: Outcome<Refusal>)
      requires Core() && Coupled(State()) && d.event.pid in live && running
      modifies this`emitted, this`view, this`outputBytes, this`outputLimited, this`eof, this`readOut, this`readErr,
               this`pumped, this`live, this`pins, this`owners, this`imageCount, this`rootPin
      ensures Core() && view.events == old(view).events && rootPin == old(rootPin)
      ensures r.Pass? <==> BindAdmits(old(ReadPipes()), limits, |old(view).images|, old(live)[d.event.pid].images,
                                      d.event.base, false, LaunchRoot(), d.input.bind)
      ensures r.Pass? ==> && Coupled(State()) && d.input.bind.reopened.result.Ok?
                          && Binds(old(State()), State(), d.event.pid, d.event.base, Dll,
                                   d.input.bind.reopened.result.value, events)
      ensures ReadPipes() == BindPipes(old(ReadPipes()), limits, |old(view).images|, old(live)[d.event.pid].images,
                                       d.event.base, false, d.input.bind)
      ensures live.Keys == old(live).Keys
      ensures r.Pass? && !old(outputLimited) ==> !outputLimited
      ensures TookFromEvent(old(pumped), pumped, d.input)
    {
      hide Core, Coupled, Binds, TookFromEvent, PumpsPass, BindPipes;
      CoreCounts();
      ghost var before := pumped;
      r := Bind(d.event.pid, d.event.base, Dll, d.input.bind);
      TookAsEvent(before, pumped, d.input.bind.reopened.pumps, d.input);
    }

    method HandleUnload(d: Delivery) returns (r: Outcome<Refusal>)
      requires Core() && Coupled(State()) && d.event.pid in live && running
      modifies this`emitted, this`view, this`outputBytes, this`outputLimited, this`eof, this`readOut, this`readErr,
               this`pumped, this`live, this`pins, this`owners
      ensures Core() && view.events == old(view).events
      ensures var images := old(live)[d.event.pid].images;
              r.Pass? <==> && d.event.base in images
                           && var i := images[d.event.base];
                           && i < |old(view).images|
                           && ReleaseAdmits(old(ReadPipes()), limits, old(view).images[i].sha, d.input.hashes(i),
                                            d.input.pinClosed(i))
      ensures r.Pass? ==> Coupled(State()) && Unbinds(old(State()), State(), d.event.pid, d.event.base, events, true)
      ensures var images := old(live)[d.event.pid].images;
              ReadPipes() == if d.event.base !in images then old(ReadPipes())
                             else PumpedTo(old(ReadPipes()), limits.output, d.input.hashes(images[d.event.base]).pumps)
      ensures live.Keys == old(live).Keys
      ensures r.Pass? && !old(outputLimited) ==> !outputLimited
      ensures TookFromEvent(old(pumped), pumped, d.input)
    {
      hide Core, Coupled, Unbinds, TookFromEvent, ReleaseAdmits, PumpedTo;
      TookNothing(pumped, d.input);
      var images := live[d.event.pid].images;
      if d.event.base !in images {
        return Fail(UnloadForUnknownImage);
      }
      var index := images[d.event.base];
      ghost var before := pumped;
      r := ReleaseAt(d.event.pid, d.event.base, true, d.input.hashes(index), d.input.pinClosed(index));
      TookAsEvent(before, pumped, d.input.hashes(index).pumps, d.input);
    }

    /** The events of a live process that bind or release images. */
    method HandleImages(d: Delivery) returns (r: Outcome<Refusal>)
      requires Core() && Coupled(State()) && |view.events| == events && d.event.code in {5, 6, 7}
      requires running && (processCount == 0 ==> rootPin == launched && launched.Some?)
      requires d.event.pid in live && d.event.tid in live[d.event.pid].threads
      modifies this`emitted, this`view, this`outputBytes, this`outputLimited, this`eof, this`readOut, this`readErr,
               this`pumped, this`live, this`pins, this`owners, this`pids, this`imageCount, this`processCount, this`rootPin
      ensures Core() && view.events == old(view).events
      ensures r.Pass? <==> LiveAdmits(old(State()), old(ReadPipes()), limits, LaunchRoot(), d)
      ensures r.Pass? ==> Healthy() && Handled(old(State()), State(), d, events)
      ensures ReadPipes() == LivePipes(old(State()), old(ReadPipes()), limits, d)
      ensures r.Fail? ==> live.Keys == old(live).Keys
      ensures r.Pass? && !old(outputLimited) ==> !outputLimited
      ensures TookFromEvent(old(pumped), pumped, d.input)
    {
      hide Core, Coupled, Binds, Unbinds, Drops, TookFromEvent, BindAdmits, BoundPin, ReleasesAdmit, ReleaseAdmits,
           ReleasePipes, BindPipes, PumpedTo;
      CoreCounts();
      if d.event.code == 5 {
        r := HandleExit(d);
      } else if d.event.code == 6 {
        r := HandleLoad(d);
      } else {
        r := HandleUnload(d);
      }
    }

    method HandleLive(d: Delivery) returns (r: Result<bool, Refusal>)
      requires Core() && Coupled(State()) && |view.events| == events && 1 <= d.event.code <= 9 && d.event.code != 3
      requires running && (processCount == 0 ==> rootPin == launched && launched.Some?)
      modifies this`emitted, this`view, this`outputBytes, this`outputLimited, this`eof, this`readOut, this`readErr,
               this`pumped, this`live, this`pins, this`owners, this`pids, this`imageCount, this`processCount, this`rootPin
      ensures Core() && view.events == old(view).events
      ensures r.Ok? <==> LiveAdmits(old(State()), old(ReadPipes()), limits, LaunchRoot(), d)
      ensures r.Ok? ==> Healthy() && Handled(old(State()), State(), d, events)
      ensures ReadPipes() == LivePipes(old(State()), old(ReadPipes()), limits, d)
      ensures r.Refused? ==> live.Keys == old(live).Keys
      ensures r.Ok? ==> (r.value <==> ContinuesHandled(old(State()), d.event)) && (!old(outputLimited) ==> !outputLimited)
      ensures TookFromEvent(old(pumped), pumped, d.input)
    {
      hide Core, Coupled, Binds, Unbinds, Drops, TookFromEvent, BindAdmits, BoundPin, ReleasesAdmit, ReleaseAdmits,
           ReleasePipes, BindPipes, PumpedTo;
      var e := d.event;
      TookNothing(pumped, d.input);
      if e.pid !in live {
        return Refused(EventForUnknownProcess);
      }
      var process := live[e.pid];
      if e.code == 2 && e.tid in process.threads {
        return Refused(DuplicateThread);
      }
      if e.code != 2 && e.tid !in process.threads {
        return Refused(EventForUnknownThread);
      }
      if e.code == 9 {
        return Refused(DebugRip);
      }
      if e.code == 5 || e.code == 6 || e.code == 7 {
        var done := HandleImages(d);
        return if done.Pass? then Ok(true) else Refused(done.error);
      }
      if e.code == 1 {
        var initial := !process.exceptionSeen && e.tid == process.initialThread;
        Touch(e.pid, process.threads, true);
        return Ok(initial && e.loaderBreakpoint);
      }
      if e.code == 2 {
        Touch(e.pid, process.threads + {e.tid}, process.exceptionSeen);
      } else if e.code == 4 {
        Touch(e.pid, process.threads - {e.tid}, process.exceptionSeen);
      }
      r := Ok(true);
    }

    // ----- failures and deliveries --------------------------------------------------------------

    /** `fail`: keep the first reason and start the cleanup. */
    method RecordFailure(refusal: Refusal, terminated: bool)
      requires TracedSoFar()
      modifies this`reason, this`timedOut, this`cleaning, this`killed, this`cleanupOk
      ensures Traced() && cleaning && reason == (if old(reason).None? then Some(refusal) else old(reason))
      ensures timedOut == (old(timedOut) || refusal == DeadlineExceeded)
      ensures cleanupOk <==> old(cleanupOk) && (running && !old(killed) && joined ==> terminated)
      ensures killed <==> old(killed) || (running && (joined ==> terminated))
    {
      hide TracedSoFar, UpToDate;
      if reason.None? {
        reason := Some(refusal);
      }
      timedOut := timedOut || refusal == DeadlineExceeded;
      cleaning := true;
      if running && !killed {
        killed := if joined then terminated else true;
        cleanupOk := cleanupOk && killed;
      }
    }

    /** The count of a delivered event, and the drain clock that the exit of the root starts. */
    method CountEvent(d: Delivery)
      requires Core() && Traced()
      modifies this`events, this`rootExited, this`draining, this`delivered
      ensures Core() && TracedSoFar() && (reason.None? ==> Pending(d))
      ensures State() == old(State())
      ensures events == old(events) + 1 && delivered == old(delivered) + [d]
      ensures rootExited == (old(rootExited) || ExitsRoot(d, LaunchRoot()))
      ensures draining == (old(draining) || ExitsRoot(d, LaunchRoot()))
    {
      hide DecodeAll, DigestsKept, Prints, AllUnreleased, PumpedAll, Chain, SameFacts, Entries;
      ChainLater(history, delivered, LaunchRoot(), d);
      EntriesMore(delivered, d);
      assert (delivered + [d])[..events] == delivered;
      delivered := delivered + [d];
      events := events + 1;
      if d.event.code == 5 && d.event.pid == rootPid {
        rootExited := true;
        draining := true;
      }
    }

    /** Count an event and handle it, or only forget an exiting process once a failure is recorded. */
    method Receive(d: Delivery, terminated: bool, ghost x: Lives, ghost p: Pipes, ghost root: Root)
      requires Valid() && running && Sweeping()
      requires x == State() && p == ReadPipes() && root == LaunchRoot()
      modifies this`emitted, this`view, this`outputBytes, this`outputLimited, this`eof, this`readOut, this`readErr,
               this`pumped, this`live, this`pins, this`owners, this`pids, this`imageCount, this`processCount, this`rootPin,
               this`events, this`rootExited, this`draining, this`delivered, this`history, this`reason, this`timedOut,
               this`cleaning, this`killed, this`cleanupOk
      ensures Core() && Traced() && events == old(events) + 1 && delivered == old(delivered) + [d]
      ensures reason.None? ==> Healthy() && !cleaning && !outputLimited && cleanupOk == old(cleanupOk)
      ensures reason.None? <==> old(reason).None? && Admits(x, p, limits, joined, root, d, events)
      ensures reason.None? ==> Effect(x, State(), d, events, root)
      ensures old(reason).None? ==>
                ReadPipes() == EventPipes(x, p, limits, joined, root, d, events)
      ensures old(reason).None? && reason.Some? ==>
                && live.Keys == LiveAfter(x, limits, joined, root, d, events)
                && (cleanupOk <==> old(cleanupOk) && (joined ==> terminated))
      ensures rootExited == (old(rootExited) || ExitsRoot(d, root))
      ensures draining == (old(draining) || ExitsRoot(d, root))
      ensures old(reason).Some? ==> && emitted == old(emitted) && reason == old(reason) && cleanupOk == old(cleanupOk)
                                    && ReadPipes() == p
      ensures old(reason).Some? ==> live == if d.event.code == 5 then old(live) - {d.event.pid} else old(live)
      ensures Sweeping() && (cleanupOk ==> old(cleanupOk))
      ensures TookFromEvent(old(pumped), pumped, d.input)
    {
      hide Core, Valid, Traced, Ready, Healthy, Effect, Admits, TookFromEvent, TracedSoFar, UpToDate, Pending, State,
           ReadPipes, LaunchRoot, EventPipes, ExitsRoot, LiveAfter;
      if reason.Some? {
        TookNothing(pumped, d.input);
        Ignore(d);
      } else {
        Admit(d, terminated, x, p, root);
      }
    }

    /** An event after a failure is only counted. */
    method Ignore(d: Delivery)
      requires Valid() && running && reason.Some?
      modifies this`events, this`rootExited, this`draining, this`delivered, this`live
      ensures Core() && Traced() && events == old(events) + 1 && delivered == old(delivered) + [d]
      ensures rootExited == (old(rootExited) || ExitsRoot(d, LaunchRoot()))
      ensures draining == (old(draining) || ExitsRoot(d, LaunchRoot()))
      ensures live == if d.event.code == 5 then old(live) - {d.event.pid} else old(live)
    {
      hide Core, Valid, Traced, TracedSoFar, UpToDate, Pending, State, LaunchRoot, ExitsRoot;
      ValidParts();
      CountEvent(d);
      Forget(d);
    }

    /** An event without an earlier failure is handled, or is the first failure. */
    method Admit(d: Delivery, terminated: bool, ghost x: Lives, ghost p: Pipes, ghost root: Root)
      requires Valid() && running && reason.None? && !killed
      requires x == State() && p == ReadPipes() && root == LaunchRoot()
      modifies this`emitted, this`view, this`outputBytes, this`outputLimited, this`eof, this`readOut, this`readErr,
               this`pumped, this`live, this`pins, this`owners, this`pids, this`imageCount, this`processCount, this`rootPin,
               this`events, this`rootExited, this`draining, this`delivered, this`history, this`reason, this`timedOut,
               this`cleaning, this`killed, this`cleanupOk
      ensures Core() && Traced() && events == old(events) + 1 && delivered == old(delivered) + [d]
      ensures reason.None? ==> Healthy() && !cleaning && !outputLimited && cleanupOk == old(cleanupOk) && !killed
      ensures reason.None? <==> Admits(x, p, limits, joined, root, d, events)
      ensures reason.None? ==> Effect(x, State(), d, events, root)
      ensures ReadPipes() == EventPipes(x, p, limits, joined, root, d, events)
      ensures reason.Some? ==> && live.Keys == LiveAfter(x, limits, joined, root, d, events)
                               && (cleanupOk <==> old(cleanupOk) && (joined ==> terminated)) && cleaning
                               && (cleanupOk ==> killed)
      ensures rootExited == (old(rootExited) || ExitsRoot(d, root))
      ensures draining == (old(draining) || ExitsRoot(d, root))
      ensures TookFromEvent(old(pumped), pumped, d.input)
    {
      hide Core, Valid, Traced, Ready, Healthy, Effect, Admits, TookFromEvent, TracedSoFar, UpToDate, Pending, State,
           ReadPipes, LaunchRoot, EventPipes, ExitsRoot, LiveAfter;
      ValidParts();
      CountEvent(d);
      assert State() == x && ReadPipes() == p;
      var refusal := Attempt(d, x, p, root);
      if refusal.Some? {
        GiveUp(d, refusal.value, terminated);
      }
    }

    lemma ValidParts()
      requires Valid()
      ensures Core() && Traced() && (reason.None? ==> Ready() && !cleaning && !outputLimited)
    {
    }

    /** The first event that was not handled. */
    method GiveUp(d: Delivery, refusal: Refusal, terminated: bool)
      requires Core() && TracedSoFar()
      modifies this`live, this`reason, this`timedOut, this`cleaning, this`killed, this`cleanupOk
      ensures Core() && Traced() && reason.Some? && cleaning
      ensures live == if d.event.code == 5 then old(live) - {d.event.pid} else old(live)
      ensures cleanupOk <==> old(cleanupOk) && (running && !old(killed) && joined ==> terminated)
      ensures killed <==> old(killed) || (running && (joined ==> terminated))
    {
      hide Core, TracedSoFar, UpToDate;
      RecordFailure(refusal, terminated);
      Forget(d);
    }

    /** Once a failure is recorded an exiting process is only forgotten. */
    method Forget(d: Delivery)
      requires Core() && TracedSoFar() && reason.Some?
      modifies this`live
      ensures Core() && Traced() && live == if d.event.code == 5 then old(live) - {d.event.pid} else old(live)
    {
      hide Decodes, Prints, Chain, Entries, SameFacts;
      if d.event.code == 5 {
        live := live - {d.event.pid};
      }
    }

    /** Handle the delivery that was just counted. */
    method Attempt(d: Delivery, ghost x: Lives, ghost p: Pipes, ghost root: Root) returns (refusal: Option<Refusal>)
      requires x == State() && p == ReadPipes() && root == LaunchRoot()
      requires Core() && Pending(d) && Ready() && running && !outputLimited
      modifies this`emitted, this`view, this`outputBytes, this`outputLimited, this`eof, this`readOut, this`readErr,
               this`pumped, this`live, this`pins, this`owners, this`pids, this`imageCount, this`processCount, this`rootPin,
               this`history
      ensures Core() && TracedSoFar()
      ensures refusal.None? <==> Admits(x, p, limits, joined, root, d, events)
      ensures refusal.None? ==> Healthy() && UpToDate() && Traced() && !outputLimited
      ensures refusal.None? ==> Effect(x, State(), d, events, root)
      ensures ReadPipes() == EventPipes(x, p, limits, joined, root, d, events)
      ensures refusal.Some? ==> live.Keys - (if d.event.code == 5 then {d.event.pid} else {})
                                == LiveAfter(x, limits, joined, root, d, events)
      ensures TookFromEvent(old(pumped), pumped, d.input)
    {
      hide Coupled, Core, Decodes, Prints, Effect, Admits, TookFromEvent, Chain, SameFacts, EventPipes, LiveAfter;
      ghost var before, ds := x, delivered[..events - 1];
      assert delivered == ds + [d];
      EntriesMore(ds, d);
      ChainLater(history, ds, root, d);
      PendingEvents(d);
      var handled := Handle(d, x, p, root);
      if handled.Refused? {
        return Some(handled.reason);
      }
      ChainMore(history, ds, root, before, State(), d);
      history := history + [State()];
      SameFactsSelf(State());
      EffectEvents(before, State(), d, events, root);
      refusal := None;
    }

    lemma PendingEvents(d: Delivery)
      requires Pending(d)
      ensures |view.events| + 1 == events
    {
    }

    lemma SameFactsSelf(x: Lives)
      ensures SameFacts(x, x)
    {
    }

    lemma EffectEvents(x: Lives, y: Lives, d: Delivery, event: nat, root: Root)
      requires Effect(x, y, d, event, root)
      ensures y.view.events == x.view.events + [EntryOf(d.event, event)]
    {
    }

    /** One delivered debug event: handle it, close its handle and continue it. */
    method Deliver(d: Delivery, handleClosed: bool, released: bool, terminated: bool, ghost x: Lives, ghost p: Pipes, ghost root: Root) returns (r: Outcome<Refusal>)
      requires Valid() && running && Sweeping()
      requires x == State() && p == ReadPipes() && root == LaunchRoot()
      modifies this`emitted, this`view, this`outputBytes, this`outputLimited, this`eof, this`readOut, this`readErr,
               this`pumped, this`live, this`pins, this`owners, this`pids, this`imageCount, this`processCount, this`rootPin,
               this`events, this`rootExited, this`draining, this`delivered, this`history, this`reason, this`timedOut,
               this`cleaning, this`killed, this`cleanupOk, this`continued
      ensures Core() && Traced() && continued <= events && delivered == old(delivered) + [d]
      ensures r.Pass? <==> Dismissed(limits, d, handleClosed, released, events)
      ensures r.Pass? ==> Valid()
      ensures reason.None? <==> old(reason).None? && Admits(x, p, limits, joined, root, d, events)
      ensures reason.None? ==> cleanupOk == old(cleanupOk) && Effect(x, State(), d, events, root)
      ensures old(reason).None? ==>
                ReadPipes() == EventPipes(x, p, limits, joined, root, d, events)
      ensures old(reason).None? && reason.Some? ==>
                && live.Keys == LiveAfter(x, limits, joined, root, d, events)
                && (cleanupOk <==> old(cleanupOk) && (joined ==> terminated))
      ensures old(reason).Some? ==> && reason == old(reason) && cleanupOk == old(cleanupOk) && ReadPipes() == p
                                    && live == if d.event.code == 5 then old(live) - {d.event.pid} else old(live)
      ensures rootExited == (old(rootExited) || ExitsRoot(d, root))
      ensures draining == (old(draining) || ExitsRoot(d, root))
      ensures events == old(events) + 1 && Sweeping() && (cleanupOk ==> old(cleanupOk))
      ensures TookFromEvent(old(pumped), pumped, d.input)
    {
      hide Core, Traced, Ready, Healthy, Effect, Admits, TookFromEvent, State, ReadPipes, LaunchRoot, EventPipes, ExitsRoot,
           LiveAfter, Sweeping;
      Receive(d, terminated, x, p, root);
      if (d.event.code == 3 || d.event.code == 6) && !handleClosed {
        return Fail(HandleClose);
      }
      if !released {
        return Fail(DebugContinueFailed);
      }
      continued := continued + 1;
      r := Need(events <= limits.events + 16384, CleanupEventLimit);
    }

    // ----- the event loop -----------------------------------------------------------------------

    /** The root process has been reaped, when asked in a turn. */
    ghost predicate ReapedBy(polled: bool)
      reads this`rootReaped, this`rootExited
    {
      rootReaped || (rootExited && polled)
    }

    method Reap(polled: bool)
      modifies this`rootReaped
      ensures rootReaped == old(ReapedBy(polled))
    {
      if rootExited && !rootReaped && polled {
        rootReaped := true;
      }
    }

    /** Nothing is left to wait for but the job. */
    ghost predicate Drained()
      reads this`rootReaped, this`live, this`eof
    {
      rootReaped && live == map[] && eof.0 && eof.1
    }

    /** The same, once the root is reaped when asked. */
    ghost predicate DrainedBy(polled: bool)
      reads this`rootReaped, this`rootExited, this`live, this`eof
    {
      ReapedBy(polled) && live == map[] && eof.0 && eof.1
    }

    method PumpTurn(input: PumpInput) returns (r: Outcome<Refusal>)
      requires Valid() && running
      modifies this`emitted, this`view, this`outputBytes, this`outputLimited, this`eof, this`readOut, this`readErr,
               this`pumped
      ensures Sound() && SameFacts(old(State()), State())
      ensures ReadPipes() == Pumped(old(ReadPipes()), input) && pumped == old(pumped) + [input]
      ensures r.Pass? <==> PumpOk(old(ReadPipes()), input)
      ensures outputLimited <==> ReadPipes().Total() > limits.output
    {
      hide Decodes, Printed, Coupled, PumpOk, Pumped, PumpedAll, Chain, Entries;
      ghost var before := State();
      r := Pump(input);
      LimitedIsTotal();
      if reason.None? {
        OutputKeepsCoupled(before, view);
      }
    }

    /** `fail`, between the steps of a turn. */
    method NoteFailure(refusal: Refusal, terminated: bool)
      requires Sound()
      modifies this`reason, this`timedOut, this`cleaning, this`killed, this`cleanupOk
      ensures Valid() && reason.Some? && cleaning
      ensures cleanupOk <==> old(cleanupOk) && (running && !old(killed) && joined ==> terminated)
      ensures killed <==> old(killed) || (running && (joined ==> terminated))
    {
      hide Core, Ready, Healthy, TracedSoFar, UpToDate;
      RecordFailure(refusal, terminated);
    }

    /** The pipes and the clocks of a turn. */
    method StartTurn(turn: Turn, ghost w: Watch) returns (r: Outcome<Refusal>)
      requires Valid() && running && Sweeping() && w.lives == State() && w.pipes == ReadPipes()
      modifies this`emitted, this`view, this`outputBytes, this`outputLimited, this`eof, this`readOut, this`readErr,
               this`pumped, this`reason, this`timedOut, this`cleaning, this`killed, this`cleanupOk
      ensures Sound() && (r.Pass? ==> Valid()) && SameFacts(w.lives, State()) && Sweeping()
      ensures ReadPipes() == Pumped(w.pipes, turn.pump) && pumped == old(pumped) + [turn.pump]
      ensures r.Pass? <==> PumpOk(w.pipes, turn.pump)
      ensures r.Fail? ==> reason == old(reason)
      ensures && (r.Pass? ==> (reason.None? <==> old(reason).None? && !Early(limits, w, turn)))
              && (reason.None? || old(reason).Some? ==> cleanupOk == old(cleanupOk))
              && (reason.Some? && old(reason).None? ==> (cleanupOk <==> old(cleanupOk) && (joined ==> turn.killed)))
    {
      hide Core, Traced, Ready, Healthy, State, Pumped, PumpOk, SameFacts, ReadPipes;
      r := PumpTurn(turn.pump);
      if r.Fail? {
        return;
      }
      if outputLimited {
        NoteFailure(OutputLimitExceeded, turn.killed);
      }
      if !cleaning && turn.late {
        NoteFailure(DeadlineExceeded, turn.killed);
      }
    }

    /** Whether the root and everything else has ended in time. */
    method CheckEnd(turn: Turn, ghost w: Watch) returns (r: Result<LoopEnd, Refusal>)
      requires Valid() && running && Sweeping() && w.rootReaped == rootReaped && w.rootExited == rootExited
      modifies this`reason, this`timedOut, this`cleaning, this`killed, this`cleanupOk, this`rootReaped
      ensures Valid() && Sweeping()
      ensures var passed, late := old(reason).Some? && turn.cleanupLate, old(reason).None? && draining && turn.drainLate;
              && (reason.None? <==> old(reason).None? && !late)
              && (cleanupOk <==> old(cleanupOk) && !passed && (late && joined ==> turn.killed))
              && (passed ==> r == Ok(Break))
              && (!passed ==> && rootReaped == Reaped(w, turn)
                              && (r.Refused? <==> Drained() && turn.active.Refused?)
                              && (r == Ok(Break) <==> Drained() && turn.active == Ok(0)))
    {
      hide Core, Traced, Ready, Healthy;
      if cleaning && turn.cleanupLate {
        cleanupOk := false;
        return Ok(Break);
      }
      Reap(turn.rootPolled);
      if reason.None? && draining && turn.drainLate {
        NoteFailure(if live != map[] then DescendantsSurvivedRoot else RootCleanupDeadline, turn.killed);
      }
      if rootReaped && live == map[] && eof.0 && eof.1 {
        if turn.active.Refused? {
          return Refused(turn.active.reason);
        }
        if turn.active.value == 0 {
          return Ok(Break);
        }
      }
      r := Ok(Continue);
    }

    /** The part of a turn before the wait. */
    method BeforeWait(turn: Turn, ghost w: Watch, ghost root: Root) returns (r: Result<LoopEnd, Refusal>)
      requires Valid() && running && Sweeping() && w == Now() && root == LaunchRoot()
      modifies this`emitted, this`view, this`outputBytes, this`outputLimited, this`eof, this`readOut, this`readErr,
               this`pumped, this`reason, this`timedOut, this`cleaning, this`killed, this`cleanupOk, this`rootReaped
      ensures Sound() && (r.Ok? ==> Valid()) && pumped == old(pumped) + [turn.pump] && Sweeping()
      ensures StartGoes(limits, joined, root, w, turn, old(reason).None?, old(cleanupOk), reason.None?, cleanupOk, r, Now())
      ensures r == Ok(Break) ==> !cleanupOk || (Drained() && turn.active == Ok(0))
    {
      hide Core, Traced, Ready, Healthy, State, Pumped, PumpOk, SameFacts, Valid, Sound, SweepOf, StartGoes, Now, Idle, Early,
           LaunchRoot, ReadPipes, Drained, Reaped, ReapedBy, Sweeping;
      NowParts();
      var started := StartTurn(turn, w);
      NowParts();
      if started.Fail? {
        r := Refused(started.error);
        StartRefused(limits, joined, root, w, turn, old(reason).None?, old(cleanupOk), r, Now());
      } else {
        r := AfterPump(turn, w, root, old(reason).None?, old(cleanupOk));
        ValidIsSound();
      }
    }

    /** The part of a turn between its pump and its wait. */
    method AfterPump(turn: Turn, ghost w: Watch, ghost root: Root, ghost none: bool, ghost was: bool)
      returns (r: Result<LoopEnd, Refusal>)
      requires Valid() && running && Sweeping() && PumpOk(w.pipes, turn.pump)
      requires SameFacts(w.lives, State()) && ReadPipes() == Pumped(w.pipes, turn.pump) && w.events == events
      requires w.rootExited == rootExited && w.rootReaped == rootReaped && w.draining == draining
      requires (reason.None? <==> none && !Early(limits, w, turn)) && (reason.None? || !none ==> cleanupOk == was)
      requires none && reason.Some? ==> (cleanupOk <==> was && (joined ==> turn.killed))
      modifies this`reason, this`timedOut, this`cleaning, this`killed, this`cleanupOk, this`rootReaped
      ensures Valid() && Sweeping()
      ensures StartGoes(limits, joined, root, w, turn, none, was, reason.None?, cleanupOk, r, Now())
      ensures r == Ok(Break) ==> !cleanupOk || (Drained() && turn.active == Ok(0))
    {
      hide State, Pumped, PumpOk, SameFacts, Valid, SweepOf, StartGoes, Now, Idle, Early, ReadPipes, Drained, Reaped, ReapedBy,
           Sweeping;
      ghost var mid, ok := reason.None?, cleanupOk;
      r := CheckEnd(turn, w);
      NowParts();
      IdleNow();
      StartComposes(limits, joined, root, w, turn, none, was, mid, ok, reason.None?, cleanupOk, r, Now());
    }

    lemma IdleNow()
      ensures Idle(SweepOf(Now())) <==> Drained()
    {
    }

    lemma ValidIsSound()
      ensures Valid() ==> Sound()
    {
    }

    /** A broken debugger interface ends the loop and the claim of a clean cleanup. */
    method EndFailed(refusal: Refusal, terminated: bool)
      requires Core() && TracedSoFar() && continued <= events
      modifies this`reason, this`timedOut, this`cleaning, this`killed, this`cleanupOk
      ensures Valid() && reason.Some? && !cleanupOk && Sweeping()
    {
      hide Core, Healthy, TracedSoFar, UpToDate;
      RecordFailure(refusal, terminated);
      cleanupOk := false;
    }

    /** The same, between the steps of a turn. */
    method Abandon(refusal: Refusal, terminated: bool)
      requires Sound()
      modifies this`reason, this`timedOut, this`cleaning, this`killed, this`cleanupOk
      ensures Valid() && reason.Some? && !cleanupOk && Sweeping()
    {
      hide Core, Healthy, TracedSoFar, UpToDate;
      EndFailed(refusal, terminated);
    }

    /** The wait of a turn: Break only after a failure. */
    method WaitAndDeliver(turn: Turn, ghost w: Watch, ghost root: Root) returns (end: LoopEnd)
      requires Valid() && running && Sweeping() && w == Now() && root == LaunchRoot()
      modifies this`emitted, this`view, this`outputBytes, this`outputLimited, this`eof, this`readOut, this`readErr,
               this`pumped, this`live, this`pins, this`owners, this`pids, this`imageCount, this`processCount, this`rootPin,
               this`events, this`rootExited, this`draining, this`delivered, this`history, this`reason, this`timedOut,
               this`cleaning, this`killed, this`cleanupOk, this`continued
      ensures Valid() && delivered == old(delivered) + DeliveryOf(turn) && Sweeping()
      ensures WaitGoes(limits, joined, root, w, turn, old(reason).None?, old(cleanupOk), reason.None?, cleanupOk, end, Now())
      ensures turn.wait.Event? ==> TookFromEvent(old(pumped), pumped, turn.wait.delivery.input)
      ensures !turn.wait.Event? ==> pumped == old(pumped)
    {
      hide Core, Traced, Healthy, Admits, TookFromEvent, LaunchRoot, Effect, EventPipes, ExitsRoot, LiveAfter,
           Dismissed, Sweeping, SweepOf, State, ReadPipes, Now;
      match turn.wait {
        case NoEvent =>
          WatchReflexive(w);
          end := Continue;
        case WaitFails =>
          ValidTraced();
          EndFailed(DebugWaitFailed, turn.killed);
          end := Break;
        case Event(_, _, _) =>
          end := DeliverEvent(turn, w, root);
      }
    }

    lemma ValidTraced()
      requires Valid()
      ensures Core() && TracedSoFar() && continued <= events
    {
    }

    /** The wait of a turn with an event. */
    method DeliverEvent(turn: Turn, ghost w: Watch, ghost root: Root) returns (end: LoopEnd)
      requires Valid() && running && Sweeping() && w == Now() && root == LaunchRoot() && turn.wait.Event?
      modifies this`emitted, this`view, this`outputBytes, this`outputLimited, this`eof, this`readOut, this`readErr,
               this`pumped, this`live, this`pins, this`owners, this`pids, this`imageCount, this`processCount, this`rootPin,
               this`events, this`rootExited, this`draining, this`delivered, this`history, this`reason, this`timedOut,
               this`cleaning, this`killed, this`cleanupOk, this`continued
      ensures Valid() && delivered == old(delivered) + [turn.wait.delivery] && Sweeping()
      ensures WaitGoes(limits, joined, root, w, turn, old(reason).None?, old(cleanupOk), reason.None?, cleanupOk, end, Now())
      ensures TookFromEvent(old(pumped), pumped, turn.wait.delivery.input)
    {
      hide Core, Traced, Healthy, Admits, TookFromEvent, LaunchRoot, Effect, EventPipes, ExitsRoot, LiveAfter, Dismissed,
           Sweeping, Valid, State, ReadPipes, Now, WaitOk, FailWait, CleanWait, SweepOf;
      NowParts();
      EventVerdicts(limits, joined, root, w, turn);
      end := Continue;
      var result := Deliver(turn.wait.delivery, turn.wait.handleClosed, turn.wait.released, turn.killed, w.lives, w.pipes, root);
      NowParts();
      if result.Fail? {
        SoFar();
        EndFailed(result.error, turn.killed);
        end := Break;
      }
    }

    lemma NowParts()
      ensures Now() == Watch(State(), ReadPipes(), events, rootExited, rootReaped, draining)
      ensures SweepOf(Now()) == Sweep(live.Keys, eof, events, rootExited, rootReaped)
      ensures State().live == live && ReadPipes().eof == eof
    {
    }

    lemma SoFar()
      requires Traced()
      ensures TracedSoFar()
    {
    }

    /** One turn of `loop`; `waited` tells whether it came to its wait. */
    method TakeTurn(turn: Turn, ghost w: Watch, ghost root: Root) returns (end: LoopEnd, ghost waited: bool)
      requires Valid() && running && Sweeping() && w == Now() && root == LaunchRoot()
      modifies this`emitted, this`view, this`outputBytes, this`outputLimited, this`eof, this`readOut, this`readErr,
               this`pumped, this`live, this`pins, this`owners, this`pids, this`imageCount, this`processCount, this`rootPin,
               this`events, this`rootExited, this`draining, this`delivered, this`history, this`reason, this`timedOut,
               this`cleaning, this`killed, this`cleanupOk, this`continued, this`rootReaped
      ensures Valid() && delivered == old(delivered) + (if waited then DeliveryOf(turn) else []) && Sweeping()
      ensures TurnGoes(limits, joined, root, w, turn, old(reason).None?, old(cleanupOk), reason.None?, cleanupOk, end, Now())
      ensures (end.Continue? ==> waited) && (end.Break? && reason.None? ==> !waited)
      ensures end.Break? ==> !cleanupOk || (!waited && Drained() && turn.active == Ok(0))
      ensures TookFromTurn(old(pumped), pumped, turn)
    {
      hide Valid, Sound, TookFromEvent, Now, LaunchRoot, Drained, Sweeping, DeliveryOf, StartGoes, WaitGoes, TurnGoes;
      var before := BeforeWait(turn, w, root);
      ghost var at, still, middle := Now(), reason.None?, cleanupOk;
      end, waited := RestOfTurn(turn, before, at, root);
      TurnComposes(limits, joined, root, w, turn, old(reason).None?, old(cleanupOk), still, middle, before, at, reason.None?,
                   cleanupOk, end, Now());
    }

    /** A turn after what came before its wait. */
    method RestOfTurn(turn: Turn, before: Result<LoopEnd, Refusal>, ghost at: Watch, ghost root: Root)
      returns (end: LoopEnd, ghost waited: bool)
      requires Sound() && (before.Ok? ==> Valid()) && running && Sweeping() && at == Now() && root == LaunchRoot()
      requires before == Ok(Break) ==> !cleanupOk || (Drained() && turn.active == Ok(0))
      modifies this`emitted, this`view, this`outputBytes, this`outputLimited, this`eof, this`readOut, this`readErr,
               this`pumped, this`live, this`pins, this`owners, this`pids, this`imageCount, this`processCount, this`rootPin,
               this`events, this`rootExited, this`draining, this`delivered, this`history, this`reason, this`timedOut,
               this`cleaning, this`killed, this`cleanupOk, this`continued
      ensures Valid() && delivered == old(delivered) + (if waited then DeliveryOf(turn) else []) && Sweeping()
      ensures match before
              case Refused(_) => reason.Some? && !cleanupOk && end.Break?
              case Ok(Break) => reason.None? == old(reason).None? && cleanupOk == old(cleanupOk) && end.Break? && Now() == at
              case Ok(Continue) => WaitGoes(limits, joined, root, at, turn, old(reason).None?, old(cleanupOk), reason.None?,
                                            cleanupOk, end, Now())
      ensures (end.Continue? ==> waited) && (end.Break? && reason.None? ==> !waited)
      ensures end.Break? ==> !cleanupOk || (!waited && Drained() && turn.active == Ok(0))
      ensures pumped == old(pumped) || (turn.wait.Event? && TookFromEvent(old(pumped), pumped, turn.wait.delivery.input))
    {
      hide Valid, Sound, TookFromEvent, Now, LaunchRoot, Drained, Sweeping, DeliveryOf, WaitGoes;
      ghost var still, middle := reason.None?, cleanupOk;
      waited := false;
      if before.Refused? {
        Abandon(before.reason, turn.killed);
        end := Break;
      } else if before.value.Break? {
        end := Break;
      } else {
        waited := true;
        end := WaitAndDeliver(turn, at, root);
        WaitEnds(at, root, turn, still, middle, end);
      }
    }

    lemma WaitEnds(at: Watch, root: Root, turn: Turn, still: bool, middle: bool, end: LoopEnd)
      requires WaitGoes(limits, joined, root, at, turn, still, middle, reason.None?, cleanupOk, end, Now())
      ensures end.Break? ==> !cleanupOk && reason.Some?
    {
    }

    /** The pump of a turn, and then the pumps of its event. */
    ghost predicate TookFromTurn(before: seq<PumpInput>, after: seq<PumpInput>, turn: Turn) {
      var mid := before + [turn.pump];
      after == mid || (turn.wait.Event? && TookFromEvent(mid, after, turn.wait.delivery.input))
    }

    lemma TurnPumps(took: seq<PumpInput>, after: seq<PumpInput>, turn: Turn)
      requires TookFromTurn(took, after, turn)
      ensures took <= after && PumpsOfTurn(turn, after[|took|..])
    {
      hide PumpOf;
      var mid, pumps := took + [turn.pump], after[|took|..];
      assert pumps[0] == after[|took|] == mid[|took|];
      forall j | 1 <= j < |pumps| ensures turn.wait.Event? && PumpOf(turn.wait.delivery.input, pumps[j]) {
        assert pumps[j] == after[|took| + j];
      }
    }

    /** The remaining turns decide as all of them did: whether there is no failure, and whether the cleanup is clean. */
    ghost predicate Going(rest: seq<Turn>, passes: bool, clean: bool, was: bool)
      reads this
    {
      if reason.None? then
        && (passes <==> PassingRun(limits, joined, LaunchRoot(), Now(), rest))
        && (clean <==> CleanRun(limits, joined, LaunchRoot(), Now(), rest)) && cleanupOk == was
      else !passes && (clean && was <==> cleanupOk && EndsClean(limits, LaunchRoot(), SweepOf(Now()), rest))
    }

    /** The loop at its end. */
    ghost predicate Gone(passes: bool, clean: bool, was: bool)
      reads this`reason, this`cleanupOk
    {
      (reason.None? <==> passes) && (cleanupOk <==> clean && was)
    }

    /** A turn of the loop. */
    method NextTurn(turns: seq<Turn>, i: nat, ghost passes: bool, ghost clean: bool, ghost was: bool)
      returns (end: LoopEnd, ghost came: bool, ghost pumps: seq<PumpInput>)
      requires Valid() && running && Sweeping() && i < |turns| && Going(turns[i..], passes, clean, was)
      modifies this`emitted, this`view, this`outputBytes, this`outputLimited, this`eof, this`readOut, this`readErr,
               this`pumped, this`live, this`pins, this`owners, this`pids, this`imageCount, this`processCount, this`rootPin,
               this`events, this`rootExited, this`draining, this`delivered, this`history, this`reason, this`timedOut,
               this`cleaning, this`killed, this`cleanupOk, this`continued, this`rootReaped
      ensures Valid() && Sweeping() && delivered == old(delivered) + if came then DeliveryOf(turns[i]) else []
      ensures pumped == old(pumped) + pumps && PumpsOfTurn(turns[i], pumps)
      ensures if end.Break? then Gone(passes, clean, was) else Going(turns[i + 1..], passes, clean, was)
      ensures end.Continue? ==> came
      ensures end.Break? && (reason.None? || cleanupOk) ==> !came
      ensures end.Break? && cleanupOk ==> Drained() && turns[i].active == Ok(0)
    {
      hide Valid, Drained, PumpsOfTurn, DeliveryOf, Now, LaunchRoot, Sweeping, TurnGoes, SweepOf, TookFromTurn;
      ghost var start, root, rest := Now(), LaunchRoot(), turns[i..];
      assert rest[0] == turns[i] && rest[1..] == turns[i + 1..];
      ghost var took, none, ok := pumped, reason.None?, cleanupOk;
      end, came := TakeTurn(turns[i], start, root);
      TurnPumps(took, pumped, turns[i]);
      pumps := pumped[|took|..];
      Decides(limits, joined, root, start, rest, none, ok, reason.None?, cleanupOk, end, Now());
    }

    /**
     `loop`; `parts` are the pumps of each turn that was begun, and the first `waited` turns came to their wait. There is
     no failure exactly when the turns pass, and a clean cleanup exactly when they end clean. A script that ends stands for
     a debugger that stops answering.
     */
    method Loop(turns: seq<Turn>) returns (ghost waited: nat, ghost parts: seq<seq<PumpInput>>)
      requires Valid() && running && Sweeping() && delivered == [] && pumped == []
      modifies this`emitted, this`view, this`outputBytes, this`outputLimited, this`eof, this`readOut, this`readErr,
               this`pumped, this`live, this`pins, this`owners, this`pids, this`imageCount, this`processCount, this`rootPin,
               this`events, this`rootExited, this`draining, this`delivered, this`history, this`reason, this`timedOut,
               this`cleaning, this`killed, this`cleanupOk, this`continued, this`rootReaped
      ensures Valid() && Followed(turns, waited, parts, delivered, pumped)
      ensures reason.None? <==> old(reason).None? && PassingRun(limits, joined, LaunchRoot(), old(Now()), turns)
      ensures cleanupOk <==>
              && old(cleanupOk)
              && if old(reason).None? then CleanRun(limits, joined, LaunchRoot(), old(Now()), turns)
                 else EndsClean(limits, LaunchRoot(), SweepOf(old(Now())), turns)
      ensures reason.None? || cleanupOk ==> waited < |turns|
      ensures cleanupOk ==> Drained() && turns[waited].active == Ok(0)
    {
      hide Valid, Drained, Followed, PumpsOfTurn, DeliveryOf, Now, LaunchRoot, Going, Flatten, Sound, State, ReadPipes,
           Sweeping, SweepOf, PassingRun, CleanRun, EndsClean;
      waited, parts := 0, [];
      FollowedNone(turns);
      ghost var was := cleanupOk;
      ghost var passes := reason.None? && PassingRun(limits, joined, LaunchRoot(), Now(), turns);
      ghost var clean := if reason.None? then CleanRun(limits, joined, LaunchRoot(), Now(), turns)
                         else EndsClean(limits, LaunchRoot(), SweepOf(Now()), turns);
      assert turns[0..] == turns;
      GoingStart(turns, passes, clean, was);
      for i := 0 to |turns|
        invariant Valid() && Sweeping() && waited == |parts| == i && Followed(turns, i, parts, delivered, pumped)
        invariant Going(turns[i..], passes, clean, was)
      {
        var end: LoopEnd;
        ghost var came: bool, pumps: seq<PumpInput>;
        ghost var ds, took := delivered, pumped;
        end, came, pumps := NextTurn(turns, i, passes, clean, was);
        FollowedMore(turns, parts, ds, took, pumps, came);
        parts := parts + [pumps];
        waited := if came then i + 1 else i;
        if end.Break? {
          return;
        }
      }
      assert turns[|turns|..] == [];
      NoTurnsLeft(passes, clean, was);
      RunOut();
    }

    lemma GoingStart(turns: seq<Turn>, passes: bool, clean: bool, was: bool)
      requires was == cleanupOk && passes == (reason.None? && PassingRun(limits, joined, LaunchRoot(), Now(), turns))
      requires clean == if reason.None? then CleanRun(limits, joined, LaunchRoot(), Now(), turns)
                        else EndsClean(limits, LaunchRoot(), SweepOf(Now()), turns)
      ensures Going(turns, passes, clean, was)
    {
    }

    lemma NoTurnsLeft(passes: bool, clean: bool, was: bool)
      requires Going([], passes, clean, was)
      ensures !passes && !(clean && was)
    {
    }

    /** The debugger stopped answering. */
    method RunOut()
      requires Valid()
      modifies this`reason, this`timedOut, this`cleaning, this`killed, this`cleanupOk
      ensures Valid() && reason.Some? && !cleanupOk
    {
      hide Core, Ready, Healthy, TracedSoFar, UpToDate;
      EndFailed(DebugWaitFailed, false);
    }

    // ----- the run ------------------------------------------------------------------------------

    /** `launch`: Fail leaves the observer with or without a running root. */
    method Launch(input: LaunchInput) returns (r: Outcome<Refusal>)
      requires Unused()
      modifies this`rootPin, this`jobOpen, this`running, this`joined, this`resumed, this`rootPid, this`launched
      ensures Valid() && reason.None?
      ensures jobOpen <==> input.rootPin.Ok? && input.job
      ensures running <==> Starts(input)
      ensures running ==> LaunchRoot() == RootOf(input)
      ensures joined <==> running && input.joined
      ensures r.Pass? <==> LaunchOk(input)
    {
      hide Valid;
      if input.rootPin.Refused? {
        return Fail(input.rootPin.reason);
      }
      StartRoot(input.rootPin.value, input.job && input.started, input.rootPid);
      if !input.job {
        return Fail(SystemCall);
      }
      jobOpen := true;
      if !input.started {
        return Fail(SystemCall);
      }
      if !input.joined {
        return Fail(SystemCall);
      }
      joined := true;
      if !input.resumed {
        return Fail(SystemCall);
      }
      resumed := true;
      r := Pass;
    }

    /** The pinned executable and the root process started from it. */
    method StartRoot(pin: Pin, started: bool, pid: nat)
      requires Unused()
      modifies this`rootPin, this`running, this`rootPid, this`launched
      ensures Valid() && running == started && launched == Some(pin) && (started ==> rootPid == pid)
    {
      hide Core, Coupled, Chain, SameFacts, Entries, SameWatch, Now, State, ReadPipes;
      UnusedIsEmpty();
      ChainOfNone(history, LaunchRoot(), Root(if started then pid else rootPid, Some(pin)));
      rootPin := Some(pin);
      launched := rootPin;
      if started {
        running := true;
        rootPid := pid;
      }
    }

    lemma UnusedIsEmpty()
      requires Unused()
      ensures Chain(history, [], LaunchRoot()) && delivered == [] && SameWatch(NO_WATCH, Now())
    {
    }

    /** The reason after the final job accounting. */
    function JobReason(job: Result<(nat, nat), Refusal>): (r: Option<Refusal>)
      reads this`reason, this`processCount, this`jobOpen
      ensures reason.Some? ==> r == reason
      ensures r.None? <==> reason.None? && (jobOpen ==> job == Ok((processCount, 0)))
    {
      if reason.Some? || !jobOpen then reason
      else match job
        case Refused(refusal) => Some(refusal)
        case Ok((total, active)) =>
          if active != 0 then Some(OwnedJobNotEmpty)
          else if total != processCount then Some(ProcessCountMismatch) else None
    }

    /** The `finally` block of `run`, up to the final record. */
    method Settle(input: FinishInput)
      requires Valid()
      modifies this`rootReaped, this`cleanupOk, this`reason
      ensures Valid()
      ensures rootReaped == if running then old(ReapedBy(input.rootPolled)) else old(rootReaped)
      ensures cleanupOk <==> && old(cleanupOk) && (running ==> old(DrainedBy(input.rootPolled)))
                             && (jobOpen ==> input.job.Ok? && input.job.value.1 == 0) && input.pinsClosed
      ensures reason.None? <==> old(JobReason(input.job)).None? && pins == map[]
      ensures reason.None? ==> old(reason).None?
    {
      hide Valid, JobReason;
      SettleCleanup(input);
      SettleReason(input.job);
    }

    method SettleCleanup(input: FinishInput)
      modifies this`rootReaped, this`cleanupOk
      ensures rootReaped == if running then old(ReapedBy(input.rootPolled)) else old(rootReaped)
      ensures cleanupOk <==> && old(cleanupOk) && (running ==> old(DrainedBy(input.rootPolled)))
                             && (jobOpen ==> input.job.Ok? && input.job.value.1 == 0) && input.pinsClosed
    {
      if running {
        Reap(input.rootPolled);
      }
      var ended := !running || (rootReaped && live == map[] && eof.0 && eof.1);
      cleanupOk := cleanupOk && ended && (jobOpen ==> input.job.Ok? && input.job.value.1 == 0) && input.pinsClosed;
    }

    method SettleReason(job: Result<(nat, nat), Refusal>)
      requires Valid()
      modifies this`reason
      ensures Valid() && (reason.None? <==> old(JobReason(job)).None? && pins == map[])
      ensures reason.None? ==> old(reason).None?
    {
      hide Core, Ready, TracedSoFar, UpToDate, State;
      var settled := JobReason(job);
      reason := if settled.None? && pins != map[] then Some(ImageLifetimesIncomplete) else settled;
    }

    /**
     The rebuilt closure of a complete run: the stream holds every delivered event, what the events did, and the whole
     output; every image was released by exactly one record, unchanged, and every process has exited.
     */
    ghost predicate Closed(done: Done)
      reads this
    {
      && view.events == Entries(delivered) && UpToDate() && pins == map[] && live == map[]
      && view.stdout == readOut && view.stderr == readErr
      && (forall i | 0 <= i < |view.images| :: ReleasedUnchanged(i))
      && (forall k | 0 <= k < |view.processes| :: view.processes[k].exit.Some?)
      && |delivered| == events == continued == done.observed == done.continued
    }

    ghost predicate ReleasedUnchanged(i: nat)
      requires i < |view.images|
      reads this`view, this`emitted
    {
      && view.images[i].release.Some? && view.images[i].release.value.post == view.images[i].sha
      && ReleaseCount(limits, emitted, i) == 1
    }

    /** The final record. */
    method Conclude(done: Done)
      requires Valid() && done.observed == events && done.continued == continued
      requires done.provenanceComplete ==> reason.None? && pins == map[] && live == map[]
      modifies this`emitted, this`view
      ensures emitted != [] && emitted[|emitted| - 1] == Final(done)
      ensures DecodeAll(limits, emitted) == Some(view) && view.done == Some(done)
      ensures DecodeReceipt(limits, emitted, true, true) == Receipt(view, true, done.provenanceComplete, done.cleanupOk)
      ensures |view.images| == imageCount && |view.processes| == processCount && DigestsKept(view.images)
      ensures Prints() && TracedSoFar()
      ensures done.provenanceComplete ==> Closed(done)
    {
      hide DecodeAll, PinsMatch, OwnersMatch, IndexesMatch, ProcessesMatch, DigestsKept, AllUnreleased, PumpedAll, Chain,
           Entries, Effect;
      if done.provenanceComplete {
        NothingLeft(State());
      }
      Emit(Final(done));
      assert emitted[..|emitted|] == emitted;
      AcceptedUpTo(limits, emitted, |emitted|);
      forall i | 0 <= i < |view.images| && view.images[i].release.Some? ensures ReleaseCount(limits, emitted, i) == 1 {
        ReleasedOnce(limits, emitted, i);
      }
    }

    /** The launch and the event loop of `run`. */
    method Observe(launch: LaunchInput, turns: seq<Turn>) returns (ghost waited: nat, ghost parts: seq<seq<PumpInput>>)
      requires Unused()
      modifies this
      ensures Valid() && Followed(turns, waited, parts, delivered, pumped)
      ensures reason.None? <==> LaunchOk(launch) && PassingRun(limits, true, RootOf(launch), NO_WATCH, turns)
      ensures cleanupOk <==> CleanedUp(limits, launch, turns)
      ensures (running <==> Starts(launch)) && (jobOpen <==> launch.rootPin.Ok? && launch.job)
      ensures running && cleanupOk ==> Drained()
      ensures reason.None? ==> && running && LaunchRoot() == RootOf(launch) && continued == events && pins == map[]
                               && cleanupOk && Drained() && waited < |turns| && turns[waited].active == Ok(0)
    {
      hide Valid, Drained, PumpsOfTurn, SameWatch, Now, LaunchRoot, RootOf, Followed, PassingRun, CleanRun, EndsClean, SweepOf;
      UnusedIsEmpty();
      FollowedNone(turns);
      waited, parts := 0, [];
      var result := Launch(launch);
      SweepStart();
      if result.Fail? {
        LaunchFailed(result.error, launch.killed);
      }
      if running {
        ghost var start := Now();
        waited, parts := Loop(turns);
        SameStart(start, turns);
      }
      if reason.None? {
        PassingIsClean(limits, true, LaunchRoot(), NO_WATCH, turns);
        NothingPinned();
      }
    }

    lemma SweepStart()
      requires SameWatch(NO_WATCH, Now())
      ensures SweepOf(Now()) == SweepOf(NO_WATCH)
    {
    }

    lemma SameStart(start: Watch, turns: seq<Turn>)
      requires SameWatch(NO_WATCH, start)
      ensures PassingRun(limits, joined, LaunchRoot(), start, turns) <==> PassingRun(limits, joined, LaunchRoot(), NO_WATCH, turns)
      ensures CleanRun(limits, joined, LaunchRoot(), start, turns) <==> CleanRun(limits, joined, LaunchRoot(), NO_WATCH, turns)
    {
      hide PassingRun, CleanRun, SameWatch;
      WatchSymmetric(NO_WATCH, start);
      if PassingRun(limits, joined, LaunchRoot(), start, turns) {
        PassingSame(limits, joined, LaunchRoot(), start, NO_WATCH, turns);
      }
      if PassingRun(limits, joined, LaunchRoot(), NO_WATCH, turns) {
        PassingSame(limits, joined, LaunchRoot(), NO_WATCH, start, turns);
      }
      if CleanRun(limits, joined, LaunchRoot(), start, turns) {
        CleanSame(limits, joined, LaunchRoot(), start, NO_WATCH, turns);
      }
      if CleanRun(limits, joined, LaunchRoot(), NO_WATCH, turns) {
        CleanSame(limits, joined, LaunchRoot(), NO_WATCH, start, turns);
      }
    }

    /** A run without a failure has released what it pinned. */
    lemma NothingPinned()
      requires Valid() && reason.None? && Drained()
      ensures pins == map[] && continued == events
    {
      hide Core, Traced;
      PinsAreDisjointUnion(State());
    }

    method LaunchFailed(refusal: Refusal, terminated: bool)
      requires Valid() && Sweeping()
      modifies this`reason, this`timedOut, this`cleaning, this`killed, this`cleanupOk
      ensures Valid() && reason.Some? && (running ==> Sweeping())
      ensures cleanupOk <==> old(cleanupOk) && (running && !old(killed) && joined ==> terminated)
    {
      hide Core, Ready, Healthy, TracedSoFar, UpToDate;
      NoteFailure(refusal, terminated);
    }

    /** The `finally` block of `run`. */
    method Finish(input: FinishInput) returns (done: Done)
      requires Valid() && (reason.None? ==> running && jobOpen && pins == map[] && events == continued && cleanupOk && Drained())
      modifies this`rootReaped, this`cleanupOk, this`reason, this`emitted, this`view
      ensures emitted != [] && emitted[|emitted| - 1] == Final(done)
      ensures DecodeAll(limits, emitted) == Some(view) && view.done == Some(done)
      ensures DecodeReceipt(limits, emitted, true, true) == Receipt(view, true, done.provenanceComplete, done.cleanupOk)
      ensures |view.images| == imageCount && |view.processes| == processCount && DigestsKept(view.images)
      ensures Prints() && TracedSoFar() && done.observed == events && done.continued == continued
      ensures done.cleanupOk <==> && old(cleanupOk) && (running ==> old(DrainedBy(input.rootPolled)))
                                  && (jobOpen ==> input.job.Ok? && input.job.value.1 == 0) && input.pinsClosed
      ensures !done.failed <==> old(reason).None? && input.job == Ok((processCount, 0))
      ensures done.provenanceComplete <==> !done.failed && input.pinsClosed
      ensures done.provenanceComplete ==> Closed(done)
    {
      hide Core, Traced, Ready, Healthy, Closed, UpToDate, State, Valid, DrainedBy, ReapedBy, Drained;
      DrainedStays(input.rootPolled);
      Settle(input);
      var complete := reason.None? && cleanupOk && rootReaped && events == continued && pins == map[];
      done := Done(reason.Some?, complete, cleanupOk, events, continued);
      Conclude(done);
    }

    lemma DrainedStays(polled: bool)
      ensures Drained() ==> DrainedBy(polled) && ReapedBy(polled) && live == map[]
    {
    }

    /**
     `run`, from a new observer to its final record. The first `waited` turns came to their wait; `parts` are the pumps of
     each turn. What the final record claims is decided by the launch, the turns and the final accounting alone: there is
     no failure exactly when all of them pass, and the cleanup is clean exactly when nothing was started or the loop, with
     or without a failure, ends clean, the job is empty and the pins are closed.
     */
    method Run(launch: LaunchInput, turns: seq<Turn>, finish: FinishInput)
      returns (done: Done, ghost waited: nat, ghost parts: seq<seq<PumpInput>>)
      requires Unused()
      modifies this
      ensures emitted != [] && emitted[|emitted| - 1] == Final(done)
      ensures DecodeAll(limits, emitted) == Some(view) && view.done == Some(done)
      ensures DecodeReceipt(limits, emitted, true, true) == Receipt(view, true, done.provenanceComplete, done.cleanupOk)
      ensures |view.images| == imageCount && |view.processes| == processCount && DigestsKept(view.images)
      ensures waited <= |parts| <= |turns| && Followed(turns, waited, parts, delivered, Flatten(parts))
      ensures Printed(limits.output, outputBytes, view.stdout, view.stderr, PumpedAll(NO_PIPES, Flatten(parts)), outputLimited)
      ensures delivered == Deliveries(turns[..waited]) && |delivered| == events == done.observed && done.continued == continued
      ensures view.events <= Entries(delivered) && Chain(history, delivered, LaunchRoot())
      ensures !done.failed <==> && LaunchOk(launch) && PassingRun(limits, true, RootOf(launch), NO_WATCH, turns)
                                && finish.job == Ok((Creations(delivered), 0))
      ensures done.cleanupOk <==> && CleanedUp(limits, launch, turns) && finish.pinsClosed
                                  && (launch.rootPin.Ok? && launch.job ==> finish.job.Ok? && finish.job.value.1 == 0)
      ensures done.provenanceComplete <==> !done.failed && finish.pinsClosed
      ensures done.provenanceComplete ==> Closed(done) && LaunchRoot() == RootOf(launch) && waited < |turns|
    {
      hide Valid, Closed, PumpsOfTurn, DigestsKept, PumpedAll, Deliveries, Flatten, PassingRun, CleanedUp, RootOf, LaunchRoot,
           Creations;
      waited, parts := Observe(launch, turns);
      TakenByTurns(parts);
      if reason.None? {
        EveryProcessCreated();
      }
      done := Finish(finish);
    }

    /** Without a failure, every counted process was created by a delivered event. */
    lemma EveryProcessCreated()
      requires Valid() && reason.None?
      ensures processCount == Creations(delivered)
    {
      hide Effect, Prints, Taken, Entries, Coupled;
      ChainCounts(history, delivered, LaunchRoot(), events);
      assert delivered[..events] == delivered;
    }

    lemma TakenByTurns(parts: seq<seq<PumpInput>>)
      requires Valid() && pumped == Flatten(parts)
      ensures ReadPipes() == PumpedAll(NO_PIPES, Flatten(parts))
    {
    }
  }
}
