/** Smallest runs of the image observer: one that ends complete, and one that fails and is cleaned up. */
module ImageExamples {
  import opened Wrappers
  import opened Bytes
  import opened Sets
  import opened ImageReceipt
  import opened ImageLifetimes
  import opened ImageEvents
  import opened ImageTurns

  /** A root process that starts, prints and exits. */
  datatype Script = Script(pid: nat, tid: nat, base: nat, pin: Pin, exitCode: int, printed: seq<byte>) {

    function Root(): Root {
      ImageEvents.Root(pid, Some(pin))
    }

    function Input(): EventInput {
      EventInput(true, BindInput(true, PinInput([], Ok(pin)), Ok((pin.path, pin.identity))),
                 i => HashInput([], Ok(pin.sha)), i => true)
    }

    function Creation(): Delivery {
      Delivery(DebugEvent(3, pid, tid, base, 0, false), Input())
    }

    function Ending(): Delivery {
      Delivery(DebugEvent(5, pid, tid, 0, exitCode, false), Input())
    }

    function Turns(): seq<Turn> {
      [Turn(PumpInput(Block(printed), Quiet), false, false, false, false, Ok(0), true, Event(Creation(), true, true)),
       Turn(PumpInput(Quiet, Quiet), false, false, false, false, Ok(0), true, Event(Ending(), true, true)),
       Turn(PumpInput(PipeEnd, PipeEnd), false, false, false, true, Ok(0), true, NoEvent)]
    }

    function Image(release: Option<Release>): ImageEntry {
      ImageEntry(0, 0, Executable, pin.path, pin.identity, pin.sha, 1, release)
    }

    function Running(): Lives {
      Lives(map[pid := Process(0, true, map[base := 0], {tid}, tid, false)], map[0 := pin],
            View([Image(None)], [ProcessEntry(0, pid, true, 1, None)], [EntryOf(Creation().event, 1)], [], [], None),
            map[], map[])
    }

    function Ended(): Lives {
      Lives(map[], map[],
            View([Image(Some(Release(pin.sha, 2, false)))], [ProcessEntry(0, pid, true, 1, Some(Exit(2, exitCode)))],
                 [EntryOf(Creation().event, 1), EntryOf(Ending().event, 2)], [], [], None),
            map[], map[])
    }

    function Started(): Watch {
      Watch(Running(), Pipes(printed, [], (false, false)), 1, false, false, false)
    }

    function Exited(): Watch {
      Watch(Ended(), Pipes(printed, [], (false, false)), 2, true, false, true)
    }

    /** The same turns with the deadline passed before the exit, and the job terminated. */
    function LateTurns(): seq<Turn> {
      [Turns()[0], Turns()[1].(late := true), Turns()[2]]
    }
  }

  lemma CreationTakesEffect(s: Script)
    ensures Effect(NO_LIVES, s.Running(), s.Creation(), 1, s.Root())
  {
    var started := Started(NO_LIVES, s.Creation().event, 1, true);
    assert started.live == map[s.pid := NewLive(0, s.tid, true)];
    assert Binds(started, s.Running(), s.pid, s.base, Executable, s.pin, 1);
  }

  lemma OneImage(base: nat)
    ensures map[base := 0 as nat].Values == {0}
  {
    assert map[base := 0 as nat][base] == 0;
  }

  lemma EndingTakesEffect(s: Script)
    ensures Effect(s.Running(), s.Ended(), s.Ending(), 2, s.Root())
  {
    OneImage(s.base);
    assert Drops(s.Running(), s.Ended(), {0}, 2);
  }

  lemma OneRelease(s: Script, p: Pipes, l: Limits)
    ensures ReleasesAdmit(p, l, [s.Image(None)], {0}, s.Input()) && ReleasePipes(p, l, [s.Image(None)], {0}, s.Input()) == p
  {
    assert IsLeast({0}, 0);
    assert {0} - {Least({0})} == {};
  }

  lemma CreationPasses(s: Script, l: Limits)
    requires 1 <= l.images && 1 <= l.events && s.base != 0 && s.printed != [] && |s.printed| <= l.output
    ensures var turn := s.Turns()[0];
            && StartOk(l, NO_WATCH, turn) && !EndsLoop(NO_WATCH, turn) && WaitPasses(l, true, s.Root(), NO_WATCH, turn)
            && Waited(l, true, s.Root(), AtWait(NO_WATCH, turn), turn, s.Started())
  {
    hide Effect;
    CreationTakesEffect(s);
  }

  lemma EndingPasses(s: Script, l: Limits)
    requires 2 <= l.events && |s.printed| <= l.output
    ensures var turn := s.Turns()[1];
            && StartOk(l, s.Started(), turn) && !EndsLoop(s.Started(), turn)
            && WaitPasses(l, true, s.Root(), s.Started(), turn)
            && Waited(l, true, s.Root(), AtWait(s.Started(), turn), turn, s.Exited())
  {
    hide Effect, ReleasesAdmit, ReleasePipes;
    EndingTakesEffect(s);
    OneImage(s.base);
    OneRelease(s, s.Started().pipes, l);
  }

  lemma LastPasses(s: Script, l: Limits)
    requires |s.printed| <= l.output
    ensures StartOk(l, s.Exited(), s.Turns()[2]) && EndsLoop(s.Exited(), s.Turns()[2])
  {
  }

  /** Whatever a root process prints within the limit, its run passes from launch to end. */
  lemma CompleteRunExists(s: Script, l: Limits)
    requires 1 <= l.images && 2 <= l.events && s.base != 0 && s.printed != [] && |s.printed| <= l.output
    ensures PassingRun(l, true, s.Root(), NO_WATCH, s.Turns()) && CleanRun(l, true, s.Root(), NO_WATCH, s.Turns())
    ensures Deliveries(s.Turns()) == [s.Creation(), s.Ending()] && s.Exited().pipes.out == s.printed
  {
    var turns := s.Turns();
    CreationPasses(s, l);
    EndingPasses(s, l);
    LastPasses(s, l);
    TwoDeliveries(s);
    hide StartOk, EndsLoop, WaitPasses, Waited, AtWait, PassingRun, CleanRun;
    assert turns[1..][1..] == turns[2..] && turns[2..][0] == turns[2];
    assert PassingRun(l, true, s.Root(), s.Exited(), turns[2..]) by { LastTurn(l, s.Root(), s.Exited(), turns[2..]); }
    PassingGoes(l, true, s.Root(), s.Started(), turns[1..], s.Exited());
    PassingGoes(l, true, s.Root(), NO_WATCH, turns, s.Started());
    PassingIsClean(l, true, s.Root(), NO_WATCH, turns);
  }

  lemma LastTurn(l: Limits, root: ImageEvents.Root, w: Watch, turns: seq<Turn>)
    requires turns != [] && StartOk(l, w, turns[0]) && EndsLoop(w, turns[0])
    ensures PassingRun(l, true, root, w, turns)
  {
  }

  lemma TwoDeliveries(s: Script)
    ensures Deliveries(s.Turns()) == [s.Creation(), s.Ending()]
  {
    var turns := s.Turns();
    assert Deliveries(turns[..0]) == [];
    DeliveriesNext(turns, 0);
    DeliveriesNext(turns, 1);
    DeliveriesNext(turns, 2);
    assert turns[..3] == turns;
  }

  /** A run that passes its deadline and whose job is terminated fails, and is cleaned up. */
  lemma LateRunIsClean(s: Script, l: Limits)
    requires 1 <= l.images && 2 <= l.events && s.base != 0 && s.printed != [] && |s.printed| <= l.output
    ensures !PassingRun(l, true, s.Root(), NO_WATCH, s.LateTurns()) && CleanRun(l, true, s.Root(), NO_WATCH, s.LateTurns())
  {
    var turns := s.LateTurns();
    CreationPasses(s, l);
    LateTurn(s, l);
    hide StartOk, EndsLoop, WaitPasses, Waited, AtWait, FailTurn, FailsClean;
    PassingGoes(l, true, s.Root(), NO_WATCH, turns, s.Started());
    CleanGoes(l, true, s.Root(), NO_WATCH, turns, s.Started());
    assert turns[1..][0] == turns[1] && turns[1..][1..] == turns[2..];
  }

  lemma LateTurn(s: Script, l: Limits)
    ensures var turns := s.LateTurns();
            !StartOk(l, s.Started(), turns[1]) && FailsClean(l, s.Root(), FailTurn(l, true, s.Root(), s.Started(), turns[1]), turns[2..])
  {
    var turns := s.LateTurns();
    var after := Sweep({}, (false, false), 2, true, false);
    assert {s.pid} - {s.pid} == {};
    assert FailTurn(l, true, s.Root(), s.Started(), turns[1]) == Goes(after);
    assert turns[2..] == [s.Turns()[2]];
    assert CleanTurn(l, s.Root(), after, s.Turns()[2]) == Finished;
  }
}
