/**
 The bookkeeping of the image observer, as values: live processes with their image maps, pinned files, and the
 records emitted so far as the decoder will rebuild them.
 */
module ImageLifetimes {
  import opened Wrappers
  import opened ImageReceipt

  /** A pinned image file. */
  datatype Pin = Pin(path: string, identity: nat, sha: string)

  datatype Process = Process(index: nat, root: bool, images: map<nat, nat>, threads: set<nat>, initialThread: nat,
                             exceptionSeen: bool)

  /** `owners` locates each pinned image, `pids` each process without an exit record. */
  datatype Lives = Lives(live: map<nat, Process>, pins: map<nat, Pin>, view: View, owners: map<nat, (nat, nat)>,
                         pids: map<nat, nat>)

  predicate Matches(pin: Pin, image: ImageEntry) {
    pin.path == image.path && pin.identity == image.identity && pin.sha == image.sha
  }

  /** The pinned files are exactly the images without a release. */
  ghost predicate PinsMatch(x: Lives) {
    && (forall i :: i in x.pins <==> 0 <= i < |x.view.images| && x.view.images[i].release.None?)
    && (forall i | i in x.pins :: Matches(x.pins[i], x.view.images[i]))
  }

  /** Process `pid` has image `i` mapped at `base`. */
  predicate Holds(live: map<nat, Process>, pid: int, base: int, i: int) {
    pid in live && base in live[pid].images && live[pid].images[base] == i
  }

  /** The image maps of the live processes are disjoint and injective, and cover exactly the located images. */
  ghost predicate OwnersMatch(live: map<nat, Process>, owners: map<nat, (nat, nat)>) {
    && (forall i | i in owners :: Holds(live, owners[i].0, owners[i].1, i))
    && (forall pid, base, i | Holds(live, pid, base, i) :: i in owners && owners[i] == (pid, base))
  }

  /** An image is attributed to the process that has it mapped. */
  ghost predicate IndexesMatch(x: Lives) {
    forall i | i in x.owners && i < |x.view.images| && x.owners[i].0 in x.live ::
      x.view.images[i].processIndex == x.live[x.owners[i].0].index
  }

  /** The live processes are exactly those without an exit record. */
  ghost predicate ProcessesMatch(x: Lives) {
    && (forall k :: k in x.pids <==> 0 <= k < |x.view.processes| && x.view.processes[k].exit.None?)
    && (forall k | k in x.pids :: x.pids[k] in x.live && x.live[x.pids[k]].index == k)
    && (forall pid | pid in x.live :: x.live[pid].index in x.pids && x.pids[x.live[pid].index] == pid)
  }

  /** Every released image was released with an unchanged digest. */
  ghost predicate DigestsKept(images: seq<ImageEntry>) {
    forall i | 0 <= i < |images| :: images[i].release.Some? ==> images[i].release.value.post == images[i].sha
  }

  ghost predicate Coupled(x: Lives) {
    && PinsMatch(x) && x.owners.Keys == x.pins.Keys && OwnersMatch(x.live, x.owners) && IndexesMatch(x)
    && ProcessesMatch(x) && DigestsKept(x.view.images)
  }

  // ----- the operations -------------------------------------------------------------------------

  function AddProcess(x: Lives, pid: nat, process: Process, entry: ProcessEntry): Lives {
    x.(live := x.live[pid := process], view := x.view.(processes := x.view.processes + [entry]),
       pids := x.pids[process.index := pid])
  }

  function BindImage(x: Lives, pid: nat, base: nat, pin: Pin, entry: ImageEntry): Lives
    requires pid in x.live
  {
    var i := |x.view.images|;
    x.(live := x.live[pid := x.live[pid].(images := x.live[pid].images[base := i])],
       pins := x.pins[i := pin], view := x.view.(images := x.view.images + [entry]), owners := x.owners[i := (pid, base)])
  }

  function ReleaseImage(x: Lives, pid: nat, base: nat, release: Release): Lives
    requires pid in x.live && base in x.live[pid].images && x.live[pid].images[base] < |x.view.images|
  {
    var i := x.live[pid].images[base];
    x.(live := x.live[pid := x.live[pid].(images := x.live[pid].images - {base})],
       pins := x.pins - {i},
       view := x.view.(images := x.view.images[i := x.view.images[i].(release := Some(release))]),
       owners := x.owners - {i})
  }

  function RemoveProcess(x: Lives, pid: nat, exit: Exit): Lives
    requires pid in x.live && x.live[pid].index < |x.view.processes|
  {
    var k := x.live[pid].index;
    x.(live := x.live - {pid},
       view := x.view.(processes := x.view.processes[k := x.view.processes[k].(exit := Some(exit))]),
       pids := x.pids - {k})
  }

  lemma AddOwners(live: map<nat, Process>, owners: map<nat, (nat, nat)>, pid: nat, process: Process)
    requires OwnersMatch(live, owners)
    requires if pid in live then process.images == live[pid].images else process.images == map[]
    ensures OwnersMatch(live[pid := process], owners)
  {
    var after := live[pid := process];
    assert forall p, b, i :: Holds(after, p, b, i) <==> Holds(live, p, b, i);
  }

  lemma AddProcessKeeps(x: Lives, pid: nat, process: Process, entry: ProcessEntry)
    requires Coupled(x) && pid !in x.live && process.index == |x.view.processes| && process.images == map[]
    requires entry.exit.None?
    ensures Coupled(AddProcess(x, pid, process, entry))
  {
    AddOwners(x.live, x.owners, pid, process);
    AddProcesses(x, pid, process, entry);
    AddIndexes(x, pid, process, entry);
    SamePins(x, AddProcess(x, pid, process, entry));
    hide OwnersMatch, Matches, ProcessesMatch, IndexesMatch, PinsMatch, DigestsKept;
  }

  lemma SamePins(x: Lives, y: Lives)
    requires y.pins == x.pins && y.view.images == x.view.images
    ensures PinsMatch(x) ==> PinsMatch(y)
    ensures DigestsKept(x.view.images) ==> DigestsKept(y.view.images)
  {
    hide Matches;
  }

  lemma SameIndexes(x: Lives, y: Lives)
    requires y.owners == x.owners && y.view.images == x.view.images && IndexesMatch(x)
    requires forall pid | pid in y.live :: pid in x.live && y.live[pid].index == x.live[pid].index
    ensures IndexesMatch(y)
  {
  }

  lemma AddProcesses(x: Lives, pid: nat, process: Process, entry: ProcessEntry)
    requires ProcessesMatch(x) && pid !in x.live && process.index == |x.view.processes| && entry.exit.None?
    ensures ProcessesMatch(AddProcess(x, pid, process, entry))
  {
  }

  lemma AddIndexes(x: Lives, pid: nat, process: Process, entry: ProcessEntry)
    requires IndexesMatch(x) && OwnersMatch(x.live, x.owners) && pid !in x.live
    ensures IndexesMatch(AddProcess(x, pid, process, entry))
  {
    forall i | i in x.owners ensures x.owners[i].0 != pid {
      assert Holds(x.live, x.owners[i].0, x.owners[i].1, i);
    }
  }

  lemma BindOwners(live: map<nat, Process>, owners: map<nat, (nat, nat)>, pid: nat, base: nat, i: nat)
    requires OwnersMatch(live, owners) && pid in live && base !in live[pid].images && i !in owners
    ensures OwnersMatch(live[pid := live[pid].(images := live[pid].images[base := i])], owners[i := (pid, base)])
  {
    var after := live[pid := live[pid].(images := live[pid].images[base := i])];
    assert forall p, b, j :: Holds(after, p, b, j) <==> Holds(live, p, b, j) || (p == pid && b == base && j == i);
  }

  lemma BindPins(x: Lives, pid: nat, base: nat, pin: Pin, entry: ImageEntry)
    requires PinsMatch(x) && pid in x.live && Matches(pin, entry) && entry.release.None? && x.owners.Keys == x.pins.Keys
    ensures PinsMatch(BindImage(x, pid, base, pin, entry)) && |x.view.images| !in x.owners
    ensures forall i | i in x.owners :: i < |x.view.images|
    ensures BindImage(x, pid, base, pin, entry).owners.Keys == BindImage(x, pid, base, pin, entry).pins.Keys
  {
    assert |x.view.images| !in x.pins;
  }

  lemma BindKeeps(x: Lives, pid: nat, base: nat, pin: Pin, entry: ImageEntry)
    requires Coupled(x) && pid in x.live && base !in x.live[pid].images && Matches(pin, entry) && entry.release.None?
    requires entry.processIndex == x.live[pid].index
    ensures Coupled(BindImage(x, pid, base, pin, entry))
  {
    hide PinsMatch, OwnersMatch, Matches, IndexesMatch, ProcessesMatch, DigestsKept, BindImage;
    BindPins(x, pid, base, pin, entry);
    BindOwned(x, pid, base, pin, entry);
    BindIndexes(x, pid, base, pin, entry);
    BindProcesses(x, pid, base, pin, entry);
  }

  lemma BindOwned(x: Lives, pid: nat, base: nat, pin: Pin, entry: ImageEntry)
    requires OwnersMatch(x.live, x.owners) && pid in x.live && base !in x.live[pid].images
    requires |x.view.images| !in x.owners && DigestsKept(x.view.images) && entry.release.None?
    ensures OwnersMatch(BindImage(x, pid, base, pin, entry).live, BindImage(x, pid, base, pin, entry).owners)
    ensures DigestsKept(BindImage(x, pid, base, pin, entry).view.images)
  {
    BindOwners(x.live, x.owners, pid, base, |x.view.images|);
    hide OwnersMatch;
  }

  lemma BindIndexes(x: Lives, pid: nat, base: nat, pin: Pin, entry: ImageEntry)
    requires IndexesMatch(x) && pid in x.live && entry.processIndex == x.live[pid].index
    requires forall i | i in x.owners :: i < |x.view.images|
    ensures IndexesMatch(BindImage(x, pid, base, pin, entry))
  {
  }

  lemma BindProcesses(x: Lives, pid: nat, base: nat, pin: Pin, entry: ImageEntry)
    requires ProcessesMatch(x) && pid in x.live
    ensures ProcessesMatch(BindImage(x, pid, base, pin, entry))
  {
  }

  /** An image of a live process is pinned and not released. */
  lemma OwnedIsPinned(x: Lives, pid: nat, base: nat)
    requires Coupled(x) && pid in x.live && base in x.live[pid].images
    ensures var i := x.live[pid].images[base];
            i in x.pins && i < |x.view.images| && x.view.images[i].release.None? && x.owners[i] == (pid, base)
            && Matches(x.pins[i], x.view.images[i])
  {
    hide Matches, ProcessesMatch, DigestsKept, IndexesMatch;
    assert Holds(x.live, pid, base, x.live[pid].images[base]);
  }

  lemma ReleaseOwners(live: map<nat, Process>, owners: map<nat, (nat, nat)>, pid: nat, base: nat)
    requires OwnersMatch(live, owners) && pid in live && base in live[pid].images
    ensures OwnersMatch(live[pid := live[pid].(images := live[pid].images - {base})], owners - {live[pid].images[base]})
  {
    var i := live[pid].images[base];
    var after := live[pid := live[pid].(images := live[pid].images - {base})];
    assert Holds(live, pid, base, i);
    assert forall p, b, j :: Holds(after, p, b, j) <==> Holds(live, p, b, j) && !(p == pid && b == base);
  }

  lemma ReleaseKeeps(x: Lives, pid: nat, base: nat, release: Release)
    requires Coupled(x) && pid in x.live && base in x.live[pid].images
    requires x.live[pid].images[base] < |x.view.images|
    requires release.post == x.view.images[x.live[pid].images[base]].sha
    ensures Coupled(ReleaseImage(x, pid, base, release))
  {
    hide Matches, OwnersMatch, PinsMatch, IndexesMatch, ProcessesMatch, DigestsKept, ReleaseImage;
    ReleaseOwned(x, pid, base, release);
    ReleasePins(x, pid, base, release);
    ReleaseIndexes(x, pid, base, release);
    ReleaseProcesses(x, pid, base, release);
  }

  lemma ReleaseOwned(x: Lives, pid: nat, base: nat, release: Release)
    requires OwnersMatch(x.live, x.owners) && pid in x.live && base in x.live[pid].images
    requires x.live[pid].images[base] < |x.view.images| && DigestsKept(x.view.images) && x.owners.Keys == x.pins.Keys
    requires release.post == x.view.images[x.live[pid].images[base]].sha
    ensures var y := ReleaseImage(x, pid, base, release);
            OwnersMatch(y.live, y.owners) && DigestsKept(y.view.images) && y.owners.Keys == y.pins.Keys
  {
    ReleaseOwners(x.live, x.owners, pid, base);
    hide OwnersMatch;
  }

  lemma ReleasePins(x: Lives, pid: nat, base: nat, release: Release)
    requires PinsMatch(x) && pid in x.live && base in x.live[pid].images
    requires x.live[pid].images[base] < |x.view.images|
    ensures PinsMatch(ReleaseImage(x, pid, base, release))
  {
  }

  lemma ReleaseIndexes(x: Lives, pid: nat, base: nat, release: Release)
    requires IndexesMatch(x) && pid in x.live && base in x.live[pid].images
    requires x.live[pid].images[base] < |x.view.images|
    ensures IndexesMatch(ReleaseImage(x, pid, base, release))
  {
  }

  lemma ReleaseProcesses(x: Lives, pid: nat, base: nat, release: Release)
    requires ProcessesMatch(x) && pid in x.live && base in x.live[pid].images
    requires x.live[pid].images[base] < |x.view.images|
    ensures ProcessesMatch(ReleaseImage(x, pid, base, release))
  {
  }

  lemma RemoveOwners(live: map<nat, Process>, owners: map<nat, (nat, nat)>, pid: nat)
    requires OwnersMatch(live, owners) && pid in live && live[pid].images == map[]
    ensures OwnersMatch(live - {pid}, owners)
  {
    assert forall p, b, i :: Holds(live - {pid}, p, b, i) <==> Holds(live, p, b, i);
  }

  lemma RemoveProcesses(x: Lives, pid: nat, exit: Exit)
    requires ProcessesMatch(x) && pid in x.live
    ensures x.live[pid].index < |x.view.processes| && ProcessesMatch(RemoveProcess(x, pid, exit))
  {
  }

  lemma RemoveKeeps(x: Lives, pid: nat, exit: Exit)
    requires Coupled(x) && pid in x.live && x.live[pid].images == map[]
    ensures x.live[pid].index < |x.view.processes| && Coupled(RemoveProcess(x, pid, exit))
  {
    RemoveOwners(x.live, x.owners, pid);
    RemoveProcesses(x, pid, exit);
    SamePins(x, RemoveProcess(x, pid, exit));
    SameIndexes(x, RemoveProcess(x, pid, exit));
    hide Matches, OwnersMatch, ProcessesMatch, PinsMatch, DigestsKept, IndexesMatch;
  }

  /** Changing threads or the exception flag of a process changes nothing else. */
  lemma TouchKeeps(x: Lives, pid: nat, process: Process)
    requires Coupled(x) && pid in x.live
    requires process.images == x.live[pid].images && process.index == x.live[pid].index
    ensures Coupled(x.(live := x.live[pid := process]))
  {
    AddOwners(x.live, x.owners, pid, process);
    TouchProcesses(x, pid, process);
    SamePins(x, x.(live := x.live[pid := process]));
    SameIndexes(x, x.(live := x.live[pid := process]));
    hide Matches, OwnersMatch, ProcessesMatch, PinsMatch, DigestsKept, IndexesMatch;
  }

  lemma TouchProcesses(x: Lives, pid: nat, process: Process)
    requires ProcessesMatch(x) && pid in x.live && process.index == x.live[pid].index
    ensures ProcessesMatch(x.(live := x.live[pid := process]))
  {
  }

  /** Output and event records are independent of lifetimes. */
  lemma OtherRecordsKeep(x: Lives, v: View)
    requires Coupled(x) && v.images == x.view.images && v.processes == x.view.processes
    ensures Coupled(x.(view := v))
  {
    SamePins(x, x.(view := v));
    SameIndexes(x, x.(view := v));
    hide Matches, OwnersMatch, PinsMatch, DigestsKept, IndexesMatch;
  }

  /** When nothing is pinned and no process is live, every image is released and every process has exited. */
  lemma NothingLeft(x: Lives)
    requires Coupled(x) && x.pins == map[] && x.live == map[]
    ensures forall i | 0 <= i < |x.view.images| ::
              x.view.images[i].release.Some? && x.view.images[i].release.value.post == x.view.images[i].sha
    ensures forall k | 0 <= k < |x.view.processes| :: x.view.processes[k].exit.Some?
  {
    hide OwnersMatch, IndexesMatch;
    forall k | 0 <= k < |x.view.processes| ensures x.view.processes[k].exit.Some? {
      assert k !in x.pids;
    }
  }

  /** The pinned indices are the disjoint union of the live processes' image maps. */
  lemma PinsAreDisjointUnion(x: Lives)
    requires Coupled(x)
    ensures forall i :: i in x.pins <==> exists pid, base :: Holds(x.live, pid, base, i)
    ensures forall p, b, q, c, i | Holds(x.live, p, b, i) && Holds(x.live, q, c, i) :: p == q && b == c
  {
    hide Matches, PinsMatch, ProcessesMatch, IndexesMatch;
    forall i | i in x.pins ensures exists pid, base :: Holds(x.live, pid, base, i) {
      assert i in x.owners;
      assert Holds(x.live, x.owners[i].0, x.owners[i].1, i);
    }
  }

  // ----- what one event changes -----------------------------------------------------------------

  /** The image that `pid` now has at `base`: `pin`, recorded as loaded by `event`; nothing else changed. */
  predicate Binds(x: Lives, y: Lives, pid: nat, base: nat, kind: Kind, pin: Pin, event: nat) {
    var i := |x.view.images|;
    && pid in x.live && base !in x.live[pid].images
    && y.view.images == x.view.images + [ImageEntry(i, x.live[pid].index, kind, pin.path, pin.identity, pin.sha, event, None)]
    && y.pins == x.pins[i := pin]
    && y.live == x.live[pid := x.live[pid].(images := x.live[pid].images[base := i])]
    && y.view.processes == x.view.processes
  }

  /** The image of `pid` at `base` is unpinned and recorded as released unchanged by `event`; nothing else changed. */
  predicate Unbinds(x: Lives, y: Lives, pid: nat, base: nat, event: nat, byUnload: bool) {
    && pid in x.live && base in x.live[pid].images && x.live[pid].images[base] < |x.view.images|
    && var i := x.live[pid].images[base];
    && y.view.images == x.view.images[i := x.view.images[i].(release := Some(Release(x.view.images[i].sha, event, byUnload)))]
    && y.pins == x.pins - {i}
    && y.live == x.live[pid := x.live[pid].(images := x.live[pid].images - {base})]
    && y.view.processes == x.view.processes
  }

  function ExitRelease(entry: ImageEntry, event: nat): ImageEntry {
    entry.(release := Some(Release(entry.sha, event, false)))
  }

  /** Exactly the images in `gone` are unpinned and recorded as released unchanged by the exit in `event`. */
  predicate Drops(x: Lives, y: Lives, gone: set<nat>, event: nat) {
    && |y.view.images| == |x.view.images|
    && (forall i | 0 <= i < |x.view.images| ::
          y.view.images[i] == if i in gone then ExitRelease(x.view.images[i], event) else x.view.images[i])
    && y.pins == x.pins - gone
  }

  /** The exit of `pid` in `event`: its images are released, its exit is recorded, and it is no longer live. */
  predicate Exits(x: Lives, y: Lives, pid: nat, event: nat, code: int) {
    && pid in x.live && Drops(x, y, x.live[pid].images.Values, event)
    && y.live == x.live - {pid}
    && var k := x.live[pid].index;
    && k < |x.view.processes|
    && y.view.processes == x.view.processes[k := x.view.processes[k].(exit := Some(Exit(event, code)))]
  }

  /** Only the thread set and the exception flag of `pid` changed. */
  predicate Touches(x: Lives, y: Lives, pid: nat, threads: set<nat>, exceptionSeen: bool) {
    && pid in x.live && y.live == x.live[pid := x.live[pid].(threads := threads, exceptionSeen := exceptionSeen)]
    && y.pins == x.pins && y.view.images == x.view.images && y.view.processes == x.view.processes
  }

  /** Equal in everything but the output of the pipes and the bookkeeping of the proof. */
  predicate SameFacts(x: Lives, y: Lives) {
    && x.live == y.live && x.pins == y.pins
    && x.view.images == y.view.images && x.view.processes == y.view.processes && x.view.events == y.view.events
  }

  /** The images of a live process are distinct. */
  lemma ValuesWithout(x: Lives, pid: nat, base: nat)
    requires OwnersMatch(x.live, x.owners) && pid in x.live && base in x.live[pid].images
    ensures var images := x.live[pid].images; (images - {base}).Values == images.Values - {images[base]}
  {
    var images := x.live[pid].images;
    forall b | b in images && b != base ensures images[b] != images[base] {
      assert Holds(x.live, pid, b, images[b]) && Holds(x.live, pid, base, images[base]);
    }
    DistinctValues(images, base);
  }

  lemma DistinctValues(images: map<nat, nat>, base: nat)
    requires base in images && forall b | b in images && b != base :: images[b] != images[base]
    ensures (images - {base}).Values == images.Values - {images[base]}
  {
    forall v | v in images.Values && v != images[base] ensures v in (images - {base}).Values {
      var b :| b in images && images[b] == v;
      assert (images - {base})[b] == v;
    }
  }

  /** One more release of a process whose images are released one after another. */
  lemma DropsMore(x: Lives, y: Lives, z: Lives, gone: set<nat>, pid: nat, base: nat, event: nat)
    requires Drops(x, y, gone, event) && Unbinds(y, z, pid, base, event, false)
    requires y.live[pid].images[base] !in gone
    ensures Drops(x, z, gone + {y.live[pid].images[base]}, event)
  {
  }

  /** A process with only its first thread. */
  function NewLive(index: nat, tid: nat, root: bool): Process {
    Process(index, root, map[], {tid}, tid, false)
  }

  /** Releasing every image of a process and then recording its exit. */
  lemma ReleasedThenRemoved(x: Lives, mid: Lives, y: Lives, pid: nat, event: nat, code: int)
    requires pid in x.live && Drops(x, mid, x.live[pid].images.Values, event)
    requires mid.live == x.live[pid := x.live[pid].(images := map[])] && mid.view.processes == x.view.processes
    requires x.live[pid].index < |x.view.processes| && y == RemoveProcess(mid, pid, Exit(event, code))
    ensures Exits(x, y, pid, event, code)
  {
  }

  lemma BindBinds(x: Lives, pid: nat, base: nat, pin: Pin, kind: Kind, event: nat)
    requires pid in x.live && base !in x.live[pid].images
    ensures var entry := ImageEntry(|x.view.images|, x.live[pid].index, kind, pin.path, pin.identity, pin.sha, event, None);
            Binds(x, BindImage(x, pid, base, pin, entry), pid, base, kind, pin, event)
  {
  }

  lemma ReleaseUnbinds(x: Lives, pid: nat, base: nat, release: Release)
    requires pid in x.live && base in x.live[pid].images && x.live[pid].images[base] < |x.view.images|
    requires release.post == x.view.images[x.live[pid].images[base]].sha
    ensures Unbinds(x, ReleaseImage(x, pid, base, release), pid, base, release.event, release.byUnload)
  {
  }
}
