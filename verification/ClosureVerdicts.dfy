/** Which receipts are accepted, which freeze together and which closures pass their check, on the retained fields. */
module ClosureVerdicts {
  import opened Wrappers
  import opened LoaderLog
  import opened ImageClosure
  import opened Paths

  // ----- one image ------------------------------------------------------------------------------

  /** A retained image that is bound: an absolute canonical path, and a system path or a file with the same UUID. */
  predicate ImageBound(syntax: Syntax, image: ImageRecord) {
    && image.bound && image.uuid.Some? && syntax.isUuid(image.uuid.value)
    && image.path != "" && image.path[0] == '/' && syntax.canonical(image.path)
    && match image.binding
       case System => "/usr/lib/" <= image.path || "/System/Library/" <= image.path
       case File(_, _, _, _) => image.machoUuid == image.uuid
  }

  lemma CheckImageIs(syntax: Syntax, image: ImageRecord)
    ensures CheckImage(syntax, image).Ok? <==> ImageBound(syntax, image)
    ensures CheckImage(syntax, image).Ok? ==>
              CheckImage(syntax, image).value == Row(image.path, image.uuid.value, image.binding)
  {
  }

  lemma SameStart(a: string, b: string, end: string)
    requires a + end == b + end
    ensures a == b
  {
    assert (a + end)[..|a|] == a && (b + end)[..|b|] == b;
  }

  /** The two supported machines: the architecture names of a Mach-O file and the target they stand for. */
  predicate Supported(architecture: string, arch: string, target: string) {
    || (architecture == "arm64" && target == "aarch64-apple-darwin" && (arch == "arm64" || arch == "aarch64"))
    || (architecture == "x86_64" && target == "x86_64-apple-darwin" && arch == "x86_64")
  }

  lemma TargetIs(row: ImageClosure.Row, architecture: string, target: string)
    ensures Some(target) == TargetOf(row) == Target(architecture) <==>
            row.binding.File? && Supported(architecture, row.binding.arch, target)
  {
    if row.binding.File? {
      var arch := row.binding.arch;
      assert "aarch64-apple-darwin" == "aarch64" + "-apple-darwin";
      assert "x86_64-apple-darwin" == "x86_64" + "-apple-darwin";
      if arch + "-apple-darwin" == "aarch64" + "-apple-darwin" {
        SameStart(arch, "aarch64", "-apple-darwin");
      }
      if arch + "-apple-darwin" == "x86_64" + "-apple-darwin" {
        SameStart(arch, "x86_64", "-apple-darwin");
      }
    }
  }

  // ----- one receipt ----------------------------------------------------------------------------

  /** Line `k` is the first record of the log. */
  predicate FirstRecord(lines: seq<Line>, k: int) {
    0 <= k < |lines| && lines[k].Dyld? && lines[k].content.Load? && forall i | 0 <= i < k :: !lines[i].Dyld?
  }

  /** The receipt names the process and the main executable of the first record in each of its summaries. */
  predicate NamesFirst(receipt: Receipt, k: int) {
    && FirstRecord(receipt.log.lines, k)
    && var first := receipt.log.lines[k];
       && first.pid > 0 && receipt.processId == Some(first.pid) && receipt.loaderPid == Some(first.pid)
       && receipt.loaderRootPid == Some(first.pid) && receipt.loaderMain == Some(first.content.path)
       && receipt.images != [] && receipt.images[0].path == first.content.path
  }

  lemma FirstRecordIs(lines: seq<Line>, k: int)
    requires FirstRecord(lines, k)
    ensures FirstDyld(lines) == Some(lines[k])
  {
    FirstDyldAt(lines, k);
  }

  /**
   A receipt is accepted if and only if its log is closed, every summary names the process and the main executable of the
   first record, events and images are those of the log, every image is bound, and the main executable is a file of the
   target and of the observing machine.
   */
  lemma AcceptedIff(syntax: Syntax, receipt: Receipt)
    ensures Accepted(syntax, receipt) <==>
              && receipt.schema && receipt.succeeded && Closed(syntax, receipt.log)
              && (exists k :: NamesFirst(receipt, k))
              && receipt.events == EventsOf(receipt.log.lines)
              && |receipt.images| == |ImagesOf(receipt.log.lines)|
              && (forall i | 0 <= i < |receipt.images| ::
                    var image := receipt.images[i];
                    ImagesOf(receipt.log.lines)[i] == Image(image.path, image.uuid) && ImageBound(syntax, image))
              && receipt.images[0].binding.File?
              && Supported(receipt.architecture, receipt.images[0].binding.arch, receipt.target)
  {
    hide Closed, EventsOf, ImagesOf, FirstDyld, CheckImage, TargetOf, Target, ImageBound, Supported, FirstRecord;
    forall i | 0 <= i < |receipt.images|
      ensures CheckImage(syntax, receipt.images[i]).Ok? <==> ImageBound(syntax, receipt.images[i])
    {
      CheckImageIs(syntax, receipt.images[i]);
    }
    if receipt.images != [] {
      TargetIs(RowsOf(receipt.images)[0], receipt.architecture, receipt.target);
    }
    if Closed(syntax, receipt.log) {
      ClosedStart(syntax, receipt.log);
      var k := FirstDyldWhere(receipt.log.lines);
      FirstIsLoad(receipt.log.lines, k);
      assert NamesFirst(receipt, k) <==>
             && receipt.images != []
             && var first := FirstDyld(receipt.log.lines).value;
                && receipt.loaderPid == Some(first.pid) && receipt.loaderMain == Some(first.content.path)
                && receipt.processId == receipt.loaderRootPid == Some(first.pid) && first.pid > 0
                && receipt.images[0].path == first.content.path;
      forall j | NamesFirst(receipt, j) ensures NamesFirst(receipt, k) {
        FirstRecordIs(receipt.log.lines, j);
      }
    }
  }

  lemma FirstIsLoad(lines: seq<Line>, k: nat)
    requires FirstDyld(lines).Some? && IsLoad(FirstDyld(lines).value)
    requires k < |lines| && lines[k].Dyld? && forall i | 0 <= i < k :: !lines[i].Dyld?
    ensures FirstDyld(lines) == Some(lines[k]) && FirstRecord(lines, k)
  {
    FirstDyldAt(lines, k);
  }

  // ----- receipts together ----------------------------------------------------------------------

  /** Some image of some receipt has this path, UUID and binding. */
  predicate Retains(receipts: seq<Receipt>, path: string, uuid: string, binding: Binding) {
    exists i, k | 0 <= i < |receipts| && 0 <= k < |receipts[i].images| :: IsImage(receipts[i].images[k], path, uuid, binding)
  }

  predicate IsImage(image: ImageRecord, path: string, uuid: string, binding: Binding) {
    image.path == path && image.uuid == Some(uuid) && image.binding == binding
  }

  /** The receipts observe one target, executable, environment, system, machine and loader. */
  predicate Agree(a: Receipt, b: Receipt) {
    && a.target == b.target && a.loaderMain == b.loaderMain && a.env == b.env && a.system == b.system
    && a.architecture == b.architecture && a.dyld == b.dyld
  }

  predicate AllAccepted(syntax: Syntax, receipts: seq<Receipt>) {
    forall i | 0 <= i < |receipts| :: Accepted(syntax, receipts[i]) && Identified(receipts[i])
  }

  lemma RetainedRows(syntax: Syntax, receipts: seq<Receipt>, row: ImageClosure.Row)
    requires AllAccepted(syntax, receipts)
    ensures row in AllRows(Identities(receipts)) <==> Retains(receipts, row.path, row.uuid, row.binding)
  {
    var derived := Identities(receipts);
    AllRowsAre(derived, row);
    hide AllRows, Closed, TargetOf, Target, EventsOf, ImagesOf, FirstDyld;
    forall i, k | 0 <= i < |receipts| && 0 <= k < |receipts[i].images|
      ensures derived[i].images[k] == row <==> IsImage(receipts[i].images[k], row.path, row.uuid, row.binding)
    {
      assert Accepted(syntax, receipts[i]) && CheckImage(syntax, receipts[i].images[k]).Ok?;
      CheckImageIs(syntax, receipts[i].images[k]);
    }
    hide Identities, CheckImage, Accepted, Identified;
    if row in AllRows(derived) {
      var i :| 0 <= i < |derived| && row in derived[i].images;
      var k :| 0 <= k < |derived[i].images| && derived[i].images[k] == row;
      IdentitySizes(receipts, i);
      assert IsImage(receipts[i].images[k], row.path, row.uuid, row.binding);
    }
    if Retains(receipts, row.path, row.uuid, row.binding) {
      var i, k :| 0 <= i < |receipts| && 0 <= k < |receipts[i].images|
                  && IsImage(receipts[i].images[k], row.path, row.uuid, row.binding);
      IdentitySizes(receipts, i);
      assert derived[i].images[k] == row;
    }
  }

  lemma IdentitySizes(receipts: seq<Receipt>, i: nat)
    requires i < |receipts| && forall j | 0 <= j < |receipts| :: Identified(receipts[j])
    ensures |Identities(receipts)| == |receipts| && |Identities(receipts)[i].images| == |receipts[i].images|
  {
  }

  /** No path is retained with two UUIDs or two file identities. */
  ghost predicate BindsOnce(receipts: seq<Receipt>) {
    forall path, uuid, binding, uuid', binding' |
      Retains(receipts, path, uuid, binding) && Retains(receipts, path, uuid', binding') ::
      uuid == uuid' && binding == binding'
  }

  lemma BindsOnceIs(syntax: Syntax, receipts: seq<Receipt>)
    requires AllAccepted(syntax, receipts)
    ensures OneRowPerPath(AllRows(Identities(receipts))) <==> BindsOnce(receipts)
  {
    var rows := AllRows(Identities(receipts));
    forall row ensures row in rows <==> Retains(receipts, row.path, row.uuid, row.binding) {
      RetainedRows(syntax, receipts, row);
    }
    hide AllRows, Identities, Retains, Accepted, Identified;
    if OneRowPerPath(rows) {
      forall path, uuid, binding, uuid', binding' |
        Retains(receipts, path, uuid, binding) && Retains(receipts, path, uuid', binding')
        ensures uuid == uuid' && binding == binding'
      {
        var a, b := ImageClosure.Row(path, uuid, binding), ImageClosure.Row(path, uuid', binding');
        assert a in rows && b in rows;
        SameRow(rows, a, b);
      }
    }
    if BindsOnce(receipts) {
      forall i, j | 0 <= i < |rows| && 0 <= j < |rows| && rows[i].path == rows[j].path ensures rows[i] == rows[j] {
        assert rows[i] in rows && rows[j] in rows;
      }
    }
  }

  lemma AgreeIs(receipts: seq<Receipt>)
    requires forall i | 0 <= i < |receipts| :: Identified(receipts[i])
    ensures SameHeader(Identities(receipts)) <==>
            forall i, j | 0 <= i < |receipts| && 0 <= j < |receipts| :: Agree(receipts[i], receipts[j])
  {
    var derived := Identities(receipts);
    forall i, j | 0 <= i < |receipts| && 0 <= j < |receipts|
      ensures derived[i].header == derived[j].header <==> Agree(receipts[i], receipts[j])
    {
    }
    hide Identities, Agree;
    assert |derived| == |receipts| by { IdentityCount(receipts); }
  }

  lemma IdentityCount(receipts: seq<Receipt>)
    requires forall i | 0 <= i < |receipts| :: Identified(receipts[i])
    ensures |Identities(receipts)| == |receipts|
  {
  }

  /** The images that the receipts retain. */
  ghost function RetainedSet(receipts: seq<Receipt>): set<(string, Option<string>, Binding)> {
    set i, k | 0 <= i < |receipts| && 0 <= k < |receipts[i].images| ::
      (receipts[i].images[k].path, receipts[i].images[k].uuid, receipts[i].images[k].binding)
  }

  ghost function Triples(rows: seq<ImageClosure.Row>): set<(string, Option<string>, Binding)> {
    set row | row in rows :: (row.path, Some(row.uuid), row.binding)
  }

  lemma {:induction false} TripleCount(rows: seq<ImageClosure.Row>)
    requires forall i, j | 0 <= i < j < |rows| :: rows[i] != rows[j]
    ensures |Triples(rows)| == |rows|
  {
    if rows != [] {
      var front, last := rows[..|rows| - 1], rows[|rows| - 1];
      TripleCount(front);
      assert last !in front;
      assert Triples(rows) == Triples(front) + {(last.path, Some(last.uuid), last.binding)};
    }
  }

  lemma RetainedCount(syntax: Syntax, receipts: seq<Receipt>)
    requires AllAccepted(syntax, receipts)
    ensures |Distinct(AllRows(Identities(receipts)))| == |RetainedSet(receipts)|
  {
    var rows := Distinct(AllRows(Identities(receipts)));
    DistinctExact(AllRows(Identities(receipts)));
    TripleCount(rows);
    forall row ensures row in rows <==> Retains(receipts, row.path, row.uuid, row.binding) {
      RetainedRows(syntax, receipts, row);
    }
    AllHaveUuids(syntax, receipts);
    TriplesAre(receipts, rows);
  }

  lemma TriplesAre(receipts: seq<Receipt>, rows: seq<ImageClosure.Row>)
    requires forall row :: row in rows <==> Retains(receipts, row.path, row.uuid, row.binding)
    requires forall i, k | 0 <= i < |receipts| && 0 <= k < |receipts[i].images| :: receipts[i].images[k].uuid.Some?
    ensures Triples(rows) == RetainedSet(receipts)
  {
    forall t ensures t in RetainedSet(receipts) <==> t.1.Some? && Retains(receipts, t.0, t.1.value, t.2) {
      RetainedTriple(receipts, t);
    }
    hide Retains, RetainedSet;
    forall t ensures t in Triples(rows) <==> t.1.Some? && Retains(receipts, t.0, t.1.value, t.2) {
      if t.1.Some? && Retains(receipts, t.0, t.1.value, t.2) {
        assert ImageClosure.Row(t.0, t.1.value, t.2) in rows;
      }
    }
  }

  lemma RetainedTriple(receipts: seq<Receipt>, t: (string, Option<string>, Binding))
    requires forall i, k | 0 <= i < |receipts| && 0 <= k < |receipts[i].images| :: receipts[i].images[k].uuid.Some?
    ensures t in RetainedSet(receipts) <==> t.1.Some? && Retains(receipts, t.0, t.1.value, t.2)
  {
    if t in RetainedSet(receipts) {
      var i, k :| 0 <= i < |receipts| && 0 <= k < |receipts[i].images|
                  && t == (receipts[i].images[k].path, receipts[i].images[k].uuid, receipts[i].images[k].binding);
      assert IsImage(receipts[i].images[k], t.0, t.1.value, t.2);
    }
  }

  lemma AllHaveUuids(syntax: Syntax, receipts: seq<Receipt>)
    requires AllAccepted(syntax, receipts)
    ensures forall i, k | 0 <= i < |receipts| && 0 <= k < |receipts[i].images| :: receipts[i].images[k].uuid.Some?
  {
    hide Closed, TargetOf, Target, EventsOf, ImagesOf, FirstDyld, Identified;
    forall i, k | 0 <= i < |receipts| && 0 <= k < |receipts[i].images| ensures receipts[i].images[k].uuid.Some? {
      assert Accepted(syntax, receipts[i]) && CheckImage(syntax, receipts[i].images[k]).Ok?;
    }
  }

  /**
   A closure freezes if and only if there is a receipt, every receipt is accepted, all agree, no path is retained twice with
   different bindings, and the retained images are within the image limit.
   */
  lemma FreezesIff(syntax: Syntax, receipts: seq<Receipt>)
    ensures Freezes(syntax, receipts) <==>
              && receipts != [] && (forall i | 0 <= i < |receipts| :: Accepted(syntax, receipts[i]))
              && (forall i, j | 0 <= i < |receipts| && 0 <= j < |receipts| :: Agree(receipts[i], receipts[j]))
              && BindsOnce(receipts) && |RetainedSet(receipts)| <= 4096
  {
    forall i | 0 <= i < |receipts| && Accepted(syntax, receipts[i]) ensures Identified(receipts[i]) {
      AcceptedHasPid(syntax, receipts[i]);
    }
    hide Accepted, Identified, Agree;
    if AllAccepted(syntax, receipts) {
      BindsOnceIs(syntax, receipts);
      AgreeIs(receipts);
      RetainedCount(syntax, receipts);
    }
    hide BindsOnce, OneRowPerPath, SameHeader, Distinct, AllRows, Identities, RetainedSet;
  }

  /**
   A frozen closure names what its receipts agree on, collects exactly their images, each once, and lists for each receipt
   its digest, its process and the number of its load records.
   */
  lemma FrozenIs(syntax: Syntax, receipts: seq<Receipt>, i: nat)
    requires Freezes(syntax, receipts) && i < |receipts|
    ensures var closure, receipt := Frozen(receipts), receipts[i];
            && closure.header.target == receipt.target && Some(closure.header.main) == receipt.loaderMain
            && closure.header.env == receipt.env && closure.header.system == receipt.system
            && closure.header.architecture == receipt.architecture && closure.header.dyld == receipt.dyld
            && |closure.origins| == |receipts|
            && closure.origins[i].digest == receipt.digest && Some(closure.origins[i].pid) == receipt.processId
            && closure.origins[i].events == |LoadLines(receipt.log.lines)|
    ensures forall row :: row in Frozen(receipts).images <==> Retains(receipts, row.path, row.uuid, row.binding)
    ensures |Frozen(receipts).images| == |RetainedSet(receipts)|
  {
    FreezesIff(syntax, receipts);
    assert Agree(receipts[i], receipts[0]);
    assert Accepted(syntax, receipts[i]);
    EventCount(receipts[i].log.lines);
    RetainedCount(syntax, receipts);
    DistinctExact(AllRows(Identities(receipts)));
    forall row ensures row in AllRows(Identities(receipts)) <==> Retains(receipts, row.path, row.uuid, row.binding) {
      RetainedRows(syntax, receipts, row);
    }
    hide AllRows, Distinct, Closed, TargetOf, Target, CheckImage, FirstDyld, EventsOf, ImagesOf, RowsOf, Retains, RetainedSet,
         LoadLines, Unitable;
  }

  // ----- the closure check ----------------------------------------------------------------------

  /** A closure row: an absolute canonical path, and a system path unless it is a file. */
  predicate RowBound(syntax: Syntax, row: ImageClosure.Row) {
    && syntax.isUuid(row.uuid) && row.path != "" && row.path[0] == '/' && syntax.canonical(row.path)
    && (row.binding.System? ==> "/usr/lib/" <= row.path || "/System/Library/" <= row.path)
  }

  /** What an accepted closure is, on its fields. */
  lemma ClosureOkIff(syntax: Syntax, closure: Closure)
    ensures ClosureOk(syntax, closure) <==>
              && 0 < |closure.images| <= 4096 && closure.origins != []
              && (forall i | 0 <= i < |closure.origins| ::
                    closure.origins[i].pid > 0 && 0 < closure.origins[i].events <= 16384)
              && (forall i | 0 <= i < |closure.images| :: RowBound(syntax, closure.images[i]))
              && (forall i, j | 0 <= i < j < |closure.images| :: closure.images[i].path != closure.images[j].path)
              && exists i | 0 <= i < |closure.images| ::
                   && closure.images[i].path == closure.header.main && closure.images[i].binding.File?
                   && Supported(closure.header.architecture, closure.images[i].binding.arch, closure.header.target)
  {
    forall i | 0 <= i < |closure.images| ensures RowOk(syntax, closure.images[i]) <==> RowBound(syntax, closure.images[i]) {
    }
    forall i | 0 <= i < |closure.images|
      ensures Some(closure.header.target) == TargetOf(closure.images[i]) == Target(closure.header.architecture) <==>
              closure.images[i].binding.File?
              && Supported(closure.header.architecture, closure.images[i].binding.arch, closure.header.target)
    {
      TargetIs(closure.images[i], closure.header.architecture, closure.header.target);
    }
    hide RowOk, RowBound, TargetOf, Target, Supported;
    if ClosureOk(syntax, closure) {
      var i :| 0 <= i < |closure.images| && closure.images[i].path == closure.header.main && closure.images[i].binding.File?
               && TargetOf(closure.images[i]) == Some(closure.header.target);
    }
  }
}
