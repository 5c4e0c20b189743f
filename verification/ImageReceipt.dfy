/**
 The record stream of the Windows image observer and its decoder (`_decode`).

 A line is modelled as a parsed record; `Garbage` stands for a line that does not parse, has a wrong field or an
 unknown kind.
 */
module ImageReceipt {
  import opened Wrappers
  import opened Bytes

  const MAX_PROCESSES := 256

  datatype Kind = Executable | Dll

  datatype Release = Release(post: string, event: nat, byUnload: bool)

  datatype ImageEntry = ImageEntry(index: nat, processIndex: nat, kind: Kind, path: string, identity: nat, sha: string,
                                   loadEvent: nat, release: Option<Release>)

  datatype Exit = Exit(event: nat, code: int)

  datatype ProcessEntry = ProcessEntry(index: nat, pid: nat, isRoot: bool, createEvent: nat, exit: Option<Exit>)

  datatype EventEntry = EventEntry(sequence: nat, code: nat, pid: nat, tid: nat)

  datatype Done = Done(failed: bool, provenanceComplete: bool, cleanupOk: bool, observed: nat, continued: nat)

  datatype Record =
    | Output(stream: int, bytes: seq<byte>)
    | NewImage(image: ImageEntry)
    | NewProcess(process: ProcessEntry)
    | NewEvent(event: EventEntry)
    | Released(index: int, release: Release)
    | Exited(index: int, exit: Exit)
    | Final(done: Done)
    | Garbage

  datatype Limits = Limits(output: nat, images: nat, events: nat)

  /** What the decoder has rebuilt. */
  datatype View = View(images: seq<ImageEntry>, processes: seq<ProcessEntry>, events: seq<EventEntry>,
                       stdout: seq<byte>, stderr: seq<byte>, done: Option<Done>)

  const EMPTY_VIEW := View([], [], [], [], [], None)

  /** Python's list index: negative indices count from the end. */
  function ListIndex(length: nat, i: int): (r: Option<nat>)
    ensures r.Some? ==> r.value < length
  {
    var fromEnd: int := length + i;
    if 0 <= i < length then Some(i) else if 0 <= fromEnd && i < 0 then Some(fromEnd) else None
  }

  /** One turn of the loop; None where it raises, leaving the view as it was. */
  function Step(v: View, l: Limits, r: Record): Option<View> {
    if v.done.Some? then None
    else
      match r
      case Output(stream, bytes) =>
        if (stream != 0 && stream != 1) || |v.stdout| + |v.stderr| + |bytes| > l.output then None
        else Some(if stream == 0 then v.(stdout := v.stdout + bytes) else v.(stderr := v.stderr + bytes))
      case NewImage(image) =>
        if |v.images| >= l.images then None else Some(v.(images := v.images + [image]))
      case NewProcess(process) =>
        if |v.processes| >= MAX_PROCESSES then None else Some(v.(processes := v.processes + [process]))
      case NewEvent(event) =>
        if |v.events| >= l.events then None else Some(v.(events := v.events + [event]))
      case Released(index, release) =>
        var at := ListIndex(|v.images|, index);
        if at.None? || v.images[at.value].release.Some? then None
        else Some(v.(images := v.images[at.value := v.images[at.value].(release := Some(release))]))
      case Exited(index, exit) =>
        var at := ListIndex(|v.processes|, index);
        if at.None? then None
        else Some(v.(processes := v.processes[at.value := v.processes[at.value].(exit := Some(exit))]))
      case Final(done) => Some(v.(done := Some(done)))
      case Garbage => None
  }

  /** The view of an accepted stream, or None when some record is refused. */
  function DecodeAll(l: Limits, records: seq<Record>): Option<View> {
    if records == [] then Some(EMPTY_VIEW)
    else
      match DecodeAll(l, records[..|records| - 1])
      case None => None
      case Some(v) => Step(v, l, records[|records| - 1])
  }

  lemma DecodeMore(l: Limits, records: seq<Record>, r: Record)
    ensures DecodeAll(l, records + [r]) ==
            match DecodeAll(l, records) case None => None case Some(v) => Step(v, l, r)
  {
    assert (records + [r])[..|records|] == records;
  }

  /** The length of the longest accepted prefix. */
  function AcceptedLength(l: Limits, records: seq<Record>): (n: nat)
    ensures n <= |records| && DecodeAll(l, records[..n]).Some?
    ensures n < |records| ==> DecodeAll(l, records[..n + 1]).None?
  {
    if records == [] then 0
    else
      var front := records[..|records| - 1];
      var n := AcceptedLength(l, front);
      assert front[..n] == records[..n];
      assert n < |front| ==> front[..n + 1] == records[..n + 1];
      assert front[..|front|] == front && records[..|records|] == records;
      if n == |front| && DecodeAll(l, records).Some? then |records| else n
  }

  /** What `_decode` reports, for an outer process that did or did not end well. */
  datatype Receipt = Receipt(view: View, accepted: bool, provenanceComplete: bool, cleanupOk: bool)

  function Report(view: View, complete: bool, outerOk: bool, outerCleanup: bool): Receipt {
    var done := view.done;
    Receipt(view, complete && outerOk,
            complete && outerOk && done.Some? && done.value.provenanceComplete,
            outerCleanup && (done.None? || done.value.cleanupOk))
  }

  function DecodeReceipt(l: Limits, records: seq<Record>, outerOk: bool, outerCleanup: bool): Receipt {
    var n := AcceptedLength(l, records);
    var view := DecodeAll(l, records[..n]).value;
    Report(view, n == |records| && view.done.Some?, outerOk, outerCleanup)
  }

  /** `_decode`: the loop over records. */
  method Decode(l: Limits, records: seq<Record>, outerOk: bool, outerCleanup: bool) returns (r: Receipt)
    ensures r == DecodeReceipt(l, records, outerOk, outerCleanup)
  {
    var view := EMPTY_VIEW;
    var complete := false;
    var i := 0;
    while i < |records|
      invariant 0 <= i <= |records|
      invariant DecodeAll(l, records[..i]) == Some(view)
      invariant complete <==> view.done.Some?
    {
      assert records[..i + 1][..i] == records[..i];
      var next := Step(view, l, records[i]);
      if next.None? {
        AcceptedUpTo(l, records, i);
        return Report(view, false, outerOk, outerCleanup);
      }
      view := next.value;
      complete := complete || records[i].Final?;
      i := i + 1;
    }
    assert records[..|records|] == records;
    AcceptedUpTo(l, records, |records|);
    r := Report(view, complete, outerOk, outerCleanup);
  }

  lemma {:induction false} RefusedStays(l: Limits, records: seq<Record>, n: nat)
    requires n <= |records| && DecodeAll(l, records[..n]).None?
    ensures DecodeAll(l, records).None?
    decreases |records|
  {
    if n < |records| {
      assert records[..|records| - 1][..n] == records[..n];
      RefusedStays(l, records[..|records| - 1], n);
    } else {
      assert records[..n] == records;
    }
  }

  lemma AcceptedUpTo(l: Limits, records: seq<Record>, n: nat)
    requires n <= |records| && DecodeAll(l, records[..n]).Some?
    requires n < |records| ==> DecodeAll(l, records[..n + 1]).None?
    ensures AcceptedLength(l, records) == n
  {
    var m := AcceptedLength(l, records);
    if m < n {
      assert records[..n][..m + 1] == records[..m + 1];
      RefusedStays(l, records[..n], m + 1);
    } else if n < m {
      assert records[..m][..n + 1] == records[..n + 1];
      RefusedStays(l, records[..m], n + 1);
    }
  }

  /** Nothing is accepted after the final record, so it is the last one. */
  lemma FinalIsLast(l: Limits, records: seq<Record>)
    requires DecodeAll(l, records).Some? && DecodeAll(l, records).value.done.Some?
    ensures records != [] && records[|records| - 1] == Final(DecodeAll(l, records).value.done.value)
    ensures forall n | 0 <= n < |records| ::
              DecodeAll(l, records[..n]).Some? && DecodeAll(l, records[..n]).value.done.None?
  {
    forall n | 0 <= n < |records|
      ensures DecodeAll(l, records[..n]).Some? && DecodeAll(l, records[..n]).value.done.None?
    {
      if DecodeAll(l, records[..n]).None? {
        RefusedStays(l, records, n);
      } else if DecodeAll(l, records[..n]).value.done.Some? {
        assert records[..n + 1][..n] == records[..n];
        RefusedStays(l, records, n + 1);
      }
    }
    assert DecodeAll(l, records[..|records| - 1]).value.done.None?;
  }

  /** A receipt is complete exactly for an accepted stream that ends in a complete final record. */
  lemma CompleteIff(l: Limits, records: seq<Record>, outerOk: bool, outerCleanup: bool)
    ensures DecodeReceipt(l, records, outerOk, outerCleanup).provenanceComplete <==>
            && outerOk && records != [] && records[|records| - 1].Final?
            && records[|records| - 1].done.provenanceComplete && DecodeAll(l, records).Some?
  {
    assert records[..|records|] == records;
    if DecodeAll(l, records).Some? {
      AcceptedUpTo(l, records, |records|);
      if DecodeAll(l, records).value.done.Some? {
        FinalIsLast(l, records);
      }
    }
  }

  lemma EndsInFinal(l: Limits, records: seq<Record>)
    ensures DecodeAll(l, records).Some? && records != [] && records[|records| - 1].Final? ==>
              DecodeAll(l, records).value.done.Some?
  {
  }

  /** A truncated stream is never complete, and neither is one with data after its final record. */
  lemma TruncatedOrExtendedIsIncomplete(l: Limits, records: seq<Record>, n: nat, more: seq<Record>,
                                        outerOk: bool, outerCleanup: bool)
    requires DecodeReceipt(l, records, true, true).provenanceComplete && n < |records| && more != []
    ensures !DecodeReceipt(l, records[..n], outerOk, outerCleanup).provenanceComplete
    ensures !DecodeReceipt(l, records + more, outerOk, outerCleanup).provenanceComplete
  {
    CompleteIff(l, records, true, true);
    CompleteIff(l, records[..n], outerOk, outerCleanup);
    CompleteIff(l, records + more, outerOk, outerCleanup);
    assert records[..|records|] == records;
    AcceptedUpTo(l, records, |records|);
    FinalIsLast(l, records);
    EndsInFinal(l, records[..n]);
    assert (records + more)[..|records|] == records;
    assert (records + more)[..|records| + 1] == records + [more[0]];
    DecodeMore(l, records, more[0]);
    RefusedStays(l, records + more, |records| + 1);
  }

  /** Whatever the stream, the receipt stays within the limits. */
  lemma {:induction false} ReceiptBounded(l: Limits, records: seq<Record>)
    requires DecodeAll(l, records).Some?
    ensures var v := DecodeAll(l, records).value;
            && |v.images| <= l.images && |v.processes| <= MAX_PROCESSES && |v.events| <= l.events
            && |v.stdout| + |v.stderr| <= l.output
  {
    if records != [] {
      ReceiptBounded(l, records[..|records| - 1]);
    }
  }

  /** An image of an accepted stream was released by at most one record. */
  function ReleaseCount(l: Limits, records: seq<Record>, i: nat): nat {
    if records == [] then 0
    else
      ReleaseCount(l, records[..|records| - 1], i) +
      match (records[|records| - 1], DecodeAll(l, records[..|records| - 1]))
      case (Released(index, _), Some(v)) => if ListIndex(|v.images|, index) == Some(i) then 1 else 0
      case _ => 0
  }

  /** Images are introduced unreleased. */
  predicate AllUnreleased(records: seq<Record>) {
    forall j | 0 <= j < |records| && records[j].NewImage? :: records[j].image.release.None?
  }

  lemma {:induction false} ReleasedOnce(l: Limits, records: seq<Record>, i: nat)
    requires DecodeAll(l, records).Some? && AllUnreleased(records)
    ensures var v := DecodeAll(l, records).value;
            ReleaseCount(l, records, i) == if i < |v.images| && v.images[i].release.Some? then 1 else 0
  {
    if records != [] {
      var front := records[..|records| - 1];
      assert forall j | 0 <= j < |front| :: front[j] == records[j];
      ReleasedOnce(l, front, i);
    }
  }
}
