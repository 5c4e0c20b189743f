/** The loader log of a run (`_parse_log` of macos_image_observer.py), from tokenized stderr lines. */
module LoaderLog {
  import opened Wrappers

  datatype Phase = RowStart | SamplesBegin | SamplesEnd

  /**
   What a line says about component timing: nothing, something that is not a marker, or a marker. `pid` is None where
   the digits are not the decimal text of a number.
   */
  datatype Timing = Silent | Malformed | Marker(pid: Option<nat>, row: string, phase: Phase)

  datatype NoteKind = InsertedDuplicate | Reference

  datatype Content =
    | Load(uuid: Option<string>, path: string)
    | Note(kind: NoteKind, names: seq<string>)
    | Unrecognized

  /** A line without "dyld[", with it after the start, or at the start with or without a well-formed prefix. */
  datatype Line =
    | Application(timing: Timing)
    | Interleaved(mentionsTiming: bool)
    | BadPrefix(mentionsTiming: bool)
    | Dyld(pid: nat, content: Content, mentionsTiming: bool)

  datatype Log = Log(lines: seq<Line>, terminated: bool)

  /** The path rules of the log: canonical form and final component. */
  datatype Syntax = Syntax(canonical: string -> bool, leaf: string -> string, isUuid: string -> bool)

  datatype Problem =
    | LoaderLoggingUnavailable | UnknownRecord | ForeignPid | ImageLimit | EventLimit | MainExecutableNotFirst
    | InsertedDylibPresent | UnknownReference

  datatype Image = Image(path: string, uuid: Option<string>)
  datatype Event = Event(line: nat, image: nat)

  datatype Parsed = Parsed(pid: Option<nat>, main: Option<string>, events: seq<Event>, images: seq<Image>,
                           notes: seq<Content>, reason: Option<Problem>)

  const MAX_IMAGES := 4096
  const MAX_EVENTS := 16384

  predicate MentionsDyld(line: Line) {
    !line.Application?
  }

  // ----- what a closed log says -----------------------------------------------------------------

  predicate IsLoad(line: Line) {
    line.Dyld? && line.content.Load?
  }

  predicate IsNote(line: Line) {
    line.Dyld? && line.content.Note?
  }

  function ImageOf(line: Line): Image
    requires IsLoad(line)
  {
    Image(line.content.path, line.content.uuid)
  }

  function AddImage(images: seq<Image>, image: Image): seq<Image> {
    if image in images then images else images + [image]
  }

  /** The distinct loaded images, in the order of their first load. */
  function ImagesOf(lines: seq<Line>): seq<Image> {
    if lines == [] then []
    else
      var before, last := ImagesOf(lines[..|lines| - 1]), lines[|lines| - 1];
      if IsLoad(last) then AddImage(before, ImageOf(last)) else before
  }

  function IndexOf(images: seq<Image>, image: Image): (i: nat)
    requires image in images
    ensures i < |images| && images[i] == image
  {
    if images[0] == image then 0 else 1 + IndexOf(images[1..], image)
  }

  /** Every load with its line number and its image. */
  function EventsOf(lines: seq<Line>): seq<Event> {
    if lines == [] then []
    else
      var before, last := EventsOf(lines[..|lines| - 1]), lines[|lines| - 1];
      if IsLoad(last) then before + [Event(|lines|, IndexOf(ImagesOf(lines), ImageOf(last)))] else before
  }

  function NotesOf(lines: seq<Line>): seq<Content> {
    if lines == [] then []
    else
      NotesOf(lines[..|lines| - 1]) +
      if IsNote(lines[|lines| - 1]) then [lines[|lines| - 1].content] else []
  }

  /** The first line that begins as a dyld record. */
  function FirstDyld(lines: seq<Line>): (r: Option<Line>)
    ensures r.Some? ==> r.value.Dyld?
  {
    if lines == [] then None
    else
      var before := FirstDyld(lines[..|lines| - 1]);
      if before.Some? then before else if lines[|lines| - 1].Dyld? then Some(lines[|lines| - 1]) else None
  }

  predicate Understood(syntax: Syntax, line: Line) {
    || line.Application?
    || (line.Dyld? && ((line.content.Load? && syntax.canonical(line.content.path)) || line.content.Note?))
  }

  /** The lines are all understood, share one pid, and the first record is a load. */
  predicate Clean(syntax: Syntax, lines: seq<Line>) {
    && (forall i | 0 <= i < |lines| :: Understood(syntax, lines[i]))
    && (FirstDyld(lines).Some? ==>
          && IsLoad(FirstDyld(lines).value)
          && forall i | 0 <= i < |lines| && lines[i].Dyld? :: lines[i].pid == FirstDyld(lines).value.pid)
    && |ImagesOf(lines)| <= MAX_IMAGES && |EventsOf(lines)| <= MAX_EVENTS
  }

  predicate Leaf(syntax: Syntax, images: seq<Image>, name: string) {
    exists i | 0 <= i < |images| :: syntax.leaf(images[i].path) == name
  }

  predicate NoteOk(syntax: Syntax, images: seq<Image>, note: Content) {
    note.Note? && note.kind.Reference? && forall name | name in note.names :: Leaf(syntax, images, name)
  }

  predicate Terminated(log: Log) {
    log.terminated || log.lines == [] || !log.lines[|log.lines| - 1].Dyld?
  }

  /** Nothing in the log breaks the closure. */
  predicate Closed(syntax: Syntax, log: Log) {
    && Clean(syntax, log.lines) && FirstDyld(log.lines).Some? && Terminated(log)
    && forall note | note in NotesOf(log.lines) :: NoteOk(syntax, ImagesOf(log.lines), note)
  }

  // ----- the parser -----------------------------------------------------------------------------

  lemma CleanPrefix(syntax: Syntax, lines: seq<Line>, n: nat)
    requires n <= |lines| && !Clean(syntax, lines[..n])
    ensures !Clean(syntax, lines)
    decreases |lines| - n
  {
    if n == |lines| {
      assert lines[..n] == lines;
    } else {
      CleanStep(syntax, lines, n);
      CleanPrefix(syntax, lines, n + 1);
    }
  }

  /** Whether one more line keeps a clean log clean. */
  predicate Continues(syntax: Syntax, lines: seq<Line>, line: Line) {
    && Understood(syntax, line)
    && (line.Dyld? && FirstDyld(lines).Some? ==> line.pid == FirstDyld(lines).value.pid)
    && (line.Dyld? && FirstDyld(lines).None? ==> line.content.Load?)
    && (IsLoad(line) ==> |AddImage(ImagesOf(lines), ImageOf(line))| <= MAX_IMAGES && |EventsOf(lines)| < MAX_EVENTS)
  }

  lemma FirstDyldIn(lines: seq<Line>)
    ensures FirstDyld(lines).Some? ==> FirstDyld(lines).value in lines && FirstDyld(lines).value.Dyld?
    ensures FirstDyld(lines).None? ==> forall i | 0 <= i < |lines| :: !lines[i].Dyld?
  {
    if lines != [] {
      FirstDyldIn(lines[..|lines| - 1]);
    }
  }

  lemma CleanStep(syntax: Syntax, lines: seq<Line>, n: nat)
    requires n < |lines|
    ensures Clean(syntax, lines[..n + 1]) <==> Clean(syntax, lines[..n]) && Continues(syntax, lines[..n], lines[n])
  {
    var front, line := lines[..n], lines[n];
    assert lines[..n + 1] == front + [line];
    FirstDyldIn(front);
    StepFacts(front, line);
    if IsLoad(line) {
      AddImageGrows(ImagesOf(front), ImageOf(line));
    }
    hide Understood, AddImage, FirstDyld, EventsOf, ImagesOf;
    assert forall i | 0 <= i < n :: (front + [line])[i] == front[i];
  }

  lemma AddImageGrows(images: seq<Image>, image: Image)
    ensures |AddImage(images, image)| >= |images| && image in AddImage(images, image)
  {
  }

  lemma ClosedNeedsClean(syntax: Syntax, log: Log, n: nat)
    requires n < |log.lines| && Clean(syntax, log.lines[..n]) && !Continues(syntax, log.lines[..n], log.lines[n])
    ensures !Clean(syntax, log.lines)
  {
    CleanStep(syntax, log.lines, n);
    CleanPrefix(syntax, log.lines, n + 1);
  }

  /** What the parser holds after lines that break nothing. */
  predicate Matches(p: Parsed, lines: seq<Line>) {
    && p.pid == (if FirstDyld(lines).Some? then Some(FirstDyld(lines).value.pid) else None)
    && p.main == (if FirstDyld(lines).Some? && IsLoad(FirstDyld(lines).value)
                  then Some(FirstDyld(lines).value.content.path) else None)
    && p.events == EventsOf(lines) && p.images == ImagesOf(lines) && p.notes == NotesOf(lines)
  }

  lemma {:induction false} IndexOfAppend(images: seq<Image>, image: Image, other: Image)
    requires image in images
    ensures IndexOf(images + [other], image) == IndexOf(images, image)
  {
    if images[0] != image {
      assert (images + [other])[1..] == images[1..] + [other];
      IndexOfAppend(images[1..], image, other);
    }
  }

  lemma {:induction false} IndexOfNew(images: seq<Image>, image: Image)
    requires image !in images
    ensures IndexOf(images + [image], image) == |images|
  {
    if images != [] {
      assert (images + [image])[1..] == images[1..] + [image] && images[0] in images;
      IndexOfNew(images[1..], image);
    }
  }

  lemma IndexesMore(indexes: map<Image, nat>, images: seq<Image>, image: Image)
    requires forall other | other in images :: other in indexes && indexes[other] == IndexOf(images, other)
    requires image !in images
    ensures forall other | other in images + [image] ::
              (other == image || other in indexes) &&
              indexes[image := |images|][other] == IndexOf(images + [image], other)
  {
    IndexOfNew(images, image);
    forall other | other in images ensures IndexOf(images + [image], other) == IndexOf(images, other) {
      IndexOfAppend(images, other, image);
    }
  }

  lemma StepFacts(lines: seq<Line>, line: Line)
    ensures var more := lines + [line];
            && EventsOf(more) == (if IsLoad(line)
                                  then EventsOf(lines) + [Event(|lines| + 1, IndexOf(ImagesOf(more), ImageOf(line)))]
                                  else EventsOf(lines))
            && ImagesOf(more) == (if IsLoad(line) then AddImage(ImagesOf(lines), ImageOf(line)) else ImagesOf(lines))
            && NotesOf(more) == (if IsNote(line) then NotesOf(lines) + [line.content] else NotesOf(lines))
            && FirstDyld(more) == (if FirstDyld(lines).Some? then FirstDyld(lines)
                                   else if line.Dyld? then Some(line) else None)
  {
    assert (lines + [line])[..|lines|] == lines;
  }

  /** A load record, whose process and path have been accepted. */
  method ParseLoad(p: Parsed, indexes: map<Image, nat>, number: nat, image: Image)
    returns (q: Parsed, next: map<Image, nat>, problem: Option<Problem>)
    requires forall other | other in p.images :: other in indexes && indexes[other] == IndexOf(p.images, other)
    requires (forall other | other in indexes :: other in p.images) && |p.images| <= MAX_IMAGES
    ensures |q.images| <= MAX_IMAGES
    ensures problem.None? <==> |AddImage(p.images, image)| <= MAX_IMAGES && |p.events| < MAX_EVENTS
    ensures forall other | other in q.images :: other in next && next[other] == IndexOf(q.images, other)
    ensures forall other | other in next :: other in q.images
    ensures problem.None? ==>
              && q.images == AddImage(p.images, image)
              && q.events == p.events + [Event(number, IndexOf(q.images, image))]
    ensures q.pid == p.pid && q.main == p.main && q.notes == p.notes
  {
    q, next, problem := p, indexes, None;
    if image !in next {
      if |q.images| >= MAX_IMAGES {
        problem := Some(ImageLimit);
        return;
      }
      IndexesMore(indexes, q.images, image);
      next := next[image := |q.images|];
      q := q.(images := q.images + [image]);
    }
    if |q.events| >= MAX_EVENTS {
      problem := Some(EventLimit);
      return;
    }
    q := q.(events := q.events + [Event(number, next[image])]);
  }

  predicate Indexed(p: Parsed, indexes: map<Image, nat>) {
    && |p.images| <= MAX_IMAGES
    && (forall image | image in p.images :: image in indexes && indexes[image] == IndexOf(p.images, image))
    && (forall image | image in indexes :: image in p.images)
  }

  /** One record line: the new state and the problem it raises, if any. */
  method ParseRecord(syntax: Syntax, p: Parsed, indexes: map<Image, nat>, number: nat, line: Line,
                     ghost lines: seq<Line>, ghost clean: bool)
    returns (q: Parsed, next: map<Image, nat>, problem: Option<Problem>)
    requires line.Dyld? && Indexed(p, indexes)
    requires clean ==> Matches(p, lines) && number == |lines| + 1
    requires clean && FirstDyld(lines).Some? ==> IsLoad(FirstDyld(lines).value)
    ensures Indexed(q, next)
    ensures clean ==> (problem.None? <==> Continues(syntax, lines, line))
    ensures clean && problem.None? ==> Matches(q, lines + [line])
  {
    hide IndexOf, AddImage, EventsOf, ImagesOf, NotesOf, FirstDyld;
    StepFacts(lines, line);
    q, next, problem := p, indexes, None;
    if q.pid.None? {
      q := q.(pid := Some(line.pid));
    }
    if q.pid != Some(line.pid) {
      problem := Some(ForeignPid);
      return;
    }
    if line.content.Load? {
      if !syntax.canonical(line.content.path) {
        problem := Some(UnknownRecord);
        return;
      }
      if q.main.None? {
        q := q.(main := Some(line.content.path));
      }
      q, next, problem := ParseLoad(q, next, number, Image(line.content.path, line.content.uuid));
      return;
    }
    if q.main.None? {
      problem := Some(MainExecutableNotFirst);
    }
    if line.content.Note? {
      q := q.(notes := q.notes + [line.content]);
    } else if problem.None? {
      problem := Some(UnknownRecord);
    }
  }

  lemma ParseStart(syntax: Syntax, log: Log)
    ensures Clean(syntax, log.lines[..0])
    ensures Matches(Parsed(None, None, [], [], [], None), log.lines[..0])
    ensures Indexed(Parsed(None, None, [], [], [], None), map[])
    ensures log.lines == [] ==> Terminated(log)
  {
  }

  lemma LoadsFirst(syntax: Syntax, lines: seq<Line>)
    ensures Clean(syntax, lines) && FirstDyld(lines).Some? ==> IsLoad(FirstDyld(lines).value)
  {
  }

  lemma Ending(log: Log, i: nat)
    requires i < |log.lines|
    ensures i + 1 == |log.lines| ==> (Terminated(log) <==> log.terminated || !log.lines[i].Dyld?)
  {
  }

  lemma ApplicationContinues(syntax: Syntax, p: Parsed, lines: seq<Line>, line: Line)
    requires line.Application?
    ensures Continues(syntax, lines, line)
    ensures Matches(p, lines) ==> Matches(p, lines + [line])
  {
    StepFacts(lines, line);
  }

  lemma NotUnderstood(syntax: Syntax, lines: seq<Line>, line: Line)
    requires line.Interleaved? || line.BadPrefix?
    ensures !Continues(syntax, lines, line)
  {
  }

  lemma ParseEnd(syntax: Syntax, log: Log, p: Parsed)
    ensures Matches(p, log.lines) ==>
              && (p.pid.None? <==> FirstDyld(log.lines).None?)
              && (Closed(syntax, log) <==>
                    && Clean(syntax, log.lines) && p.pid.Some? && Terminated(log)
                    && forall k | 0 <= k < |p.notes| :: NoteOk(syntax, p.images, p.notes[k]))
    ensures Broken(syntax, log) ==> !Closed(syntax, log)
    ensures Matches(p, log.lines) ==> forall k | 0 <= k < |p.notes| :: p.notes[k].Note?
  {
    AllNotes(log.lines);
  }

  lemma {:induction false} AllNotes(lines: seq<Line>)
    ensures forall note | note in NotesOf(lines) :: note.Note?
  {
    if lines != [] {
      AllNotes(lines[..|lines| - 1]);
    }
  }

  lemma NoteParts(syntax: Syntax, images: seq<Image>, note: Content)
    ensures note.Note? ==>
              (NoteOk(syntax, images, note) <==>
                 !note.kind.InsertedDuplicate? && !(exists name | name in note.names :: !Leaf(syntax, images, name)))
  {
  }

  lemma WithReason(p: Parsed, lines: seq<Line>, reason: Option<Problem>)
    ensures Matches(p.(reason := reason), lines) <==> Matches(p, lines)
  {
  }

  predicate Broken(syntax: Syntax, log: Log) {
    !Clean(syntax, log.lines) || !Terminated(log)
  }

  /** `_parse_log`: no problem exactly for a closed log, and then its images and events in order. */
  method ParseLog(syntax: Syntax, log: Log) returns (p: Parsed)
    ensures p.reason.None? <==> Closed(syntax, log)
    ensures p.reason.None? ==> Matches(p, log.lines)
  {
    hide Clean, Continues, Matches, Indexed, Terminated, NoteOk, Leaf;
    p := Parsed(None, None, [], [], [], None);
    var indexes: map<Image, nat> := map[];
    var problems: seq<Problem> := [];
    ParseStart(syntax, log);
    for i := 0 to |log.lines|
      invariant Indexed(p, indexes)
      invariant problems == [] ==> Clean(syntax, log.lines[..i]) && Matches(p, log.lines[..i])
      invariant problems == [] && i == |log.lines| ==> Terminated(log)
      invariant problems != [] ==> Broken(syntax, log)
    {
      var line := log.lines[i];
      ghost var before := log.lines[..i];
      ghost var clean := problems == [];
      assert log.lines[..i + 1] == before + [line];
      CleanStep(syntax, log.lines, i);
      LoadsFirst(syntax, before);
      if clean && !Continues(syntax, before, line) {
        ClosedNeedsClean(syntax, log, i);
      }
      Ending(log, i);
      if line.Application? {
        ApplicationContinues(syntax, p, before, line);
        continue;
      }
      if line.Interleaved? || line.BadPrefix? {
        NotUnderstood(syntax, before, line);
        problems := problems + [UnknownRecord];
        continue;
      }
      if i + 1 == |log.lines| && !log.terminated {
        problems := problems + [UnknownRecord];
        continue;
      }
      var problem: Option<Problem>;
      p, indexes, problem := ParseRecord(syntax, p, indexes, i + 1, line, before, clean);
      if problem.Some? {
        problems := problems + [problem.value];
      }
    }
    assert log.lines[..|log.lines|] == log.lines;
    if p.pid.None? {
      problems := [LoaderLoggingUnavailable] + problems;
    }
    var leaves := problems == [];
    ParseEnd(syntax, log, p);
    for i := 0 to |p.notes|
      invariant leaves ==> (problems == [] <==> forall k | 0 <= k < i :: NoteOk(syntax, p.images, p.notes[k]))
      invariant !leaves ==> problems != []
    {
      var note := p.notes[i];
      NoteParts(syntax, p.images, note);
      if note.Note? && note.kind.InsertedDuplicate? {
        problems := problems + [InsertedDylibPresent];
      } else if note.Note? && exists name | name in note.names :: !Leaf(syntax, p.images, name) {
        problems := problems + [UnknownReference];
      }
    }
    var reason := if problems == [] then None else Some(problems[0]);
    WithReason(p, log.lines, reason);
    p := p.(reason := reason);
  }

  // ----- what the images mean -------------------------------------------------------------------

  /** The images are the loaded ones, each once. */
  lemma {:induction false} ImagesExact(lines: seq<Line>)
    ensures forall image :: image in ImagesOf(lines) <==>
              exists k | 0 <= k < |lines| :: IsLoad(lines[k]) && ImageOf(lines[k]) == image
    ensures forall i, j | 0 <= i < j < |ImagesOf(lines)| :: ImagesOf(lines)[i] != ImagesOf(lines)[j]
  {
    if lines != [] {
      var front, last := lines[..|lines| - 1], lines[|lines| - 1];
      ImagesExact(front);
      assert forall k | 0 <= k < |front| :: lines[k] == front[k];
      forall image ensures image in ImagesOf(lines) <==>
                     exists k | 0 <= k < |lines| :: IsLoad(lines[k]) && ImageOf(lines[k]) == image
      {
        if image in ImagesOf(front) {
          var k :| 0 <= k < |front| && IsLoad(front[k]) && ImageOf(front[k]) == image;
          assert IsLoad(lines[k]) && ImageOf(lines[k]) == image;
        }
      }
    }
  }

  lemma {:induction false} ImagesGrow(lines: seq<Line>, n: nat)
    requires n <= |lines|
    ensures ImagesOf(lines[..n]) <= ImagesOf(lines)
    decreases |lines|
  {
    if n < |lines| {
      ImagesGrow(lines[..|lines| - 1], n);
      assert lines[..|lines| - 1][..n] == lines[..n];
    } else {
      assert lines[..n] == lines;
    }
  }

  /** Each event names a load line and the position of the image that line loaded. */
  lemma {:induction false} EventsExact(lines: seq<Line>, i: nat)
    requires i < |EventsOf(lines)|
    ensures var event := EventsOf(lines)[i];
            && 0 < event.line <= |lines| && IsLoad(lines[event.line - 1])
            && event.image < |ImagesOf(lines)| && ImagesOf(lines)[event.image] == ImageOf(lines[event.line - 1])
    ensures i > 0 ==> EventsOf(lines)[i - 1].line < EventsOf(lines)[i].line
  {
    var front := lines[..|lines| - 1];
    ImagesGrow(lines, |lines| - 1);
    if i < |EventsOf(front)| {
      EventsExact(front, i);
    } else if i > 0 {
      EventsExact(front, i - 1);
    }
  }

  /** The first image of a log whose first record is a load is the main executable. */
  lemma {:induction false} MainIsFirst(lines: seq<Line>)
    requires FirstDyld(lines).Some? && IsLoad(FirstDyld(lines).value)
    ensures ImagesOf(lines) != [] && ImagesOf(lines)[0] == ImageOf(FirstDyld(lines).value)
  {
    var front := lines[..|lines| - 1];
    if FirstDyld(front).Some? {
      MainIsFirst(front);
    } else {
      NoImagesYet(front);
    }
  }

  lemma {:induction false} NoImagesYet(lines: seq<Line>)
    requires FirstDyld(lines).None?
    ensures ImagesOf(lines) == []
  {
    if lines != [] {
      NoImagesYet(lines[..|lines| - 1]);
    }
  }

  // ----- a closed log, line by line ------------------------------------------------------------

  ghost function LoadLines(lines: seq<Line>): set<int> {
    set k | 0 <= k < |lines| && lines[k].Dyld? && lines[k].content.Load?
  }

  ghost function LoadedPairs(lines: seq<Line>): set<(string, Option<string>)> {
    set k | k in LoadLines(lines) :: (lines[k].content.path, lines[k].content.uuid)
  }

  lemma {:induction false} EventCount(lines: seq<Line>)
    ensures |EventsOf(lines)| == |LoadLines(lines)|
  {
    if lines != [] {
      var n := |lines| - 1;
      EventCount(lines[..n]);
      LastLoad(lines);
      hide *;
      hide EventsOf;
      EventsStep(lines);
    }
  }

  lemma EventsStep(lines: seq<Line>)
    requires lines != []
    ensures |EventsOf(lines)| == |EventsOf(lines[..|lines| - 1])| + if IsLoad(lines[|lines| - 1]) then 1 else 0
  {
  }

  lemma LastLoad(lines: seq<Line>)
    requires lines != []
    ensures var n := |lines| - 1; var last := lines[n];
            && LoadLines(lines) == LoadLines(lines[..n]) + (if IsLoad(last) then {n} else {})
            && n !in LoadLines(lines[..n])
            && LoadedPairs(lines) ==
               LoadedPairs(lines[..n]) + (if IsLoad(last) then {(last.content.path, last.content.uuid)} else {})
  {
    var n := |lines| - 1;
    assert forall k | 0 <= k < n :: lines[k] == lines[..n][k];
  }

  predicate Listed(images: seq<Image>, pairs: set<(string, Option<string>)>) {
    && |images| == |pairs|
    && (forall p | p in pairs :: Image(p.0, p.1) in images)
    && (forall image | image in images :: (image.path, image.uuid) in pairs)
  }

  /** There is an image for each pair of path and UUID that was loaded. */
  lemma {:induction false} ImageCount(lines: seq<Line>)
    ensures Listed(ImagesOf(lines), LoadedPairs(lines))
  {
    if lines != [] {
      var front := lines[..|lines| - 1];
      ImageCount(front);
      LastLoad(lines);
      hide LoadedPairs, LoadLines;
    }
  }

  lemma {:induction false} NotesExact(lines: seq<Line>)
    ensures forall note: Content :: note in NotesOf(lines) <==>
              exists k | 0 <= k < |lines| :: lines[k].Dyld? && lines[k].content.Note? && lines[k].content == note
  {
    if lines != [] {
      var front, last := lines[..|lines| - 1], lines[|lines| - 1];
      NotesExact(front);
      assert forall k | 0 <= k < |front| :: lines[k] == front[k];
      forall note: Content ensures note in NotesOf(lines) <==>
                exists k | 0 <= k < |lines| :: lines[k].Dyld? && lines[k].content.Note? && lines[k].content == note
      {
        if note in NotesOf(front) {
          var k :| 0 <= k < |front| && front[k].Dyld? && front[k].content.Note? && front[k].content == note;
          assert lines[k].content == note;
        }
      }
    }
  }

  lemma {:induction false} FirstDyldAt(lines: seq<Line>, k: nat)
    requires k < |lines| && lines[k].Dyld? && forall i | 0 <= i < k :: !lines[i].Dyld?
    ensures FirstDyld(lines) == Some(lines[k])
  {
    if k == |lines| - 1 {
      FirstDyldIn(lines[..k]);
    } else {
      FirstDyldAt(lines[..|lines| - 1], k);
    }
  }

  lemma {:induction false} FirstDyldWhere(lines: seq<Line>) returns (k: nat)
    requires FirstDyld(lines).Some?
    ensures k < |lines| && lines[k].Dyld? && forall i | 0 <= i < k :: !lines[i].Dyld?
  {
    var front := lines[..|lines| - 1];
    if FirstDyld(front).Some? {
      k := FirstDyldWhere(front);
    } else {
      FirstDyldIn(front);
      k := |lines| - 1;
      assert forall i | 0 <= i < k :: lines[i] == front[i];
    }
  }

  /** What one line of a closed log says, when `pid` is the process of the log. */
  predicate Says(syntax: Syntax, line: Line, pid: nat) {
    match line
    case Application(_) => true
    case Dyld(p, Load(_, path), _) => p == pid && syntax.canonical(path)
    case Dyld(p, Note(kind, _), _) => p == pid && kind == Reference
    case _ => false
  }

  /** Line `k` is the first record, a load, and every line is one of its process. */
  predicate Opens(syntax: Syntax, lines: seq<Line>, k: int) {
    && 0 <= k < |lines| && lines[k].Dyld? && lines[k].content.Load?
    && (forall i | 0 <= i < k :: lines[i].Application?)
    && forall i | 0 <= i < |lines| :: Says(syntax, lines[i], lines[k].pid)
  }

  /** Line `i` is a note that names `name`. */
  predicate Names(lines: seq<Line>, i: int, name: string) {
    0 <= i < |lines| && lines[i].Dyld? && lines[i].content.Note? && name in lines[i].content.names
  }

  predicate References(lines: seq<Line>) {
    forall note | note in NotesOf(lines) :: note.Note? && note.kind.Reference?
  }

  lemma OpensIs(syntax: Syntax, lines: seq<Line>)
    ensures (exists k :: Opens(syntax, lines, k)) <==>
              && (forall i | 0 <= i < |lines| :: Understood(syntax, lines[i]))
              && FirstDyld(lines).Some? && IsLoad(FirstDyld(lines).value)
              && (forall i | 0 <= i < |lines| && lines[i].Dyld? :: lines[i].pid == FirstDyld(lines).value.pid)
              && References(lines)
    ensures (exists k :: Opens(syntax, lines, k)) ==> lines != []
  {
    NotesExact(lines);
    if exists k :: Opens(syntax, lines, k) {
      var k :| Opens(syntax, lines, k);
      FirstDyldAt(lines, k);
    }
    if References(lines) && FirstDyld(lines).Some? {
      var k := FirstDyldWhere(lines);
      FirstDyldAt(lines, k);
      forall i | 0 <= i < |lines| && lines[i].Dyld? && lines[i].content.Note?
        ensures lines[i].content.kind == Reference
      {
        assert lines[i].content in NotesOf(lines);
      }
      hide NotesOf, FirstDyld;
      if (forall i | 0 <= i < |lines| :: Understood(syntax, lines[i])) && IsLoad(lines[k])
         && forall i | 0 <= i < |lines| && lines[i].Dyld? :: lines[i].pid == lines[k].pid
      {
        assert Opens(syntax, lines, k);
      }
    }
  }

  lemma NotesAreReferences(syntax: Syntax, lines: seq<Line>)
    ensures (forall note | note in NotesOf(lines) :: NoteOk(syntax, ImagesOf(lines), note)) <==>
              && References(lines)
              && forall i, name | Names(lines, i, name) ::
                   exists p | p in LoadedPairs(lines) :: syntax.leaf(p.0) == name
  {
    NotesExact(lines);
    forall name ensures Leaf(syntax, ImagesOf(lines), name) <==>
                          exists p | p in LoadedPairs(lines) :: syntax.leaf(p.0) == name
    {
      LeafIs(syntax, lines, name);
    }
    hide Leaf, LoadedPairs, ImagesOf, NotesOf;
    if forall note | note in NotesOf(lines) :: NoteOk(syntax, ImagesOf(lines), note) {
      forall i, name | Names(lines, i, name)
        ensures exists p | p in LoadedPairs(lines) :: syntax.leaf(p.0) == name
      {
        assert NoteOk(syntax, ImagesOf(lines), lines[i].content);
        assert Leaf(syntax, ImagesOf(lines), name);
      }
    }
    if References(lines)
       && forall i, name | Names(lines, i, name) :: exists p | p in LoadedPairs(lines) :: syntax.leaf(p.0) == name
    {
      forall note | note in NotesOf(lines) ensures NoteOk(syntax, ImagesOf(lines), note) {
        var i :| 0 <= i < |lines| && lines[i].Dyld? && lines[i].content.Note? && lines[i].content == note;
        forall name | name in note.names ensures Leaf(syntax, ImagesOf(lines), name) {
          assert Names(lines, i, name);
        }
      }
    }
  }

  /**
   A log is closed if and only if its first record is a load of some process, every line is an application line, a
   canonical load or a reference note of that process, every name of a note is the leaf of a loaded path, both limits
   hold, and the last record is a whole line.
   */
  lemma ClosedIs(syntax: Syntax, log: Log)
    ensures Closed(syntax, log) <==>
              && (exists k :: Opens(syntax, log.lines, k))
              && (forall i, name | Names(log.lines, i, name) ::
                    exists p | p in LoadedPairs(log.lines) :: syntax.leaf(p.0) == name)
              && |LoadedPairs(log.lines)| <= 4096 && |LoadLines(log.lines)| <= 16384
              && (log.terminated || !log.lines[|log.lines| - 1].Dyld?)
  {
    var lines := log.lines;
    EventCount(lines);
    ImageCount(lines);
    OpensIs(syntax, lines);
    NotesAreReferences(syntax, lines);
    hide LoadedPairs, LoadLines, Opens, Names, NotesOf, EventsOf, ImagesOf, NoteOk, Understood;
  }

  lemma LeafIs(syntax: Syntax, lines: seq<Line>, name: string)
    ensures Leaf(syntax, ImagesOf(lines), name) <==> exists p | p in LoadedPairs(lines) :: syntax.leaf(p.0) == name
  {
    ImageCount(lines);
    hide LoadedPairs;
    var images := ImagesOf(lines);
    if Leaf(syntax, images, name) {
      var i :| 0 <= i < |images| && syntax.leaf(images[i].path) == name;
      assert images[i] in images;
      assert (images[i].path, images[i].uuid) in LoadedPairs(lines);
    }
    if exists p | p in LoadedPairs(lines) :: syntax.leaf(p.0) == name {
      var p :| p in LoadedPairs(lines) && syntax.leaf(p.0) == name;
      assert Image(p.0, p.1) in images;
    }
  }
}
