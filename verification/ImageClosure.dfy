/** Frozen image closures (`_reparse_receipt`, `_union`, `_check_closure` and `_reconcile` of macos_image_observer.py). */
module ImageClosure {
  import opened Wrappers
  import opened LoaderLog
  import opened Paths

  // ----- image rows -----------------------------------------------------------------------------

  /** An image of the shared cache, or a file with its identity, digest, architecture and Mach-O header. */
  datatype Binding = System | File(identity: string, sha256: string, arch: string, macho: string)

  datatype Row = Row(path: string, uuid: string, binding: Binding)

  datatype ImageRecord = ImageRecord(path: string, uuid: Option<string>, bound: bool, binding: Binding,
                                     machoUuid: Option<string>)

  datatype Refusal =
    | NoReceipts | RecordInvalid | RecordNotSuccessful | LogNotClosed | LoaderMismatch | RootPidMismatch
    | EventsMismatch | ImagesMismatch | ImageInvalid | MainUnbound | TargetMismatch | ArchitectureMismatch
    | HeaderDiffers | ConflictingBinding | ConflictingUuid | TooManyImages | ClosureInvalid | DuplicateImage

  /** A row that `_check_image_binding` returns. */
  predicate RowOk(syntax: Syntax, row: Row) {
    && StartsWith(row.path, "/") && syntax.canonical(row.path) && syntax.isUuid(row.uuid)
    && (row.binding.System? ==> IsSystem(row.path))
  }

  /** `_check_image_binding`. */
  function CheckImage(syntax: Syntax, image: ImageRecord): Result<Row, Refusal> {
    if image.bound && image.uuid.Some? && RowOk(syntax, Row(image.path, image.uuid.value, image.binding))
       && (image.binding.File? ==> image.machoUuid == image.uuid)
    then Ok(Row(image.path, image.uuid.value, image.binding)) else Refused(ImageInvalid)
  }

  /** The record of a closure row, `dict(image, bound=True)`. */
  function RecordOf(row: Row): ImageRecord {
    ImageRecord(row.path, Some(row.uuid), true, row.binding, Some(row.uuid))
  }

  /** `TARGETS.get`. */
  function Target(architecture: string): Option<string> {
    if architecture == "arm64" then Some("aarch64-apple-darwin")
    else if architecture == "x86_64" then Some("x86_64-apple-darwin") else None
  }

  function TargetOf(row: Row): Option<string> {
    match row.binding
    case System => None
    case File(_, _, arch, _) => if Target(arch).Some? then Target(arch) else Some(arch + "-apple-darwin")
  }

  // ----- discovery receipts ---------------------------------------------------------------------

  /** What every receipt of a closure has to share. */
  datatype Header = Header(target: string, main: string, env: string, system: string, architecture: string,
                           dyld: string)

  datatype Origin = Origin(digest: string, pid: nat, events: nat)

  /** A discovery receipt; `schema` is false where a field is missing or of the wrong kind. */
  datatype Receipt = Receipt(schema: bool, succeeded: bool, log: Log, processId: Option<nat>, loaderPid: Option<nat>,
                             loaderMain: Option<string>, loaderRootPid: Option<nat>, events: seq<Event>,
                             images: seq<ImageRecord>, target: string, env: string, system: string,
                             architecture: string, dyld: string, digest: string)

  datatype Identity = Identity(header: Header, images: seq<Row>, origin: Origin)

  /** The retained images are those of the log, in order. */
  predicate SameImages(images: seq<ImageRecord>, parsed: seq<Image>) {
    && |images| == |parsed|
    && forall i | 0 <= i < |images| :: images[i].path == parsed[i].path && images[i].uuid == parsed[i].uuid
  }

  predicate AllChecked(syntax: Syntax, images: seq<ImageRecord>) {
    forall i | 0 <= i < |images| :: CheckImage(syntax, images[i]).Ok?
  }

  function RowsOf(images: seq<ImageRecord>): (rows: seq<Row>)
    ensures |rows| == |images|
  {
    seq(|images|, i requires 0 <= i < |images| =>
      Row(images[i].path, if images[i].uuid.Some? then images[i].uuid.value else "", images[i].binding))
  }

  /** The receipt's own log, summaries and bindings agree, and the main executable is a bound file. */
  predicate Accepted(syntax: Syntax, receipt: Receipt) {
    && receipt.schema && receipt.succeeded && Closed(syntax, receipt.log)
    && var first := FirstDyld(receipt.log.lines).value;
    && IsLoad(first)
    && receipt.loaderPid == Some(first.pid) && receipt.loaderMain == Some(first.content.path)
    && receipt.processId == receipt.loaderRootPid == Some(first.pid) && first.pid > 0
    && receipt.events == EventsOf(receipt.log.lines)
    && SameImages(receipt.images, ImagesOf(receipt.log.lines)) && AllChecked(syntax, receipt.images)
    && receipt.images != [] && receipt.images[0].binding.File?
    && receipt.images[0].path == first.content.path
    && Some(receipt.target) == TargetOf(RowsOf(receipt.images)[0]) == Target(receipt.architecture)
  }

  predicate Identified(receipt: Receipt) {
    receipt.processId.Some? && receipt.loaderMain.Some?
  }

  function IdentityOf(receipt: Receipt): Identity
    requires Identified(receipt)
  {
    Identity(Header(receipt.target, receipt.loaderMain.value, receipt.env, receipt.system, receipt.architecture,
                    receipt.dyld),
             RowsOf(receipt.images), Origin(receipt.digest, receipt.processId.value, |receipt.events|))
  }

  /** `_reparse_receipt`: accepts exactly the receipts that their own log confirms. */
  method ReparseReceipt(syntax: Syntax, receipt: Receipt) returns (r: Result<Identity, Refusal>)
    ensures r.Ok? <==> Accepted(syntax, receipt)
    ensures r.Ok? ==> r.value == IdentityOf(receipt)
  {
    hide Closed, EventsOf, ImagesOf, FirstDyld, CheckImage, TargetOf, Target;
    if !receipt.schema {
      return Refused(RecordInvalid);
    }
    if !receipt.succeeded {
      return Refused(RecordNotSuccessful);
    }
    var parsed := ParseLog(syntax, receipt.log);
    if parsed.reason.Some? {
      return Refused(LogNotClosed);
    }
    ClosedStart(syntax, receipt.log);
    if parsed.pid != receipt.loaderPid || parsed.main != receipt.loaderMain {
      return Refused(LoaderMismatch);
    }
    if receipt.processId.None? || receipt.processId.value == 0 || receipt.loaderRootPid != receipt.processId
       || parsed.pid != receipt.processId
    {
      return Refused(RootPidMismatch);
    }
    if parsed.events != receipt.events {
      return Refused(EventsMismatch);
    }
    if !SameImages(receipt.images, parsed.images) {
      return Refused(ImagesMismatch);
    }
    var rows := [];
    for i := 0 to |receipt.images|
      invariant forall k | 0 <= k < i :: CheckImage(syntax, receipt.images[k]).Ok?
      invariant rows == RowsOf(receipt.images)[..i]
    {
      var row := CheckImage(syntax, receipt.images[i]);
      if row.Refused? {
        return Refused(row.reason);
      }
      CheckedRow(syntax, receipt.images[i]);
      rows := rows + [row.value];
    }
    if rows == [] || rows[0].binding.System? || parsed.main != Some(rows[0].path) {
      return Refused(MainUnbound);
    }
    if TargetOf(rows[0]) != Some(receipt.target) {
      return Refused(TargetMismatch);
    }
    if Some(receipt.target) != Target(receipt.architecture) {
      return Refused(ArchitectureMismatch);
    }
    var header := Header(receipt.target, parsed.main.value, receipt.env, receipt.system, receipt.architecture,
                         receipt.dyld);
    r := Ok(Identity(header, rows, Origin(receipt.digest, receipt.processId.value, |parsed.events|)));
  }

  lemma ClosedStart(syntax: Syntax, log: Log)
    requires Closed(syntax, log)
    ensures FirstDyld(log.lines).Some? && IsLoad(FirstDyld(log.lines).value)
  {
  }

  lemma CheckedRow(syntax: Syntax, image: ImageRecord)
    requires CheckImage(syntax, image).Ok?
    ensures image.uuid.Some? && CheckImage(syntax, image).value == Row(image.path, image.uuid.value, image.binding)
    ensures RowOk(syntax, CheckImage(syntax, image).value)
  {
  }

  // ----- the union of receipts ------------------------------------------------------------------

  datatype Closure = Closure(header: Header, images: seq<Row>, origins: seq<Origin>)

  function AllRows(derived: seq<Identity>): seq<Row> {
    if derived == [] then [] else AllRows(derived[..|derived| - 1]) + derived[|derived| - 1].images
  }

  function AddRow(rows: seq<Row>, row: Row): seq<Row> {
    if row in rows then rows else rows + [row]
  }

  /** The rows without repetition, in the order of their first occurrence. */
  function Distinct(rows: seq<Row>): seq<Row> {
    if rows == [] then [] else AddRow(Distinct(rows[..|rows| - 1]), rows[|rows| - 1])
  }

  function OriginsOf(derived: seq<Identity>): seq<Origin> {
    seq(|derived|, i requires 0 <= i < |derived| => derived[i].origin)
  }

  /** A path binds to one UUID and one file identity. */
  predicate OneRowPerPath(rows: seq<Row>) {
    forall i, j | 0 <= i < |rows| && 0 <= j < |rows| && rows[i].path == rows[j].path :: rows[i] == rows[j]
  }

  predicate SameHeader(derived: seq<Identity>) {
    forall i, j | 0 <= i < |derived| && 0 <= j < |derived| :: derived[i].header == derived[j].header
  }

  /** Receipts that agree on their header and on every path, within the image limit. */
  predicate Unitable(derived: seq<Identity>) {
    && SameHeader(derived) && OneRowPerPath(AllRows(derived)) && |Distinct(AllRows(derived))| <= MAX_IMAGES
  }

  lemma {:induction false} DistinctExact(rows: seq<Row>)
    ensures forall row :: row in Distinct(rows) <==> row in rows
    ensures forall i, j | 0 <= i < j < |Distinct(rows)| :: Distinct(rows)[i] != Distinct(rows)[j]
  {
    if rows != [] {
      DistinctExact(rows[..|rows| - 1]);
      assert rows == rows[..|rows| - 1] + [rows[|rows| - 1]];
    }
  }

  lemma {:induction false} AllRowsPrefix(derived: seq<Identity>, n: nat)
    requires n <= |derived|
    ensures AllRows(derived[..n]) <= AllRows(derived)
    decreases |derived|
  {
    if n < |derived| {
      AllRowsPrefix(derived[..|derived| - 1], n);
      assert derived[..|derived| - 1][..n] == derived[..n];
    } else {
      assert derived[..n] == derived;
    }
  }

  lemma {:induction false} AllRowsAre(derived: seq<Identity>, row: Row)
    ensures row in AllRows(derived) <==> exists i | 0 <= i < |derived| :: row in derived[i].images
  {
    if derived != [] {
      var front := derived[..|derived| - 1];
      AllRowsAre(front, row);
      assert forall i | 0 <= i < |front| :: front[i] == derived[i];
    }
  }

  lemma PrefixBinds(rows: seq<Row>, seen: seq<Row>)
    requires seen <= rows && !OneRowPerPath(seen)
    ensures !OneRowPerPath(rows)
  {
    var i, j :| 0 <= i < |seen| && 0 <= j < |seen| && seen[i].path == seen[j].path && seen[i] != seen[j];
    assert rows[i] == seen[i] && rows[j] == seen[j];
  }

  /** The dictionaries of `_union` after the rows in `seen`. */
  predicate Tracks(seen: seq<Row>, rows: seq<Row>, rowOf: map<(string, string), Row>, byPath: map<string, string>) {
    && rows == Distinct(seen)
    && (forall row | row in seen :: row.path in byPath && byPath[row.path] == row.uuid
                                    && (row.path, row.uuid) in rowOf && rowOf[(row.path, row.uuid)] == row)
    && (forall key | key in rowOf :: rowOf[key] in seen && key == (rowOf[key].path, rowOf[key].uuid))
    && (forall path | path in byPath :: Bound(seen, path, byPath[path]))
  }

  predicate Bound(seen: seq<Row>, path: string, uuid: string) {
    exists i | 0 <= i < |seen| :: seen[i].path == path && seen[i].uuid == uuid
  }

  lemma BoundMore(seen: seq<Row>, row: Row)
    ensures Bound(seen + [row], row.path, row.uuid)
    ensures forall path, uuid | Bound(seen, path, uuid) :: Bound(seen + [row], path, uuid)
  {
    var more := seen + [row];
    assert more[|seen|] == row;
    forall path, uuid | Bound(seen, path, uuid) ensures Bound(more, path, uuid) {
      var i :| 0 <= i < |seen| && seen[i].path == path && seen[i].uuid == uuid;
      assert more[i] == seen[i];
    }
  }

  lemma TracksBind(seen: seq<Row>, rows: seq<Row>, rowOf: map<(string, string), Row>, byPath: map<string, string>)
    requires Tracks(seen, rows, rowOf, byPath)
    ensures OneRowPerPath(seen)
  {
    forall i, j | 0 <= i < |seen| && 0 <= j < |seen| && seen[i].path == seen[j].path ensures seen[i] == seen[j] {
      assert seen[i] in seen && seen[j] in seen;
    }
  }

  lemma Conflict(seen: seq<Row>, rows: seq<Row>, rowOf: map<(string, string), Row>, byPath: map<string, string>,
                 row: Row)
    requires Tracks(seen, rows, rowOf, byPath)
    requires || ((row.path, row.uuid) in rowOf && rowOf[(row.path, row.uuid)] != row)
             || (row.path in byPath && byPath[row.path] != row.uuid)
    ensures !OneRowPerPath(seen + [row])
  {
    var other: Row;
    if (row.path, row.uuid) in rowOf && rowOf[(row.path, row.uuid)] != row {
      other := rowOf[(row.path, row.uuid)];
    } else {
      var k :| 0 <= k < |seen| && seen[k].path == row.path && seen[k].uuid == byPath[row.path];
      other := seen[k];
    }
    var i :| 0 <= i < |seen| && seen[i] == other;
    var more := seen + [row];
    assert more[i] == other && more[|seen|] == row;
  }

  lemma TracksMore(seen: seq<Row>, rows: seq<Row>, rowOf: map<(string, string), Row>, byPath: map<string, string>,
                   row: Row)
    requires Tracks(seen, rows, rowOf, byPath)
    requires (row.path, row.uuid) in rowOf ==> rowOf[(row.path, row.uuid)] == row
    requires row.path in byPath ==> byPath[row.path] == row.uuid
    ensures Tracks(seen + [row], if (row.path, row.uuid) in rowOf then rows else rows + [row],
                   if (row.path, row.uuid) in rowOf then rowOf else rowOf[(row.path, row.uuid) := row],
                   byPath[row.path := row.uuid])
  {
    DistinctMore(seen, row);
    BoundMore(seen, row);
    KeyMore(seen, row);
    hide Distinct, Bound;
    var more, key := seen + [row], (row.path, row.uuid);
    assert key in rowOf <==> row in seen;
    var nextRows := if key in rowOf then rows else rows + [row];
    var nextOf := if key in rowOf then rowOf else rowOf[key := row];
    var nextPaths := byPath[row.path := row.uuid];
    assert nextRows == Distinct(more);
    forall other | other in more
      ensures other.path in nextPaths && nextPaths[other.path] == other.uuid
              && (other.path, other.uuid) in nextOf && nextOf[(other.path, other.uuid)] == other
    {
      if other != row {
        assert other in seen;
      }
    }
  }

  lemma KeyMore(seen: seq<Row>, row: Row)
    ensures forall other :: other in seen + [row] <==> other in seen || other == row
  {
  }

  lemma DistinctMore(seen: seq<Row>, row: Row)
    ensures Distinct(seen + [row]) == if row in seen then Distinct(seen) else Distinct(seen) + [row]
  {
    DistinctExact(seen);
    assert (seen + [row])[..|seen|] == seen;
  }

  /** The images of one receipt in `_union`: refused exactly when they bind a path twice. */
  method AddImages(images: seq<Row>, rowOf: map<(string, string), Row>, byPath: map<string, string>, rows: seq<Row>,
                   ghost before: seq<Row>)
    returns (refusal: Option<Refusal>, rowOf': map<(string, string), Row>, byPath': map<string, string>, rows': seq<Row>)
    requires Tracks(before, rows, rowOf, byPath)
    ensures refusal.None? <==> OneRowPerPath(before + images)
    ensures refusal.None? ==> Tracks(before + images, rows', rowOf', byPath')
  {
    hide OneRowPerPath, Tracks, Distinct;
    rowOf', byPath', rows' := rowOf, byPath, rows;
    ghost var seen := before;
    assert before + images[..0] == before;
    for j := 0 to |images|
      invariant Tracks(seen, rows', rowOf', byPath') && seen == before + images[..j]
    {
      var row := images[j];
      var key := (row.path, row.uuid);
      assert seen + [row] == before + images[..j + 1];
      if key in rowOf' && rowOf'[key] != row {
        Conflict(seen, rows', rowOf', byPath', row);
        PrefixBinds(before + images, seen + [row]);
        return Some(ConflictingBinding), rowOf', byPath', rows';
      }
      if row.path in byPath' && byPath'[row.path] != row.uuid {
        Conflict(seen, rows', rowOf', byPath', row);
        PrefixBinds(before + images, seen + [row]);
        return Some(ConflictingUuid), rowOf', byPath', rows';
      }
      TracksMore(seen, rows', rowOf', byPath', row);
      byPath' := byPath'[row.path := row.uuid];
      if key !in rowOf' {
        rowOf' := rowOf'[key := row];
        rows' := rows' + [row];
      }
      seen := seen + [row];
    }
    assert before + images[..|images|] == before + images;
    TracksBind(seen, rows', rowOf', byPath');
    refusal := None;
  }

  /** `_union`: succeeds exactly for receipts that agree, and collects every row once. */
  method Union(derived: seq<Identity>) returns (r: Result<Closure, Refusal>)
    requires derived != []
    ensures r.Ok? <==> Unitable(derived)
    ensures r.Ok? ==> r.value.header == derived[0].header && r.value.images == Distinct(AllRows(derived))
    ensures r.Ok? ==> r.value.origins == OriginsOf(derived)
  {
    hide OneRowPerPath, Tracks, Distinct;
    var first := derived[0];
    for i := 0 to |derived|
      invariant forall k | 0 <= k < i :: derived[k].header == first.header
    {
      if derived[i].header != first.header {
        return Refused(HeaderDiffers);
      }
    }
    var rowOf: map<(string, string), Row>, byPath: map<string, string>, rows: seq<Row> := map[], map[], [];
    ghost var seen: seq<Row> := [];
    assert Tracks([], rows, rowOf, byPath) by { NothingTracked(); }
    for i := 0 to |derived|
      invariant Tracks(seen, rows, rowOf, byPath) && seen == AllRows(derived[..i])
    {
      assert derived[..i + 1][..i] == derived[..i];
      AllRowsPrefix(derived, i + 1);
      var refusal: Option<Refusal>;
      refusal, rowOf, byPath, rows := AddImages(derived[i].images, rowOf, byPath, rows, seen);
      seen := seen + derived[i].images;
      assert seen == AllRows(derived[..i + 1]);
      if refusal.Some? {
        PrefixBinds(AllRows(derived), seen);
        return Refused(refusal.value);
      }
    }
    assert derived[..|derived|] == derived;
    TracksBind(seen, rows, rowOf, byPath);
    TracksDistinct(seen, rows, rowOf, byPath);
    if |rows| > MAX_IMAGES {
      return Refused(TooManyImages);
    }
    r := Ok(Closure(first.header, rows, OriginsOf(derived)));
  }

  lemma NothingTracked()
    ensures Tracks([], [], map[], map[])
  {
  }

  lemma TracksDistinct(seen: seq<Row>, rows: seq<Row>, rowOf: map<(string, string), Row>, byPath: map<string, string>)
    requires Tracks(seen, rows, rowOf, byPath)
    ensures rows == Distinct(seen)
  {
  }

  // ----- order and repetition of receipts -------------------------------------------------------

  predicate SameElements<T(==)>(a: seq<T>, b: seq<T>) {
    (forall i | 0 <= i < |a| :: a[i] in b) && (forall i | 0 <= i < |b| :: b[i] in a)
  }

  lemma RowsWithin(a: seq<Identity>, b: seq<Identity>, row: Row)
    requires SameElements(a, b) && row in AllRows(a)
    ensures row in AllRows(b)
  {
    AllRowsAre(a, row);
    AllRowsAre(b, row);
    hide AllRows;
    var i :| 0 <= i < |a| && row in a[i].images;
    var j :| 0 <= j < |b| && b[j] == a[i];
  }

  lemma SameBinding(a: seq<Row>, b: seq<Row>)
    requires OneRowPerPath(a) && forall i | 0 <= i < |b| :: b[i] in a
    ensures OneRowPerPath(b)
  {
    forall i, j | 0 <= i < |b| && 0 <= j < |b| && b[i].path == b[j].path ensures b[i] == b[j] {
      var k :| 0 <= k < |a| && a[k] == b[i];
      var l :| 0 <= l < |a| && a[l] == b[j];
    }
  }

  function RowSet(rows: seq<Row>): set<Row> {
    set row | row in rows
  }

  lemma {:induction false} NoRepeats(rows: seq<Row>)
    requires forall i, j | 0 <= i < j < |rows| :: rows[i] != rows[j]
    ensures |RowSet(rows)| == |rows|
  {
    if rows != [] {
      var front, last := rows[..|rows| - 1], rows[|rows| - 1];
      NoRepeats(front);
      assert last !in RowSet(front) && RowSet(rows) == RowSet(front) + {last};
    }
  }

  lemma DistinctSize(rows: seq<Row>)
    ensures |Distinct(rows)| == |RowSet(rows)|
  {
    DistinctExact(rows);
    NoRepeats(Distinct(rows));
    assert RowSet(Distinct(rows)) == RowSet(rows);
  }

  /** Neither the order nor the repetition of receipts changes the verdict, the header or the set of rows. */
  lemma UnionOfSet(a: seq<Identity>, b: seq<Identity>)
    requires SameElements(a, b) && a != []
    ensures b != [] && (Unitable(a) <==> Unitable(b))
    ensures Unitable(a) ==> a[0].header == b[0].header
    ensures forall row :: row in Distinct(AllRows(a)) <==> row in Distinct(AllRows(b))
  {
    assert a[0] in b;
    forall row ensures row in AllRows(a) <==> row in AllRows(b) {
      if row in AllRows(a) {
        RowsWithin(a, b, row);
      }
      if row in AllRows(b) {
        RowsWithin(b, a, row);
      }
    }
    DistinctExact(AllRows(a));
    DistinctExact(AllRows(b));
    DistinctSize(AllRows(a));
    DistinctSize(AllRows(b));
    assert RowSet(AllRows(a)) == RowSet(AllRows(b));
    hide Distinct, AllRows;
    if Unitable(a) {
      SameBinding(AllRows(a), AllRows(b));
      OneHeader(a, b);
    }
    if Unitable(b) {
      SameBinding(AllRows(b), AllRows(a));
      OneHeader(b, a);
    }
  }

  lemma OneHeader(a: seq<Identity>, b: seq<Identity>)
    requires SameElements(a, b) && SameHeader(a) && a != [] && b != []
    ensures SameHeader(b) && a[0].header == b[0].header
  {
    forall i | 0 <= i < |b| ensures b[i].header == a[0].header {
      var k :| 0 <= k < |a| && a[k] == b[i];
    }
  }

  // ----- checking a closure ---------------------------------------------------------------------

  predicate OriginOk(origin: Origin) {
    origin.pid > 0 && 0 < origin.events <= MAX_EVENTS
  }

  predicate DistinctPaths(rows: seq<Row>) {
    forall i, j | 0 <= i < j < |rows| :: rows[i].path != rows[j].path
  }

  /** What `_check_closure` accepts. */
  predicate ClosureOk(syntax: Syntax, closure: Closure) {
    && 0 < |closure.images| <= MAX_IMAGES
    && closure.origins != [] && (forall i | 0 <= i < |closure.origins| :: OriginOk(closure.origins[i]))
    && (forall i | 0 <= i < |closure.images| :: RowOk(syntax, closure.images[i]))
    && DistinctPaths(closure.images)
    && (exists i | 0 <= i < |closure.images| ::
          && closure.images[i].path == closure.header.main && closure.images[i].binding.File?
          && TargetOf(closure.images[i]) == Some(closure.header.target))
    && Some(closure.header.target) == Target(closure.header.architecture)
  }

  lemma RowChecks(syntax: Syntax, row: Row)
    ensures CheckImage(syntax, RecordOf(row)).Ok? <==> RowOk(syntax, row)
    ensures CheckImage(syntax, RecordOf(row)).Ok? ==> CheckImage(syntax, RecordOf(row)).value == row
  {
  }

  /** `_check_closure`. */
  method CheckClosure(syntax: Syntax, closure: Closure) returns (r: Outcome<Refusal>)
    ensures r.Pass? <==> ClosureOk(syntax, closure)
  {
    hide RowOk, CheckImage, TargetOf, Target;
    if closure.images == [] || |closure.images| > MAX_IMAGES || closure.origins == [] {
      return Fail(ClosureInvalid);
    }
    if exists i | 0 <= i < |closure.origins| :: !OriginOk(closure.origins[i]) {
      return Fail(ClosureInvalid);
    }
    var paths: set<string>, main: Option<Row> := {}, None;
    for i := 0 to |closure.images|
      invariant forall k | 0 <= k < i :: RowOk(syntax, closure.images[k]) && closure.images[k].path in paths
      invariant forall path | path in paths :: exists k | 0 <= k < i :: closure.images[k].path == path
      invariant DistinctPaths(closure.images[..i])
      invariant main.Some? ==> main.value in closure.images[..i] && main.value.path == closure.header.main
      invariant main.None? ==> forall k | 0 <= k < i :: closure.images[k].path != closure.header.main
    {
      var image := closure.images[i];
      RowChecks(syntax, image);
      if CheckImage(syntax, RecordOf(image)) != Ok(image) {
        return Fail(ImageInvalid);
      }
      if image.path in paths {
        return Fail(DuplicateImage);
      }
      paths := paths + {image.path};
      if image.path == closure.header.main {
        main := Some(image);
      }
    }
    if main.None? || main.value.binding.System? {
      return Fail(MainUnbound);
    }
    if TargetOf(main.value) != Some(closure.header.target) {
      return Fail(TargetMismatch);
    }
    if Some(closure.header.target) != Target(closure.header.architecture) {
      return Fail(ArchitectureMismatch);
    }
    r := Pass;
  }

  /** What an accepted receipt contributes. */
  predicate Sound(syntax: Syntax, identity: Identity) {
    && OriginOk(identity.origin) && identity.images != []
    && (forall i | 0 <= i < |identity.images| :: RowOk(syntax, identity.images[i]))
    && identity.images[0].path == identity.header.main && identity.images[0].binding.File?
    && TargetOf(identity.images[0]) == Some(identity.header.target) == Target(identity.header.architecture)
  }

  lemma {:induction false} EventsOfImages(lines: seq<Line>)
    ensures ImagesOf(lines) != [] ==> EventsOf(lines) != []
  {
    if lines != [] {
      EventsOfImages(lines[..|lines| - 1]);
    }
  }

  lemma AcceptedIsSound(syntax: Syntax, receipt: Receipt)
    requires Accepted(syntax, receipt)
    ensures Sound(syntax, IdentityOf(receipt))
  {
    hide TargetOf, Target, RowOk, ImagesOf, EventsOf, FirstDyld, CheckImage;
    EventsOfImages(receipt.log.lines);
    forall i | 0 <= i < |receipt.images| ensures RowOk(syntax, RowsOf(receipt.images)[i]) {
      assert CheckImage(syntax, receipt.images[i]).Ok?;
      CheckedRow(syntax, receipt.images[i]);
    }
  }

  predicate AllSound(syntax: Syntax, derived: seq<Identity>) {
    forall i | 0 <= i < |derived| :: Sound(syntax, derived[i])
  }

  /** Every closure that comes out of a union passes the closure check. */
  lemma {:induction false} UnionIsChecked(syntax: Syntax, derived: seq<Identity>, closure: Closure)
    requires derived != [] && AllSound(syntax, derived) && Unitable(derived)
    requires closure == Closure(derived[0].header, Distinct(AllRows(derived)), OriginsOf(derived))
    ensures ClosureOk(syntax, closure)
  {
    hide RowOk, OriginOk, TargetOf, Target;
    var rows := AllRows(derived);
    DistinctExact(rows);
    assert Sound(syntax, derived[0]);
    var main := derived[0].images[0];
    AllRowsAre(derived, main);
    assert main in derived[0].images;
    hide Distinct, AllRows;
    assert main in closure.images;
    var m :| 0 <= m < |closure.images| && closure.images[m] == main;
    forall i | 0 <= i < |closure.images| ensures RowOk(syntax, closure.images[i]) {
      SoundRow(syntax, derived, closure.images[i]);
    }
    forall i, j | 0 <= i < j < |closure.images| ensures closure.images[i].path != closure.images[j].path {
      SameRow(rows, closure.images[i], closure.images[j]);
    }
  }

  lemma SameRow(rows: seq<Row>, a: Row, b: Row)
    requires OneRowPerPath(rows) && a in rows && b in rows
    ensures a.path == b.path ==> a == b
  {
    var i :| 0 <= i < |rows| && rows[i] == a;
    var j :| 0 <= j < |rows| && rows[j] == b;
  }

  lemma SoundRow(syntax: Syntax, derived: seq<Identity>, row: Row)
    requires AllSound(syntax, derived) && row in AllRows(derived)
    ensures RowOk(syntax, row)
  {
    hide RowOk;
    AllRowsAre(derived, row);
    var i :| 0 <= i < |derived| && row in derived[i].images;
    assert Sound(syntax, derived[i]);
  }

  /** `validate_closure`: reads every receipt back from its own log and unites them. */
  method ValidateClosure(syntax: Syntax, receipts: seq<Receipt>) returns (r: Result<Closure, Refusal>)
    ensures r.Ok? <==> Freezes(syntax, receipts)
    ensures r.Ok? ==> r.value == Frozen(receipts)
    ensures r.Ok? ==> ClosureOk(syntax, r.value)
  {
    hide Accepted, Sound, ClosureOk, IdentityOf, AllRows, Distinct, Unitable;
    if receipts == [] {
      return Refused(NoReceipts);
    }
    var derived: seq<Identity> := [];
    for i := 0 to |receipts|
      invariant |derived| == i
      invariant forall k | 0 <= k < i :: Accepted(syntax, receipts[k]) && Identified(receipts[k])
                                         && derived[k] == IdentityOf(receipts[k])
      invariant AllSound(syntax, derived)
    {
      var identity := ReparseReceipt(syntax, receipts[i]);
      if identity.Refused? {
        return Refused(identity.reason);
      }
      AcceptedHasPid(syntax, receipts[i]);
      AcceptedIsSound(syntax, receipts[i]);
      derived := derived + [identity.value];
    }
    assert derived == Identities(receipts);
    r := Union(derived);
    if r.Ok? {
      UnionIsChecked(syntax, derived, r.value);
    }
  }

  lemma AcceptedHasPid(syntax: Syntax, receipt: Receipt)
    requires Accepted(syntax, receipt)
    ensures Identified(receipt)
  {
  }

  function Identities(receipts: seq<Receipt>): (r: seq<Identity>)
    requires forall i | 0 <= i < |receipts| :: Identified(receipts[i])
    ensures |r| == |receipts|
  {
    seq(|receipts|, i requires 0 <= i < |receipts| => IdentityOf(receipts[i]))
  }

  /** Receipts from which a closure can be frozen. */
  predicate Freezes(syntax: Syntax, receipts: seq<Receipt>) {
    && receipts != []
    && (forall i | 0 <= i < |receipts| :: Accepted(syntax, receipts[i]) && Identified(receipts[i]))
    && Unitable(Identities(receipts))
  }

  /** The closure of receipts that freeze. */
  function Frozen(receipts: seq<Receipt>): Closure
    requires receipts != [] && forall i | 0 <= i < |receipts| :: Identified(receipts[i])
  {
    var derived := Identities(receipts);
    Closure(derived[0].header, Distinct(AllRows(derived)), OriginsOf(derived))
  }

  lemma SameIdentities(syntax: Syntax, a: seq<Receipt>, b: seq<Receipt>)
    requires SameElements(a, b) && a != []
    requires forall i | 0 <= i < |a| :: Accepted(syntax, a[i]) && Identified(a[i])
    ensures b != [] && forall i | 0 <= i < |b| :: Accepted(syntax, b[i]) && Identified(b[i])
    ensures SameElements(Identities(a), Identities(b))
  {
    hide Accepted, IdentityOf, Identified;
    assert a[0] in b;
    forall i | 0 <= i < |b| ensures Accepted(syntax, b[i]) && Identified(b[i]) {
      var k :| 0 <= k < |a| && a[k] == b[i];
    }
    forall i | 0 <= i < |a| ensures Identities(a)[i] in Identities(b) {
      var k :| 0 <= k < |b| && b[k] == a[i];
      assert Identities(b)[k] == Identities(a)[i];
    }
    forall i | 0 <= i < |b| ensures Identities(b)[i] in Identities(a) {
      var k :| 0 <= k < |a| && a[k] == b[i];
      assert Identities(a)[k] == Identities(b)[i];
    }
  }

  /** Lists of the same receipts both freeze or both do not, with the same header and the same set of rows. */
  lemma FrozenOfSet(syntax: Syntax, a: seq<Receipt>, b: seq<Receipt>)
    requires SameElements(a, b)
    ensures Freezes(syntax, a) <==> Freezes(syntax, b)
    ensures Freezes(syntax, a) ==> Identities(a)[0].header == Identities(b)[0].header
    ensures Freezes(syntax, a) ==> RowSet(Distinct(AllRows(Identities(a)))) == RowSet(Distinct(AllRows(Identities(b))))
  {
    hide Accepted, Unitable, Distinct, AllRows, Identified;
    if Freezes(syntax, a) {
      SameIdentities(syntax, a, b);
      UnionOfSet(Identities(a), Identities(b));
    }
    if Freezes(syntax, b) {
      SameIdentities(syntax, b, a);
      UnionOfSet(Identities(b), Identities(a));
    }
  }

  // ----- reconciliation -------------------------------------------------------------------------

  datatype Mismatch = NoUuid | UuidChanged | NotInClosure

  datatype Reconciled = Reconciled(image: Image, index: Option<nat>, reason: Option<Mismatch>)

  predicate HasRow(rows: seq<Row>, path: string, uuid: string) {
    exists i | 0 <= i < |rows| :: rows[i].path == path && rows[i].uuid == uuid
  }

  /** How one observed image stands against the closure rows. */
  predicate ReconciledOk(rows: seq<Row>, r: Reconciled) {
    && (r.index.Some? <==> r.image.uuid.Some? && HasRow(rows, r.image.path, r.image.uuid.value))
    && (r.index.Some? ==> r.reason.None? && r.index.value < |rows| && rows[r.index.value].path == r.image.path
                          && Some(rows[r.index.value].uuid) == r.image.uuid)
    && (r.index.None? ==>
          r.reason == Some(if r.image.uuid.None? then NoUuid
                           else if exists i | 0 <= i < |rows| :: rows[i].path == r.image.path then UuidChanged
                           else NotInClosure))
  }

  /** `_reconcile`: every observed image is matched by path and UUID, or listed as unbound with its reason. */
  method Reconcile(parsed: seq<Image>, rows: seq<Row>) returns (images: seq<Reconciled>, unbound: seq<Reconciled>)
    ensures |images| == |parsed|
    ensures forall i | 0 <= i < |parsed| :: images[i].image == parsed[i] && ReconciledOk(rows, images[i])
    ensures unbound == [] <==> forall i | 0 <= i < |parsed| :: images[i].index.Some?
    ensures forall r :: r in unbound <==> r in images && r.index.None?
  {
    var order: map<(string, string), nat>, byPath: set<string> := map[], {};
    for i := 0 to |rows|
      invariant forall k | 0 <= k < i :: (rows[k].path, rows[k].uuid) in order && rows[k].path in byPath
      invariant forall key | key in order :: order[key] < i && key == (rows[order[key]].path, rows[order[key]].uuid)
      invariant forall path | path in byPath :: exists k | 0 <= k < i :: rows[k].path == path
    {
      order := order[(rows[i].path, rows[i].uuid) := i];
      byPath := byPath + {rows[i].path};
    }
    images, unbound := [], [];
    for i := 0 to |parsed|
      invariant |images| == i
      invariant forall k | 0 <= k < i :: images[k].image == parsed[k] && ReconciledOk(rows, images[k])
      invariant unbound == [] <==> forall k | 0 <= k < i :: images[k].index.Some?
      invariant forall r :: r in unbound <==> r in images && r.index.None?
    {
      var item := parsed[i];
      var image := Reconciled(item, None, None);
      if item.uuid.None? {
        image := image.(reason := Some(NoUuid));
      } else if (item.path, item.uuid.value) in order {
        image := image.(index := Some(order[(item.path, item.uuid.value)]));
      } else if item.path in byPath {
        image := image.(reason := Some(UuidChanged));
      } else {
        image := image.(reason := Some(NotInClosure));
      }
      if image.index.None? {
        unbound := unbound + [image];
      }
      images := images + [image];
    }
  }

  /** Every image of every log that a closure was frozen from is bound by the closure. */
  lemma ContributorsReconcile(syntax: Syntax, receipts: seq<Receipt>, rows: seq<Row>, i: nat, k: nat)
    requires Freezes(syntax, receipts) && rows == Distinct(AllRows(Identities(receipts)))
    requires i < |receipts| && k < |ImagesOf(receipts[i].log.lines)|
    ensures var image := ImagesOf(receipts[i].log.lines)[k];
            image.uuid.Some? && HasRow(rows, image.path, image.uuid.value)
  {
    hide Closed, RowOk, ImagesOf, EventsOf, FirstDyld, TargetOf, Target, Unitable, HasRow, CheckImage;
    var receipt := receipts[i];
    assert Accepted(syntax, receipt);
    assert CheckImage(syntax, receipt.images[k]).Ok?;
    CheckedRow(syntax, receipt.images[k]);
    var derived, row := Identities(receipts), RowsOf(receipt.images)[k];
    assert row in derived[i].images;
    AllRowsAre(derived, row);
    DistinctExact(AllRows(derived));
    HasThatRow(rows, row);
  }

  lemma HasThatRow(rows: seq<Row>, row: Row)
    requires row in rows
    ensures HasRow(rows, row.path, row.uuid)
  {
  }

  /** Freezing a closure from receipts and reconciling the log of any one of them leaves nothing unbound. */
  method FreezeAndReconcile(syntax: Syntax, receipts: seq<Receipt>, i: nat)
    returns (r: Result<Closure, Refusal>, images: seq<Reconciled>, unbound: seq<Reconciled>)
    requires i < |receipts|
    ensures r.Ok? <==> Freezes(syntax, receipts)
    ensures r.Ok? ==> |images| == |ImagesOf(receipts[i].log.lines)| && unbound == []
  {
    hide HasRow, ImagesOf, ClosureOk, Distinct, AllRows, Accepted, Unitable;
    r := ValidateClosure(syntax, receipts);
    images, unbound := [], [];
    if r.Ok? {
      var parsed := ImagesOf(receipts[i].log.lines);
      images, unbound := Reconcile(parsed, r.value.images);
      forall k | 0 <= k < |parsed| ensures images[k].index.Some? {
        ContributorsReconcile(syntax, receipts, r.value.images, i, k);
      }
    }
  }
}
