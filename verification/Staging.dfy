/** Verified copies of declared files (`stage_files`, `_stream` and `_fd_writer` of staging.py). */
module Staging {
  import opened Wrappers
  import opened Bytes
  import opened Destinations

  type Data = seq<byte>

  /** The answers of the n-th `os.read` and `os.write` on a file: a byte count, or None where the call raises. */
  datatype Io = Io(read: nat -> Option<nat>, write: Writes)

  function AlwaysRaises(): (w: nat -> Option<nat>)
    ensures forall n :: MovesFrom(w, n)
  {
    var w := (n: nat) => None;
    assert forall n :: MovesFrom(w, n) by {
      forall n ensures MovesFrom(w, n) {
        assert w(n) != Some(0);
      }
    }
    w
  }

  /** Zero bytes may be reported any number of times in a row, but not for ever. */
  type Writes = w: nat -> Option<nat> | forall n :: MovesFrom(w, n) witness AlwaysRaises()

  ghost predicate MovesFrom(w: nat -> Option<nat>, n: nat) {
    exists m: nat :: n <= m && w(m) != Some(0)
  }

  ghost predicate NeverRaises(io: Io) {
    forall n :: io.read(n).Some? && io.write(n).Some?
  }

  /** A read before the end of a file returns at least one of the `limit` bytes that are left. */
  function Transferred(answer: nat, limit: nat): (n: nat)
    requires limit > 0
    ensures 0 < n <= limit
  {
    if answer == 0 then 1 else if answer > limit then limit else answer
  }

  const CHUNK_BYTES := 1048576

  datatype Refusal =
    | NoEntries | NoRoom | DeclaredTotal | Collides(collision: Collision) | Occupied
    | NotLocated | WrongSize | Inconsistent
    | NotOpened | ParentNotDirectory | AlreadyExists
    | ReadFailed | WriteFailed | TooLong | TooShort | DigestMismatch | ShortWrite

  /** A file opened for writing. */
  class Sink {
    var data: Data

    constructor ()
      ensures data == []
    {
      data := [];
    }

    /** `_fd_writer`: writes until nothing is left. */
    method Write(chunk: Data, answers: Writes) returns (ok: bool)
      modifies this
      ensures ok ==> data == old(data) + chunk
      ensures exists n | 0 <= n <= |chunk| :: data == old(data) + chunk[..n]
      ensures (forall n :: answers(n).Some?) ==> ok
    {
      var view, call := chunk, 0;
      ghost var done: nat := 0;
      assert MovesFrom(answers, 0);
      ghost var moves: nat :| answers(moves) != Some(0);
      assert data == old(data) + chunk[..0];
      while view != []
        invariant done <= |chunk| && view == chunk[done..] && data == old(data) + chunk[..done]
        invariant call <= moves && answers(moves) != Some(0)
        decreases |view|, moves - call
      {
        var answer := answers(call);
        call := call + 1;
        if answer.None? {
          return false;
        }
        var count := if answer.value > |view| then |view| else answer.value;
        assert chunk[..done] + view[..count] == chunk[..done + count];
        data := data + view[..count];
        view := view[count..];
        done := done + count;
        if call > moves {
          assert MovesFrom(answers, call);
          moves :| call <= moves && answers(moves) != Some(0);
        }
      }
      assert chunk[..done] == chunk;
      ok := true;
    }
  }

  predicate Declared(source: Data, bytes: nat, sha256: string, digest: Data -> string) {
    |source| == bytes && digest(source) == sha256
  }

  /** The first bytes of a source, no more than were declared. */
  predicate PartOf(data: Data, source: Data, bytes: nat) {
    data <= source && |data| <= bytes
  }

  /**
   `_stream`: passes exactly for the declared bytes. With a sink, these are then all written; whatever happens, what
   was written is an initial part of the source of at most the declared length.
   */
  method Stream(source: Data, bytes: nat, sha256: string, digest: Data -> string, io: Io, sink: Sink?)
    returns (r: Outcome<Refusal>)
    requires sink != null ==> sink.data == []
    modifies sink
    ensures r.Pass? ==> Declared(source, bytes, sha256, digest)
    ensures r.Pass? && sink != null ==> sink.data == source
    ensures sink != null ==> PartOf(sink.data, source, bytes)
    ensures NeverRaises(io) && Declared(source, bytes, sha256, digest) ==> r.Pass?
  {
    var total, remaining, call := 0, bytes + 1, 0;
    var hashed: Data := [];
    while remaining > 0
      invariant total + remaining == bytes + 1 && total <= bytes && total <= |source|
      invariant hashed == source[..total] && (sink != null ==> sink.data == hashed)
      decreases remaining
    {
      var answer := io.read(call);
      call := call + 1;
      if answer.None? {
        return Fail(ReadFailed);
      }
      var limit := if remaining < CHUNK_BYTES then remaining else CHUNK_BYTES;
      var left := |source| - total;
      if left == 0 {
        break;
      }
      var chunk := source[total..total + Transferred(answer.value, if left < limit then left else limit)];
      ghost var was := total;
      total := total + |chunk|;
      if total > bytes {
        return Fail(TooLong);
      }
      remaining := remaining - |chunk|;
      hashed := hashed + chunk;
      assert hashed == source[..total];
      if sink != null {
        var ok := sink.Write(chunk, io.write);
        if !ok {
          ghost var n :| 0 <= n <= |chunk| && sink.data == source[..was] + chunk[..n];
          assert source[..was] + chunk[..n] == source[..was + n];
          return Fail(WriteFailed);
        }
      }
    }
    if total != bytes {
      return Fail(TooShort);
    }
    assert source[..total] == source;
    if digest(hashed) != sha256 {
      return Fail(DigestMismatch);
    }
    r := Pass;
  }

  // ----- the declared rows ----------------------------------------------------------------------

  datatype Row = Row(id: string, source: string, destination: Option<string>, bytes: nat, sha256: string,
                     metadata: string)

  /** A source found by `_locate`: its resolved path, its size, and what opening it delivers (None: refused). */
  datatype Located = Located(path: string, size: nat, content: Option<Data>)

  type Host = Row -> Option<Located>

  function ShippedOf(rows: seq<Row>): seq<Shipped> {
    if rows == [] then []
    else
      var last := rows[|rows| - 1];
      ShippedOf(rows[..|rows| - 1]) +
      if last.destination.None? then [] else [Shipped(last.id, last.destination.value)]
  }

  function Content(host: Host, row: Row): Data {
    if host(row).Some? && host(row).value.content.Some? then host(row).value.content.value else []
  }

  function ShippedData(rows: seq<Row>, host: Host): (r: seq<Data>)
    ensures |r| == |ShippedOf(rows)|
  {
    if rows == [] then []
    else
      var last := rows[|rows| - 1];
      ShippedData(rows[..|rows| - 1], host) + if last.destination.None? then [] else [Content(host, last)]
  }

  function DeclaredBytes(rows: seq<Row>): nat {
    if rows == [] then 0 else DeclaredBytes(rows[..|rows| - 1]) + rows[|rows| - 1].bytes
  }

  predicate Relative(rows: seq<Row>) {
    forall row | row in rows && row.destination.Some? :: RelativePath(row.destination.value)
  }

  /** The source of a row is found with the declared size. */
  predicate Sized(host: Host, row: Row) {
    host(row).Some? && host(row).value.size == row.bytes
  }

  /** Rows of one source are all shipped and agree on the declared metadata. */
  predicate Consistent(a: Row, b: Row) {
    && a.destination.Some? && b.destination.Some?
    && a.metadata == b.metadata && a.bytes == b.bytes && a.sha256 == b.sha256
  }

  predicate AllConsistent(rows: seq<Row>, host: Host) {
    forall i, j | 0 <= i < j < |rows| && host(rows[i]).Some? && host(rows[j]).Some?
                  && host(rows[i]).value.path == host(rows[j]).value.path :: Consistent(rows[i], rows[j])
  }

  /** Opening and reading the source of a row delivers the declared bytes. */
  predicate Delivers(host: Host, row: Row, digest: Data -> string) {
    && host(row).Some? && host(row).value.content.Some?
    && Declared(host(row).value.content.value, row.bytes, row.sha256, digest)
  }

  ghost predicate Inspectable(rows: seq<Row>, host: Host) {
    (forall row | row in rows :: Sized(host, row)) && AllConsistent(rows, host)
  }

  /** What `stage_files` can stage into an empty directory when no call raises. */
  ghost predicate Stageable(rows: seq<Row>, host: Host, maxBytes: nat, digest: Data -> string) {
    && rows != [] && maxBytes > 0 && DeclaredBytes(rows) <= maxBytes
    && PrefixFree(Keys(ShippedOf(rows), true))
    && Inspectable(rows, host) && forall row | row in rows :: Delivers(host, row, digest)
  }

  lemma RowsPrefix(rows: seq<Row>, n: nat)
    requires n < |rows|
    ensures rows[..n + 1][..n] == rows[..n] && rows[..n + 1][n] == rows[n]
  {
  }

  /** The rows before `n` ship the first destinations. */
  lemma {:induction false} ShippedPrefix(rows: seq<Row>, host: Host, n: nat)
    requires n <= |rows|
    ensures ShippedOf(rows[..n]) <= ShippedOf(rows)
    ensures ShippedData(rows[..n], host) <= ShippedData(rows, host)
    ensures DeclaredBytes(rows[..n]) <= DeclaredBytes(rows)
    decreases |rows|
  {
    if n < |rows| {
      ShippedPrefix(rows[..|rows| - 1], host, n);
      assert rows[..|rows| - 1][..n] == rows[..n];
    } else {
      assert rows[..n] == rows;
    }
  }

  lemma ShippedNext(rows: seq<Row>, host: Host, n: nat)
    requires n < |rows|
    ensures var row := rows[n];
            && DeclaredBytes(rows[..n + 1]) == DeclaredBytes(rows[..n]) + row.bytes
            && (row.destination.None? ==>
                  && ShippedOf(rows[..n + 1]) == ShippedOf(rows[..n])
                  && ShippedData(rows[..n + 1], host) == ShippedData(rows[..n], host))
            && (row.destination.Some? ==>
                  && ShippedOf(rows[..n + 1]) == ShippedOf(rows[..n]) + [Shipped(row.id, row.destination.value)]
                  && ShippedData(rows[..n + 1], host) == ShippedData(rows[..n], host) + [Content(host, row)])
  {
    RowsPrefix(rows, n);
  }

  /** The tree after the first `n` rows. */
  function TreeAfter(rows: seq<Row>, host: Host, caseless: bool, n: nat): Option<Tree<Data>>
    requires n <= |rows|
  {
    CreateAll(Keys(ShippedOf(rows[..n]), caseless), ShippedData(rows[..n], host))
  }

  lemma TreeStart(rows: seq<Row>, host: Host, caseless: bool)
    ensures TreeAfter(rows, host, caseless, 0) == Some(map[])
  {
  }

  lemma TreeNext(rows: seq<Row>, host: Host, caseless: bool, n: nat)
    requires n < |rows| && TreeAfter(rows, host, caseless, n).Some?
    ensures rows[n].destination.None? ==> TreeAfter(rows, host, caseless, n + 1) == TreeAfter(rows, host, caseless, n)
    ensures rows[n].destination.Some? ==>
              TreeAfter(rows, host, caseless, n + 1) ==
              Create(TreeAfter(rows, host, caseless, n).value,
                     Key(Shipped(rows[n].id, rows[n].destination.value), caseless), Content(host, rows[n]))
  {
    hide Create;
    ShippedNext(rows, host, n);
    var before, after := ShippedOf(rows[..n]), ShippedOf(rows[..n + 1]);
    var keys, contents := Keys(after, caseless), ShippedData(rows[..n + 1], host);
    if rows[n].destination.Some? {
      assert keys[..|before|] == Keys(before, caseless);
      assert contents[..|before|] == ShippedData(rows[..n], host);
    }
  }

  lemma {:induction false} TreeExists(rows: seq<Row>, host: Host, caseless: bool, n: nat)
    requires n <= |rows| && PrefixFree(Keys(ShippedOf(rows), true))
    ensures TreeAfter(rows, host, caseless, n).Some?
  {
    hide ShippedOf, ShippedData, Create, CreateAll;
    ShippedPrefix(rows, host, n);
    var all, some := ShippedOf(rows), ShippedOf(rows[..n]);
    CaselessIsStricter(all);
    hide Key;
    assert forall i | 0 <= i < |some| :: some[i] == all[i];
    assert forall i | 0 <= i < |some| :: Keys(some, caseless)[i] == Keys(all, caseless)[i];
    CreatableIffPrefixFree(Keys(some, caseless), ShippedData(rows[..n], host));
  }

  // ----- staging --------------------------------------------------------------------------------

  /** The last row seen for each resolved source stands for all of them. */
  ghost predicate Canonical(rows: seq<Row>, host: Host, n: nat, rowOf: map<string, Row>)
    requires n <= |rows|
  {
    && (forall i | 0 <= i < n :: Sized(host, rows[i]) && host(rows[i]).value.path in rowOf)
    && (forall i | 0 <= i < n :: var row := rowOf[host(rows[i]).value.path]; rows[i] == row || Consistent(rows[i], row))
    && (forall path | path in rowOf :: exists i | 0 <= i < n :: rows[i] == rowOf[path] && host(rows[i]).value.path == path)
  }

  lemma CanonicalMore(rows: seq<Row>, host: Host, n: nat, rowOf: map<string, Row>)
    requires n < |rows| && Canonical(rows, host, n, rowOf) && AllConsistent(rows[..n], host) && Sized(host, rows[n])
    requires var path := host(rows[n]).value.path; path in rowOf ==> Consistent(rowOf[path], rows[n])
    ensures Canonical(rows, host, n + 1, rowOf[host(rows[n]).value.path := rows[n]])
    ensures AllConsistent(rows[..n + 1], host)
  {
    var path := host(rows[n]).value.path;
    var next := rowOf[path := rows[n]];
    forall q | q in next ensures exists i | 0 <= i < n + 1 :: rows[i] == next[q] && host(rows[i]).value.path == q {
      if q == path {
        assert rows[n] == next[q];
      } else {
        var i :| 0 <= i < n && rows[i] == rowOf[q] && host(rows[i]).value.path == q;
      }
    }
    var before, after := rows[..n], rows[..n + 1];
    forall i, j | 0 <= i < j < |after| && host(after[i]).Some? && host(after[j]).Some?
                  && host(after[i]).value.path == host(after[j]).value.path
      ensures Consistent(after[i], after[j])
    {
      if j < n {
        assert after[i] == before[i] && after[j] == before[j];
      } else {
        assert after[i] == rows[i] && after[j] == rows[n];
      }
    }
  }

  lemma NotInspectable(rows: seq<Row>, host: Host, n: nat, rowOf: map<string, Row>)
    requires n < |rows| && Canonical(rows, host, n, rowOf) && Sized(host, rows[n])
    requires var path := host(rows[n]).value.path; path in rowOf && !Consistent(rowOf[path], rows[n])
    ensures !Inspectable(rows, host)
  {
    var path := host(rows[n]).value.path;
    var i :| 0 <= i < n && rows[i] == rowOf[path] && host(rows[i]).value.path == path;
    assert Sized(host, rows[i]);
  }

  /** The inspection of every source before the first write. */
  method Inspect(rows: seq<Row>, host: Host) returns (r: Outcome<Refusal>)
    ensures r.Pass? <==> Inspectable(rows, host)
  {
    hide Canonical, AllConsistent, Consistent;
    var rowOf: map<string, Row> := map[];
    assert Canonical(rows, host, 0, rowOf) && AllConsistent(rows[..0], host) by { InspectStart(rows, host); }
    for i := 0 to |rows|
      invariant forall k | 0 <= k < i :: Sized(host, rows[k])
      invariant Canonical(rows, host, i, rowOf) && AllConsistent(rows[..i], host)
    {
      var row := rows[i];
      assert row in rows;
      var found := host(row);
      if found.None? {
        return Fail(NotLocated);
      }
      if found.value.size != row.bytes {
        return Fail(WrongSize);
      }
      var path := found.value.path;
      if path in rowOf && Conflicts(rowOf[path], row) {
        NotInspectable(rows, host, i, rowOf);
        return Fail(Inconsistent);
      }
      CanonicalMore(rows, host, i, rowOf);
      rowOf := rowOf[path := row];
    }
    assert rows[..|rows|] == rows;
    r := Pass;
  }

  /** Two declarations of one source of which one is not shipped, or whose metadata differ. */
  predicate Conflicts(previous: Row, row: Row)
    ensures Conflicts(previous, row) <==> !Consistent(previous, row)
  {
    || previous.destination.None? || row.destination.None?
    || previous.metadata != row.metadata || previous.bytes != row.bytes || previous.sha256 != row.sha256
  }

  /** The sum of the declared sizes. */
  method TotalBytes(rows: seq<Row>) returns (total: nat)
    ensures total == DeclaredBytes(rows)
  {
    total := 0;
    for i := 0 to |rows|
      invariant total == DeclaredBytes(rows[..i])
    {
      RowsPrefix(rows, i);
      total := total + rows[i].bytes;
    }
    assert rows[..|rows|] == rows;
  }

  lemma InspectStart(rows: seq<Row>, host: Host)
    ensures Canonical(rows, host, 0, map[]) && AllConsistent(rows[..0], host)
  {
  }

  /** The owned destination directory. */
  class Destination {
    const caseless: bool
    var tree: Tree<Data>
    var written: nat

    constructor (caseless: bool)
      ensures this.caseless == caseless && tree == map[] && written == 0
    {
      this.caseless := caseless;
      tree, written := map[], 0;
    }

    /** `_prepare_destination`. */
    method PrepareDestination(key: seq<string>) returns (ok: bool)
      requires key != []
      modifies this`tree
      ensures ok <==> MakeParents(old(tree), key, |key| - 1).Some?
      ensures ok ==> tree == MakeParents(old(tree), key, |key| - 1).value
    {
      ok := true;
      for n := 1 to |key|
        invariant ok && MakeParents(old(tree), key, n - 1) == Some(tree)
      {
        var current := key[..n];
        if current !in tree {
          tree := tree[current := Directory];
          continue;
        }
        if !tree[current].Directory? {
          ParentsStop(old(tree), key, n, |key| - 1);
          return false;
        }
      }
    }

    /** One row: verified in place, or copied under an exclusively created name. */
    method StageRow(row: Row, host: Host, digest: Data -> string, io: Io) returns (r: Outcome<Refusal>)
      requires host(row).Some?
      modifies this`tree, this`written
      ensures r.Pass? ==> Delivers(host, row, digest)
      ensures r.Pass? && row.destination.None? ==> tree == old(tree)
      ensures r.Pass? && row.destination.Some? ==>
                Create(old(tree), Key(Shipped(row.id, row.destination.value), caseless), Content(host, row)) == Some(tree)
      ensures old(written) <= written <= old(written) + row.bytes
      ensures NeverRaises(io) && Delivers(host, row, digest)
              && (row.destination.Some? ==>
                    Create(old(tree), Key(Shipped(row.id, row.destination.value), caseless), Content(host, row)).Some?)
              ==> r.Pass?
    {
      hide Key, NeverRaises, MakeParents;
      var source := host(row).value;
      if row.destination.None? {
        if source.content.None? {
          return Fail(NotOpened);
        }
        r := Stream(source.content.value, row.bytes, row.sha256, digest, io, null);
        return;
      }
      var key := Key(Shipped(row.id, row.destination.value), caseless);
      var ok := PrepareDestination(key);
      if !ok {
        return Fail(ParentNotDirectory);
      }
      if source.content.None? {
        return Fail(NotOpened);
      }
      if key in tree {
        return Fail(AlreadyExists);
      }
      var sink := new Sink();
      r := Stream(source.content.value, row.bytes, row.sha256, digest, io, sink);
      tree := tree[key := File(sink.data)];
      written := written + |sink.data|;
      if r.Pass? && |sink.data| != row.bytes {
        r := Fail(ShortWrite);
      }
    }

    /** The copies, after every source was inspected. */
    method StageRows(rows: seq<Row>, host: Host, digest: Data -> string, io: nat -> Io) returns (r: Outcome<Refusal>)
      requires tree == map[] && PrefixFree(Keys(ShippedOf(rows), true)) && Inspectable(rows, host)
      modifies this`tree, this`written
      ensures r.Pass? ==> TreeAfter(rows, host, caseless, |rows|) == Some(tree)
      ensures r.Pass? ==> forall row | row in rows :: Delivers(host, row, digest)
      ensures (forall row | row in rows :: Delivers(host, row, digest)) && (forall n :: NeverRaises(io(n))) ==> r.Pass?
      ensures written <= old(written) + DeclaredBytes(rows)
    {
      hide PrefixFree, Keys, Inspectable, Delivers, NeverRaises, Create, ShippedOf, ShippedData, TreeAfter, Key;
      InspectedFound(rows, host);
      TreeStart(rows, host, caseless);
      for i := 0 to |rows|
        invariant TreeAfter(rows, host, caseless, i) == Some(tree)
        invariant written <= old(written) + DeclaredBytes(rows[..i])
        invariant forall k | 0 <= k < i :: Delivers(host, rows[k], digest)
      {
        TreeNext(rows, host, caseless, i);
        TreeExists(rows, host, caseless, i + 1);
        ShippedNext(rows, host, i);
        ShippedPrefix(rows, host, i + 1);
        r := StageRow(rows[i], host, digest, io(i));
        if r.Fail? {
          assert rows[i] in rows;
          return;
        }
      }
      assert rows[..|rows|] == rows;
      r := Pass;
    }

    /**
     `stage_files`: when no call raises, it succeeds on an empty directory exactly for what can be staged. The tree then
     holds exactly the shipped files with their declared bytes, and no run writes more than the byte limit.
     */
    method StageFiles(rows: seq<Row>, host: Host, maxBytes: nat, digest: Data -> string, io: nat -> Io)
      returns (r: Outcome<Refusal>)
      requires Relative(rows)
      modifies this`tree, this`written
      ensures r.Pass? ==> old(tree) == map[] && Stageable(rows, host, maxBytes, digest)
      ensures r.Pass? ==> Describes(tree, Keys(ShippedOf(rows), caseless), ShippedData(rows, host))
      ensures old(tree) == map[] && Stageable(rows, host, maxBytes, digest) && (forall n :: NeverRaises(io(n))) ==> r.Pass?
      ensures written <= old(written) + maxBytes
      ensures !Inspectable(rows, host) || old(tree) != map[] ==> tree == old(tree) && written == old(written)
    {
      hide PrefixFree, Keys, Inspectable, Delivers, NeverRaises, Create, Describes, ShippedOf, ShippedData, TreeAfter, Key;
      if maxBytes == 0 {
        return Fail(NoRoom);
      }
      if rows == [] {
        return Fail(NoEntries);
      }
      var shipped := ShippedRows(rows);
      var collision := RejectCollisions(shipped);
      if collision.Fail? {
        return Fail(Collides(collision.error));
      }
      var total := TotalBytes(rows);
      if total > maxBytes {
        return Fail(DeclaredTotal);
      }
      if tree != map[] {
        return Fail(Occupied);
      }
      r := Inspect(rows, host);
      if r.Fail? {
        return;
      }
      r := StageRows(rows, host, digest, io);
      if r.Pass? {
        TreeDescribed(rows, host, caseless);
      }
    }
  }

  lemma InspectedFound(rows: seq<Row>, host: Host)
    requires Inspectable(rows, host)
    ensures forall i | 0 <= i < |rows| :: host(rows[i]).Some?
  {
    assert forall i | 0 <= i < |rows| :: Sized(host, rows[i]);
  }

  lemma {:induction false} ParentsStop<T>(tree: Tree<T>, key: seq<string>, n: nat, m: nat)
    requires n <= m < |key| && MakeParents(tree, key, n).None?
    ensures MakeParents(tree, key, m).None?
  {
    if n < m {
      ParentsStop(tree, key, n, m - 1);
    }
  }

  /** The list of shipped rows. */
  method ShippedRows(rows: seq<Row>) returns (shipped: seq<Shipped>)
    requires Relative(rows)
    ensures shipped == ShippedOf(rows) && AllRelative(shipped)
  {
    hide RelativePath;
    shipped := [];
    for i := 0 to |rows|
      invariant shipped == ShippedOf(rows[..i]) && AllRelative(shipped)
    {
      ShippedNext(rows, row => None, i);
      if rows[i].destination.Some? {
        shipped := shipped + [Shipped(rows[i].id, rows[i].destination.value)];
      }
    }
    assert rows[..|rows|] == rows;
  }

  lemma TreeDescribed(rows: seq<Row>, host: Host, caseless: bool)
    requires TreeAfter(rows, host, caseless, |rows|).Some?
    ensures Describes(TreeAfter(rows, host, caseless, |rows|).value, Keys(ShippedOf(rows), caseless),
                      ShippedData(rows, host))
  {
    assert rows[..|rows|] == rows;
    CreatableIffPrefixFree(Keys(ShippedOf(rows), caseless), ShippedData(rows, host));
  }

  /** A declaration that is refused for a collision cannot be staged where case is ignored. */
  lemma RefusedCannotBeStaged(rows: seq<Row>, host: Host)
    ensures PrefixFree(Keys(ShippedOf(rows), true)) <==> TreeAfter(rows, host, true, |rows|).Some?
  {
    assert rows[..|rows|] == rows;
    CreatableIffPrefixFree(Keys(ShippedOf(rows), true), ShippedData(rows, host));
  }
}
