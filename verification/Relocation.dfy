/** Private relocation of a native library (`prepare`): the dependency inventory and the rewritten imports. */
module Relocation {
  import opened Wrappers
  import opened Reachability
  import opened Sets
  import opened Paths

  /** A resolved path. */
  datatype File = File(parent: string, name: string)

  datatype Inspected = Inspected(bytes: nat, imports: seq<string>)

  /** The host: path resolution, regular files, and `inspect_file` (None where it raises). */
  datatype Host = Host(resolve: string -> Option<File>, isFile: File -> bool, inspect: File -> Option<Inspected>)

  datatype Refusal =
    | ClosureLimit | InspectionFailed | AmbiguousName | ByteLimit | UnresolvedImport | DependencyNotFile
    | CopyCollision | DeveloperImport

  const FILE_LIMIT := 512
  const BYTE_LIMIT := 4294967296

  /** `token.split("/", 1)[1]` of a token that holds a slash. */
  function AfterSlash(token: string): string {
    if token == "" then "" else if token[0] == '/' then token[1..] else AfterSlash(token[1..])
  }

  /** `parent / rest`, where an absolute `rest` replaces the parent. */
  function Join(parent: string, rest: string): string {
    if StartsWith(rest, "/") then rest else parent + "/" + rest
  }

  /** `dependency_path`. */
  function DependencyPath(host: Host, source: File, token: string): Result<File, Refusal> {
    var path :=
      if StartsWith(token, "@rpath/") || StartsWith(token, "@loader_path/")
      then Some(Join(source.parent, AfterSlash(token)))
      else if StartsWith(token, "/") then Some(token) else None;
    if path.None? then Refused(UnresolvedImport)
    else match host.resolve(path.value)
      case None => Refused(UnresolvedImport)
      case Some(file) => if host.isFile(file) then Ok(file) else Refused(DependencyNotFile)
  }

  predicate RelativePrefix(prefix: string) {
    prefix == "@rpath/" || prefix == "@loader_path/"
  }

  /** The path an import of a file in `parent` stands for: its own, or what follows a relative prefix, from `parent`. */
  ghost predicate StandsFor(parent: string, token: string, path: string) {
    || (token != "" && token[0] == '/' && path == token)
    || exists prefix, rest ::
         RelativePrefix(prefix) && token == prefix + rest
         && path == if rest != "" && rest[0] == '/' then rest else parent + "/" + rest
  }

  lemma {:induction false} NoSlashBefore(front: string, rest: string)
    requires '/' !in front
    ensures AfterSlash(front + "/" + rest) == rest
  {
    if front == "" {
      assert "/" + rest == front + "/" + rest && ("/" + rest)[1..] == rest;
    } else {
      NoSlashBefore(front[1..], rest);
      assert front[0] in front && (front + "/" + rest)[1..] == front[1..] + "/" + rest;
    }
  }

  lemma PrefixEnds(prefix: string)
    requires RelativePrefix(prefix)
    ensures prefix != "" && prefix[0] == '@' && '/' !in prefix[..|prefix| - 1] && prefix == prefix[..|prefix| - 1] + "/"
  {
  }

  lemma AfterPrefix(prefix: string, rest: string)
    requires RelativePrefix(prefix)
    ensures AfterSlash(prefix + rest) == rest && (prefix + rest)[0] == '@'
  {
    PrefixEnds(prefix);
    hide RelativePrefix;
    NoSlashBefore(prefix[..|prefix| - 1], rest);
    assert prefix + rest == prefix[..|prefix| - 1] + "/" + rest;
  }

  /** The path that `dependency_path` resolves. */
  lemma PathIs(host: Host, source: File, token: string, file: File)
    ensures var relative := StartsWith(token, "@rpath/") || StartsWith(token, "@loader_path/");
            var path := if relative then Join(source.parent, AfterSlash(token)) else token;
            DependencyPath(host, source, token) == Ok(file) <==>
            (relative || StartsWith(token, "/")) && host.resolve(path) == Some(file) && host.isFile(file)
  {
    hide StartsWith, AfterSlash, Join;
  }

  lemma PrefixSplit(token: string)
    ensures (StartsWith(token, "@rpath/") || StartsWith(token, "@loader_path/")) <==>
            exists prefix, rest :: RelativePrefix(prefix) && token == prefix + rest
  {
    forall prefix | RelativePrefix(prefix) && StartsWith(token, prefix)
      ensures exists rest :: RelativePrefix(prefix) && token == prefix + rest
    {
      assert token == prefix + token[|prefix|..];
    }
    hide RelativePrefix;
    if exists prefix, rest :: RelativePrefix(prefix) && token == prefix + rest {
      var prefix, rest :| RelativePrefix(prefix) && token == prefix + rest;
      assert StartsWith(token, prefix);
      PrefixIsOne(prefix);
    }
    assert RelativePrefix("@rpath/") && RelativePrefix("@loader_path/") by { BothPrefixes(); }
  }

  lemma PrefixIsOne(prefix: string)
    ensures RelativePrefix(prefix) <==> prefix == "@rpath/" || prefix == "@loader_path/"
  {
  }

  lemma BothPrefixes()
    ensures RelativePrefix("@rpath/") && RelativePrefix("@loader_path/")
  {
  }

  /** An import is of at most one form, and stands for at most one path. */
  lemma StandsForOne(parent: string, token: string, path: string)
    ensures var relative := StartsWith(token, "@rpath/") || StartsWith(token, "@loader_path/");
            StandsFor(parent, token, path) <==>
            (relative || StartsWith(token, "/"))
            && path == if relative then Join(parent, AfterSlash(token)) else token
  {
    PrefixSplit(token);
    forall prefix, rest | RelativePrefix(prefix) && token == prefix + rest
      ensures AfterSlash(token) == rest && token[0] == '@'
    {
      AfterPrefix(prefix, rest);
    }
    SlashFirst(token);
    forall rest ensures Join(parent, rest) == if rest != "" && rest[0] == '/' then rest else parent + "/" + rest {
      SlashFirst(rest);
    }
    hide RelativePrefix, AfterSlash, StartsWith, Join;
  }

  lemma SlashFirst(s: string)
    ensures StartsWith(s, "/") <==> s != "" && s[0] == '/'
  {
  }

  /** An import resolves to a file exactly when the path it stands for does, and it is a regular file. */
  lemma DependencyIs(host: Host, source: File, token: string, file: File)
    ensures DependencyPath(host, source, token) == Ok(file) <==>
            host.isFile(file) && exists path :: StandsFor(source.parent, token, path) && host.resolve(path) == Some(file)
  {
    PathIs(host, source, token, file);
    forall path { StandsForOne(source.parent, token, path); }
    hide StandsFor, StartsWith, AfterSlash, Join, DependencyPath;
  }

  predicate Resolvable(host: Host, source: File, token: string) {
    IsSystem(token) || DependencyPath(host, source, token).Ok?
  }

  /** The non-system imports of a file and the files they resolve to. */
  function Dependencies(host: Host, source: File, imports: seq<string>): Result<map<string, File>, Refusal> {
    if imports == [] then Ok(map[])
    else
      var before :- Dependencies(host, source, imports[..|imports| - 1]);
      var token := imports[|imports| - 1];
      if IsSystem(token) then Ok(before)
      else
        var file :- DependencyPath(host, source, token);
        Ok(before[token := file])
  }

  /** A file that can be inspected and whose imports all resolve. */
  predicate Good(host: Host, file: File) {
    var inspected := host.inspect(file);
    inspected.Some? && forall token | token in inspected.value.imports :: Resolvable(host, file, token)
  }

  /** The dependency graph: the files of the non-system imports. */
  ghost function Edges(host: Host): File -> set<File> {
    (file: File) =>
      if !Good(host, file) then {}
      else set token | token in host.inspect(file).value.imports && !IsSystem(token) ::
             DependencyPath(host, file, token).value
  }

  lemma {:induction false} DependenciesExact(host: Host, source: File, imports: seq<string>)
    ensures Dependencies(host, source, imports).Ok? <==> forall token | token in imports :: Resolvable(host, source, token)
    ensures Dependencies(host, source, imports).Ok? ==>
              var m := Dependencies(host, source, imports).value;
              && (forall token :: token in m <==> token in imports && !IsSystem(token))
              && (forall token | token in m :: DependencyPath(host, source, token) == Ok(m[token]))
  {
    hide DependencyPath, IsSystem;
    if imports != [] {
      var front, last := imports[..|imports| - 1], imports[|imports| - 1];
      DependenciesExact(host, source, front);
      assert forall token :: token in imports <==> token in front || token == last;
    }
  }

  datatype Entry = Entry(inspected: Inspected, dependencies: map<string, File>)

  /** The entry of an inventoried file is what the host says about it. */
  ghost predicate EntryOk(host: Host, file: File, entry: Entry) {
    && Good(host, file) && host.inspect(file) == Some(entry.inspected)
    && (forall token :: token in entry.dependencies <==> token in entry.inspected.imports && !IsSystem(token))
    && (forall token | token in entry.dependencies ::
          DependencyPath(host, file, token) == Ok(entry.dependencies[token]))
  }

  lemma EntryEdges(host: Host, file: File, entry: Entry)
    requires EntryOk(host, file, entry)
    ensures entry.dependencies.Values == Edges(host)(file)
  {
    hide DependencyPath, IsSystem, Resolvable;
    var edges := Edges(host)(file);
    forall g | g in edges ensures g in entry.dependencies.Values {
      var token :| token in host.inspect(file).value.imports && !IsSystem(token)
                   && DependencyPath(host, file, token).value == g;
      assert token in entry.dependencies;
    }
    forall g | g in entry.dependencies.Values ensures g in edges {
      var token :| token in entry.dependencies && entry.dependencies[token] == g;
    }
  }

  // ----- the inventory --------------------------------------------------------------------------

  ghost predicate Reached(host: Host, library: File, file: File) {
    Reaches(Edges(host), library, file)
  }

  function SizeOf(host: Host, file: File): nat {
    if host.inspect(file).Some? then host.inspect(file).value.bytes else 0
  }

  ghost function Size(host: Host): File -> nat {
    (file: File) => SizeOf(host, file)
  }

  ghost predicate AllReached(host: Host, library: File, files: set<File>) {
    forall file | file in files :: Reached(host, library, file)
  }

  ghost predicate WithinLimits(host: Host, files: set<File>) {
    |files| <= FILE_LIMIT && Sum(files, Size(host)) <= BYTE_LIMIT
  }

  /** A library that can be relocated: every reachable file is good, names are distinct, and the limits hold. */
  ghost predicate Relocatable(host: Host, library: File) {
    && (forall file | Reached(host, library, file) :: Good(host, file))
    && (forall f, g | Reached(host, library, f) && Reached(host, library, g) && f.name == g.name :: f == g)
    && (forall files: set<File> | AllReached(host, library, files) :: WithinLimits(host, files))
  }

  ghost predicate NamesMatch(names: map<string, File>, files: set<File>) {
    && (forall file | file in files :: file.name in names && names[file.name] == file)
    && (forall name | name in names :: names[name] in files && names[name].name == name)
  }

  ghost predicate Explored(host: Host, library: File, queue: seq<File>, inventory: map<File, Entry>) {
    && (library in inventory || library in queue)
    && (forall file | file in queue || file in inventory :: Reached(host, library, file))
    && (forall file | file in inventory :: EntryOk(host, file, inventory[file]))
    && (forall f, g | f in inventory && g in Edges(host)(f) :: g in inventory || g in queue)
  }

  /** The exact result: the reachable files, each with its entry, under distinct names. */
  ghost predicate IsInventory(host: Host, library: File, inventory: map<File, Entry>) {
    && (forall file :: file in inventory <==> Reached(host, library, file))
    && (forall file | file in inventory :: EntryOk(host, file, inventory[file]))
    && (forall f, g | f in inventory && g in inventory && f.name == g.name :: f == g)
  }

  lemma ExploredAll(host: Host, library: File, inventory: map<File, Entry>, names: map<string, File>)
    requires Explored(host, library, [], inventory) && NamesMatch(names, inventory.Keys)
    ensures IsInventory(host, library, inventory)
  {
    hide EntryOk, Edges;
    forall f, g | f in inventory && g in Edges(host)(f) ensures g in inventory.Keys {
      assert g !in [];
    }
    ReachableInClosed(Edges(host), inventory.Keys, library);
    forall file | Reached(host, library, file) ensures file in inventory {
      assert Reaches(Edges(host), library, file);
    }
  }

  lemma ExploredMore(host: Host, library: File, queue: seq<File>, inventory: map<File, Entry>, entry: Entry,
                     added: seq<File>)
    requires Explored(host, library, queue, inventory) && queue != []
    requires EntryOk(host, queue[|queue| - 1], entry)
    requires forall file :: file in added <==> file in entry.dependencies.Values
    ensures Explored(host, library, queue[..|queue| - 1] + added, inventory[queue[|queue| - 1] := entry])
  {
    hide EntryOk;
    var source := queue[|queue| - 1];
    EntryEdges(host, source, entry);
    hide Edges;
    forall file | file in added ensures Reached(host, library, file) {
      assert Reached(host, library, source);
      ReachesStep(Edges(host), library, source, file);
    }
    assert forall file :: file in queue <==> file in queue[..|queue| - 1] || file == source;
  }

  lemma ExploredSkip(host: Host, library: File, queue: seq<File>, inventory: map<File, Entry>)
    requires Explored(host, library, queue, inventory) && queue != [] && queue[|queue| - 1] in inventory
    ensures Explored(host, library, queue[..|queue| - 1], inventory)
  {
    hide EntryOk, Edges;
    var source := queue[|queue| - 1];
    assert forall file :: file in queue <==> file in queue[..|queue| - 1] || file == source;
  }

  /** Any refusal before the deadline refutes relocatability. */
  lemma TooManyOrTooLarge(host: Host, library: File, files: set<File>, source: File)
    requires AllReached(host, library, files)
    requires Reached(host, library, source) && source !in files
    requires |files| >= FILE_LIMIT || Sum(files, Size(host)) + Size(host)(source) > BYTE_LIMIT
    ensures !Relocatable(host, library)
  {
    hide Good, Reached, Sum, Size;
    var more := files + {source};
    SumIn(files, Size(host), source);
    assert AllReached(host, library, more) && !WithinLimits(host, more);
  }

  lemma InventoryStart(host: Host, library: File)
    ensures Explored(host, library, [library], map[]) && NamesMatch(map[], {})
  {
    ReachesSelf(Edges(host), library);
  }

  lemma QueueReached(host: Host, library: File, queue: seq<File>, inventory: map<File, Entry>)
    requires Explored(host, library, queue, inventory) && queue != []
    ensures Reached(host, library, queue[|queue| - 1])
    ensures AllReached(host, library, inventory.Keys)
  {
    hide EntryOk, Edges;
    assert queue[|queue| - 1] in queue;
  }

  lemma BadFile(host: Host, library: File, source: File)
    requires Reached(host, library, source) && !Good(host, source)
    ensures !Relocatable(host, library)
  {
    hide Good;
  }

  lemma SizeIs(host: Host, source: File)
    requires host.inspect(source).Some?
    ensures Size(host)(source) == host.inspect(source).value.bytes
  {
  }

  lemma SameName(host: Host, library: File, queue: seq<File>, inventory: map<File, Entry>, names: map<string, File>,
                 source: File)
    requires Explored(host, library, queue, inventory) && NamesMatch(names, inventory.Keys)
    requires Reached(host, library, source) && source !in inventory && source.name in names
    ensures !Relocatable(host, library)
  {
    hide EntryOk, Edges, Good;
    var other := names[source.name];
    assert Reached(host, library, other) && other.name == source.name;
  }

  lemma NamesMore(names: map<string, File>, files: set<File>, source: File)
    requires NamesMatch(names, files) && source.name !in names
    ensures NamesMatch(names[source.name := source], files + {source})
  {
  }

  lemma EntryIsOk(host: Host, source: File, entry: Entry)
    requires host.inspect(source) == Some(entry.inspected)
    requires Dependencies(host, source, entry.inspected.imports) == Ok(entry.dependencies)
    ensures EntryOk(host, source, entry)
  {
    hide DependencyPath, IsSystem;
    DependenciesExact(host, source, entry.inspected.imports);
  }

  lemma Uninspected(host: Host, source: File)
    requires host.inspect(source).None?
    ensures !Good(host, source)
  {
  }

  lemma UnresolvedFile(host: Host, source: File)
    requires host.inspect(source).Some? && Dependencies(host, source, host.inspect(source).value.imports).Refused?
    ensures !Good(host, source)
  {
    hide DependencyPath, IsSystem;
    DependenciesExact(host, source, host.inspect(source).value.imports);
  }

  lemma {:induction false} DependenciesPrefix(host: Host, source: File, imports: seq<string>, n: nat)
    requires n <= |imports| && Dependencies(host, source, imports[..n]).Refused?
    ensures Dependencies(host, source, imports).Refused?
    decreases |imports|
  {
    if n < |imports| {
      assert imports[..|imports| - 1][..n] == imports[..n];
      DependenciesPrefix(host, source, imports[..|imports| - 1], n);
    } else {
      assert imports[..n] == imports;
    }
  }

  /** The inner loop: resolve the imports of one file, in order. */
  method Resolve(host: Host, source: File, imports: seq<string>)
    returns (dependencies: map<string, File>, found: seq<File>, refusal: Option<Refusal>)
    ensures refusal.None? ==> Dependencies(host, source, imports) == Ok(dependencies)
    ensures refusal.None? ==> forall file :: file in found <==> file in dependencies.Values
    ensures refusal.Some? ==> Dependencies(host, source, imports).Refused?
  {
    hide DependencyPath, IsSystem;
    dependencies, found, refusal := map[], [], None;
    for i := 0 to |imports|
      invariant Dependencies(host, source, imports[..i]) == Ok(dependencies)
      invariant forall file :: file in found <==> file in dependencies.Values
    {
      assert imports[..i + 1][..i] == imports[..i];
      var token := imports[i];
      if IsSystem(token) {
        continue;
      }
      var file := DependencyPath(host, source, token);
      if file.Refused? {
        DependenciesPrefix(host, source, imports, i + 1);
        refusal := Some(file.reason);
        return;
      }
      SameToken(host, source, imports[..i], dependencies, token, file.value);
      ValuesMore(dependencies, token, file.value);
      dependencies := dependencies[token := file.value];
      found := found + [file.value];
    }
    assert imports[..|imports|] == imports;
  }

  /** An import that occurs twice resolves to the same file. */
  lemma SameToken(host: Host, source: File, imports: seq<string>, dependencies: map<string, File>, token: string,
                  file: File)
    requires Dependencies(host, source, imports) == Ok(dependencies) && DependencyPath(host, source, token) == Ok(file)
    ensures token in dependencies ==> dependencies[token] == file
  {
    hide DependencyPath, IsSystem;
    DependenciesExact(host, source, imports);
  }

  lemma ValuesMore(m: map<string, File>, token: string, file: File)
    requires token in m ==> m[token] == file
    ensures m[token := file].Values == m.Values + {file}
  {
    var after := m[token := file];
    assert token in after && after[token] == file;
    forall f | f in m.Values ensures f in after.Values {
      var t :| t in m && m[t] == f;
      assert after[t] == f;
    }
  }

  /** The worklist of `prepare`; `late` tells at which turns the deadline has passed. */
  method Inventory(host: Host, library: File, late: nat -> bool) returns (r: Result<map<File, Entry>, Refusal>)
    ensures r.Ok? ==> IsInventory(host, library, r.value) && Relocatable(host, library)
    ensures r.Refused? && (forall n :: !late(n)) ==> !Relocatable(host, library)
  {
    hide Explored, NamesMatch, Relocatable, Edges, EntryOk, Good, DependencyPath, IsSystem, Size;
    var queue, turn, total := [library], 0, 0;
    var inventory: map<File, Entry> := map[];
    var names: map<string, File> := map[];
    InventoryStart(host, library);
    while queue != []
      invariant Explored(host, library, queue, inventory) && NamesMatch(names, inventory.Keys)
      invariant |inventory| <= FILE_LIMIT
      invariant total == Sum(inventory.Keys, Size(host)) <= BYTE_LIMIT
      decreases FILE_LIMIT - |inventory|, |queue|
    {
      var source := queue[|queue| - 1];
      turn := turn + 1;
      if source in inventory {
        ExploredSkip(host, library, queue, inventory);
        queue := queue[..|queue| - 1];
        continue;
      }
      QueueReached(host, library, queue, inventory);
      if |inventory| >= FILE_LIMIT || late(turn) {
        if |inventory| >= FILE_LIMIT {
          TooManyOrTooLarge(host, library, inventory.Keys, source);
        }
        return Refused(ClosureLimit);
      }
      var inspected := host.inspect(source);
      if inspected.None? {
        Uninspected(host, source);
        BadFile(host, library, source);
        return Refused(InspectionFailed);
      }
      SizeIs(host, source);
      if source.name in names {
        SameName(host, library, queue, inventory, names, source);
        return Refused(AmbiguousName);
      }
      if total + inspected.value.bytes > BYTE_LIMIT {
        TooManyOrTooLarge(host, library, inventory.Keys, source);
        return Refused(ByteLimit);
      }
      var dependencies, found, refusal := Resolve(host, source, inspected.value.imports);
      if refusal.Some? {
        UnresolvedFile(host, source);
        BadFile(host, library, source);
        return Refused(refusal.value);
      }
      var entry := Entry(inspected.value, dependencies);
      EntryIsOk(host, source, entry);
      ExploredMore(host, library, queue, inventory, entry, found);
      NamesMore(names, inventory.Keys, source);
      SumIn(inventory.Keys, Size(host), source);
      names := names[source.name := source];
      total := total + inspected.value.bytes;
      queue := queue[..|queue| - 1] + found;
      ghost var before := inventory.Keys;
      inventory := inventory[source := entry];
      assert inventory.Keys == before + {source};
    }
    ExploredAll(host, library, inventory, names);
    InventoryWithinLimits(host, library, inventory);
    r := Ok(inventory);
  }

  lemma InventoryWithinLimits(host: Host, library: File, inventory: map<File, Entry>)
    requires IsInventory(host, library, inventory) && WithinLimits(host, inventory.Keys)
    ensures Relocatable(host, library)
  {
    hide Good, Reached, Sum, Size, IsSystem, DependencyPath;
    forall files: set<File> | AllReached(host, library, files) ensures WithinLimits(host, files) {
      assert files <= inventory.Keys;
      SumSubset(files, inventory.Keys, Size(host));
    }
    forall file | Reached(host, library, file) ensures Good(host, file) {
      assert file in inventory;
      assert EntryOk(host, file, inventory[file]);
    }
  }

  // ----- copies and rewritten imports -----------------------------------------------------------

  /** A copied file: where it came from and its imports after rewriting. */
  datatype Copy = Copy(source: File, imports: seq<string>)

  const LOADER := "@loader_path/"

  function NewImport(token: string, dependencies: map<string, File>): string {
    if token in dependencies then LOADER + dependencies[token].name else token
  }

  function NewImports(entry: Entry): (r: seq<string>)
    ensures |r| == |entry.inspected.imports|
  {
    seq(|entry.inspected.imports|, i requires 0 <= i < |entry.inspected.imports| =>
      NewImport(entry.inspected.imports[i], entry.dependencies))
  }

  predicate Relocated(token: string) {
    IsSystem(token) || StartsWith(token, LOADER)
  }

  ghost predicate CopiesMatch(native: map<string, Copy>, inventory: map<File, Entry>, files: set<File>)
    requires files <= inventory.Keys
  {
    && (forall file | file in files :: file.name in native && native[file.name] == Copy(file, NewImports(inventory[file])))
    && (forall name | name in native :: native[name].source in files && native[name].source.name == name)
  }

  lemma AllRelocated(host: Host, file: File, entry: Entry)
    requires EntryOk(host, file, entry)
    ensures forall token | token in NewImports(entry) :: Relocated(token)
  {
    hide DependencyPath, IsSystem, Resolvable;
    forall i | 0 <= i < |NewImports(entry)| ensures Relocated(NewImports(entry)[i]) {
      var token := entry.inspected.imports[i];
      if token in entry.dependencies {
        LoaderPrefix(entry.dependencies[token].name);
      }
    }
  }

  lemma LoaderPrefix(name: string)
    ensures StartsWith(LOADER + name, LOADER)
  {
    assert (LOADER + name)[..|LOADER|] == LOADER;
  }

  /** The copy and rewrite loops of `prepare`; a copy is created exclusively under its file name. */
  method CopyAll(host: Host, library: File, inventory: map<File, Entry>) returns (r: Result<map<string, Copy>, Refusal>)
    requires IsInventory(host, library, inventory)
    ensures r.Ok? && CopiesMatch(r.value, inventory, inventory.Keys)
  {
    hide EntryOk, Reached;
    var native: map<string, Copy> := map[];
    var todo := inventory.Keys;
    while todo != {}
      invariant todo <= inventory.Keys && CopiesMatch(native, inventory, inventory.Keys - todo)
    {
      var file :| file in todo;
      if file.name in native {
        assert false;
        return Refused(CopyCollision);
      }
      AllRelocated(host, file, inventory[file]);
      var imports := NewImports(inventory[file]);
      if exists token | token in imports :: !Relocated(token) {
        return Refused(DeveloperImport);
      }
      native := native[file.name := Copy(file, imports)];
      todo := todo - {file};
      assert inventory.Keys - todo == (inventory.Keys - (todo + {file})) + {file};
    }
    assert inventory.Keys - {} == inventory.Keys;
    r := Ok(native);
  }

  lemma {:induction false} AfterFirstSlash(a: string, b: string)
    requires '/' !in a
    ensures AfterSlash(a + "/" + b) == b
  {
    if a == "" {
      assert a + "/" + b == "/" + b;
    } else {
      assert (a + "/" + b)[1..] == a[1..] + "/" + b && (a + "/" + b)[0] == a[0];
      AfterFirstSlash(a[1..], b);
    }
  }

  /** How the loader resolves an import of a copy: `@loader_path/` is the directory of the copies. */
  function LoadNative(native: map<string, Copy>, token: string): Option<Copy> {
    if StartsWith(token, LOADER) && AfterSlash(token) in native then Some(native[AfterSlash(token)]) else None
  }

  /** Each rewritten import of a copy resolves to the copy of the file that the original import resolved to. */
  lemma RewrittenImportsResolve(host: Host, library: File, inventory: map<File, Entry>, native: map<string, Copy>,
                                file: File, i: nat)
    requires IsInventory(host, library, inventory) && CopiesMatch(native, inventory, inventory.Keys)
    requires file in inventory && i < |inventory[file].inspected.imports|
    ensures host.inspect(file) == Some(inventory[file].inspected)
    ensures var token := inventory[file].inspected.imports[i];
            var rewritten := native[file.name].imports[i];
            if IsSystem(token) then rewritten == token
            else
              var original := DependencyPath(host, file, token);
              && original.Ok? && original.value in inventory
              && LoadNative(native, rewritten) == Some(native[original.value.name])
              && native[original.value.name].source == original.value
  {
    hide DependencyPath, IsSystem, Reached, Resolvable;
    var entry := inventory[file];
    var token := entry.inspected.imports[i];
    assert EntryOk(host, file, entry);
    if !IsSystem(token) {
      var to := entry.dependencies[token];
      EntryEdges(host, file, entry);
      assert to in entry.dependencies.Values;
      InventoryClosed(host, library, inventory, file, to);
      LoaderPrefix(to.name);
      assert LOADER + to.name == "@loader_path" + "/" + to.name;
      AfterFirstSlash("@loader_path", to.name);
    }
  }

  lemma InventoryClosed(host: Host, library: File, inventory: map<File, Entry>, file: File, to: File)
    requires IsInventory(host, library, inventory) && file in inventory && to in Edges(host)(file)
    ensures to in inventory
  {
    hide EntryOk, Edges;
    assert Reached(host, library, file);
    ReachesStep(Edges(host), library, file, to);
    assert Reached(host, library, to);
  }

  // ----- the graph of the copies ----------------------------------------------------------------

  /** The graph of the copies: the names of the copies that the loader opens for a copy's imports. */
  ghost function NativeEdges(native: map<string, Copy>): string -> set<string> {
    (name: string) =>
      if name !in native then {}
      else set token | token in native[name].imports && LoadNative(native, token).Some? ::
             LoadNative(native, token).value.source.name
  }

  ghost function Names(files: set<File>): set<string> {
    set file | file in files :: file.name
  }

  /** One import of a file and the import that replaced it. */
  lemma EdgeKept(host: Host, library: File, inventory: map<File, Entry>, native: map<string, Copy>, file: File, i: nat)
    requires IsInventory(host, library, inventory) && CopiesMatch(native, inventory, inventory.Keys)
    requires file in inventory && i < |inventory[file].inspected.imports|
    ensures !IsSystem(inventory[file].inspected.imports[i]) ==>
              var original := DependencyPath(host, file, inventory[file].inspected.imports[i]);
              && original.Ok? && LoadNative(native, native[file.name].imports[i]).Some?
              && LoadNative(native, native[file.name].imports[i]).value.source == original.value
    ensures IsSystem(inventory[file].inspected.imports[i]) ==> LoadNative(native, native[file.name].imports[i]).None?
  {
    hide DependencyPath, Reached, Resolvable, EntryOk, AfterSlash;
    RewrittenImportsResolve(host, library, inventory, native, file, i);
    SystemIsNotLoader(inventory[file].inspected.imports[i]);
  }

  lemma SystemIsNotLoader(token: string)
    ensures !(IsSystem(token) && StartsWith(token, LOADER))
  {
    if StartsWith(token, LOADER) {
      assert token[0] == token[..|LOADER|][0];
    }
    if StartsWith(token, "/usr/lib/") {
      assert token[0] == token[..9][0];
    }
    if StartsWith(token, "/System/Library/") {
      assert token[0] == token[..16][0];
    }
  }

  /** Relocation maps the dependencies of a file onto the dependencies of its copy, one to one by name. */
  lemma EdgesKept(host: Host, library: File, inventory: map<File, Entry>, native: map<string, Copy>, file: File)
    requires IsInventory(host, library, inventory) && CopiesMatch(native, inventory, inventory.Keys) && file in inventory
    ensures NativeEdges(native)(file.name) == Names(Edges(host)(file))
  {
    hide DependencyPath, Reached, Resolvable, LoadNative, IsSystem, NewImport, Names;
    var entry := inventory[file];
    var tokens, rewritten := entry.inspected.imports, native[file.name].imports;
    assert EntryOk(host, file, entry);
    forall name | name in NativeEdges(native)(file.name) ensures name in Names(Edges(host)(file)) {
      var token :| token in rewritten && LoadNative(native, token).Some?
                   && LoadNative(native, token).value.source.name == name;
      var i :| 0 <= i < |rewritten| && rewritten[i] == token;
      EdgeKept(host, library, inventory, native, file, i);
      assert tokens[i] in tokens;
      NameIn(Edges(host)(file), DependencyPath(host, file, tokens[i]).value);
    }
    forall name | name in Names(Edges(host)(file)) ensures name in NativeEdges(native)(file.name) {
      var to := NamedBy(Edges(host)(file), name);
      var token :| token in tokens && !IsSystem(token) && DependencyPath(host, file, token).value == to;
      var i :| 0 <= i < |tokens| && tokens[i] == token;
      EdgeKept(host, library, inventory, native, file, i);
      assert rewritten[i] in rewritten;
    }
  }

  lemma NameIn(files: set<File>, file: File)
    requires file in files
    ensures file.name in Names(files)
  {
  }

  lemma NamedBy(files: set<File>, name: string) returns (file: File)
    requires name in Names(files)
    ensures file in files && file.name == name
  {
    file :| file in files && file.name == name;
  }

  lemma {:induction false} ReachedByCopies(host: Host, library: File, inventory: map<File, Entry>,
                                           native: map<string, Copy>, p: seq<File>)
    requires IsInventory(host, library, inventory) && CopiesMatch(native, inventory, inventory.Keys)
    requires IsPath(Edges(host), p) && p[0] == library
    ensures Reaches(NativeEdges(native), library.name, p[|p| - 1].name)
  {
    hide EntryOk, Edges, NativeEdges, CopiesMatch;
    if |p| == 1 {
      ReachesSelf(NativeEdges(native), library.name);
    } else {
      var front, last := p[..|p| - 1], p[|p| - 1];
      var before := front[|front| - 1];
      assert last == p[|front| - 1 + 1] && before == p[|front| - 1];
      ReachedByCopies(host, library, inventory, native, front);
      PathNodesReachable(Edges(host), p, |front| - 1);
      assert Reached(host, library, before);
      EdgesKept(host, library, inventory, native, before);
      NameIn(Edges(host)(before), last);
      ReachesStep(NativeEdges(native), library.name, before.name, last.name);
    }
  }

  /** Following the rewritten imports from the copy of the library opens every copy, and nothing else. */
  lemma CopiesAreTheClosure(host: Host, library: File, inventory: map<File, Entry>, native: map<string, Copy>,
                            name: string)
    requires IsInventory(host, library, inventory) && CopiesMatch(native, inventory, inventory.Keys)
    ensures Reaches(NativeEdges(native), library.name, name) <==> name in native
  {
    hide EntryOk, Edges, NativeEdges;
    if name in native {
      var file := native[name].source;
      assert Reached(host, library, file);
      var p :| PathBetween(Edges(host), p, library, file);
      ReachedByCopies(host, library, inventory, native, p);
    }
    forall n | n in native.Keys ensures NativeEdges(native)(n) <= native.Keys {
      CopiesStay(host, library, inventory, native, n);
    }
    ReachesSelf(Edges(host), library);
    assert Reached(host, library, library);
    ReachableInClosed(NativeEdges(native), native.Keys, library.name);
  }

  lemma CopiesStay(host: Host, library: File, inventory: map<File, Entry>, native: map<string, Copy>, name: string)
    requires IsInventory(host, library, inventory) && CopiesMatch(native, inventory, inventory.Keys) && name in native
    ensures NativeEdges(native)(name) <= native.Keys
  {
    hide EntryOk, Edges, NativeEdges, Reached, Names;
    var file := native[name].source;
    EdgesKept(host, library, inventory, native, file);
    forall n | n in NativeEdges(native)(name) ensures n in native.Keys {
      var to := NamedBy(Edges(host)(file), n);
      InventoryClosed(host, library, inventory, file, to);
    }
  }
}
