/**
 Declared destinations and the trees they create (`_require_relative_path`, `_reject_destination_collisions` and
 `_prepare_destination` of staging.py).
 */
module Destinations {
  import opened Wrappers

  // ----- path text ------------------------------------------------------------------------------

  /** `s.split("/")`. */
  function Split(s: string): (parts: seq<string>)
    ensures parts != []
    ensures forall part | part in parts :: '/' !in part
  {
    if s == "" then [""]
    else
      var rest := Split(s[1..]);
      if s[0] == '/' then [""] + rest else [[s[0]] + rest[0]] + rest[1..]
  }

  /** The text of a path with these parts. */
  function Join(parts: seq<string>): string
    requires parts != []
  {
    if |parts| == 1 then parts[0] else parts[0] + "/" + Join(parts[1..])
  }

  function FoldChar(c: char): char {
    if 'A' <= c <= 'Z' then c - 'A' + 'a' else c
  }

  /** `casefold` of ASCII text. */
  function Fold(s: string): string {
    seq(|s|, i requires 0 <= i < |s| => FoldChar(s[i]))
  }

  function FoldAll(parts: seq<string>): (r: seq<string>)
    ensures |r| == |parts|
  {
    seq(|parts|, i requires 0 <= i < |parts| => Fold(parts[i]))
  }

  const CAPITALS := "ABCDEFGHIJKLMNOPQRSTUVWXYZ"
  const SMALL := "abcdefghijklmnopqrstuvwxyz"

  /** The same character, or the same letter. */
  predicate SameLetter(c: char, d: char) {
    c == d || exists k | 0 <= k < 26 :: (c == CAPITALS[k] && d == SMALL[k]) || (c == SMALL[k] && d == CAPITALS[k])
  }

  lemma Letters(k: nat)
    requires k < 26
    ensures CAPITALS[k] as int == 'A' as int + k && SMALL[k] as int == 'a' as int + k
  {
  }

  lemma LetterOf(c: char)
    ensures 'A' <= c <= 'Z' ==> CAPITALS[c as int - 'A' as int] == c && SMALL[c as int - 'A' as int] == FoldChar(c)
    ensures !('A' <= c <= 'Z') ==> FoldChar(c) == c && forall k | 0 <= k < 26 :: CAPITALS[k] != c
    ensures forall k | 0 <= k < 26 :: FoldChar(CAPITALS[k]) == SMALL[k] == FoldChar(SMALL[k])
  {
    forall k | 0 <= k < 26 ensures CAPITALS[k] as int == 'A' as int + k && SMALL[k] as int == 'a' as int + k {
      Letters(k);
    }
  }

  lemma FoldsLetter(c: char, d: char)
    ensures FoldChar(c) == FoldChar(d) <==> SameLetter(c, d)
  {
    LetterOf(c);
    LetterOf(d);
  }

  /** Two texts fold to the same text exactly when they are the same but for the case of letters. */
  lemma FoldsEqual(s: string, t: string)
    ensures Fold(s) == Fold(t) <==> |s| == |t| && forall i | 0 <= i < |s| :: SameLetter(s[i], t[i])
  {
    hide FoldChar, SameLetter;
    forall c, d { FoldsLetter(c, d); }
    if Fold(s) == Fold(t) {
      assert |Fold(s)| == |Fold(t)|;
      forall i | 0 <= i < |s| ensures SameLetter(s[i], t[i]) {
        assert Fold(s)[i] == Fold(t)[i];
      }
    }
  }

  lemma {:induction false} SplitAppend(head: string, tail: string)
    requires '/' !in head
    ensures Split(head) == [head]
    ensures Split(head + "/" + tail) == [head] + Split(tail)
  {
    var whole := head + "/" + tail;
    if head == "" {
      assert whole == "/" + tail && whole[1..] == tail;
    } else {
      SplitAppend(head[1..], tail);
      assert whole[1..] == head[1..] + "/" + tail && whole[0] == head[0];
      assert [head[0]] + head[1..] == head;
    }
  }

  lemma {:induction false} SplitOfJoin(parts: seq<string>)
    requires parts != [] && forall part | part in parts :: '/' !in part
    ensures Split(Join(parts)) == parts
  {
    SplitAppend(parts[0], "");
    if |parts| > 1 {
      SplitAppend(parts[0], Join(parts[1..]));
      SplitOfJoin(parts[1..]);
      assert [parts[0]] + parts[1..] == parts;
    }
  }

  lemma {:induction false} JoinOfSplit(s: string)
    ensures Join(Split(s)) == s
  {
    if s != "" {
      var rest := Split(s[1..]);
      JoinOfSplit(s[1..]);
      if s[0] == '/' {
        assert ([""] + rest)[1..] == rest;
      } else {
        assert ([[s[0]] + rest[0]] + rest[1..])[1..] == rest[1..];
      }
    }
  }

  lemma {:induction false} SplitOfFold(s: string)
    ensures Split(Fold(s)) == FoldAll(Split(s))
  {
    if s != "" {
      SplitOfFold(s[1..]);
      assert Fold(s)[1..] == Fold(s[1..]);
      var rest := Split(s[1..]);
      assert Fold([s[0]] + rest[0]) == [FoldChar(s[0])] + Fold(rest[0]);
    }
  }

  /** Two paths have the same folded text exactly when their folded components agree. */
  lemma SameText(a: seq<string>, b: seq<string>)
    requires a != [] && b != [] && forall part | part in a || part in b :: '/' !in part
    ensures Fold(Join(a)) == Fold(Join(b)) <==> FoldAll(a) == FoldAll(b)
  {
    SplitOfFold(Join(a));
    SplitOfFold(Join(b));
    SplitOfJoin(a);
    SplitOfJoin(b);
    JoinOfSplit(Fold(Join(a)));
    JoinOfSplit(Fold(Join(b)));
  }

  // ----- declared destinations ------------------------------------------------------------------

  predicate GoodPart(part: string) {
    part !in {"", ".", ".."}
  }

  /** ASCII paths without empty or dot components: every path that `_require_relative_path` accepts is one. */
  predicate RelativePath(s: string) {
    s != "" && (forall c | c in s :: ' ' <= c <= '~') && forall part | part in Split(s) :: GoodPart(part)
  }

  datatype Shipped = Shipped(id: string, destination: string)

  predicate AllRelative(rows: seq<Shipped>) {
    forall row | row in rows :: RelativePath(row.destination)
  }

  /** The components of a destination on a file system that ignores case, or on one that does not. */
  function Key(row: Shipped, caseless: bool): (key: seq<string>)
    ensures key != []
  {
    if caseless then FoldAll(Split(row.destination)) else Split(row.destination)
  }

  function Keys(rows: seq<Shipped>, caseless: bool): (keys: seq<seq<string>>)
    ensures |keys| == |rows| && forall i | 0 <= i < |rows| :: keys[i] == Key(rows[i], caseless)
  {
    seq(|rows|, i requires 0 <= i < |rows| => Key(rows[i], caseless))
  }

  /** Distinct and prefix-free: no destination is another one or lies inside it. */
  predicate PrefixFree(keys: seq<seq<string>>) {
    forall i, j | 0 <= i < |keys| && 0 <= j < |keys| && i != j :: !(keys[i] <= keys[j])
  }

  datatype Collision = Equal(id: string, other: string) | Inside(id: string)

  predicate Indexed(rows: seq<Shipped>, n: nat, files: map<string, string>)
    requires n <= |rows|
  {
    && (forall i | 0 <= i < n :: Fold(rows[i].destination) in files)
    && (forall k | k in files :: exists i | 0 <= i < n :: Fold(rows[i].destination) == k)
  }

  predicate Outside(row: Shipped, m: nat, files: map<string, string>) {
    var parts := Split(row.destination);
    m < |parts| && (m == 0 || Fold(Join(parts[..m])) !in files)
  }

  predicate OutsideAll(row: Shipped, files: map<string, string>) {
    forall m: nat | m < |Split(row.destination)| :: Outside(row, m, files)
  }

  /** The name of a path given by its parts. */
  function Name(parts: seq<string>): string {
    if parts == [] then "" else parts[|parts| - 1]
  }

  lemma PrefixText(rows: seq<Shipped>, i: nat, j: nat, m: nat)
    requires i < |rows| && j < |rows| && 0 < m <= |Split(rows[i].destination)|
    ensures Fold(Join(Split(rows[i].destination)[..m])) == Fold(rows[j].destination) <==>
            FoldAll(Split(rows[i].destination))[..m] == Key(rows[j], true)
  {
    var parts := Split(rows[i].destination);
    JoinOfSplit(rows[j].destination);
    SameText(parts[..m], Split(rows[j].destination));
    assert FoldAll(parts[..m]) == FoldAll(parts)[..m];
  }

  lemma EqualText(rows: seq<Shipped>, i: nat, j: nat)
    requires i < |rows| && j < |rows|
    ensures Fold(rows[i].destination) == Fold(rows[j].destination) <==> Key(rows[i], true) == Key(rows[j], true)
  {
    JoinOfSplit(rows[i].destination);
    JoinOfSplit(rows[j].destination);
    SameText(Split(rows[i].destination), Split(rows[j].destination));
  }

  lemma NoPrefix(rows: seq<Shipped>, files: map<string, string>)
    requires Indexed(rows, |rows|, files) && forall i | 0 <= i < |rows| :: OutsideAll(rows[i], files)
    requires forall i, j | 0 <= i < j < |rows| :: Fold(rows[i].destination) != Fold(rows[j].destination)
    ensures PrefixFree(Keys(rows, true))
  {
    hide Fold, FoldAll, Join, Split;
    forall i, j | 0 <= i < |rows| && 0 <= j < |rows| && i != j ensures !(Key(rows[i], true) <= Key(rows[j], true)) {
      var m := |Key(rows[i], true)|;
      EqualText(rows, i, j);
      if m < |Key(rows[j], true)| {
        PrefixText(rows, j, i, m);
        assert Outside(rows[j], m, files);
      }
    }
  }

  lemma EqualCollides(rows: seq<Shipped>, i: nat, j: nat)
    requires i < j < |rows| && Fold(rows[i].destination) == Fold(rows[j].destination)
    ensures !PrefixFree(Keys(rows, true))
  {
    EqualText(rows, i, j);
    assert Keys(rows, true)[i] <= Keys(rows, true)[j];
  }

  lemma InsideCollides(rows: seq<Shipped>, i: nat, j: nat, m: nat)
    requires i < |rows| && j < |rows| && 0 < m < |Split(rows[i].destination)|
    requires Fold(Join(Split(rows[i].destination)[..m])) == Fold(rows[j].destination)
    ensures !PrefixFree(Keys(rows, true))
  {
    PrefixText(rows, i, j, m);
    assert |Key(rows[j], true)| == m && i != j;
    assert Keys(rows, true)[j] <= Keys(rows, true)[i];
  }

  lemma IndexedMore(rows: seq<Shipped>, n: nat, files: map<string, string>)
    requires n < |rows| && Indexed(rows, n, files)
    ensures Indexed(rows, n + 1, files[Fold(rows[n].destination) := rows[n].id])
  {
    hide Fold;
  }

  lemma IndexedRow(rows: seq<Shipped>, n: nat, files: map<string, string>, k: string) returns (i: nat)
    requires n <= |rows| && Indexed(rows, n, files) && k in files
    ensures i < n && Fold(rows[i].destination) == k
  {
    i :| 0 <= i < n && Fold(rows[i].destination) == k;
  }

  lemma NotIndexed(rows: seq<Shipped>, n: nat, files: map<string, string>, k: string)
    requires n <= |rows| && Indexed(rows, n, files) && k !in files
    ensures forall i | 0 <= i < n :: Fold(rows[i].destination) != k
  {
  }

  lemma ParentName(destination: string, m: nat)
    requires RelativePath(destination) && m <= |Split(destination)|
    ensures Name(Split(destination)[..m]) != "" <==> m > 0
  {
    if m > 0 {
      assert GoodPart(Split(destination)[m - 1]);
    }
  }

  /** `_reject_destination_collisions`: accepts exactly the destinations whose folded components are prefix-free. */
  method RejectCollisions(rows: seq<Shipped>) returns (r: Outcome<Collision>)
    requires AllRelative(rows)
    ensures r.Pass? <==> PrefixFree(Keys(rows, true))
  {
    hide Fold, Join, Split, PrefixFree, FoldAll, RelativePath, Indexed, Name, OutsideAll, Keys;
    var files: map<string, string> := map[];
    assert Indexed(rows, 0, files) by { NothingIndexed(rows); }
    for i := 0 to |rows|
      invariant Indexed(rows, i, files)
      invariant forall a, b | 0 <= a < b < i :: Fold(rows[a].destination) != Fold(rows[b].destination)
    {
      var key := Fold(rows[i].destination);
      if key in files {
        var j := IndexedRow(rows, i, files, key);
        EqualCollides(rows, j, i);
        return Fail(Equal(rows[i].id, files[key]));
      }
      NotIndexed(rows, i, files, key);
      IndexedMore(rows, i, files);
      files := files[key := rows[i].id];
    }
    for i := 0 to |rows|
      invariant forall a | 0 <= a < i :: OutsideAll(rows[a], files)
    {
      var inside := InsideShipped(rows, i, files);
      if inside {
        return Fail(Inside(rows[i].id));
      }
    }
    NoPrefix(rows, files);
    r := Pass;
  }

  lemma NothingIndexed(rows: seq<Shipped>)
    ensures Indexed(rows, 0, map[])
  {
  }

  /** The walk over the parents of one destination. */
  method InsideShipped(rows: seq<Shipped>, i: nat, files: map<string, string>) returns (inside: bool)
    requires i < |rows| && Indexed(rows, |rows|, files) && RelativePath(rows[i].destination)
    ensures inside ==> !PrefixFree(Keys(rows, true))
    ensures !inside ==> OutsideAll(rows[i], files)
  {
    hide Fold, Join, Split, PrefixFree, FoldAll, RelativePath, Indexed, Keys, Name;
    var parts := Split(rows[i].destination);
    var parent := parts[..|parts| - 1];
    ParentName(rows[i].destination, |parent|);
    while Name(parent) != ""
      invariant |parent| < |parts| && parent == parts[..|parent|] && (Name(parent) != "" <==> parent != [])
      invariant forall m: nat | |parent| < m < |parts| :: Outside(rows[i], m, files)
      decreases |parent|
    {
      if Fold(Join(parent)) in files {
        var j := IndexedRow(rows, |rows|, files, Fold(Join(parent)));
        InsideCollides(rows, i, j, |parent|);
        return true;
      }
      ParentName(rows[i].destination, |parent| - 1);
      parent := parent[..|parent| - 1];
    }
    inside := false;
  }

  /** Destinations that do not collide when case is ignored do not collide when it is not. */
  lemma CaselessIsStricter(rows: seq<Shipped>)
    requires PrefixFree(Keys(rows, true))
    ensures PrefixFree(Keys(rows, false))
  {
    forall i, j | 0 <= i < |rows| && 0 <= j < |rows| && i != j ensures !(Key(rows[i], false) <= Key(rows[j], false)) {
      FoldPrefix(Split(rows[i].destination), Split(rows[j].destination));
      assert !(Keys(rows, true)[i] <= Keys(rows, true)[j]);
    }
  }

  lemma FoldPrefix(a: seq<string>, b: seq<string>)
    ensures a <= b ==> FoldAll(a) <= FoldAll(b)
  {
    if a <= b {
      assert forall k | 0 <= k < |a| :: a[k] == b[k];
    }
  }

  // ----- the destination tree -------------------------------------------------------------------

  datatype Node<T> = Directory | File(content: T)

  type Tree<T> = map<seq<string>, Node<T>>

  /** `_prepare_destination`: the first `n` parents of a path, created or found to be directories. */
  function MakeParents<T>(tree: Tree<T>, key: seq<string>, n: nat): Option<Tree<T>>
    requires n < |key|
  {
    if n == 0 then Some(tree)
    else
      var before := MakeParents(tree, key, n - 1);
      if before.None? then None
      else if key[..n] !in before.value then Some(before.value[key[..n] := Directory])
      else if before.value[key[..n]].Directory? then before
      else None
  }

  /** Exclusive creation of a file after its parents. */
  function Create<T>(tree: Tree<T>, key: seq<string>, content: T): Option<Tree<T>>
    requires key != []
  {
    var made := MakeParents(tree, key, |key| - 1);
    if made.None? || key in made.value then None else Some(made.value[key := File(content)])
  }

  predicate NonEmpty(keys: seq<seq<string>>) {
    forall i | 0 <= i < |keys| :: keys[i] != []
  }

  /** Every file in order. */
  function CreateAll<T>(keys: seq<seq<string>>, contents: seq<T>): Option<Tree<T>>
    requires |keys| == |contents| && NonEmpty(keys)
  {
    if keys == [] then Some(map[])
    else
      var n := |keys| - 1;
      var before := CreateAll(keys[..n], contents[..n]);
      if before.None? then None else Create(before.value, keys[n], contents[n])
  }

  predicate InSome(k: seq<string>, keys: seq<seq<string>>) {
    k != [] && exists i | 0 <= i < |keys| :: k <= keys[i]
  }

  /** The tree holds exactly these files and the directories above them. */
  ghost predicate Describes<T(!new)>(tree: Tree<T>, keys: seq<seq<string>>, contents: seq<T>)
    requires |keys| == |contents|
  {
    && (forall i | 0 <= i < |keys| :: keys[i] in tree && tree[keys[i]] == File(contents[i]))
    && (forall k | InSome(k, keys) && k !in keys :: k in tree && tree[k] == Directory)
    && (forall k | k in tree :: InSome(k, keys))
  }

  lemma {:induction false} ParentsMade<T(!new)>(tree: Tree<T>, key: seq<string>, n: nat)
    requires n < |key|
    ensures MakeParents(tree, key, n).Some? <==>
            forall m | 0 < m <= n && key[..m] in tree :: tree[key[..m]].Directory?
    ensures MakeParents(tree, key, n).Some? ==>
              var made := MakeParents(tree, key, n).value;
              && (forall k | k in tree :: k in made && made[k] == tree[k])
              && (forall m | 0 < m <= n :: key[..m] in made && made[key[..m]].Directory?)
              && (forall k | k in made && k !in tree :: 0 < |k| <= n && k == key[..|k|])
  {
    if n > 0 {
      ParentsMade(tree, key, n - 1);
    }
  }

  lemma FileIsKey<T(!new)>(tree: Tree<T>, keys: seq<seq<string>>, contents: seq<T>, k: seq<string>)
    requires |keys| == |contents| && Describes(tree, keys, contents) && k in tree && !tree[k].Directory?
    ensures k in keys
  {
  }

  lemma CreateOne<T(!new)>(tree: Tree<T>, keys: seq<seq<string>>, contents: seq<T>, key: seq<string>, content: T)
    requires |keys| == |contents| && Describes(tree, keys, contents) && PrefixFree(keys) && key != []
    ensures Create(tree, key, content).Some? <==> PrefixFree(keys + [key])
    ensures Create(tree, key, content).Some? ==>
              Describes(Create(tree, key, content).value, keys + [key], contents + [content])
  {
    hide MakeParents, Describes;
    var n := |key| - 1;
    ParentsMade(tree, key, n);
    var all := keys + [key];
    assert all[|keys|] == key && forall i | 0 <= i < |keys| :: all[i] == keys[i];
    if Create(tree, key, content).Some? {
      CreatedFree(tree, keys, contents, key);
      CreatedDescribes(tree, keys, contents, key, content);
    } else if MakeParents(tree, key, n).None? {
      var m :| 0 < m <= n && key[..m] in tree && !tree[key[..m]].Directory?;
      FileIsKey(tree, keys, contents, key[..m]);
      var i :| 0 <= i < |keys| && keys[i] == key[..m];
      assert all[i] <= all[|keys|];
    } else {
      assert key in tree;
      assert InSome(key, keys) by { AllInSome(tree, keys, contents, key); }
      var i :| 0 <= i < |keys| && key <= keys[i];
      assert all[|keys|] <= all[i];
    }
  }

  lemma AllInSome<T(!new)>(tree: Tree<T>, keys: seq<seq<string>>, contents: seq<T>, k: seq<string>)
    requires |keys| == |contents| && Describes(tree, keys, contents)
    ensures k in tree <==> InSome(k, keys)
  {
    if InSome(k, keys) && k in keys {
      var i :| 0 <= i < |keys| && keys[i] == k;
    }
  }

  lemma ParentIsDirectory<T(!new)>(tree: Tree<T>, key: seq<string>, n: nat, m: nat)
    requires 0 < m <= n < |key| && MakeParents(tree, key, n).Some? && key[..m] in tree
    ensures tree[key[..m]].Directory?
  {
    ParentsMade(tree, key, n);
  }

  lemma ParentsKeep<T(!new)>(tree: Tree<T>, key: seq<string>, n: nat, k: seq<string>)
    requires n < |key| && MakeParents(tree, key, n).Some? && k in tree
    ensures k in MakeParents(tree, key, n).value
  {
    ParentsMade(tree, key, n);
  }

  lemma CreatedApart<T(!new)>(tree: Tree<T>, keys: seq<seq<string>>, contents: seq<T>, key: seq<string>, i: nat)
    requires |keys| == |contents| && Describes(tree, keys, contents) && i < |keys| && key != []
    requires MakeParents(tree, key, |key| - 1).Some? && key !in MakeParents(tree, key, |key| - 1).value
    ensures !(keys[i] <= key) && !(key <= keys[i])
  {
    hide MakeParents, Describes, InSome;
    if key in tree {
      ParentsKeep(tree, key, |key| - 1, key);
      assert false;
    }
    AllInSome(tree, keys, contents, key);
    NotInSome(key, keys, i);
    KeyIsFile(tree, keys, contents, i);
    var m := |keys[i]|;
    if keys[i] <= key && m < |key| {
      assert keys[i] == key[..m];
      ParentIsDirectory(tree, key, |key| - 1, m);
    }
  }

  lemma NotInSome(k: seq<string>, keys: seq<seq<string>>, i: nat)
    requires i < |keys| && k != [] && !InSome(k, keys)
    ensures !(k <= keys[i])
  {
  }

  lemma KeyIsFile<T(!new)>(tree: Tree<T>, keys: seq<seq<string>>, contents: seq<T>, i: nat)
    requires |keys| == |contents| && Describes(tree, keys, contents) && i < |keys|
    ensures keys[i] != [] && keys[i] in tree && tree[keys[i]] == File(contents[i])
  {
    AllInSome(tree, keys, contents, keys[i]);
  }

  lemma CreatedFree<T(!new)>(tree: Tree<T>, keys: seq<seq<string>>, contents: seq<T>, key: seq<string>)
    requires |keys| == |contents| && Describes(tree, keys, contents) && PrefixFree(keys) && key != []
    requires MakeParents(tree, key, |key| - 1).Some? && key !in MakeParents(tree, key, |key| - 1).value
    ensures PrefixFree(keys + [key])
  {
    hide MakeParents, Describes;
    forall i | 0 <= i < |keys| ensures !(keys[i] <= key) && !(key <= keys[i]) {
      CreatedApart(tree, keys, contents, key, i);
    }
  }

  /** What creating a file adds to the tree. */
  lemma CreatedNodes<T(!new)>(tree: Tree<T>, key: seq<string>, content: T)
    requires key != [] && Create(tree, key, content).Some?
    ensures var after := Create(tree, key, content).value;
            && key in after && after[key] == File(content)
            && (forall k | k in tree && k != key :: k in after && after[k] == tree[k])
            && (forall k | k != [] && k <= key && k != key :: k in after && after[k].Directory?)
            && (forall k | k in after && k !in tree :: k != [] && k <= key)
  {
    ParentsMade(tree, key, |key| - 1);
    hide MakeParents;
    var made := MakeParents(tree, key, |key| - 1).value;
    forall k | k != [] && k <= key && k != key ensures k in made && made[k].Directory? {
      assert k == key[..|k|];
    }
  }

  lemma CreatedDescribes<T(!new)>(tree: Tree<T>, keys: seq<seq<string>>, contents: seq<T>, key: seq<string>, content: T)
    requires |keys| == |contents| && Describes(tree, keys, contents) && key != []
    requires PrefixFree(keys + [key]) && Create(tree, key, content).Some?
    ensures Describes(Create(tree, key, content).value, keys + [key], contents + [content])
  {
    forall i | 0 <= i < |keys + [key]| ensures
      var k := (keys + [key])[i];
      k in Create(tree, key, content).value && Create(tree, key, content).value[k] == File((contents + [content])[i])
    {
      FilesKept(tree, keys, contents, key, content, i);
    }
    CreatedNodes(tree, key, content);
    hide Create, InSome, PrefixFree;
    var all, after := keys + [key], Create(tree, key, content).value;
    forall k ensures InSome(k, all) <==> InSome(k, keys) || (k != [] && k <= key) {
      InSomeMore(k, keys, key);
    }
    forall k | InSome(k, all) && k !in all ensures k in after && after[k] == Directory {
      KeysMore(k, keys, key);
    }
  }

  lemma FilesKept<T(!new)>(tree: Tree<T>, keys: seq<seq<string>>, contents: seq<T>, key: seq<string>, content: T, i: nat)
    requires |keys| == |contents| && Describes(tree, keys, contents) && key != [] && i <= |keys|
    requires PrefixFree(keys + [key]) && Create(tree, key, content).Some?
    ensures var k := (keys + [key])[i];
            k in Create(tree, key, content).value && Create(tree, key, content).value[k] == File((contents + [content])[i])
  {
    CreatedNodes(tree, key, content);
    var all := keys + [key];
    if i < |keys| {
      KeyIsFile(tree, keys, contents, i);
      hide Create, InSome, Describes;
      assert !(all[|keys|] <= all[i]);
    }
  }

  lemma InSomeMore(k: seq<string>, keys: seq<seq<string>>, key: seq<string>)
    ensures InSome(k, keys + [key]) <==> InSome(k, keys) || (k != [] && k <= key)
  {
    var all := keys + [key];
    assert all[|keys|] == key && forall i | 0 <= i < |keys| :: all[i] == keys[i];
    if InSome(k, keys) {
      var i :| 0 <= i < |keys| && k <= keys[i];
      assert k <= all[i];
    }
  }

  lemma KeysMore(k: seq<string>, keys: seq<seq<string>>, key: seq<string>)
    ensures k in keys + [key] <==> k in keys || k == key
  {
  }

  /** Destinations can all be created in an empty directory, in any given order, exactly when they are prefix-free. */
  lemma {:induction false} CreatableIffPrefixFree<T(!new)>(keys: seq<seq<string>>, contents: seq<T>)
    requires |keys| == |contents| && NonEmpty(keys)
    ensures CreateAll(keys, contents).Some? <==> PrefixFree(keys)
    ensures CreateAll(keys, contents).Some? ==> Describes(CreateAll(keys, contents).value, keys, contents)
  {
    if keys != [] {
      hide Create, Describes;
      var n := |keys| - 1;
      CreatableIffPrefixFree(keys[..n], contents[..n]);
      assert keys[..n] + [keys[n]] == keys && contents[..n] + [contents[n]] == contents;
      assert PrefixFree(keys) ==> PrefixFree(keys[..n]);
      if CreateAll(keys[..n], contents[..n]).Some? {
        CreateOne(CreateAll(keys[..n], contents[..n]).value, keys[..n], contents[..n], keys[n], contents[n]);
      }
    }
  }
}
