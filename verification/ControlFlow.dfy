/** The control-flow worklist of `_inspect_image` over decoded rows. */
module ControlFlow {
  import opened Wrappers
  import opened Bytes
  import opened CallbackReasons
  import opened Instructions
  import opened Decoder
  import opened Reachability

  /** `{row["rva"]: row for row in rows}`. */
  function ByAddress(rows: seq<Row>): map<int, Row> {
    if rows == [] then map[]
    else ByAddress(rows[..|rows| - 1])[rows[|rows| - 1].rva := rows[|rows| - 1]]
  }

  /** The addresses at which execution can continue after `row`. */
  function Successors(row: Row): set<int> {
    if row.kind.Return? then {}
    else (if row.target.Some? then {row.target.value} else {})
         + (if row.kind.Jump? then {} else {row.rva + row.size})
  }

  /** The same addresses in the order in which the worklist receives them. */
  ghost function SuccessorList(row: Row): seq<int> {
    if row.kind.Return? then []
    else (if row.target.Some? then [row.target.value] else [])
         + (if row.kind.Jump? then [] else [row.rva + row.size])
  }

  lemma SuccessorListElements(row: Row)
    ensures forall address :: address in SuccessorList(row) <==> address in Successors(row)
  {
  }

  ghost function Edges(rows: map<int, Row>): int -> set<int> {
    (address: int) => if address in rows then Successors(rows[address]) else {}
  }

  ghost function ReachableRows(rows: map<int, Row>, start: int): set<int> {
    set address | address in rows && Reaches(Edges(rows), start, address)
  }

  ghost function ReachableReturns(rows: map<int, Row>, start: int): set<int> {
    set address | address in ReachableRows(rows, start) && rows[address].kind.Return?
  }

  /** Execution from `start` never leaves the decoded rows. */
  ghost predicate StaysOnRows(rows: map<int, Row>, start: int) {
    forall address | Reaches(Edges(rows), start, address) :: address in rows
  }

  lemma {:induction false} ByAddressFinds(rows: seq<Row>)
    requires forall i, j | 0 <= i < j < |rows| :: rows[i].rva != rows[j].rva
    ensures forall i | 0 <= i < |rows| :: rows[i].rva in ByAddress(rows) && ByAddress(rows)[rows[i].rva] == rows[i]
    ensures forall address | address in ByAddress(rows) ::
              ByAddress(rows)[address] in rows && ByAddress(rows)[address].rva == address
  {
    if rows != [] {
      ByAddressFinds(rows[..|rows| - 1]);
    }
  }

  /** A set closed under `Edges`, holding `start` and made of reachable rows, is the reachable set. */
  lemma ClosedIsReachable(rows: map<int, Row>, start: int, s: set<int>)
    requires s <= rows.Keys && start in s && Closed(Edges(rows), s)
    requires forall address | address in s :: Reaches(Edges(rows), start, address)
    ensures s == ReachableRows(rows, start) && StaysOnRows(rows, start)
  {
    ReachableInClosed(Edges(rows), s, start);
    forall address ensures address in s <==> address in ReachableRows(rows, start) {
      if address in ReachableRows(rows, start) {
        assert Reaches(Edges(rows), start, address);
      }
    }
  }

  ghost predicate Frontier(rows: map<int, Row>, start: int, pending: seq<int>, reachable: set<int>) {
    && reachable <= rows.Keys
    && (start in reachable || start in pending)
    && (forall address | address in pending :: Reaches(Edges(rows), start, address))
    && (forall address | address in reachable :: Reaches(Edges(rows), start, address))
    && (forall address, next | address in reachable && next in Edges(rows)(address) ::
          next in reachable || next in pending)
  }

  lemma FrontierStart(rows: map<int, Row>, start: int)
    ensures Frontier(rows, start, [start], {})
  {
    ReachesSelf(Edges(rows), start);
  }

  /** A pending address without a row refutes `StaysOnRows`. */
  lemma FrontierOutside(rows: map<int, Row>, start: int, pending: seq<int>, reachable: set<int>)
    requires Frontier(rows, start, pending, reachable) && pending != [] && pending[|pending| - 1] !in rows
    ensures !StaysOnRows(rows, start)
  {
    var address := pending[|pending| - 1];
    assert address in pending;
    assert Reaches(Edges(rows), start, address) && address !in rows;
  }

  lemma FrontierEmpty(rows: map<int, Row>, start: int, reachable: set<int>)
    requires Frontier(rows, start, [], reachable)
    ensures reachable == ReachableRows(rows, start) && StaysOnRows(rows, start)
  {
    forall address, next | address in reachable && next in Edges(rows)(address) ensures next in reachable {
      assert next !in [];
    }
    ClosedIsReachable(rows, start, reachable);
  }

  lemma FrontierStep(rows: map<int, Row>, start: int, pending: seq<int>, reachable: set<int>, after: seq<int>)
    requires Frontier(rows, start, pending, reachable) && pending != []
    requires var address := pending[|pending| - 1];
             && address in rows && address !in reachable
             && (forall x | x in pending[..|pending| - 1] :: x in after)
             && (forall x | x in Successors(rows[address]) :: x in after)
             && (forall x | x in after :: x in pending[..|pending| - 1] || x in Successors(rows[address]))
    ensures Frontier(rows, start, after, reachable + {pending[|pending| - 1]})
  {
    var address := pending[|pending| - 1];
    forall x | x in after ensures Reaches(Edges(rows), start, x) {
      if x in Successors(rows[address]) {
        ReachesStep(Edges(rows), start, address, x);
      }
    }
    assert forall x | x in pending :: x in after || x == address;
  }

  lemma FrontierSkip(rows: map<int, Row>, start: int, pending: seq<int>, reachable: set<int>)
    requires Frontier(rows, start, pending, reachable) && pending != [] && pending[|pending| - 1] in reachable
    ensures Frontier(rows, start, pending[..|pending| - 1], reachable)
  {
    assert forall x | x in pending :: x in pending[..|pending| - 1] || x in reachable;
  }

  /** The worklist: the visited set and the number of visited returns. */
  method Explore(rows: map<int, Row>, start: int) returns (r: Result<(set<int>, nat), Reason>)
    requires forall address | address in rows :: rows[address].rva == address
    ensures r.Ok? <==> StaysOnRows(rows, start)
    ensures r.Ok? ==> r.value.0 == ReachableRows(rows, start) && r.value.1 == |ReachableReturns(rows, start)|
    ensures r.Refused? ==> r.reason == FallthroughOutsideFunction
  {
    hide Frontier, Successors, StaysOnRows, ReachableRows;
    var pending, reachable, returnCount := [start], {}, 0;
    FrontierStart(rows, start);
    ghost var returned: set<int> := {};
    while pending != []
      invariant Frontier(rows, start, pending, reachable) && reachable <= rows.Keys
      invariant returned == set address | address in reachable && rows[address].kind.Return?
      invariant returnCount == |returned|
      decreases rows.Keys - reachable, |pending|
    {
      var address := pending[|pending| - 1];
      ghost var before := pending;
      pending := pending[..|pending| - 1];
      if address in reachable {
        FrontierSkip(rows, start, before, reachable);
        continue;
      }
      if address !in rows {
        FrontierOutside(rows, start, before, reachable);
        return Refused(FallthroughOutsideFunction);
      }
      var row := rows[address];
      if row.kind.Return? {
        returnCount := returnCount + 1;
        returned := returned + {address};
      } else {
        if row.target.Some? {
          pending := pending + [row.target.value];
        }
        if !row.kind.Jump? {
          pending := pending + [address + row.size];
        }
      }
      assert pending == before[..|before| - 1] + SuccessorList(row);
      SuccessorListElements(row);
      FrontierStep(rows, start, before, reachable, pending);
      reachable := reachable + {address};
    }
    FrontierEmpty(rows, start, reachable);
    assert returned == ReachableReturns(rows, start);
    r := Ok((reachable, returnCount));
  }

  /** The reachable rows are the least set that holds the start and every successor of its members. */
  lemma ReachableIsLeastClosed(rows: map<int, Row>, start: int, s: set<int>)
    requires StaysOnRows(rows, start)
    ensures start in ReachableRows(rows, start) && Closed(Edges(rows), ReachableRows(rows, start))
    ensures start in s && Closed(Edges(rows), s) ==> ReachableRows(rows, start) <= s
  {
    hide Edges;
    ReachesSelf(Edges(rows), start);
    forall address, next | address in ReachableRows(rows, start) && next in Edges(rows)(address)
      ensures next in ReachableRows(rows, start)
    {
      ReachesStep(Edges(rows), start, address, next);
    }
    if start in s && Closed(Edges(rows), s) {
      ReachableInClosed(Edges(rows), s, start);
    }
  }
}
