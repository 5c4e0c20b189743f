/** The stages of a performance campaign, their schedules and their time budgets. */
module Stages {

  datatype Stage = Smoke | Calibration | Control | Comparison

  /** The number of attempts of a stage. */
  function Slots(stage: Stage): nat {
    match stage
    case Smoke => 1
    case Calibration => 6
    case Control => 12
    case Comparison => 12
  }

  /** `TOTAL_SECONDS`. */
  function TotalSeconds(stage: Stage): nat {
    match stage
    case Smoke => 900
    case Calibration => 900
    case Control => 1680
    case Comparison => 1680
  }

  datatype Role = Baseline | Repeat | Candidate

  datatype Slot = Slot(id: nat, role: Role, pair: nat, position: nat, process: nat)

  /** The second role of a paired stage. */
  function OtherRole(stage: Stage): Role {
    if stage.Control? then Repeat else Candidate
  }

  /** Slot `i` of a balanced schedule: the two roles swap places from pair to pair. */
  function PairedSlot(stage: Stage, i: nat): Slot {
    Slot(i, if i % 2 == i / 2 % 2 then Baseline else OtherRole(stage), i / 2, i % 2, i / 2)
  }

  function SlotAt(stage: Stage, smokeRole: Role, i: nat): Slot {
    if stage.Smoke? || stage.Calibration?
    then Slot(i, if stage.Smoke? then smokeRole else Baseline, i / 2, i % 2, i)
    else PairedSlot(stage, i)
  }

  /** `schedule`: single roles in order, or pairs with alternating order. */
  method Schedule(stage: Stage, smokeRole: Role) returns (rows: seq<Slot>)
    ensures |rows| == Slots(stage)
    ensures forall i | 0 <= i < |rows| :: rows[i] == SlotAt(stage, smokeRole, i)
  {
    rows := [];
    if stage.Smoke? || stage.Calibration? {
      var role := if stage.Smoke? then smokeRole else Baseline;
      for index := 0 to Slots(stage)
        invariant |rows| == index && forall i | 0 <= i < index :: rows[i] == SlotAt(stage, smokeRole, i)
      {
        rows := rows + [Slot(index, role, index / 2, index % 2, index)];
      }
      return;
    }
    for pair := 0 to 6
      invariant |rows| == 2 * pair && forall i | 0 <= i < 2 * pair :: rows[i] == SlotAt(stage, smokeRole, i)
    {
      var roles := if pair % 2 == 0 then [Baseline, OtherRole(stage)] else [OtherRole(stage), Baseline];
      for position := 0 to 2
        invariant |rows| == 2 * pair + position
        invariant forall i | 0 <= i < 2 * pair + position :: rows[i] == SlotAt(stage, smokeRole, i)
      {
        rows := rows + [Slot(|rows|, roles[position], pair, position, pair)];
      }
    }
  }

  /** In a balanced schedule each pair runs both roles, in alternating order. */
  lemma Balanced(stage: Stage, pair: nat)
    requires pair < 6 && (stage.Control? || stage.Comparison?)
    ensures var first, second := PairedSlot(stage, 2 * pair), PairedSlot(stage, 2 * pair + 1);
            && {first.role, second.role} == {Baseline, OtherRole(stage)} && first.role != second.role
            && first.pair == second.pair == pair && first.position == 0 && second.position == 1
            && (first.role == Baseline <==> pair % 2 == 0)
  {
  }
}
