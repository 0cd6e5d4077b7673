/** The six defect classes, in declaration order. */
module Defects {
  import opened Wrappers

  datatype DefectType = MissingHole | MouseBite | OpenCircuit | Short | Spur | SpuriousCopper

  const CLASS_NAMES: seq<string> := ["missing_hole", "mouse_bite", "open_circuit", "short", "spur", "spurious_copper"]

  function Index(t: DefectType): (i: nat)
    ensures i < |CLASS_NAMES|
  {
    match t
    case MissingHole => 0
    case MouseBite => 1
    case OpenCircuit => 2
    case Short => 3
    case Spur => 4
    case SpuriousCopper => 5
  }

  function Name(t: DefectType): string { CLASS_NAMES[Index(t)] }

  /** The class with a name, if it is one of the six. */
  function ClassOf(name: string): (t: Option<DefectType>)
    ensures t.Some? <==> name in CLASS_NAMES
    ensures t.Some? ==> Name(t.value) == name
  {
    if name == "missing_hole" then Some(MissingHole)
    else if name == "mouse_bite" then Some(MouseBite)
    else if name == "open_circuit" then Some(OpenCircuit)
    else if name == "short" then Some(Short)
    else if name == "spur" then Some(Spur)
    else if name == "spurious_copper" then Some(SpuriousCopper)
    else None
  }

  function At(m: map<DefectType, nat>, t: DefectType): nat { if t in m then m[t] else 0 }

  /** Sum of a dictionary's values; its keys can only be the six classes. */
  function SumValues(m: map<DefectType, nat>): nat {
    At(m, MissingHole) + At(m, MouseBite) + At(m, OpenCircuit) + At(m, Short) + At(m, Spur) + At(m, SpuriousCopper)
  }
}
