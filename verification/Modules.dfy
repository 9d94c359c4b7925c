/** The output-module families and what is common to every part that handles them. */
module Modules {

  datatype ModuleType = SwitchModule | RollerModule | DimmerModule | OtherModule

  /** Link modes a record of the family may name (`SWITCH_MODE_MAPPING` and its siblings). */
  predicate KnownMode(t: ModuleType, mode: nat) {
    match t
    case SwitchModule => mode <= 12
    case RollerModule => mode <= 6
    case DimmerModule => mode <= 11
    case OtherModule => false
  }
}
