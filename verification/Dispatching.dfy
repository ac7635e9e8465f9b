/** Post-dispatch behaviour, from crates/hotki-engine/src/lib.rs. */
module Dispatching {

  datatype DispatchResult = AutoExit | Stay | Navigation | EnteredMode | SelectorOpened
  {
    function Priority(): nat {
      match this
      case AutoExit => 0
      case Stay => 1
      case Navigation => 2
      case EnteredMode => 3
      case SelectorOpened => 4
    }

    predicate ShouldAutoExit() {
      AutoExit?
    }

    function WithStay(stay: bool): DispatchResult {
      if stay && ShouldAutoExit() then Stay else this
    }

    function Combine(other: DispatchResult): DispatchResult {
      if other.Priority() > Priority() then other else this
    }
  }
}
