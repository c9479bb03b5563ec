/** The coherence states of a cache block. */
module BlockStates {

  datatype BlockState = Invalid | Noncoherent | Modified | Owned | Exclusive | Shared
}
