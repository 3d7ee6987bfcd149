/** The two axes of a worker's health. */
module Health {
  /** Down is asserted by an operator; the other two are observed. */
  datatype Reachable = Unresponsive | Down | Ok
  datatype Load = Unknown | Overloaded | LoadOk
}
