/** Shared by the modules that model a step which departs from its evident intent. */
module Common {

  datatype Option<+T> = None | Some(value: T)

  /** `AsWritten` is the code at this commit. `Repaired` is the same step with the one departure
      documented beside it put right; the two are compared, never mixed. */
  datatype Variant = AsWritten | Repaired
}
