/** `tau_leaping` is a placeholder in the repository: it takes a model and a
    horizon, computes nothing, and returns no trajectory. */
module Leaping {
  import opened Network
  import opened Driver

  datatype Option<T> = None | Some(value: T)

  /** Returns no trajectory and leaves the model as it was. */
  method TauLeaping(model: Model, T: real) returns (r: Option<Trajectory>)
    ensures r.None?
  {
    r := None;
  }
}
