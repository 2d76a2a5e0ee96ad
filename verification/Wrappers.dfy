/** What every part of the model shares. */
module Wrappers {

  datatype Option<+T> = None | Some(value: T)

  lemma Times(a: nat, b: nat, k: nat)
    requires a <= b
    ensures a * k <= b * k
  {
    assert b * k == a * k + (b - a) * k;
  }
}
