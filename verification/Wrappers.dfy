/** What a value or a service call may lack. */
module Wrappers {
  datatype Option<+T> = None | Some(value: T)

  /** A service error carries its HTTP status and code. */
  datatype Result<+T> = Ok(value: T) | Err(status: nat, code: string)
}

/** What the size of a set says. */
module Sets {
  lemma Subset<T>(a: set<T>, b: set<T>)
    requires a <= b
    ensures |a| <= |b| && (|a| == |b| ==> a == b)
  {
    assert a + (b - a) == b;
  }
}
