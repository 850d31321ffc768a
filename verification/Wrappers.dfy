/** What the models share: option and result types, and one termination measure. */
module Wrappers {

  datatype Option<+T> = None | Some(value: T)

  datatype Result<+T, +E> = Ok(value: T) | Err(error: E)

  /** What is left to visit shrinks with each new visit. */
  lemma BudgetDrops<T>(all: set<T>, busy: set<T>, x: T)
    requires x in all && x !in busy
    ensures |all - (busy + {x})| < |all - busy|
  {
    assert all - (busy + {x}) == (all - busy) - {x};
  }
}
