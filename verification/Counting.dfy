/** Truth values as numbers. */
module Counting {

  function One(b: bool): nat {
    if b then 1 else 0
  }
}
