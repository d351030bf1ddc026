/** The binary semaphores of the kernel, defined with a limit of one. */
module Kernel {
  /** Giving saturates at the limit. */
  function Give(count: nat): nat {
    if count < 1 then count + 1 else count
  }
}
