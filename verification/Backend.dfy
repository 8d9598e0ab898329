/** The backend a balancer chooses from (internal/balancer/backend.go). */
module Backend {

  datatype Option<+T> = None | Some(value: T)

  /**
    An upstream server. The three flags are written by the health checker, the admin API
    and the circuit breaker, independently of the balancer that reads them.
   */
  class Server {
    const address: string
    const weight: int
    var healthy: bool
    var draining: bool
    var circuitOpen: bool

    constructor (address: string, weight: int)
      ensures this.address == address && this.weight == weight
      ensures healthy && !draining && !circuitOpen
    {
      this.address, this.weight := address, weight;
      healthy, draining, circuitOpen := true, false, false;
    }

    /** A server is offered new traffic only when all three flags permit it. */
    predicate Selectable()
      reads this
    {
      healthy && !draining && !circuitOpen
    }
  }
}
