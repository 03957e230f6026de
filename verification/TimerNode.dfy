// The timers of moudles/server/dm_timer.c.
module TimerNode {
  class Timer {
    var expire: int
    var callback: nat
    var next: Timer?

    constructor () {
      expire, callback, next := 0, 0, null;
    }
  }

  // A timer in the list, with the deadline it carries.
  datatype Entry = Entry(timer: Timer, expire: int)
}
