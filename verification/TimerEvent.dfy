// The events of moudles/test/timer/timer.c.
module TimerEvent {
  // The callback is opaque: firing an event is recorded, and does not call back into the scheduler.
  datatype Event = Event(timeout: int, callback: nat)

  ghost predicate Ascending(q: seq<Event>) {
    forall i, j :: 0 <= i < j < |q| ==> q[i].timeout <= q[j].timeout
  }
}
