// The tasks of moudles/server/dm_threading_pool.c.
module PoolTask {
  // num1 is a pointer, of which only NULL (0) is ever inspected.
  datatype Task = Task(num1: nat, num2: int, readOrWrite: int)

  // The task that tells a worker to stop.
  predicate IsPill(task: Task) {
    task.num1 == 0 && task.num2 == -1
  }
}
