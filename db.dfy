/**
 * The task store of one lane: a task is a text with a position marker, a
 * column is a title and the tasks in insertion order. Adding a task is the
 * only change the program ever makes to task data.
 */
module Db {

  datatype Task = Task(text: string, position: nat)

  /** The value of a column: its title and its tasks. */
  datatype Lane = Lane(title: string, tasks: seq<Task>)

  /**
   * The lane after add_task: one more task, the new one last with the given
   * text and position 0, every earlier task and the title as they were.
   */
  function WithTask(lane: Lane, text: string): (r: Lane)
    ensures |r.tasks| == |lane.tasks| + 1
    ensures r.tasks[|lane.tasks|] == Task(text, 0)
    ensures r.tasks[..|lane.tasks|] == lane.tasks
    ensures r.title == lane.title
  {
    Lane(lane.title, lane.tasks + [Task(text, 0)])
  }

  class Column {
    const title: string
    var tasks: seq<Task>

    constructor (title: string, tasks: seq<Task>)
      ensures Value() == Lane(title, tasks)
    {
      this.title := title;
      this.tasks := tasks;
    }

    function Value(): Lane
      reads this
    {
      Lane(title, tasks)
    }

    /** add_task: pushes a new task with position 0 onto the task list. */
    method AddTask(text: string)
      modifies this
      ensures Value() == WithTask(old(Value()), text)
    {
      var task := Task(text, 0);
      tasks := tasks + [task];
    }
  }
}
