/**
 * The dashboard's component state and the handlers that change it after
 * each task request. A request is given as its abstract outcome; on failure
 * a handler only logs, so nothing changes.
 */
module Dashboard {
  import opened Wrappers
  import opened TaskTypes
  import opened TaskLists
  import opened AuthTypes

  /** The empty add-task form. */
  function EmptyDraft(): (d: Draft)
    ensures d.title == "" && d.description == "" && d.status == Pending
  {
    Draft("", "", Pending)
  }

  /** The dashboard component's state. */
  class DashboardPage {
    var tasks: seq<Task>
    var isLoading: bool
    var showAddModal: bool
    var showEditModal: bool
    var currentTask: Option<Task>
    var newTask: Draft

    constructor()
      ensures tasks == [] && !isLoading && !showAddModal && !showEditModal
      ensures currentTask.None? && newTask == EmptyDraft()
    {
      tasks := [];
      isLoading := false;
      showAddModal := false;
      showEditModal := false;
      currentTask := None;
      newTask := EmptyDraft();
    }

    /** `loadTasks`: the list is replaced on success, kept on failure; loading ends either way. */
    method LoadTasks(response: Result<seq<Task>, string>)
      modifies this
      ensures tasks == (if response.Success? then response.value else old(tasks))
      ensures !isLoading
      ensures showAddModal == old(showAddModal) && showEditModal == old(showEditModal)
      ensures currentTask == old(currentTask) && newTask == old(newTask)
    {
      isLoading := true;
      match response {
        case Success(userTasks) =>
          tasks := userTasks;
        case Failure(_) =>
      }
      isLoading := false;
    }

    /** `handleAddTask`: `response` is the answer to creating `newTask`. */
    method HandleAddTask(user: Option<User>, response: Result<Task, string>)
      modifies this
      ensures user.Some? && response.Success? ==>
        && tasks == [response.value] + old(tasks)
        && newTask == EmptyDraft()
        && !showAddModal
      ensures user.None? || response.Failure? ==>
        tasks == old(tasks) && newTask == old(newTask) && showAddModal == old(showAddModal)
      ensures isLoading == old(isLoading) && showEditModal == old(showEditModal)
      ensures currentTask == old(currentTask)
    {
      if user.None? {
        return;
      }
      match response {
        case Success(task) =>
          tasks := [task] + tasks;
          newTask := EmptyDraft();
          showAddModal := false;
        case Failure(_) =>
      }
    }

    /** `handleEditTask`. */
    method HandleEditTask(task: Task)
      modifies this
      ensures currentTask == Some(task) && showEditModal
      ensures tasks == old(tasks) && isLoading == old(isLoading)
      ensures showAddModal == old(showAddModal) && newTask == old(newTask)
    {
      currentTask := Some(task);
      showEditModal := true;
    }

    /** `handleUpdateTask`: `response` is the answer to updating `currentTask`. */
    method HandleUpdateTask(user: Option<User>, response: Result<Task, string>)
      modifies this
      ensures old(currentTask).Some? && user.Some? && response.Success? ==>
        && tasks == ReplaceById(old(tasks), old(currentTask).value.id, response.value)
        && !showEditModal
        && currentTask.None?
      ensures old(currentTask).None? || user.None? || response.Failure? ==>
        tasks == old(tasks) && showEditModal == old(showEditModal) && currentTask == old(currentTask)
      ensures isLoading == old(isLoading) && showAddModal == old(showAddModal)
      ensures newTask == old(newTask)
    {
      if currentTask.None? || user.None? {
        return;
      }
      match response {
        case Success(updatedTask) =>
          tasks := ReplaceById(tasks, currentTask.value.id, updatedTask);
          showEditModal := false;
          currentTask := None;
        case Failure(_) =>
      }
    }

    /** `handleDeleteTask`: `response` is the answer to deleting `taskId`. */
    method HandleDeleteTask(user: Option<User>, taskId: string, response: Result<(), string>)
      modifies this
      ensures user.Some? && response.Success? ==> tasks == WithoutId(old(tasks), taskId)
      ensures user.None? || response.Failure? ==> tasks == old(tasks)
      ensures isLoading == old(isLoading) && showAddModal == old(showAddModal)
      ensures showEditModal == old(showEditModal)
      ensures currentTask == old(currentTask) && newTask == old(newTask)
    {
      if user.None? {
        return;
      }
      match response {
        case Success(_) =>
          tasks := WithoutId(tasks, taskId);
        case Failure(_) =>
      }
    }
  }
}
