/** The `Task` record shared by the task screen and the task dialog. */
module Tasks {
  import opened Kotlin

  /** `data class Task`: equality is structural, `copy` is the `.(f := v)` update. */
  datatype Task = Task(
    id: Int32,
    userId: Int32,
    title: string,
    description: string,
    isCompleted: bool,
    priority: string,
    dueDate: Option<Int64>,
    createdAt: Int64)

  /** What the dialog hands to `onSave`: title, description, priority, due date. */
  datatype TaskDraft = TaskDraft(title: string, description: string, priority: string, dueDate: Option<Int64>)
}
