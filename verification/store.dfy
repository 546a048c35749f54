/**
 * The relational store the engine and the controllers read and write: one
 * table per entity, each a sequence in insertion order. Every transition of
 * the model is a method that updates these fields in place.
 */
module Stores {
  import opened Entities

  class Store {
    var tasks: seq<Task>
    var taskNodes: seq<TaskNode>
    var taskApprovers: seq<TaskApprover>
    var users: seq<User>
    var departments: seq<Department>
    var approvalTemplates: seq<Template>

    /** The current contents of every table, as a value. */
    function Snapshot(): Db
      reads this
    {
      Db(tasks, taskNodes, taskApprovers, users, departments, approvalTemplates)
    }

    constructor (db: Db)
      ensures Snapshot() == db
    {
      tasks := db.tasks;
      taskNodes := db.taskNodes;
      taskApprovers := db.taskApprovers;
      users := db.users;
      departments := db.departments;
      approvalTemplates := db.approvalTemplates;
    }
  }
}
