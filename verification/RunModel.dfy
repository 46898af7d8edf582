/** Names and states shared by the scheduler, the executor and the run life cycle. */
module RunModel {
  datatype RunId = RunId(text: string)

  /** A step's id, which also names its rows. */
  datatype Name = Name(text: string)

  datatype RunStatus = Queued | Running | Suspended | Completed | Failed
}
