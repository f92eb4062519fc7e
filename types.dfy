/**
 * The board's records (src/types/index.ts). A lane's `color` and `textColor`
 * fields only drive rendering and are not part of the model.
 */
module Types {

  /** A task: an opaque identifier and its free text. */
  datatype Task = Task(id: string, content: string)

  /** A swimlane: a stable identifier, a display title and its tasks in order. */
  datatype Lane = Lane(id: string, title: string, tasks: seq<Task>)

  /** The whole roadmap: its lanes in display order. */
  type Board = seq<Lane>
}
