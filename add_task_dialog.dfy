/**
 * The add-task dialog (src/components/AddTaskDialog.tsx): a text field whose
 * content is forwarded, trimmed, only when it is not blank.
 */
module TaskDialog {
  import opened Wrappers
  import opened JsString

  class AddTaskDialog {
    /** The `open` prop; the dialog changes it through `onOpenChange`. */
    var open: bool
    /** The `taskContent` state of the text field. */
    var taskContent: string

    constructor (open: bool)
      ensures this.open == open && taskContent == ""
    {
      this.open := open;
      taskContent := "";
    }

    /** The field's `onChange`: the state takes the entered value. */
    method HandleInputChange(value: string)
      modifies this`taskContent
      ensures taskContent == value
    {
      taskContent := value;
    }

    /** The dialog's own `onOpenChange` (opened by the page, closed by the dialog chrome). */
    method HandleOpenChange(open: bool)
      modifies this`open
      ensures this.open == open
    {
      this.open := open;
    }

    /** The Cancel button: the dialog closes; the text typed so far is kept. */
    method HandleCancel()
      modifies this`open
      ensures !open
    {
      open := false;
    }

    /**
     * The Add Task button. Blank input (empty after trimming) changes nothing
     * and forwards nothing; otherwise the trimmed text is returned as the one
     * argument `onAddTask` is called with, the field is cleared and the
     * dialog closes. Whatever is forwarded is non-empty and trimmed.
     */
    method HandleSubmit() returns (added: Option<string>)
      modifies this
      ensures Trim(old(taskContent)) == [] ==>
                added == None && taskContent == old(taskContent) && open == old(open)
      ensures Trim(old(taskContent)) != [] ==>
                added == Some(Trim(old(taskContent))) && taskContent == "" && !open
      ensures added.Some? ==> added.value != [] && IsTrimmed(added.value)
    {
      var trimmed := Trim(taskContent);
      if trimmed != [] {
        var lo, hi := TrimIsCleanSlice(taskContent);
        added := Some(trimmed);
        taskContent := "";
        open := false;
      } else {
        added := None;
      }
    }
  }
}
