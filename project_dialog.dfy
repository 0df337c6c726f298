/**
 * The project form dialog: name and description states, reset or
 * prefilled whenever the dialog opens, and the same loading/close
 * sequence around the page's callback as the task dialog.
 */
module ProjectDialog {
  import opened Domain

  datatype Fields = Fields(name: string, description: string)

  const Blank: Fields := Fields("", "")

  /** What the open effect puts in the fields: the project's values (null description as ""), or blanks. */
  function Prefill(initialData: Option<Project>): (f: Fields)
    ensures initialData.None? ==> f == Blank
    ensures initialData.Some? ==>
              f.name == initialData.value.name &&
              f.description == EmptyIfNull(initialData.value.description)
  {
    match initialData
    case None => Blank
    case Some(p) => Fields(p.name, EmptyIfNull(p.description))
  }

  /** `{ name, description }`: both fields exactly as held, nothing normalised here. */
  function Payload(f: Fields): (p: ProjectForm)
    ensures p.name == f.name && p.description == f.description
  {
    ProjectForm(f.name, f.description)
  }

  /** Prefill followed by an unedited submit gives back the name, and the description with null shown as "". */
  lemma PrefillThenSubmit(p: Project)
    ensures Payload(Prefill(Some(p))) == ProjectForm(p.name, EmptyIfNull(p.description))
  {
  }

  class Dialog {
    var isLoading: bool
    var name: string
    var description: string

    function FieldValues(): Fields
      reads this
    {
      Fields(name, description)
    }

    constructor ()
      ensures !isLoading && FieldValues() == Blank
    {
      isLoading := false;
      name, description := "", "";
    }

    /** The effect on `open`/`initialData`: an open dialog is prefilled or reset; a closed one is left alone. */
    method OpenEffect(open: bool, initialData: Option<Project>)
      modifies this
      ensures open ==> FieldValues() == Prefill(initialData)
      ensures !open ==> FieldValues() == old(FieldValues())
      ensures isLoading == old(isLoading)
    {
      if open && initialData.Some? {
        name := initialData.value.name;
        description := EmptyIfNull(initialData.value.description);
      } else if open {
        name := "";
        description := "";
      }
    }

    /** Typing in the name input (disabled while loading). */
    method SetName(value: string)
      requires !isLoading
      modifies this`name
      ensures FieldValues() == old(FieldValues()).(name := value)
    {
      name := value;
    }

    /** Typing in the description textarea (disabled while loading). */
    method SetDescription(value: string)
      requires !isLoading
      modifies this`description
      ensures FieldValues() == old(FieldValues()).(description := value)
    {
      description := value;
    }

    /** `handleSubmit` up to the awaited callback: requires the enabled button and the required name. */
    method BeginSubmit() returns (payload: ProjectForm)
      requires !isLoading && name != ""
      modifies this`isLoading
      ensures isLoading
      ensures payload == Payload(FieldValues())
      ensures payload.name != ""
    {
      isLoading := true;
      payload := Payload(FieldValues());
    }

    /** `handleSubmit` after the callback settles: clear loading and ask to close, unless it rejected. */
    method FinishSubmit(rejected: bool) returns (closeRequested: bool)
      requires isLoading
      modifies this`isLoading
      ensures closeRequested <==> !rejected
      ensures isLoading <==> rejected
      ensures FieldValues() == old(FieldValues())
    {
      closeRequested := false;
      if !rejected {
        isLoading := false;
        closeRequested := true;
      }
    }
  }
}
