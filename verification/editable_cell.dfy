/**
  The inline description editor: a text field that keeps a local draft,
  reports the draft to its owner when it loses focus, and follows changes of
  the value it is given while it is not being edited.
 */
module EditableCells {

  /** One call of the owner's `onUpdate(variableId, value)` callback. */
  datatype Update = Update(variableId: string, value: string)

  datatype Key = Enter | Escape | OtherKey

  class EditableCell {
    /** the `value` prop: the description the owner currently holds */
    var value: string
    /** the `variableId` prop */
    const variableId: string
    /** the text shown in the field */
    var editValue: string
    /** whether the field has focus */
    var isEditing: bool
    /** the value this cell last reported, or last took over from the prop */
    var lastSavedValue: string
    /** every call of `onUpdate`, oldest first */
    var updates: seq<Update>

    /**
      The state after every event: the synchronising effect has nothing left
      to do, i.e. its guard `!isEditing && value != lastSavedValue` is false.
     */
    ghost predicate Settled()
      reads this
    {
      !isEditing ==> lastSavedValue == value
    }

    constructor (value: string, variableId: string)
      ensures this.value == value && this.variableId == variableId
      ensures editValue == value && lastSavedValue == value && !isEditing
      ensures updates == []
      ensures Settled()
    {
      this.value := value;
      this.variableId := variableId;
      editValue := value;
      isEditing := false;
      lastSavedValue := value;
      updates := [];
    }

    /**
      The effect that runs after each render in which `value`, `isEditing` or
      `lastSavedValue` changed: when not editing and the prop differs from the
      last saved value, the prop replaces both the draft and the saved value.
      Once settled, running it again changes nothing.
     */
    method SyncFromProps()
      modifies this`editValue, this`lastSavedValue
      ensures Settled()
      ensures old(isEditing) || value == old(lastSavedValue) ==>
        editValue == old(editValue) && lastSavedValue == old(lastSavedValue)
      ensures !old(isEditing) && value != old(lastSavedValue) ==>
        editValue == value && lastSavedValue == value
    {
      if !isEditing && value != lastSavedValue {
        editValue := value;
        lastSavedValue := value;
      }
    }

    /**
      The owner renders the cell with a new `value`. While the field has focus
      the draft is never touched; otherwise a value other than the last saved
      one becomes both the draft and the saved value.
     */
    method ReceiveValue(newValue: string)
      requires Settled()
      modifies this`value, this`editValue, this`lastSavedValue
      ensures Settled() && value == newValue
      ensures old(isEditing) ==> editValue == old(editValue) && lastSavedValue == old(lastSavedValue)
      ensures !old(isEditing) && newValue != old(lastSavedValue) ==>
        editValue == newValue && lastSavedValue == newValue
      ensures !old(isEditing) && newValue == old(lastSavedValue) ==>
        editValue == old(editValue) && lastSavedValue == old(lastSavedValue)
    {
      value := newValue;
      SyncFromProps();
    }

    /** A keystroke in the field: only the draft changes, and nothing is reported. */
    method Change(text: string)
      modifies this`editValue
      ensures editValue == text
    {
      editValue := text;
    }

    /**
      The field gains focus: only the editing flag changes (the effect that
      follows has nothing to do while the field is being edited).
     */
    method Focus()
      modifies this`isEditing
      ensures isEditing && Settled()
    {
      isEditing := true;
    }

    /**
      The blur handler, reading `draft`, the text of the render it belongs to:
      it clears the editing flag and, exactly when that text differs from the
      current prop, reports it once and records it as the saved value.
     */
    method HandleBlur(draft: string)
      modifies this`isEditing, this`updates, this`lastSavedValue
      ensures !isEditing
      ensures draft != value ==>
        updates == old(updates) + [Update(variableId, draft)] && lastSavedValue == draft
      ensures draft == value ==>
        updates == old(updates) && lastSavedValue == old(lastSavedValue)
    {
      isEditing := false;
      if draft != value {
        updates := updates + [Update(variableId, draft)];
        lastSavedValue := draft;
      }
    }

    /**
      The field loses focus: the blur handler runs on the current draft, then
      the effect. A draft other than the prop is reported once; afterwards the
      field shows the prop until the owner passes a new one.
     */
    method Blur()
      modifies this`isEditing, this`updates, this`editValue, this`lastSavedValue
      ensures !isEditing && Settled()
      ensures old(editValue) != value ==> updates == old(updates) + [Update(variableId, old(editValue))]
      ensures old(editValue) == value ==> updates == old(updates)
      ensures editValue == value && lastSavedValue == value
    {
      HandleBlur(editValue);
      SyncFromProps();
    }

    /**
      A key press. Enter blurs the field. Escape queues the prop as the draft,
      clears the editing flag and blurs; the blur handler still sees the draft
      of the last render, so a draft other than the prop is reported here too.
      Any other key changes nothing.
     */
    method KeyDown(key: Key)
      requires Settled()
      modifies this`isEditing, this`updates, this`editValue, this`lastSavedValue
      ensures Settled()
      ensures key == OtherKey ==>
        && isEditing == old(isEditing) && updates == old(updates)
        && editValue == old(editValue) && lastSavedValue == old(lastSavedValue)
      ensures key != OtherKey ==> !isEditing && editValue == value && lastSavedValue == value
      ensures key != OtherKey && old(editValue) != value ==>
        updates == old(updates) + [Update(variableId, old(editValue))]
      ensures key != OtherKey && old(editValue) == value ==> updates == old(updates)
    {
      match key {
        case Enter =>
          HandleBlur(editValue);
        case Escape =>
          var rendered := editValue;
          editValue := value;
          isEditing := false;
          HandleBlur(rendered);
        case OtherKey =>
      }
      SyncFromProps();
    }
  }
}
