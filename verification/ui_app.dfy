/**
  The plugin's UI: it asks for the variables when mounted, keeps the list it
  receives, and lets the user edit one description at a time, sending each
  save to the main code.
 */
module UiApp {
  import opened Options
  import opened Protocol

  class App {
    var variables: seq<DisplayRecord>
    var loading: bool
    /** the id of the variable whose description is being edited, if any */
    var editingId: Option<string>
    /** the text in the description editor */
    var editingValue: string
    var isDebugMode: bool
    /** every message posted to the main code, oldest first */
    var outbox: seq<UiMessage>

    /** Mounting: the initial state, and one request for the variables. */
    constructor ()
      ensures variables == [] && loading && editingId == None && editingValue == "" && !isDebugMode
      ensures outbox == [LoadVariables]
    {
      variables := [];
      loading := true;
      editingId := None;
      editingValue := "";
      isDebugMode := false;
      outbox := [LoadVariables];
    }

    /**
      A window message, with its `pluginMessage` if it has one. Loaded
      variables replace the list and end loading; a success closes the editor
      and asks for the variables again, leaving the list as it is until they
      arrive; an error ends loading and keeps the list; anything else changes
      nothing.
     */
    method OnWindowMessage(pluginMessage: Option<PluginMessage>)
      modifies this`variables, this`loading, this`editingId, this`isDebugMode, this`outbox
      ensures editingValue == old(editingValue)
      ensures pluginMessage.None? ==>
        && variables == old(variables) && loading == old(loading) && editingId == old(editingId)
        && isDebugMode == old(isDebugMode) && outbox == old(outbox)
      ensures pluginMessage.Some? && pluginMessage.value.VariablesLoaded? ==>
        && variables == pluginMessage.value.variables
        && isDebugMode == pluginMessage.value.isDebugMode.GetOr(false)
        && !loading && editingId == old(editingId) && outbox == old(outbox)
      ensures pluginMessage.Some? && pluginMessage.value.UpdateSuccess? ==>
        && editingId == None && outbox == old(outbox) + [LoadVariables]
        && variables == old(variables) && loading == old(loading) && isDebugMode == old(isDebugMode)
      ensures pluginMessage.Some? && pluginMessage.value.Error? ==>
        && !loading
        && variables == old(variables) && editingId == old(editingId)
        && isDebugMode == old(isDebugMode) && outbox == old(outbox)
      ensures pluginMessage.Some? && pluginMessage.value.OtherPluginMessage? ==>
        && variables == old(variables) && loading == old(loading) && editingId == old(editingId)
        && isDebugMode == old(isDebugMode) && outbox == old(outbox)
    {
      if pluginMessage.None? {
        return;
      }
      match pluginMessage.value {
        case VariablesLoaded(vs, debug) =>
          variables := vs;
          isDebugMode := debug.GetOr(false);
          loading := false;
        case UpdateSuccess(_, _) =>
          editingId := None;
          outbox := outbox + [LoadVariables];
        case Error(_) =>
          loading := false;
        case OtherPluginMessage(_) =>
      }
    }

    /** Opens the editor on `v`, starting from its description. */
    method HandleEdit(v: DisplayRecord)
      modifies this`editingId, this`editingValue
      ensures editingId == Some(v.id) && editingValue == v.description
    {
      editingId := Some(v.id);
      editingValue := v.description;
    }

    /** Typing in the editor changes only its text. */
    method EditText(text: string)
      modifies this`editingValue
      ensures editingValue == text
    {
      editingValue := text;
    }

    /** Saving posts exactly one update carrying the editor's text, and changes no state. */
    method HandleSave(variableId: string)
      modifies this`outbox
      ensures outbox == old(outbox) + [UpdateDescription(variableId, editingValue)]
    {
      outbox := outbox + [UpdateDescription(variableId, editingValue)];
    }

    /** Cancelling closes the editor and clears its text. */
    method HandleCancel()
      modifies this`editingId, this`editingValue
      ensures editingId == None && editingValue == ""
    {
      editingId := None;
      editingValue := "";
    }
  }
}
