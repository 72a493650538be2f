/**
  The records and messages exchanged between the plugin's main code (which owns
  the document's variables) and its UI (which renders them).
 */
module Protocol {
  import opened Options

  /** One variable as shown in the UI. Sample rows carry no collection name. */
  datatype DisplayRecord = DisplayRecord(
    id: string,
    name: string,
    description: string,
    resolvedType: string,
    collectionId: string,
    collectionName: Option<string>)

  /** Messages posted by the main code to the UI. */
  datatype PluginMessage =
    | VariablesLoaded(variables: seq<DisplayRecord>, isDebugMode: Option<bool>)
    | UpdateSuccess(variableId: string, description: Option<string>)
    | Error(message: string)
    /** any message whose `type` is none of the above */
    | OtherPluginMessage(kind: string)

  /** Messages posted by the UI to the main code. */
  datatype UiMessage =
    | LoadVariables
    | UpdateDescription(variableId: string, description: string)
    | ClosePlugin
    /** any message whose `type` is none of the above */
    | OtherUiMessage(kind: string)
}
