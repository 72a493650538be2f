/**
  The plugin's main code: it reads the document's local variables and
  collections, turns them into display records for the UI, and writes edited
  descriptions back into the document.
 */
module Host {
  import opened Options
  import opened Protocol

  /** The closed set of types a variable's value resolves to. */
  datatype ResolvedType = Boolean | Color | Float | String

  function TypeName(t: ResolvedType): string {
    match t
    case Boolean => "BOOLEAN"
    case Color => "COLOR"
    case Float => "FLOAT"
    case String => "STRING"
  }

  /** A variable as the host document stores it. */
  datatype Variable = Variable(
    id: string,
    name: string,
    description: Option<string>,
    resolvedType: ResolvedType,
    variableCollectionId: string)

  datatype Collection = Collection(id: string, name: string)

  /** Ids that mark the built-in sample rows; updates to them skip the store. */
  const SamplePrefix: string := "sample-"
  const UnknownCollectionName: string := "Unknown"
  const LoadFailedMessage: string := "Failed to load variables"
  const UpdateFailedMessage: string := "Failed to update description"

  predicate StartsWith(s: string, prefix: string) {
    |prefix| <= |s| && s[..|prefix|] == prefix
  }

  // ---------------------------------------------------------------------------
  // Collection lookup
  // ---------------------------------------------------------------------------

  /**
    The id-to-collection table built from the collection list, entry by entry
    in list order, so that a later collection with a repeated id replaces an
    earlier one.
   */
  function CollectionMap(cs: seq<Collection>): (m: map<string, Collection>)
    ensures forall k :: 0 <= k < |cs| ==> cs[k].id in m
    ensures forall id :: id in m ==> m[id].id == id
  {
    if cs == [] then map[]
    else CollectionMap(cs[..|cs| - 1])[cs[|cs| - 1].id := cs[|cs| - 1]]
  }

  /** `cs[j]` is the last collection in the list with id `id`. */
  ghost predicate IsLastWithId(cs: seq<Collection>, j: int, id: string) {
    0 <= j < |cs| && cs[j].id == id && forall k :: j < k < |cs| ==> cs[k].id != id
  }

  /** The table knows exactly the ids of the listed collections. */
  lemma {:induction false} CollectionMapDomain(cs: seq<Collection>, id: string)
    ensures id in CollectionMap(cs) <==> exists j :: 0 <= j < |cs| && cs[j].id == id
  {
    if cs != [] {
      var n := |cs| - 1;
      CollectionMapDomain(cs[..n], id);
      if id in CollectionMap(cs[..n]) {
        var j :| 0 <= j < n && cs[..n][j].id == id;
        assert cs[j].id == id;
      }
      if j :| 0 <= j < n && cs[j].id == id {
        assert cs[..n][j].id == id;
      }
    }
  }

  /** The table maps an id to the last collection listed with it. */
  lemma {:induction false} CollectionMapLastWins(cs: seq<Collection>, j: int, id: string)
    requires IsLastWithId(cs, j, id)
    ensures id in CollectionMap(cs) && CollectionMap(cs)[id] == cs[j]
  {
    var n := |cs| - 1;
    if j < n {
      var init := cs[..n];
      assert IsLastWithId(init, j, id);
      CollectionMapLastWins(init, j, id);
      assert cs[n].id != id;
      assert CollectionMap(cs) == CollectionMap(init)[cs[n].id := cs[n]];
    }
  }

  /**
    `collection?.name || 'Unknown'`: a missing collection or an empty name
    reads as Unknown, so the name is never empty and is either the table's
    name for the id or Unknown.
   */
  function CollectionNameOf(m: map<string, Collection>, collectionId: string): (r: string)
    ensures r != ""
    ensures r == UnknownCollectionName || (collectionId in m && r == m[collectionId].name)
    ensures collectionId !in m ==> r == UnknownCollectionName
  {
    if collectionId in m && m[collectionId].name != "" then m[collectionId].name
    else UnknownCollectionName
  }

  // ---------------------------------------------------------------------------
  // Records
  // ---------------------------------------------------------------------------

  /** `variable.description || ''` */
  function DescriptionOrEmpty(d: Option<string>): string {
    d.GetOr("")
  }

  /**
    The record for one variable: it keeps the variable's identity and
    collection id, shows an absent description as empty, and always names a
    collection.
   */
  function ToRecord(v: Variable, m: map<string, Collection>): (r: DisplayRecord)
    ensures r.id == v.id && r.name == v.name && r.collectionId == v.variableCollectionId
    ensures r.description == (if v.description.Some? then v.description.value else "")
    ensures r.collectionName.Some? && r.collectionName.value != ""
  {
    DisplayRecord(
      v.id,
      v.name,
      DescriptionOrEmpty(v.description),
      TypeName(v.resolvedType),
      v.variableCollectionId,
      Some(CollectionNameOf(m, v.variableCollectionId)))
  }

  /**
    The display records for the store's variables, one per variable in the
    store's order, so distinct variable ids give distinct record ids.
   */
  function BuildRecords(vars: seq<Variable>, cs: seq<Collection>): (r: seq<DisplayRecord>)
    ensures |r| == |vars|
    ensures forall i :: 0 <= i < |r| ==> r[i].id == vars[i].id
    ensures DistinctIds(vars) ==> forall i, j :: 0 <= i < j < |r| ==> r[i].id != r[j].id
  {
    var m := CollectionMap(cs);
    seq(|vars|, i requires 0 <= i < |vars| => ToRecord(vars[i], m))
  }

  /**
    The records list has the store's length and order; each record copies its
    variable's id, name, type and collection id, and shows an absent
    description as the empty string.
   */
  lemma RecordsMirrorVariables(vars: seq<Variable>, cs: seq<Collection>)
    ensures |BuildRecords(vars, cs)| == |vars|
    ensures forall i :: 0 <= i < |vars| ==>
      && BuildRecords(vars, cs)[i].id == vars[i].id
      && BuildRecords(vars, cs)[i].name == vars[i].name
      && BuildRecords(vars, cs)[i].resolvedType == TypeName(vars[i].resolvedType)
      && BuildRecords(vars, cs)[i].collectionId == vars[i].variableCollectionId
      && BuildRecords(vars, cs)[i].description == (if vars[i].description.Some? then vars[i].description.value else "")
      && BuildRecords(vars, cs)[i].collectionName.Some?
  {
  }

  /**
    A record's collection name is the name of the last listed collection whose
    id is the variable's collection id, or Unknown when there is no such
    collection or its name is empty.
   */
  lemma RecordCollectionName(vars: seq<Variable>, cs: seq<Collection>, i: int)
    requires 0 <= i < |vars|
    ensures (forall k :: 0 <= k < |cs| ==> cs[k].id != vars[i].variableCollectionId) ==>
      BuildRecords(vars, cs)[i].collectionName == Some(UnknownCollectionName)
    ensures forall j :: IsLastWithId(cs, j, vars[i].variableCollectionId) ==>
      BuildRecords(vars, cs)[i].collectionName ==
        Some(if cs[j].name != "" then cs[j].name else UnknownCollectionName)
  {
    CollectionMapDomain(cs, vars[i].variableCollectionId);
    forall j | IsLastWithId(cs, j, vars[i].variableCollectionId)
      ensures CollectionMap(cs)[vars[i].variableCollectionId] == cs[j]
    {
      CollectionMapLastWins(cs, j, vars[i].variableCollectionId);
    }
  }

  /** The fixed rows shown when the document has no variables. */
  function SampleRecords(): (r: seq<DisplayRecord>)
    ensures |r| == 3
    ensures forall k :: 0 <= k < |r| ==> StartsWith(r[k].id, SamplePrefix) && r[k].collectionName.None?
  {
    [ DisplayRecord("sample-1", "color/primary", "プライマリカラー", "COLOR", "collection-1", None),
      DisplayRecord("sample-2", "spacing/small", "小さい余白", "FLOAT", "collection-1", None),
      DisplayRecord("sample-3", "text/heading", "", "STRING", "collection-1", None) ]
  }

  // ---------------------------------------------------------------------------
  // Description updates
  // ---------------------------------------------------------------------------

  ghost predicate DistinctIds(vars: seq<Variable>) {
    forall i, j :: 0 <= i < j < |vars| ==> vars[i].id != vars[j].id
  }

  predicate HasId(vars: seq<Variable>, id: string) {
    exists i :: 0 <= i < |vars| && vars[i].id == id
  }

  /**
    The store after the variable with id `id` (if any) has its description
    set to `d`: ids and their order stay, so distinct ids stay distinct; an
    id the store does not hold leaves it as it was.
   */
  function SetDescription(vars: seq<Variable>, id: string, d: string): (r: seq<Variable>)
    ensures |r| == |vars|
    ensures forall i :: 0 <= i < |r| ==> r[i].id == vars[i].id
    ensures DistinctIds(vars) ==> DistinctIds(r)
    ensures !HasId(vars, id) ==> r == vars
  {
    seq(|vars|, i requires 0 <= i < |vars| =>
      if vars[i].id == id then vars[i].(description := Some(d)) else vars[i])
  }

  /** The host's look-up by id: the position of the variable with that id, if any. */
  function FindById(vars: seq<Variable>, id: string): (r: Option<nat>)
    ensures r.Some? ==> r.value < |vars| && vars[r.value].id == id
    ensures r.None? ==> !HasId(vars, id)
  {
    if vars == [] then None
    else if vars[0].id == id then Some(0)
    else match FindById(vars[1..], id)
      case None => assert forall i :: 1 <= i < |vars| ==> vars[i] == vars[1..][i - 1]; None
      case Some(k) => Some(k + 1)
  }

  /**
    Editing one description and reloading: the edited variable's record shows
    the new description and keeps every other field; every other record is
    exactly as before.
   */
  lemma UpdateThenReload(vars: seq<Variable>, cs: seq<Collection>, id: string, d: string)
    ensures |BuildRecords(SetDescription(vars, id, d), cs)| == |BuildRecords(vars, cs)|
    ensures forall i :: 0 <= i < |vars| && vars[i].id == id ==>
      BuildRecords(SetDescription(vars, id, d), cs)[i] == BuildRecords(vars, cs)[i].(description := d)
    ensures forall i :: 0 <= i < |vars| && vars[i].id != id ==>
      BuildRecords(SetDescription(vars, id, d), cs)[i] == BuildRecords(vars, cs)[i]
  {
  }

  // ---------------------------------------------------------------------------
  // The controller: the store, the outgoing messages and the message handler
  // ---------------------------------------------------------------------------

  class Controller {
    /** the document's local variables, in the order the host lists them */
    var variables: seq<Variable>
    /** the document's local variable collections */
    var collections: seq<Collection>
    /** every message posted to the UI, oldest first */
    var outbox: seq<PluginMessage>

    /** The host gives every variable its own id. */
    ghost predicate Valid()
      reads this
    {
      DistinctIds(variables)
    }

    constructor (variables: seq<Variable>, collections: seq<Collection>)
      requires DistinctIds(variables)
      ensures Valid()
      ensures this.variables == variables && this.collections == collections && outbox == []
    {
      this.variables := variables;
      this.collections := collections;
      outbox := [];
    }

    /**
      Loads the variables and posts exactly one message: the records, the
      sample rows in debug mode when the store is empty, or an error when the
      store throws.
     */
    method LoadLocalVariables(storeThrows: bool)
      modifies this`outbox
      ensures storeThrows ==> outbox == old(outbox) + [Error(LoadFailedMessage)]
      ensures !storeThrows && variables == [] ==>
        outbox == old(outbox) + [VariablesLoaded(SampleRecords(), Some(true))]
      ensures !storeThrows && variables != [] ==>
        outbox == old(outbox) + [VariablesLoaded(BuildRecords(variables, collections), None)]
    {
      if storeThrows {
        outbox := outbox + [Error(LoadFailedMessage)];
        return;
      }
      var records := BuildRecords(variables, collections);
      if |records| == 0 {
        outbox := outbox + [VariablesLoaded(SampleRecords(), Some(true))];
        return;
      }
      outbox := outbox + [VariablesLoaded(records, None)];
    }

    /**
      Sets one variable's description. Sample ids skip the store and report
      success without a description; a store that throws reports an error; an
      id the store does not know is dropped silently.
     */
    method UpdateDescription(variableId: string, description: string, storeThrows: bool)
      requires Valid()
      modifies this`variables, this`outbox
      ensures Valid()
      ensures StartsWith(variableId, SamplePrefix) ==>
        variables == old(variables) && outbox == old(outbox) + [UpdateSuccess(variableId, None)]
      ensures !StartsWith(variableId, SamplePrefix) && storeThrows ==>
        variables == old(variables) && outbox == old(outbox) + [Error(UpdateFailedMessage)]
      ensures !StartsWith(variableId, SamplePrefix) && !storeThrows && HasId(old(variables), variableId) ==>
        && variables == SetDescription(old(variables), variableId, description)
        && outbox == old(outbox) + [UpdateSuccess(variableId, Some(description))]
      ensures !StartsWith(variableId, SamplePrefix) && !storeThrows && !HasId(old(variables), variableId) ==>
        variables == old(variables) && outbox == old(outbox)
    {
      if StartsWith(variableId, SamplePrefix) {
        outbox := outbox + [UpdateSuccess(variableId, None)];
        return;
      }
      if storeThrows {
        outbox := outbox + [Error(UpdateFailedMessage)];
        return;
      }
      var found := FindById(variables, variableId);
      if found.Some? {
        var k := found.value;
        ghost var before := variables;
        variables := variables[k := variables[k].(description := Some(description))];
        assert variables == SetDescription(before, variableId, description);
        outbox := outbox + [UpdateSuccess(variableId, Some(description))];
      }
    }

    /** The handler for messages from the UI. */
    method OnMessage(msg: UiMessage, storeThrows: bool)
      requires Valid()
      modifies this`variables, this`outbox
      ensures Valid()
      ensures msg.LoadVariables? ==> (
        && variables == old(variables)
        && (storeThrows ==> outbox == old(outbox) + [Error(LoadFailedMessage)])
        && (!storeThrows && variables == [] ==>
              outbox == old(outbox) + [VariablesLoaded(SampleRecords(), Some(true))])
        && (!storeThrows && variables != [] ==>
              outbox == old(outbox) + [VariablesLoaded(BuildRecords(variables, collections), None)]))
      ensures msg.UpdateDescription? ==> (
        var (id, d) := (msg.variableId, msg.description);
        && (StartsWith(id, SamplePrefix) ==>
              variables == old(variables) && outbox == old(outbox) + [UpdateSuccess(id, None)])
        && (!StartsWith(id, SamplePrefix) && storeThrows ==>
              variables == old(variables) && outbox == old(outbox) + [Error(UpdateFailedMessage)])
        && (!StartsWith(id, SamplePrefix) && !storeThrows && HasId(old(variables), id) ==>
              variables == SetDescription(old(variables), id, d) &&
              outbox == old(outbox) + [UpdateSuccess(id, Some(d))])
        && (!StartsWith(id, SamplePrefix) && !storeThrows && !HasId(old(variables), id) ==>
              variables == old(variables) && outbox == old(outbox)))
      ensures msg.ClosePlugin? || msg.OtherUiMessage? ==>
        variables == old(variables) && outbox == old(outbox)
    {
      match msg
      case LoadVariables =>
        LoadLocalVariables(storeThrows);
      case UpdateDescription(id, d) =>
        UpdateDescription(id, d, storeThrows);
      case ClosePlugin =>
      case OtherUiMessage(_) =>
    }
  }
}
