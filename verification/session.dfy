/**
  One editing session across both sides: the UI loads the variables, edits
  one description and saves it; the main code writes it and confirms; the UI
  reloads. The records the UI ends with show the new description.
 */
module Session {
  import opened Options
  import opened Protocol
  import opened Host
  import opened UiApp

  /**
    Edits the description of the `i`-th variable of a document to `d`, going
    through every message of the exchange, and returns the list the UI holds
    at the end: the edited record shows `d`, every other record is the one the
    first load showed.
   */
  method EditRoundTrip(vars: seq<Variable>, cs: seq<Collection>, i: nat, d: string)
    returns (shown: seq<DisplayRecord>)
    requires DistinctIds(vars) && i < |vars|
    requires !StartsWith(vars[i].id, SamplePrefix)
    ensures |shown| == |vars|
    ensures shown[i] == BuildRecords(vars, cs)[i].(description := d)
    ensures forall k :: 0 <= k < |vars| && k != i ==> shown[k] == BuildRecords(vars, cs)[k]
  {
    var host := new Controller(vars, cs);
    var app := new App();
    RecordsMirrorVariables(vars, cs);

    // mount: the UI's request reaches the main code, and the records come back
    host.OnMessage(app.outbox[0], false);
    app.OnWindowMessage(Some(host.outbox[0]));
    assert app.variables == BuildRecords(vars, cs);

    // edit and save
    var id := app.variables[i].id;
    app.HandleEdit(app.variables[i]);
    app.EditText(d);
    app.HandleSave(id);
    var save := app.outbox[|app.outbox| - 1];
    assert save == UpdateDescription(vars[i].id, d);
    assert HasId(vars, vars[i].id);
    host.OnMessage(save, false);
    assert host.variables == SetDescription(vars, vars[i].id, d);

    // the confirmation makes the UI ask again, and the reload arrives
    var confirmation := host.outbox[|host.outbox| - 1];
    assert confirmation == UpdateSuccess(vars[i].id, Some(d));
    app.OnWindowMessage(Some(confirmation));
    var reload := app.outbox[|app.outbox| - 1];
    assert reload == LoadVariables;
    host.OnMessage(reload, false);
    app.OnWindowMessage(Some(host.outbox[|host.outbox| - 1]));

    UpdateThenReload(vars, cs, vars[i].id, d);
    shown := app.variables;
  }
}
