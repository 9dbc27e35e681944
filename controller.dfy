/** The state controller of the `ReactCodeInput` component: the box values it
    keeps, the box it autofocuses, and the handlers that turn keys and input
    into new box values, a focus target and host callbacks. */
module ReactCodeInput {
  import opened Code

  class CodeInput {
    /** Props that stay fixed for the life of the model. */
    const inputType: InputType
    const listeners: Listeners
    const autoFocus: bool

    /** The `fields` prop: how many boxes there are. */
    var fields: nat
    /** `valuesState`: one entry per box. */
    var values: array<string>
    /** `autoFocusIndexState`. */
    var autoFocusIndex: nat
    /** Every host callback made so far, oldest first. */
    var events: seq<Event>

    ghost predicate Valid()
      reads this
    {
      values.Length == fields && (autoFocusIndex == 0 || autoFocusIndex < fields)
    }

    /** Every box is empty or one character, a digit in numeric mode. */
    ghost predicate Wellformed()
      reads this, values
    {
      forall j :: 0 <= j < values.Length ==> BoxOk(inputType, values[j])
    }

    /** Mounting: the state starts empty and the initialization effect derives
        the boxes and the autofocus index from `fields` and `values`. */
    constructor (inputType: InputType, listeners: Listeners, autoFocus: bool, fields: nat, sup: Supplied)
      ensures Valid() && fresh(values)
      ensures this.inputType == inputType && this.listeners == listeners && this.autoFocus == autoFocus
      ensures this.fields == fields
      ensures forall i :: 0 <= i < fields ==> values[i] == InitialBox(Entries(sup), i)
      ensures autoFocusIndex == InitialFocus(fields, sup)
      ensures events == []
      ensures (forall i :: 0 <= i < |Entries(sup)| ==> BoxOk(inputType, Entries(sup)[i])) ==> Wellformed()
    {
      this.inputType := inputType;
      this.listeners := listeners;
      this.autoFocus := autoFocus;
      this.fields := 0;
      values := new string[0];
      autoFocusIndex := 0;
      events := [];
      new;
      Derive(fields, sup);
    }

    /** The initialization effect, run again whenever `fields` or `values`
        change: the boxes are replaced wholesale and no callback is made. */
    method Derive(fields: nat, sup: Supplied)
      modifies this
      ensures Valid() && fresh(values)
      ensures this.fields == fields
      ensures forall i :: 0 <= i < fields ==> values[i] == InitialBox(Entries(sup), i)
      ensures autoFocusIndex == InitialFocus(fields, sup)
      ensures events == old(events)
      ensures (forall i :: 0 <= i < |Entries(sup)| ==> BoxOk(inputType, Entries(sup)[i])) ==> Wellformed()
    {
      var vals := InitialValues(fields, sup);
      values := new string[fields](i requires 0 <= i < |vals| => vals[i]);
      this.fields := fields;
      autoFocusIndex := InitialFocus(fields, sup);
    }

    /** The box the rendered markup marks `autoFocus`, if any. */
    function AutoFocusTarget(): (r: Option<nat>)
      reads this
      requires Valid()
      ensures r.Some? <==> autoFocus && fields > 0
      ensures r.Some? ==> r.value < fields && r.value == autoFocusIndex
    {
      if autoFocus && autoFocusIndex < fields then Some(autoFocusIndex) else None
    }

    /** `clearValues`: every box emptied, focus sent to box 0 when it exists,
        and no callback. */
    method ClearValues() returns (target: Option<nat>)
      requires Valid()
      modifies this
      ensures Valid() && fresh(values)
      ensures fields == old(fields) && autoFocusIndex == old(autoFocusIndex)
      ensures forall i :: 0 <= i < fields ==> values[i] == ""
      ensures target == if fields > 0 then Some(0) else None
      ensures events == old(events)
      ensures Wellformed()
    {
      values := new string[fields](_ => "");
      target := if fields > 0 then Some(0) else None;
    }

    /** `handleKeyDown` on box `index`. Backspace clears a non-empty current
        box and, independently, clears the previous box and focuses it; each
        of the two clearings notifies the host. The arrow keys only move focus. */
    method KeyDown(key: Key, index: nat) returns (target: Option<nat>)
      requires Valid() && index < fields
      modifies this, values
      ensures Valid() && values == old(values)
      ensures fields == old(fields) && autoFocusIndex == old(autoFocusIndex)
      ensures key != Backspace ==> values[..] == old(values[..]) && events == old(events)
      ensures key == ArrowLeft ==> target == if index > 0 then Some(index - 1) else None
      ensures key == ArrowRight ==> target == if index + 1 < fields then Some(index + 1) else None
      ensures key == Other ==> target == None
      ensures key == Backspace ==>
        && (forall j :: 0 <= j < fields && j != index && j != index - 1 ==> values[j] == old(values[j]))
        && values[index] == ""
        && (index > 0 ==> values[index - 1] == "" && target == Some(index - 1))
        && (index == 0 ==> target == None)
        && events == old(events)
                     + (if old(values[index]) != "" then Notify(old(values[..])[index := ""], fields, listeners) else [])
                     + (if index > 0 then Notify(values[..], fields, listeners) else [])
      ensures key == Backspace && index == 0 && old(values[0]) == "" ==>
        values[..] == old(values[..]) && events == old(events)
      ensures old(Wellformed()) ==> Wellformed()
    {
      target := None;
      match key
      case Backspace =>
        if values[index] != "" {
          values[index] := "";
          events := events + Notify(values[..], fields, listeners);
        }
        if index > 0 {
          values[index - 1] := "";
          target := Some(index - 1);
          events := events + Notify(values[..], fields, listeners);
        }
      case ArrowLeft =>
        if index > 0 {
          target := Some(index - 1);
        }
      case ArrowRight =>
        if index + 1 < fields {
          target := Some(index + 1);
        }
      case Other =>
    }

    /** `handleChange` on box `index` with the box's new text `raw`. In numeric
        mode the non-digits are dropped first; an empty value is ignored.
        Otherwise the characters go into boxes `index`, `index + 1`, ... as far
        as the boxes reach, the host is notified, and focus goes to the next
        box (one character) or to the last box filled (several). */
    method Change(index: nat, raw: string) returns (target: Option<nat>)
      requires Valid() && index < fields
      modifies this, values
      ensures Valid() && values == old(values)
      ensures fields == old(fields) && autoFocusIndex == old(autoFocusIndex)
      ensures InputValue(inputType, raw) == "" ==>
        values[..] == old(values[..]) && events == old(events) && target == None
      ensures var v := InputValue(inputType, raw); v != "" ==>
        && values[..] == Spread(old(values[..]), index, v)
        && target == (if |v| > 1 then Some(Min(index + |v| - 1, fields - 1))
                      else if index + 1 < fields then Some(index + 1) else None)
        && events == old(events) + Notify(values[..], fields, listeners)
      ensures old(Wellformed()) ==> Wellformed()
    {
      var value := InputValue(inputType, raw);
      if value == "" {
        return None;
      }
      ghost var before := values[..];
      if |value| > 1 {
        var nextIndex := |value| + index - 1;
        if nextIndex >= fields {
          nextIndex := fields - 1;
        }
        target := Some(nextIndex);
        Fill(index, value);
      } else {
        target := if index + 1 < fields then Some(index + 1) else None;
        values[index] := value;
        assert value == [value[0]];
        SpreadOne(before, index, value[0]);
      }
      if old(Wellformed()) {
        SpreadKeepsBoxes(inputType, before, index, value);
        assert forall j :: 0 <= j < values.Length ==> values[j] == values[..][j];
      }
      events := events + Notify(values[..], fields, listeners);
    }

    /** The `forEach` over the characters of a paste: character `i` goes
        into box `index + i` when that box exists, and the rest are dropped. */
    method Fill(index: nat, value: string)
      modifies values
      ensures values[..] == Spread(old(values[..]), index, value)
    {
      for i := 0 to |value|
        invariant forall j :: 0 <= j < values.Length ==>
          values[j] == if index <= j < index + i then [value[j - index]] else old(values[j])
      {
        var cursor := index + i;
        if cursor < values.Length {
          values[cursor] := [value[i]];
        }
      }
      SpreadAt(old(values[..]), index, value);
    }
  }
}
