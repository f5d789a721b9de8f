/**
 * `useUrlState`: a piece of UI state kept in one query parameter. Reading it
 * gives the deserialised parameter or the default; setting it removes the
 * parameter for a default value, writes the serialised value otherwise, and
 * navigates unless the parameter already holds that text. Values are JSON
 * values; the serialiser and the deserialiser are parameters, a deserialiser
 * that throws answering `None`.
 */
module UrlState {
  import opened Wrappers
  import opened Json
  import opened UrlSearchParams

  /** `SetStateAction<T>`: a new value, or a function of the current one. */
  datatype SetStateAction = NewValue(v: Json) | Updater(f: Json -> Json)

  /** The hook's value for the given query. */
  function ValueOf(query: Entries, key: string, defaultValue: Json, deserialize: string -> Option<Json>): (value: Json)
    ensures Get(query, key).None? ==> value == defaultValue
    ensures Get(query, key).Some? && deserialize(Get(query, key).value).None? ==> value == defaultValue
    ensures Get(query, key).Some? && deserialize(Get(query, key).value).Some? ==> value == deserialize(Get(query, key).value).value
  {
    var paramValue := Get(query, key);
    if paramValue.None? then defaultValue
    else
      var parsed := deserialize(paramValue.value);
      if parsed.None? then defaultValue else parsed.value
  }

  /** The value an update asks for, given the current value. */
  function Resolve(action: SetStateAction, current: Json): Json
  {
    match action
    case NewValue(v) => v
    case Updater(f) => f(current)
  }

  /**
   * The values that take the parameter out of the query: the default, `null`,
   * and `''` when the default is `''`.
   */
  predicate IsDefault(resolved: Json, defaultValue: Json)
  {
    resolved == defaultValue || resolved == JNull || (resolved == JString("") && defaultValue == JString(""))
  }

  /** What `setValue(action)` does: `None` when it does not navigate. */
  function SetValueOutcome(query: Entries, key: string, defaultValue: Json, serialize: Json -> string,
                           deserialize: string -> Option<Json>, replace: bool, action: SetStateAction): Option<Navigation>
  {
    var resolved := Resolve(action, ValueOf(query, key, defaultValue, deserialize));
    if IsDefault(resolved, defaultValue) then Some(Navigate(Delete(query, key), replace))
    else if Get(query, key) == Some(serialize(resolved)) then None
    else Some(Navigate(Set(query, key, serialize(resolved)), replace))
  }

  /** `setValue`: edits a copy of the query and navigates with it. */
  method SetValue(query: Entries, key: string, defaultValue: Json, serialize: Json -> string,
                  deserialize: string -> Option<Json>, replace: bool, action: SetStateAction)
    returns (nav: Option<Navigation>)
    ensures nav == SetValueOutcome(query, key, defaultValue, serialize, deserialize, replace, action)
  {
    var params := new SearchParams(query);
    var value := ValueOf(query, key, defaultValue, deserialize);
    var resolved := Resolve(action, value);
    if IsDefault(resolved, defaultValue) {
      params.DeleteParam(key);
    } else {
      var serialized := serialize(resolved);
      var currentParam := Get(params.entries, key);
      if currentParam == Some(serialized) {
        return None;
      }
      params.SetParam(key, serialized);
    }
    nav := Some(Navigate(params.entries, replace));
  }

  /** A functional update is applied to the value the hook currently shows. */
  lemma UpdaterSeesCurrentValue(query: Entries, key: string, defaultValue: Json, serialize: Json -> string,
                                deserialize: string -> Option<Json>, replace: bool, f: Json -> Json)
    ensures SetValueOutcome(query, key, defaultValue, serialize, deserialize, replace, Updater(f))
         == SetValueOutcome(query, key, defaultValue, serialize, deserialize, replace,
                            NewValue(f(ValueOf(query, key, defaultValue, deserialize))))
  {
  }

  /**
   * A default value removes the key, leaves every other parameter readable as
   * before, and always navigates.
   */
  lemma DefaultRemovesKey(query: Entries, key: string, other: string, defaultValue: Json, serialize: Json -> string,
                          deserialize: string -> Option<Json>, replace: bool, v: Json)
    requires v == defaultValue || v == JNull
    ensures var nav := SetValueOutcome(query, key, defaultValue, serialize, deserialize, replace, NewValue(v));
            && nav.Some?
            && nav.value.Query() == Delete(query, key)
            && Get(nav.value.Query(), key).None?
            && (other != key ==> Get(nav.value.Query(), other) == Get(query, other))
  {
    GetDelete(query, key, other);
  }

  /** A value whose text is already in the query causes no navigation. */
  lemma UnchangedDoesNotNavigate(query: Entries, key: string, defaultValue: Json, serialize: Json -> string,
                                 deserialize: string -> Option<Json>, replace: bool, v: Json)
    requires !IsDefault(v, defaultValue)
    ensures SetValueOutcome(query, key, defaultValue, serialize, deserialize, replace, NewValue(v)).None?
            <==> Get(query, key) == Some(serialize(v))
  {
  }

  /**
   * Any other value is written under the key: the pairs before the key's
   * first occurrence stay, the value takes that occurrence's place (or is
   * appended), and every other parameter reads as before.
   */
  lemma ChangedValueIsSet(query: Entries, key: string, other: string, defaultValue: Json, serialize: Json -> string,
                          deserialize: string -> Option<Json>, replace: bool, v: Json, i: nat)
    requires !IsDefault(v, defaultValue) && Get(query, key) != Some(serialize(v))
    requires i <= |query|
    requires forall k :: 0 <= k < i ==> query[k].0 != key
    requires i < |query| ==> query[i].0 == key
    ensures var nav := SetValueOutcome(query, key, defaultValue, serialize, deserialize, replace, NewValue(v));
            && nav.Some?
            && Get(nav.value.Query(), key) == Some(serialize(v))
            && (other != key ==> Get(nav.value.Query(), other) == Get(query, other))
            && |nav.value.Query()| > i
            && nav.value.Query()[..i] == query[..i]
            && nav.value.Query()[i] == (key, serialize(v))
            && (i == |query| ==> nav.value.Query() == query + [(key, serialize(v))])
  {
    GetSet(query, key, serialize(v), other);
    SetPosition(query, key, serialize(v), i);
  }

  /** Every navigating update makes one call, `replace` exactly when the option asks for it. */
  lemma ReplaceOrPush(query: Entries, key: string, defaultValue: Json, serialize: Json -> string,
                      deserialize: string -> Option<Json>, replace: bool, action: SetStateAction)
    ensures var nav := SetValueOutcome(query, key, defaultValue, serialize, deserialize, replace, action);
            nav.Some? ==> (nav.value.Replace? <==> replace) && (nav.value.Push? <==> !replace)
  {
  }

  /** Setting a non-default value and reading it back gives what the deserialiser makes of its text. */
  lemma SetThenRead(query: Entries, key: string, defaultValue: Json, serialize: Json -> string,
                    deserialize: string -> Option<Json>, replace: bool, v: Json)
    requires !IsDefault(v, defaultValue) && Get(query, key) != Some(serialize(v))
    requires deserialize(serialize(v)) == Some(v)
    ensures var nav := SetValueOutcome(query, key, defaultValue, serialize, deserialize, replace, NewValue(v));
            nav.Some? && ValueOf(nav.value.Query(), key, defaultValue, deserialize) == v
  {
    GetSet(query, key, serialize(v), key);
  }

  /** Setting the default and reading it back gives the default. */
  lemma ResetThenRead(query: Entries, key: string, defaultValue: Json, serialize: Json -> string,
                      deserialize: string -> Option<Json>, replace: bool)
    ensures var nav := SetValueOutcome(query, key, defaultValue, serialize, deserialize, replace, NewValue(defaultValue));
            nav.Some? && ValueOf(nav.value.Query(), key, defaultValue, deserialize) == defaultValue
  {
    GetDelete(query, key, key);
  }
}
