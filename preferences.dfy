/**
 * The web client's reading of the signed-in user's display preferences: a
 * validator that accepts only the known presets, and a fetch that falls back
 * to the defaults whenever the answer is not valid or the request throws.
 * The request itself is a parameter: `Err` for a fetch that throws.
 */
module Preferences {
  import opened Wrappers
  import opened Json

  const ValidThemes := ["original", "vibrant-blue", "teal-accent", "warm-accent"]
  const ValidFontSizes := ["14px", "16px", "18px", "20px"]

  /** `UserPreferences`. */
  datatype UserPreferences = UserPreferences(themePreference: string, themeDarkMode: bool, fontSizePreference: string)

  const Defaults := UserPreferences("original", false, "16px")

  /** The union types of `UserPreferences` and `UpdatePreferencesDto`: one of the presets each. */
  predicate IsPreset(p: UserPreferences)
  {
    p.themePreference in ValidThemes && p.fontSizePreference in ValidFontSizes
  }

  /** `typeof value === 'string'` and one of `allowed`. */
  predicate StringIn(value: Option<Json>, allowed: seq<string>)
  {
    value.Some? && value.value.JString? && value.value.s in allowed
  }

  /** `typeof value === 'boolean'`. */
  predicate IsBoolean(value: Option<Json>)
  {
    value.Some? && value.value.JBool?
  }

  /** `isValidPreferencesResponse`. */
  predicate IsValidPreferencesResponse(data: Json)
  {
    if !data.Truthy() || !data.IsObject() then false
    else if !StringIn(data.Get("themePreference"), ValidThemes) then false
    else if !IsBoolean(data.Get("themeDarkMode")) then false
    else if !StringIn(data.Get("fontSizePreference"), ValidFontSizes) then false
    else true
  }

  /** The JSON object for a set of preferences, as `JSON.stringify(dto)` sends it. */
  function ToJson(p: UserPreferences): Json
  {
    JObject(map["themePreference" := JString(p.themePreference), "themeDarkMode" := JBool(p.themeDarkMode),
                "fontSizePreference" := JString(p.fontSizePreference)])
  }

  /** The typed reading of a response the validator accepted. */
  function FromJson(data: Json): (p: UserPreferences)
    requires IsValidPreferencesResponse(data)
    ensures IsPreset(p)
  {
    UserPreferences(data.Get("themePreference").value.s, data.Get("themeDarkMode").value.b,
                    data.Get("fontSizePreference").value.s)
  }

  /** `getUserPreferences`: the answer when it is valid, the defaults otherwise and when the fetch throws. */
  function GetUserPreferences(response: Result<Json, string>): (r: Json)
    ensures response.Ok? && IsValidPreferencesResponse(response.value) ==> r == response.value
    ensures response.Err? || !IsValidPreferencesResponse(response.value) ==> r == ToJson(Defaults)
  {
    if response.Err? then ToJson(Defaults)
    else if !IsValidPreferencesResponse(response.value) then ToJson(Defaults)
    else response.value
  }

  /** `updateUserPreferences`: the body it sends, or the fetch's error, thrown again. */
  function UpdateUserPreferences(dto: UserPreferences, failure: Option<string>): (r: Result<Json, string>)
    requires IsPreset(dto)
    ensures failure.Some? ==> r == Err(failure.value)
    ensures failure.None? ==> r.Ok? && IsValidPreferencesResponse(r.value) && FromJson(r.value) == dto
  {
    RoundTrip(dto);
    if failure.Some? then Err(failure.value) else Ok(ToJson(dto))
  }

  /**
   * The validator accepts exactly the objects whose theme is one of the four
   * presets, whose dark-mode flag is a boolean and whose font size is one of
   * the four sizes.
   */
  lemma ValidIff(data: Json)
    ensures IsValidPreferencesResponse(data) <==>
              && data.JObject?
              && "themePreference" in data.fields && data.fields["themePreference"].JString?
              && data.fields["themePreference"].s in ValidThemes
              && "themeDarkMode" in data.fields && data.fields["themeDarkMode"].JBool?
              && "fontSizePreference" in data.fields && data.fields["fontSizePreference"].JString?
              && data.fields["fontSizePreference"].s in ValidFontSizes
  {
  }

  /** `null`, and every value that is not an object, is refused. */
  lemma NonObjectsRefused(data: Json)
    requires data.JNull? || data.JBool? || data.JNumber? || data.JString? || data.JArray?
    ensures !IsValidPreferencesResponse(data)
  {
  }

  /** Whatever the API answers, the page gets preferences the validator accepts. */
  lemma AlwaysValid(response: Result<Json, string>)
    ensures IsValidPreferencesResponse(GetUserPreferences(response))
  {
    RoundTrip(Defaults);
  }

  /** Valid preferences survive the trip to JSON and back, and their JSON passes the validator. */
  lemma RoundTrip(p: UserPreferences)
    requires IsPreset(p)
    ensures IsValidPreferencesResponse(ToJson(p))
    ensures FromJson(ToJson(p)) == p
  {
  }

  /** A valid answer read back is the same typed preferences the answer holds: nothing is replaced. */
  lemma ValidAnswerKept(data: Json)
    requires IsValidPreferencesResponse(data)
    ensures FromJson(GetUserPreferences(Ok(data))) == FromJson(data)
  {
  }
}

/**
 * The theme-only reading of the same preferences: the validator and the
 * fallback, without the font size.
 */
module Theme {
  import opened Wrappers
  import opened Json
  import Preferences

  /** `ThemePreferences`. */
  datatype ThemePreferences = ThemePreferences(themePreference: string, themeDarkMode: bool)

  const Defaults := ThemePreferences("original", false)

  /** `isValidThemeResponse`: the same preset list as the preferences validator. */
  predicate IsValidThemeResponse(data: Json)
  {
    if !data.Truthy() || !data.IsObject() then false
    else if !Preferences.StringIn(data.Get("themePreference"), Preferences.ValidThemes) then false
    else if !Preferences.IsBoolean(data.Get("themeDarkMode")) then false
    else true
  }

  function ToJson(t: ThemePreferences): Json
  {
    JObject(map["themePreference" := JString(t.themePreference), "themeDarkMode" := JBool(t.themeDarkMode)])
  }

  /** `getUserTheme`: the answer when it is valid, the defaults otherwise and when the fetch throws. */
  function GetUserTheme(response: Result<Json, string>): (r: Json)
    ensures response.Ok? && IsValidThemeResponse(response.value) ==> r == response.value
    ensures response.Err? || !IsValidThemeResponse(response.value) ==> r == ToJson(Defaults)
  {
    if response.Err? then ToJson(Defaults)
    else if !IsValidThemeResponse(response.value) then ToJson(Defaults)
    else response.value
  }

  /** The validator accepts exactly the objects with a preset theme and a boolean dark-mode flag. */
  lemma ValidIff(data: Json)
    ensures IsValidThemeResponse(data) <==>
              && data.JObject?
              && "themePreference" in data.fields && data.fields["themePreference"].JString?
              && data.fields["themePreference"].s in Preferences.ValidThemes
              && "themeDarkMode" in data.fields && data.fields["themeDarkMode"].JBool?
  {
  }

  /** `null`, and every value that is not an object, is refused. */
  lemma NonObjectsRefused(data: Json)
    requires data.JNull? || data.JBool? || data.JNumber? || data.JString? || data.JArray?
    ensures !IsValidThemeResponse(data)
  {
  }

  /** Whatever the API answers, the page gets a theme the validator accepts. */
  lemma AlwaysValid(response: Result<Json, string>)
    ensures IsValidThemeResponse(GetUserTheme(response))
  {
    assert ToJson(Defaults).Get("themePreference") == Some(JString("original"));
  }

  /** Every full preferences answer is also a valid theme answer. */
  lemma PreferencesAreThemes(data: Json)
    requires Preferences.IsValidPreferencesResponse(data)
    ensures IsValidThemeResponse(data)
  {
  }
}
