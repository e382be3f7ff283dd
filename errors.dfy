/**
 * Turning a failed backend call into something to show: the message picked
 * out of the error value (getErrorMessage), the substring tests that sort a
 * message into "table missing", "connection/credentials" or "anything else",
 * and the rule that decides which of the three dashboard banners is shown.
 */
module Errors {
  import opened Types
  import opened JsStrings

  /** JSON.stringify of an object value is never the empty string. */
  type Json = s: string | s != "" witness "{}"

  /**
   * What a failed call hands over. `Falsy` stands for null, undefined and the
   * other falsy values; an `Object`'s text fields are "" when absent, and
   * `json` is its serialisation.
   */
  datatype ErrorValue =
    | Falsy
    | Text(text: string)
    | Object(message: string, errorDescription: string, details: string, code: string, json: Json)

  /** `if (error)`: whether a returned error value counts as an error at all. */
  predicate IsTruthy(e: ErrorValue) {
    !(e.Falsy? || (e.Text? && e.text == ""))
  }

  /** `(error as any).code`; a string or falsy value has no code. */
  function Code(e: ErrorValue): string {
    if e.Object? then e.code else ""
  }

  const UNKNOWN_ERROR := "Unknown error occurred"

  /** The first non-empty string of `candidates`, or "" when there is none. */
  function FirstNonEmpty(candidates: seq<string>): string {
    if candidates == [] then ""
    else if candidates[0] != "" then candidates[0]
    else FirstNonEmpty(candidates[1..])
  }

  /**
   * getErrorMessage: a falsy value gives a fixed text, a non-empty string is
   * its own message, and an object gives the first present field out of
   * message, error_description, details, falling back to its serialisation.
   */
  function ErrorMessage(e: ErrorValue): (msg: string)
    ensures msg != ""
    ensures !IsTruthy(e) ==> msg == UNKNOWN_ERROR
    ensures e.Text? && e.text != "" ==> msg == e.text
    ensures e.Object? && e.message != "" ==> msg == e.message
  {
    match e
    case Falsy => UNKNOWN_ERROR
    case Text(t) => if t == "" then UNKNOWN_ERROR else t
    case Object(m, d, det, _, j) =>
      if m != "" then m else if d != "" then d else if det != "" then det else j
  }

  /**
   * For an error object the message is the first present field in the fixed
   * priority order message, error_description, details, serialisation.
   */
  lemma ErrorMessagePriority(e: ErrorValue)
    requires e.Object?
    ensures ErrorMessage(e) == FirstNonEmpty([e.message, e.errorDescription, e.details, e.json])
  {
    var json: string := e.json;
    var fields := [e.message, e.errorDescription, e.details, json];
    assert FirstNonEmpty(fields[3..]) == json by {
      assert fields[3..] == [json];
    }
    assert FirstNonEmpty(fields[2..]) == if e.details != "" then e.details else json by {
      assert fields[2..] == [e.details, json] && fields[2..][1..] == fields[3..];
    }
    assert FirstNonEmpty(fields[1..]) == FirstNonEmpty([e.errorDescription, e.details, json]) by {
      assert fields[1..][1..] == fields[2..];
    }
  }

  // The marker tables, one per call site. They differ from site to site.

  /** Missing-table markers on the list path (App.tsx:83-85). */
  const LIST_SETUP_MARKERS: seq<string> := ["does not exist", "Could not find the table", "42P01"]
  /** Connection markers on the list path (App.tsx:91-93). */
  const LIST_CONFIG_MARKERS: seq<string> := ["Failed to fetch", "network", "apikey"]
  /** Connection markers when the list request throws (App.tsx:119). */
  const LIST_THROWN_CONFIG_MARKERS: seq<string> := ["Failed to fetch", "network"]
  /** Missing-table markers on the insert path (App.tsx:267). */
  const INSERT_SETUP_MARKERS: seq<string> := ["does not exist", "Could not find the table"]
  /** Connection markers on the insert path (App.tsx:269). */
  const INSERT_CONFIG_MARKERS: seq<string> := ["Failed to fetch", "apikey"]
  /** Connection markers when the insert request throws (App.tsx:291). */
  const INSERT_THROWN_CONFIG_MARKERS: seq<string> := ["Failed to fetch"]
  /** The backend's error code for a missing relation. */
  const MISSING_TABLE_CODE := "42P01"

  /** `msg.includes(m1) || msg.includes(m2) || ...` */
  predicate MentionsAny(msg: string, markers: seq<string>) {
    exists k :: 0 <= k < |markers| && Includes(msg, markers[k])
  }

  /** The three ways a failure is reported. */
  datatype Diagnosis = SetupRequired | ConfigRequired | Generic

  /** The branches of fetchProducts for an error the list request returned. */
  function DiagnoseListError(e: ErrorValue): (d: Diagnosis)
    ensures d == SetupRequired <==>
      MentionsAny(ErrorMessage(e), LIST_SETUP_MARKERS) || Code(e) == MISSING_TABLE_CODE
    ensures d == ConfigRequired <==>
      !(MentionsAny(ErrorMessage(e), LIST_SETUP_MARKERS) || Code(e) == MISSING_TABLE_CODE)
      && MentionsAny(ErrorMessage(e), LIST_CONFIG_MARKERS)
  {
    var msg := ErrorMessage(e);
    if MentionsAny(msg, LIST_SETUP_MARKERS) || Code(e) == MISSING_TABLE_CODE then SetupRequired
    else if MentionsAny(msg, LIST_CONFIG_MARKERS) then ConfigRequired
    else Generic
  }

  /** The catch branch of fetchProducts: a thrown error is never a missing table. */
  function DiagnoseListThrown(e: ErrorValue): (d: Diagnosis)
    ensures d != SetupRequired
    ensures d == ConfigRequired <==> MentionsAny(ErrorMessage(e), LIST_THROWN_CONFIG_MARKERS)
  {
    if MentionsAny(ErrorMessage(e), LIST_THROWN_CONFIG_MARKERS) then ConfigRequired else Generic
  }

  /** The branches of addProduct for an error the insert request returned. */
  function DiagnoseInsertError(e: ErrorValue): (d: Diagnosis)
    ensures d == SetupRequired <==>
      MentionsAny(ErrorMessage(e), INSERT_SETUP_MARKERS) || Code(e) == MISSING_TABLE_CODE
    ensures d == ConfigRequired <==>
      !(MentionsAny(ErrorMessage(e), INSERT_SETUP_MARKERS) || Code(e) == MISSING_TABLE_CODE)
      && MentionsAny(ErrorMessage(e), INSERT_CONFIG_MARKERS)
  {
    var msg := ErrorMessage(e);
    if MentionsAny(msg, INSERT_SETUP_MARKERS) || Code(e) == MISSING_TABLE_CODE then SetupRequired
    else if MentionsAny(msg, INSERT_CONFIG_MARKERS) then ConfigRequired
    else Generic
  }

  /** The catch branch of addProduct. */
  function DiagnoseInsertThrown(e: ErrorValue): (d: Diagnosis)
    ensures d != SetupRequired
    ensures d == ConfigRequired <==> MentionsAny(ErrorMessage(e), INSERT_THROWN_CONFIG_MARKERS)
  {
    if MentionsAny(ErrorMessage(e), INSERT_THROWN_CONFIG_MARKERS) then ConfigRequired else Generic
  }

  /** Every marker of `small` is a marker of `large`. */
  predicate MarkersWithin(small: seq<string>, large: seq<string>) {
    forall k :: 0 <= k < |small| ==> small[k] in large
  }

  /** A message that mentions a marker of a smaller table mentions one of the larger table. */
  lemma MentionsWithin(msg: string, small: seq<string>, large: seq<string>)
    requires MarkersWithin(small, large)
    requires MentionsAny(msg, small)
    ensures MentionsAny(msg, large)
  {
    var k :| 0 <= k < |small| && Includes(msg, small[k]);
    var m :| 0 <= m < |large| && large[m] == small[k];
    assert Includes(msg, large[m]);
  }

  /**
   * The insert path checks narrower marker sets: what it calls a missing table
   * the list path does too, and what it calls a connection problem the list
   * path does not report as a generic error.
   */
  lemma InsertDiagnosisNarrower(e: ErrorValue)
    ensures DiagnoseInsertError(e) == SetupRequired ==> DiagnoseListError(e) == SetupRequired
    ensures DiagnoseInsertError(e) == ConfigRequired ==> DiagnoseListError(e) != Generic
    ensures DiagnoseListError(e) == Generic ==> DiagnoseInsertError(e) == Generic
  {
    var msg := ErrorMessage(e);
    assert MarkersWithin(INSERT_SETUP_MARKERS, LIST_SETUP_MARKERS) by {
      assert INSERT_SETUP_MARKERS[0] == LIST_SETUP_MARKERS[0];
      assert INSERT_SETUP_MARKERS[1] == LIST_SETUP_MARKERS[1];
    }
    assert MarkersWithin(INSERT_CONFIG_MARKERS, LIST_CONFIG_MARKERS) by {
      assert INSERT_CONFIG_MARKERS[0] == LIST_CONFIG_MARKERS[0];
      assert INSERT_CONFIG_MARKERS[1] == LIST_CONFIG_MARKERS[2];
    }
    if MentionsAny(msg, INSERT_SETUP_MARKERS) {
      MentionsWithin(msg, INSERT_SETUP_MARKERS, LIST_SETUP_MARKERS);
    }
    if MentionsAny(msg, INSERT_CONFIG_MARKERS) {
      MentionsWithin(msg, INSERT_CONFIG_MARKERS, LIST_CONFIG_MARKERS);
    }
  }

  /** A "network" failure asks for the connection fix when listing ... */
  lemma NetworkFlaggedWhenListing()
    ensures DiagnoseListError(Text("network")) == ConfigRequired
  {
    var msg := "network";
    assert ErrorMessage(Text(msg)) == msg;
    NetworkIsNoListSetupMarker();
    assert OccursAt(msg, "network", 0);
    assert Includes(msg, LIST_CONFIG_MARKERS[1]);
  }

  lemma NetworkIsNoListSetupMarker()
    ensures !MentionsAny("network", LIST_SETUP_MARKERS)
  {
    var msg := "network";
    NotIncludesLonger(msg, "does not exist");
    NotIncludesLonger(msg, "Could not find the table");
    NotIncludesByChar(msg, "42P01", 0);
  }

  /** ... but is a generic failure when inserting. */
  lemma NetworkGenericWhenInserting()
    ensures DiagnoseInsertError(Text("network")) == Generic
  {
    var msg := "network";
    assert ErrorMessage(Text(msg)) == msg;
    NotIncludesLonger(msg, "does not exist");
    NotIncludesLonger(msg, "Could not find the table");
    NotIncludesLonger(msg, "Failed to fetch");
    NotIncludesByChar(msg, "apikey", 0);
    assert !MentionsAny(msg, INSERT_SETUP_MARKERS);
    assert !MentionsAny(msg, INSERT_CONFIG_MARKERS);
  }

  /** A message carrying the code text "42P01" is a missing table when listing but generic when inserting. */
  lemma CodeInMessageOnlyFlaggedWhenListing()
    ensures DiagnoseListError(Text("42P01")) == SetupRequired
    ensures DiagnoseInsertError(Text("42P01")) == Generic
  {
    var msg := "42P01";
    assert ErrorMessage(Text(msg)) == msg;
    assert Includes(msg, LIST_SETUP_MARKERS[2]);
    assert !Includes(msg, "does not exist");
    assert !Includes(msg, "Could not find the table");
    assert !Includes(msg, "Failed to fetch");
    assert !Includes(msg, "apikey");
    assert !MentionsAny(msg, INSERT_SETUP_MARKERS);
    assert !MentionsAny(msg, INSERT_CONFIG_MARKERS);
  }

  // The banner rule of the dashboard (App.tsx:461, App.tsx:496, App.tsx:558).

  predicate ConfigBannerShown(configRequired: bool) {
    configRequired
  }

  predicate SetupBannerShown(setupRequired: bool, configRequired: bool) {
    setupRequired && !configRequired
  }

  predicate ErrorBannerShown(fetchError: Option<string>, setupRequired: bool, configRequired: bool) {
    Truthy(fetchError) && !setupRequired && !configRequired
  }

  datatype Banner = NoBanner | ConnectionFailed | DatabaseSetup | LoadError(message: string)

  /**
   * The one banner on screen. Each kind corresponds to its own display
   * condition, so no two conditions ever hold together.
   */
  function VisibleBanner(fetchError: Option<string>, setupRequired: bool, configRequired: bool): (b: Banner)
    ensures b == ConnectionFailed <==> ConfigBannerShown(configRequired)
    ensures b == DatabaseSetup <==> SetupBannerShown(setupRequired, configRequired)
    ensures b.LoadError? <==> ErrorBannerShown(fetchError, setupRequired, configRequired)
    ensures b.LoadError? ==> fetchError == Some(b.message)
    ensures b == NoBanner <==> !configRequired && !setupRequired && !Truthy(fetchError)
  {
    if configRequired then ConnectionFailed
    else if setupRequired then DatabaseSetup
    else if Truthy(fetchError) then LoadError(fetchError.value)
    else NoBanner
  }
}
