/**
 * The state of the music settings page and the save button's protocol: a
 * submit starts at most one save, and only when the chosen client is
 * "Disabled" or a valid Lidarr; the save's answer ends it; changing the
 * client drops the edits and the last save's banner.
 */
module MusicPage {
  import opened Wrappers
  import opened MusicClients
  import opened MusicView

  const LidarrClient: string := "Lidarr"
  const UnknownSaveError: string := "An unknown error occurred while saving."
  const InvalidFieldsError: string := "Some fields are invalid, please fix them before saving."

  /**
   * The page's Lidarr values: none yet (the initial `{}`, or a store that
   * holds none), the server's values as the settings load returned them,
   * or the values the store or the Lidarr form handed over.
   */
  datatype LidarrValues = NoValues | ServerValues(payload: LidarrPayload) | FormValues(state: LidarrState)

  /** What a submit asks the server to store. */
  datatype SaveRequest = SaveDisabledClient | SaveLidarrClient(lidarr: LidarrValues, restrictions: string)

  /** A submit may save: the client is switched off, or is Lidarr with valid fields. */
  function CanSave(client: string, isLidarrValid: bool): (r: bool)
    ensures r ==> client == Disabled || client == LidarrClient
    ensures client == Disabled ==> r
    ensures client == LidarrClient ==> (r <==> isLidarrValid)
  {
    client == Disabled || (client == LidarrClient && isLidarrValid)
  }

  /** The request a savable client sends. */
  function RequestFor(client: string, lidarr: LidarrValues, restrictions: string): (r: SaveRequest)
    requires client == Disabled || client == LidarrClient
    ensures r.SaveDisabledClient? <==> client == Disabled
    ensures r.SaveLidarrClient? ==> r.lidarr == lidarr && r.restrictions == restrictions
  {
    if client == Disabled then SaveDisabledClient else SaveLidarrClient(lidarr, restrictions)
  }

  /** The banner text a finished save leaves: none on success, else the server's message or a generic one. */
  function SaveMessage(ok: bool, error: Option<string>): (r: string)
    ensures ok ==> r == ""
    ensures !ok && error.Some? ==> r == error.value
    ensures !ok && error.None? ==> r == UnknownSaveError
  {
    if ok then "" else error.GetOr(UnknownSaveError)
  }

  class Page {
    var isSubmitted: bool
    var isLoading: bool
    var isSaving: bool
    var saveAttempted: bool
    var saveSuccess: bool
    var saveError: string
    var client: string
    var restrictions: string
    var lidarr: LidarrValues
    var isLidarrValid: bool

    /**
     * A success banner never carries an error text, and a submit is only
     * left pending while its save is in flight.
     */
    predicate Valid()
      reads this
    {
      && (saveSuccess ==> saveError == "")
      && (isSubmitted ==> isSaving)
    }

    /** The page as it mounts: loading, nothing submitted, no client and no restrictions yet. */
    constructor ()
      ensures Valid()
      ensures !isSubmitted && isLoading && !isSaving && !saveAttempted && !saveSuccess && saveError == ""
      ensures client == "" && restrictions == NoRestrictions && lidarr == NoValues && !isLidarrValid
    {
      isSubmitted := false;
      isLoading := true;
      isSaving := false;
      saveAttempted := false;
      saveSuccess := false;
      saveError := "";
      client := "";
      restrictions := NoRestrictions;
      lidarr := NoValues;
      isLidarrValid := false;
    }

    /** The settings load answered: the page shows the server's client, restrictions and Lidarr values. */
    method SettingsLoaded(p: SettingsPayload)
      requires Valid()
      modifies this
      ensures Valid()
      ensures !isLoading && client == p.client && lidarr == ServerValues(p.lidarr)
      ensures restrictions == OrElse(p.restrictions, NoRestrictions) && restrictions != ""
      ensures isSubmitted == old(isSubmitted) && isSaving == old(isSaving) && saveAttempted == old(saveAttempted)
      ensures saveSuccess == old(saveSuccess) && saveError == old(saveError) && isLidarrValid == old(isLidarrValid)
    {
      isLoading := false;
      client := p.client;
      restrictions := OrElse(p.restrictions, NoRestrictions);
      lidarr := ServerValues(p.lidarr);
    }

    /**
     * The save button. A submit while one is pending changes nothing; else
     * the save effect runs: with a save in flight it does nothing more; with
     * a savable client it starts the save and returns its request; otherwise
     * it shows the invalid-fields banner and clears the submit.
     */
    method Submit() returns (request: Option<SaveRequest>)
      requires Valid()
      modifies this
      ensures Valid()
      ensures request.Some? <==> !old(isSubmitted) && !old(isSaving) && CanSave(old(client), old(isLidarrValid))
      ensures request.Some? ==>
        request.value == RequestFor(old(client), old(lidarr), old(restrictions)) && isSaving && isSubmitted
      ensures old(isSubmitted) ==> unchanged(this)
      ensures old(isSubmitted) || old(isSaving) ==>
        isSubmitted && isSaving == old(isSaving) && saveAttempted == old(saveAttempted) &&
        saveSuccess == old(saveSuccess) && saveError == old(saveError)
      ensures !old(isSubmitted) && !old(isSaving) && !CanSave(old(client), old(isLidarrValid)) ==>
        !isSubmitted && !isSaving && saveAttempted && !saveSuccess && saveError == InvalidFieldsError
      ensures !old(isSubmitted) && !old(isSaving) && !CanSave(old(client), old(isLidarrValid)) ==>
        request.None?
      ensures client == old(client) && restrictions == old(restrictions) && lidarr == old(lidarr)
      ensures isLoading == old(isLoading) && isLidarrValid == old(isLidarrValid)
      ensures request.Some? ==> saveAttempted == old(saveAttempted) && saveSuccess == old(saveSuccess) &&
                                saveError == old(saveError)
    {
      request := None;
      if isSubmitted {
        return;
      }
      isSubmitted := true;
      if isSaving {
        return;
      }
      if CanSave(client, isLidarrValid) {
        isSaving := true;
        request := Some(RequestFor(client, lidarr, restrictions));
      } else {
        saveAttempted := true;
        saveError := InvalidFieldsError;
        saveSuccess := false;
        isSubmitted := false;
      }
    }

    /** The save answered: the submit ends and the banner shows the outcome. */
    method SaveCompleted(ok: bool, error: Option<string>)
      requires Valid()
      modifies this
      ensures Valid()
      ensures !isSaving && !isSubmitted && saveAttempted
      ensures saveSuccess == ok && saveError == SaveMessage(ok, error)
      ensures client == old(client) && restrictions == old(restrictions) && lidarr == old(lidarr)
      ensures isLoading == old(isLoading) && isLidarrValid == old(isLidarrValid)
    {
      isSaving := false;
      isSubmitted := false;
      saveAttempted := true;
      saveError := SaveMessage(ok, error);
      saveSuccess := ok;
    }

    /**
     * Another client was picked: the page takes the store's Lidarr values
     * and restrictions back, hides the last banner and clears the submit.
     */
    method ClientChanged(newClient: string, settings: MusicState)
      requires Valid()
      modifies this
      ensures Valid()
      ensures client == newClient
      ensures lidarr == (if settings.lidarr.Some? then FormValues(settings.lidarr.value) else NoValues)
      ensures restrictions == OrElse(settings.restrictions, NoRestrictions) && restrictions != ""
      ensures !saveAttempted && !isSubmitted
      ensures isSaving == old(isSaving) && saveSuccess == old(saveSuccess) && saveError == old(saveError)
      ensures isLoading == old(isLoading) && isLidarrValid == old(isLidarrValid)
    {
      client := newClient;
      lidarr := if settings.lidarr.Some? then FormValues(settings.lidarr.value) else NoValues;
      restrictions := OrElse(settings.restrictions, NoRestrictions);
      saveAttempted := false;
      isSubmitted := false;
    }

    /** The restriction picker changed: the page stores the picked items' string. */
    method RestrictionsChanged(values: Option<seq<RestrictionItem>>)
      requires Valid()
      modifies this
      ensures Valid()
      ensures restrictions == RestrictionsString(values)
      ensures values.GetOr([]) == [] ==> restrictions == NoRestrictions
      ensures isSubmitted == old(isSubmitted) && isSaving == old(isSaving) && saveAttempted == old(saveAttempted)
      ensures saveSuccess == old(saveSuccess) && saveError == old(saveError) && client == old(client)
      ensures lidarr == old(lidarr) && isLoading == old(isLoading) && isLidarrValid == old(isLidarrValid)
    {
      restrictions := RestrictionsString(values);
    }

    /** The Lidarr form handed over its values. */
    method LidarrChanged(values: LidarrState)
      requires Valid()
      modifies this
      ensures Valid()
      ensures lidarr == FormValues(values)
      ensures isSubmitted == old(isSubmitted) && isSaving == old(isSaving) && saveAttempted == old(saveAttempted)
      ensures saveSuccess == old(saveSuccess) && saveError == old(saveError) && client == old(client)
      ensures restrictions == old(restrictions) && isLoading == old(isLoading) && isLidarrValid == old(isLidarrValid)
    {
      lidarr := FormValues(values);
    }

    /** The Lidarr form reported whether its fields are valid. */
    method LidarrValidated(valid: bool)
      requires Valid()
      modifies this
      ensures Valid()
      ensures isLidarrValid == valid
      ensures isSubmitted == old(isSubmitted) && isSaving == old(isSaving) && saveAttempted == old(saveAttempted)
      ensures saveSuccess == old(saveSuccess) && saveError == old(saveError) && client == old(client)
      ensures restrictions == old(restrictions) && lidarr == old(lidarr) && isLoading == old(isLoading)
    {
      isLidarrValid := valid;
    }
  }

  /**
   * A double click on the save button: the first click starts a save and
   * the second, before the save answers, starts none.
   */
  method DoubleSubmit(page: Page) returns (first: Option<SaveRequest>, second: Option<SaveRequest>)
    requires page.Valid() && !page.isSaving && CanSave(page.client, page.isLidarrValid)
    modifies page
    ensures first.Some? && second.None?
    ensures first.value == RequestFor(old(page.client), old(page.lidarr), old(page.restrictions))
    ensures page.isSaving && page.isSubmitted
  {
    first := page.Submit();
    second := page.Submit();
  }
}
