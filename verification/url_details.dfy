/** The edit form of a link's detail page
    (`app/components/organisms/URLDetails.tsx`): viewing, editing and
    updating. The parent's `onUpdate` is awaited; whether it resolved or
    threw is a parameter of `HandleUpdate`. */
module UrlDetails {
  import opened Common

  /** The fields of `urlStats` the form reads. */
  datatype UrlStats = UrlStats(id: int, originalUrl: string, shortCode: string, shortUrl: string)

  /** The arguments of `onUpdate(originalUrl, shortCode?)`. */
  datatype UpdateCall = UpdateCall(originalUrl: string, shortCode: Option<string>)

  datatype FormState = FormState(isEditing: bool, editUrl: string, editShortCode: string, isUpdating: bool)

  /** The initial `useState` values: viewing, empty fields, not updating. */
  const Viewing := FormState(false, "", "", false)

  /** The arguments handed to `onUpdate`: the trimmed URL, and the trimmed
      code, left out when it is blank. The URL is never blank. */
  function UpdateCallFor(editUrl: string, editShortCode: string): (r: Option<UpdateCall>)
    ensures r.None? <==> IsBlank(editUrl)
    ensures r.Some? ==> r.value.originalUrl == Trim(editUrl) && r.value.originalUrl != []
    ensures r.Some? ==> r.value.shortCode == TrimOrUndefined(editShortCode)
  {
    if IsBlank(editUrl) then None else Some(UpdateCall(Trim(editUrl), TrimOrUndefined(editShortCode)))
  }

  /** What `onUpdate` receives is already trimmed: passing it through the
      form again gives the same call. */
  lemma UpdateCallStable(editUrl: string, editShortCode: string)
    requires UpdateCallFor(editUrl, editShortCode).Some?
    ensures var c := UpdateCallFor(editUrl, editShortCode).value;
            UpdateCallFor(c.originalUrl, if c.shortCode.Some? then c.shortCode.value else "") == Some(c)
  {
    var c := UpdateCallFor(editUrl, editShortCode).value;
    TrimIdempotent(editUrl);
    TrimOrUndefinedTrimmed(editShortCode);
    if c.shortCode.Some? {
      TrimIdempotent(editShortCode);
    }
  }

  class EditForm {
    var isEditing: bool
    var editUrl: string
    var editShortCode: string
    var isUpdating: bool

    function State(): FormState
      reads this
    {
      FormState(isEditing, editUrl, editShortCode, isUpdating)
    }

    /** The URL the input shows: the edited text while editing, the
        stored URL otherwise. */
    function ShownUrl(stats: UrlStats): string
      reads this
    {
      if isEditing then editUrl else stats.originalUrl
    }

    constructor()
      ensures State() == Viewing
    {
      isEditing, editUrl, editShortCode, isUpdating := false, "", "", false;
    }

    /** `startEditing()`: editing the link's URL and code as stored, so the
        input shows the same URL as before. */
    method StartEditing(stats: UrlStats)
      modifies this
      ensures State() == old(State()).(isEditing := true, editUrl := stats.originalUrl,
                                       editShortCode := stats.shortCode)
      ensures ShownUrl(stats) == stats.originalUrl
    {
      isEditing := true;
      editUrl := stats.originalUrl;
      editShortCode := stats.shortCode;
    }

    /** `cancelEditing()`: viewing again, both fields empty. */
    method CancelEditing()
      modifies this
      ensures State() == old(State()).(isEditing := false, editUrl := "", editShortCode := "")
    {
      isEditing := false;
      editUrl := "";
      editShortCode := "";
    }

    /** `handleUpdate()`: a blank URL does nothing at all. Otherwise
        `onUpdate` is called with the trimmed values; when it resolves the
        form is back to viewing with empty fields, when it throws the form
        keeps editing with its fields and the exception goes on to the
        caller (`threw`). The updating flag ends false either way. */
    method HandleUpdate(succeeds: bool) returns (call: Option<UpdateCall>, threw: bool)
      modifies this
      ensures call == UpdateCallFor(old(editUrl), old(editShortCode))
      ensures threw <==> call.Some? && !succeeds
      ensures call.None? ==> State() == old(State())
      ensures call.Some? && succeeds ==>
                State() == old(State()).(isEditing := false, editUrl := "", editShortCode := "", isUpdating := false)
      ensures call.Some? && !succeeds ==> State() == old(State()).(isUpdating := false)
    {
      call := UpdateCallFor(editUrl, editShortCode);
      threw := false;
      if call.None? {
        return;
      }
      isUpdating := true;
      if succeeds {
        CancelEditing();
      } else {
        threw := true;
      }
      isUpdating := false;
    }
  }
}
