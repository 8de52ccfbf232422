/** The dashboard page (`app/dashboard/page.tsx`): the user's list of short
    links, the create / delete / inline-edit handlers that rewrite it, and
    the normalisation of the pagination record the backend sends. The
    network answers reach the handlers as parameters, and the QR-code
    generator is a function of the short URL handed in by the caller. */
module Dashboard {
  import opened Common
  import opened JsNumbers
  import Lists
  import opened Pagination

  // ---------------------------------------------------------------------
  // Pagination normalisation
  // ---------------------------------------------------------------------

  /** A JSON value as it may arrive in a pagination field (arrays, objects
      and fractional numbers are not modelled). */
  datatype Json = JUndefined | JNull | JBool(b: bool) | JNum(n: int) | JStr(s: string)

  /** `Number(v)`; `None` stands for NaN. */
  function ToNumber(v: Json): (r: Option<int>)
    ensures v.JUndefined? ==> r.None?
    ensures v.JNull? ==> r == Some(0)
    ensures v.JNum? ==> r == Some(v.n)
    ensures v.JStr? && IsBlank(v.s) ==> r == Some(0)
  {
    match v
    case JUndefined => None
    case JNull => Some(0)
    case JBool(b) => Some(if b then 1 else 0)
    case JNum(n) => Some(n)
    case JStr(s) => StringToNumber(s)
  }

  /** `Boolean(v)`. For everything but a string it agrees with the
      truthiness of `Number(v)`; a string is true when it is not empty,
      whatever number it spells. */
  predicate Truth(v: Json)
    ensures !v.JStr? ==> (Truth(v) <==> Kept(v))
    ensures v.JStr? ==> (Truth(v) <==> v.s != [])
  {
    match v
    case JUndefined => false
    case JNull => false
    case JBool(b) => b
    case JNum(n) => n != 0
    case JStr(s) => s != []
  }

  /** `Number(v)` is truthy: a number other than 0 and NaN. */
  predicate Kept(v: Json)
  {
    ToNumber(v).Some? && ToNumber(v).value != 0
  }

  /** `Number(v) || fallback`: the number when it is neither 0 nor NaN,
      the fallback otherwise. */
  function NumberOr(v: Json, fallback: int): (r: int)
    ensures Kept(v) ==> r == ToNumber(v).value && r != 0
    ensures !Kept(v) ==> r == fallback
    ensures fallback != 0 ==> r != 0
  {
    OrElse(ToNumber(v), fallback)
  }

  /** `data.data.pagination` as received. */
  datatype RawPagination = RawPagination(
    currentPage: Json, perPage: Json, total: Json, totalPages: Json,
    hasNext: Json, hasPrev: Json)

  /** The record stored by `fetchUrls`: every count goes through
      `Number(..) || default` (1, 10, 0 and 0) and both flags through
      `Boolean`. The page and the page size are never 0, and a total is
      either the number received or 0. */
  function Normalize(raw: RawPagination): (r: PaginationInfo)
    ensures r.currentPage != 0 && r.perPage != 0
    ensures r.currentPage == if Kept(raw.currentPage) then ToNumber(raw.currentPage).value else 1
    ensures r.perPage == if Kept(raw.perPage) then ToNumber(raw.perPage).value else 10
    ensures r.total == if Kept(raw.total) then ToNumber(raw.total).value else 0
    ensures r.totalPages == if Kept(raw.totalPages) then ToNumber(raw.totalPages).value else 0
    ensures r.hasNext == Truth(raw.hasNext) && r.hasPrev == Truth(raw.hasPrev)
  {
    PaginationInfo(
      NumberOr(raw.currentPage, 1),
      NumberOr(raw.perPage, 10),
      NumberOr(raw.total, 0),
      NumberOr(raw.totalPages, 0),
      Truth(raw.hasNext),
      Truth(raw.hasPrev))
  }

  /** A flag sent as the string "false" or "0" is read as true. */
  lemma StringFlagsAreTrue(raw: RawPagination)
    requires raw.hasNext == JStr("false") && raw.hasPrev == JStr("0")
    ensures Normalize(raw).hasNext && Normalize(raw).hasPrev
  {
  }

  /** A pagination record written back as JSON numbers and booleans. */
  function Encode(p: PaginationInfo): RawPagination
  {
    RawPagination(JNum(p.currentPage), JNum(p.perPage), JNum(p.total), JNum(p.totalPages),
                  JBool(p.hasNext), JBool(p.hasPrev))
  }

  /** A record with a non-zero page and page size survives normalisation
      unchanged. */
  lemma NormalizeEncoded(p: PaginationInfo)
    requires p.currentPage != 0 && p.perPage != 0
    ensures Normalize(Encode(p)) == p
  {
  }

  /** Normalising an already normalised record changes nothing. */
  lemma NormalizeIdempotent(raw: RawPagination)
    ensures Normalize(Encode(Normalize(raw))) == Normalize(raw)
  {
    NormalizeEncoded(Normalize(raw));
  }

  /** A backend that leaves every field out, or sends `null` everywhere,
      yields page 1 of size 10 with nothing in it. */
  lemma NormalizeMissing()
    ensures Normalize(RawPagination(JUndefined, JUndefined, JUndefined, JUndefined, JUndefined, JUndefined))
              == PaginationInfo(1, 10, 0, 0, false, false)
    ensures Normalize(RawPagination(JNull, JNull, JNull, JNull, JNull, JNull))
              == PaginationInfo(1, 10, 0, 0, false, false)
  {
  }

  /** A count sent as a decimal string normalises exactly like the same
      count sent as a number. */
  lemma NumberOrDecimalString(n: nat, fallback: int)
    ensures NumberOr(JStr(NatToString(n)), fallback) == NumberOr(JNum(n), fallback)
  {
    StringToNumberOfDecimal(n);
  }

  // ---------------------------------------------------------------------
  // The URL list
  // ---------------------------------------------------------------------

  /** One row of the list; `qrCode` is filled in by the client and
      `updatedAt` only after an edit. */
  datatype UrlEntry = UrlEntry(
    id: int, originalUrl: string, shortCode: string, shortUrl: string,
    clickCount: int, createdAt: string,
    qrCode: Option<string>, updatedAt: Option<string>)

  /** `{ ...url, qr_code: generateQRCode(url.short_url) }`. */
  function WithQr(u: UrlEntry, qrOf: string -> string): (r: UrlEntry)
    ensures r.qrCode == Some(qrOf(u.shortUrl))
    ensures r.(qrCode := u.qrCode) == u
  {
    u.(qrCode := Some(qrOf(u.shortUrl)))
  }

  function UrlId(u: UrlEntry): int
  {
    u.id
  }

  /** `urls.filter(url => url.id !== id)`: no entry with that id is left,
      and every other entry is. */
  function RemoveById(urls: seq<UrlEntry>, id: int): (r: seq<UrlEntry>)
    ensures |r| <= |urls|
    ensures forall i :: 0 <= i < |r| ==> r[i].id != id && r[i] in urls
    ensures forall i :: 0 <= i < |urls| && urls[i].id != id ==> urls[i] in r
  {
    Lists.RemoveKey(urls, UrlId, id)
  }

  /** Deleting splits over the two halves of the list, so the entries that
      stay keep their relative order. */
  lemma RemoveByIdKeepsOrder(a: seq<UrlEntry>, b: seq<UrlEntry>, id: int)
    ensures RemoveById(a + b, id) == RemoveById(a, id) + RemoveById(b, id)
  {
    Lists.RemoveKeyAppend(a, b, UrlId, id);
  }

  /** Deleting the same id twice is the same as deleting it once. */
  lemma RemoveByIdIdempotent(urls: seq<UrlEntry>, id: int)
    ensures RemoveById(RemoveById(urls, id), id) == RemoveById(urls, id)
  {
    Lists.RemoveKeyIdempotent(urls, UrlId, id);
  }

  /** The list is left as it was exactly when no entry has the id. */
  lemma RemoveByIdUnchanged(urls: seq<UrlEntry>, id: int)
    ensures RemoveById(urls, id) == urls <==> forall i :: 0 <= i < |urls| ==> urls[i].id != id
  {
    Lists.RemoveKeyUnchanged(urls, UrlId, id);
  }

  /** The fields of the updated URL in the response to the edit. */
  datatype UpdatedData = UpdatedData(originalUrl: string, shortCode: string, shortUrl: string, updatedAt: string)

  /** The row an edit is aimed at: `url.id === editingId` (nothing when no
      row is being edited). */
  predicate Targeted(u: UrlEntry, editingId: Option<int>)
  {
    editingId == Some(u.id)
  }

  /** The first `setUrls` of `updateURL`: the edited row takes the URL,
      the code, the short URL and the time stamp of the response; every
      other row, and every other field, is kept. */
  function ApplyEdit(urls: seq<UrlEntry>, editingId: Option<int>, d: UpdatedData): (r: seq<UrlEntry>)
    ensures |r| == |urls|
    ensures forall i :: 0 <= i < |urls| ==>
              r[i].id == urls[i].id && r[i].clickCount == urls[i].clickCount &&
              r[i].createdAt == urls[i].createdAt && r[i].qrCode == urls[i].qrCode
    ensures forall i :: 0 <= i < |urls| && Targeted(urls[i], editingId) ==>
              r[i].originalUrl == d.originalUrl && r[i].shortCode == d.shortCode &&
              r[i].shortUrl == d.shortUrl && r[i].updatedAt == Some(d.updatedAt)
    ensures forall i :: 0 <= i < |urls| && !Targeted(urls[i], editingId) ==> r[i] == urls[i]
  {
    Lists.MapWhere(urls, u => Targeted(u, editingId),
                   (u: UrlEntry) => u.(originalUrl := d.originalUrl, shortCode := d.shortCode,
                           shortUrl := d.shortUrl, updatedAt := Some(d.updatedAt)))
  }

  /** The second `setUrls` of `updateURL`: the targeted row gets the new
      QR code, nothing else changes. */
  function SetQr(urls: seq<UrlEntry>, editingId: Option<int>, qr: string): (r: seq<UrlEntry>)
    ensures |r| == |urls|
    ensures forall i :: 0 <= i < |urls| && Targeted(urls[i], editingId) ==>
              r[i].qrCode == Some(qr) && r[i].(qrCode := urls[i].qrCode) == urls[i]
    ensures forall i :: 0 <= i < |urls| && !Targeted(urls[i], editingId) ==> r[i] == urls[i]
  {
    Lists.MapWhere(urls, u => Targeted(u, editingId), (u: UrlEntry) => u.(qrCode := Some(qr)))
  }

  /** The list `updateURL` leaves behind. Both `setUrls` calls map over the
      list as it was when the handler started, and the later one wins:
      when the response carries a short URL the stored list is the old
      list with only the QR code of the edited row replaced. */
  function AfterUpdate(urls: seq<UrlEntry>, editingId: Option<int>, d: UpdatedData, qr: string): (r: seq<UrlEntry>)
    ensures |r| == |urls|
    ensures forall i :: 0 <= i < |urls| ==> r[i].id == urls[i].id
  {
    if d.shortUrl != [] then SetQr(urls, editingId, qr) else ApplyEdit(urls, editingId, d)
  }

  /** Whenever the response carries a short URL, the edited row keeps its
      old URL, code, short URL and time stamp: only its QR code changes. */
  lemma StaleQrWriteDiscardsEdit(urls: seq<UrlEntry>, editingId: Option<int>, d: UpdatedData, qr: string, i: int)
    requires d.shortUrl != [] && 0 <= i < |urls| && Targeted(urls[i], editingId)
    ensures AfterUpdate(urls, editingId, d, qr)[i].originalUrl == urls[i].originalUrl
    ensures AfterUpdate(urls, editingId, d, qr)[i].shortCode == urls[i].shortCode
    ensures AfterUpdate(urls, editingId, d, qr)[i].shortUrl == urls[i].shortUrl
    ensures AfterUpdate(urls, editingId, d, qr)[i].updatedAt == urls[i].updatedAt
    ensures AfterUpdate(urls, editingId, d, qr)[i].qrCode == Some(qr)
  {
    var r := AfterUpdate(urls, editingId, d, qr);
    assert r[i].(qrCode := urls[i].qrCode) == urls[i];
  }

  /** Only a response without a short URL leaves the edit in the list. */
  lemma EditVisibleOnlyWithoutShortUrl(urls: seq<UrlEntry>, editingId: Option<int>, d: UpdatedData, qr: string, i: int)
    requires 0 <= i < |urls| && Targeted(urls[i], editingId)
    requires urls[i].originalUrl != d.originalUrl
    ensures AfterUpdate(urls, editingId, d, qr)[i].originalUrl == d.originalUrl <==> d.shortUrl == []
  {
    if d.shortUrl != [] {
      StaleQrWriteDiscardsEdit(urls, editingId, d, qr, i);
    }
  }

  /** An edit with no row selected leaves the list as it was. */
  lemma AfterUpdateWithoutTarget(urls: seq<UrlEntry>, d: UpdatedData, qr: string)
    ensures AfterUpdate(urls, None, d, qr) == urls
  {
    var r := AfterUpdate(urls, None, d, qr);
    assert forall i :: 0 <= i < |urls| ==> !Targeted(urls[i], None);
    assert forall i :: 0 <= i < |urls| ==> r[i] == urls[i];
  }

  // ---------------------------------------------------------------------
  // The page component
  // ---------------------------------------------------------------------

  const LoadError := "Failed to load URLs"
  const LoadRetryError := "Failed to load URLs. Please try again."
  const EmptyUrlError := "Please enter a valid URL"
  const CreateError := "Failed to create short URL. Please try again."
  const DeleteError := "Failed to delete URL. Please try again."
  const EmptyEditError := "Original URL tidak boleh kosong"

  /** How a request ended: a non-2xx status, or an exception whose message
      is given (`None` when the thrown value is not an `Error`). */
  datatype Failure = NotOk | Thrown(message: Option<string>)

  /** The error `updateURL` shows for a failure. */
  function UpdateErrorMessage(f: Failure): (r: string)
    ensures f.NotOk? ==> r == "Failed to update URL"
    ensures f.Thrown? && f.message.Some? ==> r == f.message.value
    ensures f == Thrown(None) ==> r == "An error occurred"
  {
    match f
    case NotOk => "Failed to update URL"
    case Thrown(m) => if m.Some? then m.value else "An error occurred"
  }

  /** How a `fetchUrls` round trip ends: a failed request or unparsable
      body, an answer without `status` or `data`, a full answer, or an
      answer whose `data` holds the links but no `pagination` record (the
      read of `pagination.current_page` then throws after the links were
      already stored). */
  datatype LoadOutcome =
    | LoadFailed
    | LoadNoData
    | Loaded(urls: seq<UrlEntry>, raw: RawPagination)
    | LoadedNoPagination(urls: seq<UrlEntry>)

  /** The query string of the list request: `?page=…&limit=…`. */
  datatype UrlsQuery = UrlsQuery(page: int, limit: int)
  datatype CreateOutcome = CreateFailed | Created(entry: UrlEntry)
  datatype UpdateOutcome = UpdateFailed(failure: Failure) | UpdateNoData | Updated(data: UpdatedData)

  /** What `updateURL` sends: the row id in the path and the JSON body. */
  datatype UpdateRequest = UpdateRequest(id: Option<int>, originalUrl: string, shortCode: Option<string>)

  /** Every received row with its QR code, in the received order. */
  function QrCoded(received: seq<UrlEntry>, qrOf: string -> string): (r: seq<UrlEntry>)
    ensures |r| == |received|
    ensures forall i :: 0 <= i < |r| ==> r[i] == WithQr(received[i], qrOf)
  {
    seq(|received|, i requires 0 <= i < |received| => WithQr(received[i], qrOf))
  }

  /** A snapshot of the component's state. */
  datatype DashboardState = DashboardState(
    urls: seq<UrlEntry>, loading: bool, error: string,
    showCreateForm: bool, newUrl: string, creating: bool,
    editingId: Option<int>, editOriginalUrl: string, editShortCode: string,
    isUpdating: bool, pagination: PaginationInfo)

  const Initial := DashboardState([], true, "", false, "", false, None, "", "", false,
                                  PaginationInfo(1, 5, 0, 0, false, false))

  /** The state `fetchUrls` leaves behind. Loading always ends. Only an
      answer with links replaces the list; only a full answer replaces the
      pagination; every incomplete answer sets an error, and no answer
      clears one. The create and edit fields are never touched. */
  function AfterLoad(s: DashboardState, outcome: LoadOutcome, qrOf: string -> string): (r: DashboardState)
    ensures !r.loading
    ensures r.urls == (if outcome.Loaded? || outcome.LoadedNoPagination? then QrCoded(outcome.urls, qrOf) else s.urls)
    ensures r.pagination == (if outcome.Loaded? then Normalize(outcome.raw) else s.pagination)
    ensures r.error == (if outcome.Loaded? then s.error
                        else if outcome.LoadNoData? then LoadError
                        else LoadRetryError)
    ensures r.(urls := s.urls, loading := s.loading, error := s.error, pagination := s.pagination) == s
  {
    match outcome
    case LoadFailed => s.(loading := false, error := LoadRetryError)
    case LoadNoData => s.(loading := false, error := LoadError)
    case Loaded(received, raw) => s.(urls := QrCoded(received, qrOf), loading := false, pagination := Normalize(raw))
    case LoadedNoPagination(received) => s.(urls := QrCoded(received, qrOf), loading := false, error := LoadRetryError)
  }

  class DashboardPage {
    var urls: seq<UrlEntry>
    var loading: bool
    var error: string
    var showCreateForm: bool
    var newUrl: string
    var creating: bool
    var editingId: Option<int>
    var editOriginalUrl: string
    var editShortCode: string
    var isUpdating: bool
    var pagination: PaginationInfo

    function State(): DashboardState
      reads this
    {
      DashboardState(urls, loading, error, showCreateForm, newUrl, creating,
                     editingId, editOriginalUrl, editShortCode, isUpdating, pagination)
    }

    /** No row is being edited only while both edit fields are empty. */
    predicate EditFormConsistent()
      reads this
    {
      editingId.None? ==> editOriginalUrl == "" && editShortCode == ""
    }

    /** The `useState` initial values: an empty list while loading, page 1
        of size 5. */
    constructor()
      ensures State() == Initial && EditFormConsistent()
    {
      urls, loading, error := [], true, "";
      showCreateForm, newUrl, creating := false, "", false;
      editingId, editOriginalUrl, editShortCode := None, "", "";
      isUpdating := false;
      pagination := PaginationInfo(1, 5, 0, 0, false, false);
    }

    /** `fetchUrls(page)`: asks for `page` with the current page size; a
        list in the answer replaces the shown list (each row with its QR
        code) and the normalised record replaces the pagination. A missing
        list or a failure only sets an error; a success does not clear an
        earlier one. */
    method FetchUrls(page: int, outcome: LoadOutcome, qrOf: string -> string) returns (query: UrlsQuery)
      modifies this
      ensures query == UrlsQuery(page, old(pagination.perPage))
      ensures State() == AfterLoad(old(State()), outcome, qrOf)
      ensures EditFormConsistent() == old(EditFormConsistent())
    {
      loading := true;
      query := UrlsQuery(page, pagination.perPage);
      match outcome {
        case LoadFailed =>
          error := LoadRetryError;
        case LoadNoData =>
          error := LoadError;
        case Loaded(received, raw) =>
          urls := QrCoded(received, qrOf);
          pagination := Normalize(raw);
        case LoadedNoPagination(received) =>
          urls := QrCoded(received, qrOf);
          error := LoadRetryError;
      }
      loading := false;
    }

    /** A click in the list footer: Previous, Next or a page number.  A
        disabled or missing button sends nothing and changes nothing; any
        other click loads the page `Requested` names, with the current page
        size. */
    method Navigate(c: Click, outcome: LoadOutcome, qrOf: string -> string) returns (query: Option<UrlsQuery>)
      modifies this
      ensures Requested(old(pagination), c).None? ==> query.None? && State() == old(State())
      ensures Requested(old(pagination), c).Some? ==>
                query == Some(UrlsQuery(Requested(old(pagination), c).value, old(pagination.perPage))) &&
                State() == AfterLoad(old(State()), outcome, qrOf)
    {
      var target := Requested(pagination, c);
      if target.Some? {
        var q := FetchUrls(target.value, outcome, qrOf);
        query := Some(q);
      } else {
        query := None;
      }
    }

    /** `createUrl`: a blank input only sets an error and sends nothing.
        Otherwise the input is sent as typed; on success the new row (with
        its QR code) goes in front of the old rows, the input is cleared
        and the form hidden; on any failure one error message is shown. */
    method CreateUrl(outcome: CreateOutcome, qrOf: string -> string) returns (sent: Option<string>)
      modifies this
      ensures IsBlank(old(newUrl)) ==> sent.None? && State() == old(State()).(error := EmptyUrlError)
      ensures !IsBlank(old(newUrl)) ==> sent == Some(old(newUrl))
      ensures !IsBlank(old(newUrl)) && outcome.CreateFailed? ==>
                State() == old(State()).(error := CreateError, creating := false)
      ensures !IsBlank(old(newUrl)) && outcome.Created? ==>
                State() == old(State()).(urls := [WithQr(outcome.entry, qrOf)] + old(urls),
                                         newUrl := "", showCreateForm := false, error := "",
                                         creating := false)
      ensures EditFormConsistent() == old(EditFormConsistent())
    {
      if IsBlank(newUrl) {
        error := EmptyUrlError;
        return None;
      }
      sent := Some(newUrl);
      creating := true;
      error := "";
      match outcome {
        case CreateFailed =>
          error := CreateError;
        case Created(entry) =>
          urls := [WithQr(entry, qrOf)] + urls;
          newUrl := "";
          showCreateForm := false;
      }
      creating := false;
    }

    /** `deleteUrl(id)`: nothing happens unless the user confirms; then a
        successful request drops every row with that id and a failed one
        only sets an error. */
    method DeleteUrl(id: int, confirmed: bool, ok: bool) returns (requested: bool)
      modifies this
      ensures requested == confirmed
      ensures !confirmed ==> State() == old(State())
      ensures confirmed && ok ==> State() == old(State()).(urls := RemoveById(old(urls), id))
      ensures confirmed && !ok ==> State() == old(State()).(error := DeleteError)
      ensures EditFormConsistent() == old(EditFormConsistent())
    {
      requested := confirmed;
      if !confirmed {
        return;
      }
      if ok {
        urls := RemoveById(urls, id);
      } else {
        error := DeleteError;
      }
    }

    /** `startEditing(url)`: the row becomes the edited one and the fields
        take its URL and code. */
    method StartEditing(u: UrlEntry)
      modifies this
      ensures State() == old(State()).(editingId := Some(u.id),
                                       editOriginalUrl := u.originalUrl, editShortCode := u.shortCode)
      ensures EditFormConsistent()
    {
      editingId := Some(u.id);
      editOriginalUrl := u.originalUrl;
      editShortCode := u.shortCode;
    }

    /** `cancelEditing()`: no row is edited and both fields are empty. */
    method CancelEditing()
      modifies this
      ensures State() == old(State()).(editingId := None, editOriginalUrl := "", editShortCode := "")
      ensures EditFormConsistent()
    {
      editingId := None;
      editOriginalUrl := "";
      editShortCode := "";
    }

    /** `updateURL()`: a blank URL only sets an error and sends nothing.
        Otherwise the request carries the edited row's id, the trimmed URL
        and the trimmed code (left out when blank). A failure shows its
        message and keeps the edit open; any other answer closes the edit
        and clears the error, and an answer with data rewrites the list as
        `AfterUpdate` says. The updating flag ends false. */
    method UpdateUrl(outcome: UpdateOutcome, qrOf: string -> string) returns (request: Option<UpdateRequest>)
      modifies this
      ensures IsBlank(old(editOriginalUrl)) ==>
                request.None? && State() == old(State()).(error := EmptyEditError)
      ensures !IsBlank(old(editOriginalUrl)) ==>
                request == Some(UpdateRequest(old(editingId), Trim(old(editOriginalUrl)),
                                              TrimOrUndefined(old(editShortCode))))
      ensures !IsBlank(old(editOriginalUrl)) && outcome.UpdateFailed? ==>
                State() == old(State()).(error := UpdateErrorMessage(outcome.failure), isUpdating := false)
      ensures !IsBlank(old(editOriginalUrl)) && outcome.UpdateNoData? ==>
                State() == old(State()).(editingId := None, editOriginalUrl := "", editShortCode := "",
                                         error := "", isUpdating := false)
      ensures !IsBlank(old(editOriginalUrl)) && outcome.Updated? ==>
                State() == old(State()).(urls := AfterUpdate(old(urls), old(editingId), outcome.data,
                                                             qrOf(outcome.data.shortUrl)),
                                         editingId := None, editOriginalUrl := "", editShortCode := "",
                                         error := "", isUpdating := false)
      ensures EditFormConsistent() == (old(EditFormConsistent()) || (!IsBlank(old(editOriginalUrl)) && !outcome.UpdateFailed?))
    {
      if IsBlank(editOriginalUrl) {
        error := EmptyEditError;
        return None;
      }
      var target, url, code := editingId, editOriginalUrl, editShortCode;
      isUpdating := true;
      match outcome {
        case UpdateFailed(f) =>
          error := UpdateErrorMessage(f);
        case UpdateNoData =>
          CancelEditing();
          error := "";
        case Updated(d) =>
          var before := urls;
          urls := ApplyEdit(before, target, d);
          if d.shortUrl != [] {
            urls := SetQr(before, target, qrOf(d.shortUrl));
          }
          CancelEditing();
          error := "";
      }
      isUpdating := false;
      request := Some(UpdateRequest(target, Trim(url), TrimOrUndefined(code)));
    }
  }
}
