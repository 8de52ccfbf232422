# URL shortener client — a Dafny model of its page logic

This project models the client-side logic of a URL-shortener web app (a
Next.js front end). It covers:

- the dashboard, which lists, creates, edits and deletes short links,
  normalises the pagination the server returns and shows QR codes;
- the `Pagination` component and the analytics page (month labels, the
  link filter, averages, chart scales, the sorted monthly series, the
  truncated labels of the click table), and the `AnalyticsOverview` card;
- the change-password form of the profile page and the sign-up form;
- the three message components: the notification centre, the toast
  queue and the alert queue;
- the confirmation-dialog hook and the edit form of a link's detail page.

The code that works on values (formatting, parsing, validation, list
rewriting) is written as functions and lemmas. Every piece of React state
that a handler updates is a `class` whose fields are that state. Each
handler is a `method` whose `ensures` states the entire new state.

JavaScript behaviour the pages rely on is written out:

- `parseInt` (leading white space, sign, `0x`, trailing garbage);
- `Number(...)` on strings and JSON values;
- `Boolean(...)`;
- `||` on numbers, strings and optional values;
- `String.prototype.trim`;
- `Math.round` on an integer quotient;
- React's default props.

These live in `common.dfy` and `js_numbers.dfy`. Generic list rewriting
(`filter`, `map`, removal by key) lives in `lists.dfy`.

Anything that crosses the network is a parameter: the outcome of an
awaited `fetch`, the server's reply, the QR-code generator, and the clock
values used as ids and time stamps. The handlers run as one step from
their start to their `finally`. Where the model covers what a handler
sends (the page and page size of the dashboard's list request, the
body of a create or an update), that request is returned as a result.

## Model

| member | source | states |
|---|---|---|
| Common.Trim | app/dashboard/page.tsx:126 | The trimmed text is the input with only a white prefix and a white suffix removed, and it neither starts nor ends with ECMAScript white space |
| Common.BlankIffAllWhite | app/dashboard/page.tsx:126-129 | `!s.trim()` holds exactly when every character of `s` is white space |
| Common.TrimIdempotent | app/dashboard/page.tsx:263 | Trimming an already trimmed text changes nothing |
| Common.TrimOrUndefined | app/dashboard/page.tsx:264 | `s.trim() \|\| undefined` is absent exactly for a blank text, and otherwise is the trimmed text |
| Common.TrimOrUndefinedTrimmed | app/components/organisms/URLDetails.tsx:49 | A present value is not blank and is already trimmed; applying the same step to the trimmed text gives the same value |
| Common.MessageOr | app/register/page.tsx:47 | `message \|\| fallback` is the server's message when it is a non-empty string and the fallback otherwise; it is never empty when the fallback is not |
| Common.CaughtMessage | app/profile/page.tsx:72-85 | A rejected reply shows the server's message or the handler's default; a thrown error shows its own message, or the generic text when it has none |
| Common.RoundQuotient | app/analytics/page.tsx:209 | `Math.round(t / n)` is the integer closest to t/n, with halves rounded up |
| Common.RoundQuotientBounds | app/analytics/page.tsx:208-211 | A rounded average of a non-negative total over a positive count lies between 0 and the total |
| Lists.RemoveKey | app/components/Toast.tsx:146-148 | After removal by id, no entry has that id, every remaining entry was in the list, and every entry with another id is kept |
| Lists.RemoveKeyAppend | app/components/Alert.tsx:140-142 | Removal keeps the order of the remaining entries: it distributes over concatenation |
| Lists.RemoveKeyIdempotent | app/components/Notification.tsx:56-58 | Removing the same id twice is the same as removing it once |
| Lists.RemoveKeyUnchanged | app/components/Toast.tsx:146-148 | Removal leaves the list unchanged exactly when no entry has that id |
| Lists.Filter | app/analytics/page.tsx:227 | The kept elements are elements of the input satisfying the test, and every element that satisfies it is kept |
| Lists.FilterLength | app/analytics/page.tsx:227 | The length of the filtered list is the number of positions whose element satisfies the test |
| Lists.MapWhere | app/components/Notification.tsx:64-70 | The selected entries are replaced by their update and all others are kept, in place |
| JsNumbers.ParseInt | app/analytics/page.tsx:45 | `parseInt` of a text that is all white space is NaN, and a negative result comes from a text whose first non-white character is `-` |
| JsNumbers.ParseIntAfterWhite | app/analytics/page.tsx:45 | `parseInt` ignores white space in front of the number |
| JsNumbers.ParseIntOfDecimal | app/analytics/page.tsx:45 | `parseInt` of a decimal numeral followed by a non-digit tail gives back the number |
| JsNumbers.StringToNumber | app/dashboard/page.tsx:101-104 | `Number` of a blank text is 0; a negative result comes from a trimmed text starting with `-`; a non-blank text gives a number only when it contains a digit |
| JsNumbers.StringToNumberOfDecimal | app/dashboard/page.tsx:101-104 | `Number` of a decimal numeral gives back the number |
| Analytics.FormatMonth | app/analytics/page.tsx:43-47 | The label is the Indonesian short month name (Jan … Mei … Agu … Des) when `parseInt` gives a number from 1 to 12, and the input text otherwise |
| Analytics.FormatMonthOfNumber | app/analytics/page.tsx:43-47 | Month k from 1 to 12, written as a numeral, is labelled with the k-th month name |
| Analytics.FormatMonthOutOfRange | app/analytics/page.tsx:43-47 | A numeral for 0 or for a number above 12 is shown unchanged |
| Analytics.FilterParam | app/analytics/page.tsx:67 | The query suffix is empty exactly when no link, an empty one or "all" is selected; otherwise it is `?url=` followed by the selected code |
| Analytics.FilterParamRoundTrip | app/analytics/page.tsx:67 | Reading the query suffix back gives the selected short code, or "all" when no specific link is selected |
| Analytics.AverageClicksPerLink | app/analytics/page.tsx:208-211 | With no links the average is 0; otherwise it is the rounded quotient, which stays between 0 and a non-negative total |
| Analytics.ActiveLinkCount | app/analytics/page.tsx:227 | The count is exactly the number of links with at least one click; it is at most the number of links, it equals that number exactly when every link has a click, and is 0 exactly when none has |
| Analytics.MaxClicks | app/analytics/page.tsx:255 | The chart scale is at least 1, bounds every bar, and is either 1 or one of the values |
| Analytics.YTicks | app/analytics/page.tsx:256 | The axis shows the scale, its half rounded down, and 0, in non-increasing order |
| Analytics.InsertBy | app/analytics/page.tsx:345-347 | Inserting a month into the sorted series adds exactly that month |
| Analytics.InsertByAscending | app/analytics/page.tsx:345-347 | Inserting a keyed month into an ascending series keeps it ascending |
| Analytics.SortBy | app/analytics/page.tsx:345-347 | The sorted series is a permutation of the input, and it is ascending by month number when every month has one |
| Analytics.SortMonths | app/analytics/page.tsx:345-347 | The monthly series is a permutation of the server's months, ascending by `parseInt` of the month when every month parses |
| Analytics.MaxClicksSameValues | app/analytics/page.tsx:349 | Two click series holding the same values have the same chart scale |
| Analytics.SortedMonthsSameScale | app/analytics/page.tsx:334-349 | The scale computed before sorting equals the scale of the sorted bars, so the bars drawn from the sorted series fit the scale |
| Analytics.Truncate | app/analytics/page.tsx:505 | A text within the limit is shown whole; a longer one becomes its first n characters followed by `...` |
| Analytics.TruncateIdempotent | app/analytics/page.tsx:160 | Truncating a truncated label again leaves it unchanged |
| Analytics.TruncateShape | app/analytics/page.tsx:505 | A truncated text is at most n + 3 long and keeps its first n characters; a text only 1 or 2 characters over the limit gets longer |
| Analytics.LinkOptionLabel | app/analytics/page.tsx:158-161 | The option reads "code - URL" when the URL is within 30 characters, and "code - " followed by the first 30 characters of the URL and `...` otherwise |
| Analytics.VisibleClicks | app/analytics/page.tsx:493 | The table shows the first 50 click records in order, or all of them when there are fewer |
| Analytics.RefererLabel | app/analytics/page.tsx:509 | The referrer column is never empty: it shows the referrer, or `-` when there is none |
| Analytics.UserAgentLabel | app/analytics/page.tsx:505 | The user-agent column shows a user agent of at most 50 characters whole, and otherwise its first 50 characters followed by `...` |
| AnalyticsOverview.AveragePerDay | app/components/organisms/AnalyticsOverview.tsx:18-20 | With no daily series or an empty one the average is 0; otherwise it is the total divided by the number of days, rounded |
| AnalyticsOverview.AveragePerDayBounds | app/components/organisms/AnalyticsOverview.tsx:18-20 | For a non-negative total the daily average lies between 0 and the total |
| Pagination.FirstShown | app/components/Pagination.tsx:25 | "Showing X" is the position just after the rows of the previous pages: a page of `perPage` slots ending at `currentPage * perPage`, and at least 1 on a real page |
| Pagination.LastShown | app/components/Pagination.tsx:26-27 | The last row shown is the smaller of the page's end and the total |
| Pagination.ShownRangeSize | app/components/Pagination.tsx:25-27 | On a page that starts within the total, the range shown is non-empty and has at most one page's rows |
| Pagination.ShownRangesTile | app/components/Pagination.tsx:25-27 | A full page's range ends right before the next page's range starts |
| Pagination.PageNumbers | app/components/Pagination.tsx:42 | The page buttons are 1, 2, … up to the number of pages, and there is always at least the button for page 1 |
| Pagination.OneActiveButton | app/components/Pagination.tsx:46-48 | Exactly one button is highlighted when the current page is one of the buttons, and none otherwise; it is the current page |
| Pagination.Requested | app/components/Pagination.tsx:31-60 | Previous asks for the page before and Next for the page after, each only while its flag allows it; a page button asks for its own page |
| Pagination.NavigationStaysInRange | app/components/Pagination.tsx:31-60 | When the server's flags match its page count, every page requested is between 1 and the number of pages |
| Dashboard.ToNumber | app/dashboard/page.tsx:101-104 | `Number(v)`: NaN for a missing field, 0 for `null` and for a blank string, the number itself for a number |
| Dashboard.Truth | app/dashboard/page.tsx:105-106 | `Boolean(v)` agrees with the truthiness of `Number(v)` for everything but strings; a string is true exactly when it is not empty |
| Dashboard.StringFlagsAreTrue | app/dashboard/page.tsx:105-106 | A flag sent as the string "false" or "0" is read as true |
| Dashboard.NumberOr | app/dashboard/page.tsx:101-104 | `Number(v) \|\| fallback` is the number `v` converts to when it is neither 0 nor NaN, and the fallback otherwise; it is never 0 when the fallback is not |
| Dashboard.Normalize | app/dashboard/page.tsx:100-107 | Each count is the number received when that number is neither 0 nor NaN, and otherwise its default: page 1, 10 per page, total 0, 0 pages; the page and page size are never 0; the flags are `Boolean` of what was received |
| Dashboard.NormalizeEncoded | app/dashboard/page.tsx:100-107 | Pagination with a non-zero page and page size, when sent as numbers, is read back unchanged |
| Dashboard.NormalizeIdempotent | app/dashboard/page.tsx:100-107 | Normalising normalised pagination changes nothing |
| Dashboard.NormalizeMissing | app/dashboard/page.tsx:100-107 | Missing or null fields give page 1, 10 per page, nothing in total and both flags off |
| Dashboard.NumberOrDecimalString | app/dashboard/page.tsx:101-104 | A count sent as a decimal string is read the same as the count sent as a number |
| Dashboard.WithQr | app/dashboard/page.tsx:89-96 | A listed link gets the QR code of its short URL and keeps every other field |
| Dashboard.RemoveById | app/dashboard/page.tsx:187 | After a delete no link has the deleted id, and every other link is kept |
| Dashboard.RemoveByIdKeepsOrder | app/dashboard/page.tsx:187 | Deleting keeps the order of the remaining links |
| Dashboard.RemoveByIdIdempotent | app/dashboard/page.tsx:187 | Deleting the same id twice is the same as deleting it once |
| Dashboard.RemoveByIdUnchanged | app/dashboard/page.tsx:187 | The list is unchanged exactly when no link has the id |
| Dashboard.ApplyEdit | app/dashboard/page.tsx:276-286 | The edited link takes the server's URL, code, short URL and update time and keeps its id, clicks, creation time and QR code; every other link is unchanged |
| Dashboard.SetQr | app/dashboard/page.tsx:289-295 | The edited link gets the new QR code and every other link is unchanged |
| Dashboard.AfterUpdate | app/dashboard/page.tsx:274-296 | After an update the list has the same length and the same ids in the same places |
| Dashboard.StaleQrWriteDiscardsEdit | app/dashboard/page.tsx:289-295 | When the server returns a short URL, the QR write starts from the list as it was before the edit, so the edited link shows its old URL, code, short URL and update time with the new QR code |
| Dashboard.EditVisibleOnlyWithoutShortUrl | app/dashboard/page.tsx:276-295 | A changed URL becomes visible exactly when the server's answer has no short URL |
| Dashboard.AfterUpdateWithoutTarget | app/dashboard/page.tsx:276-295 | With no link being edited the list is unchanged |
| Dashboard.UpdateErrorMessage | app/dashboard/page.tsx:268-303 | A non-ok reply shows 'Failed to update URL'; a thrown error shows its message, or 'An error occurred' when it has none |
| Dashboard.DashboardPage.constructor | app/dashboard/page.tsx:19-39 | The page starts empty and loading, on page 1 with 5 per page, with no edit in progress |
| Dashboard.AfterLoad | app/dashboard/page.tsx:86-118 | Loading always ends. Only an answer with links replaces the list (each row QR-coded, in order), and only a full answer replaces the pagination with its normalised form. An answer without data sets "Failed to load URLs"; a failure or an answer with links but no pagination record sets the retry message; no answer clears an earlier error. The create and edit fields never change |
| Dashboard.DashboardPage.FetchUrls | app/dashboard/page.tsx:70-120 | The request asks for the given page with the current page size, and the new state is `AfterLoad` of the old one |
| Dashboard.DashboardPage.Navigate | app/dashboard/page.tsx:604-640 | A disabled or missing footer button sends nothing and changes nothing; any other click requests the page `Requested` names, with the current page size, and leaves `AfterLoad` of the old state |
| Dashboard.DashboardPage.CreateUrl | app/dashboard/page.tsx:123-167 | A blank URL only sets the error. Otherwise the untrimmed text is sent. A created link goes first in the list with its QR code, and the form closes and empties; a failure sets the error. The busy flag ends false |
| Dashboard.DashboardPage.DeleteUrl | app/dashboard/page.tsx:170-192 | Nothing is requested or changed without confirmation. An ok reply removes the link by id; any other reply sets the delete error |
| Dashboard.DashboardPage.StartEditing | app/dashboard/page.tsx:233-237 | The edit form holds the chosen link's id, URL and code |
| Dashboard.DashboardPage.CancelEditing | app/dashboard/page.tsx:240-244 | No link is being edited and both edit fields are empty |
| Dashboard.DashboardPage.UpdateUrl | app/dashboard/page.tsx:247-307 | A blank URL only sets the error. Otherwise the trimmed URL is sent, with the trimmed code or no code. A reply with data rewrites the list as AfterUpdate says and closes the edit; a reply without data only closes it; a failure sets the update error. The busy flag ends false |
| Profile.ValidateChange | app/profile/page.tsx:39-52 | Each of the three messages appears exactly when its rule is the first to fail (missing field, new password under 6, confirmation differs); no message means all rules pass |
| Profile.HasMinLength | app/profile/page.tsx:243 | The length indicator is on only for a non-empty password |
| Profile.HasLetter | app/profile/page.tsx:251 | The letter indicator is on exactly when some character of the password is an ASCII letter |
| Profile.HasDigit | app/profile/page.tsx:259 | The number indicator is on exactly when some character of the password is a decimal digit |
| Profile.PasswordsMatch | app/profile/page.tsx:267 | When the match indicator is on, the confirmation is not empty and has the same length status as the password |
| Profile.IndicatorsStayOn | app/profile/page.tsx:243-259 | Typing more characters never turns the length, letter or number indicator off |
| Profile.ValidIffIndicators | app/profile/page.tsx:243-267 | The form passes exactly when a current password is given and the length and match indicators are both on |
| Profile.LettersAndDigitsNotEnforced | app/profile/page.tsx:251-259 | The letter and number indicators are not enforced: every matching password of at least six characters passes, including six letters and six digits |
| Profile.ProfileForm.constructor | app/profile/page.tsx:11-19 | No messages, not busy, all three fields empty |
| Profile.ProfileForm.ChangePassword | app/profile/page.tsx:31-89 | A failed check shows its message and sends nothing. Otherwise the current and new password are sent; success shows the confirmation and empties the three fields, and failure shows the server's or the default message and keeps them. Busy ends false |
| Register.ValidateRegister | app/register/page.tsx:18-26 | A mismatch is reported exactly when the passwords differ, the length message exactly when they match but are under 6 characters; otherwise nothing |
| Register.OrderDiffersFromProfile | app/register/page.tsx:18-26 | For every short password that differs from its confirmation, sign-up reports the mismatch while the profile page reports the length |
| Register.RegisterForm.constructor | app/register/page.tsx:6-12 | All fields empty, not loading, no error |
| Register.RegisterForm.Submit | app/register/page.tsx:14-42 | The error is cleared; a failed check shows its message and sends nothing; otherwise the form turns busy and sends name, username, email and password |
| Register.RegisterForm.Complete | app/register/page.tsx:44-59 | A failed reply shows the server's message or the default; loading ends false either way |
| Messages.RemovalDelay | app/components/Toast.tsx:137-141 | The removal timer is skipped exactly when the duration is 0; it waits the given duration, or the default when none is given |
| Messages.AutoHideDelay | app/components/Alert.tsx:27-28 | A component hides itself exactly when it is shown and its duration (or the default) is positive, after that duration |
| Messages.TimersAgree | app/components/Toast.tsx:29-30 | The queue's removal timer and the component's hide timer have the same delay for a missing or positive duration; for 0 neither runs; for a negative one only the queue's timer is set |
| Notifications.StoredDuration | app/components/Notification.tsx:43 | A non-zero duration is kept; otherwise a persistent notification gets 0 and any other gets 5000; a non-persistent one never gets 0 |
| Notifications.AutoRemoveDelay | app/components/Notification.tsx:49-53 | The removal timer starts exactly for a notification that is not persistent and whose stored duration is positive, after that duration |
| Notifications.AutoRemoveCases | app/components/Notification.tsx:43-53 | A persistent notification is never removed by the provider's timer; others go after 5000 ms or their own positive duration. A negative duration disables only the provider's timer; the item's own timer still hides and removes the notification |
| Notifications.Stamp | app/components/Notification.tsx:38-44 | A new notification keeps the caller's fields, takes the clock's id and time, the stored duration, and is unread |
| Notifications.ItemHideDelay | app/components/Notification.tsx:98-107 | An item hides itself exactly when it is not persistent, after `duration \|\| 5000` |
| Notifications.ItemAndProviderAgree | app/components/Notification.tsx:98-107 | For a stored notification the item's timer waits the stored duration, the same delay as the provider's removal timer whenever that runs; with a negative duration only the item's timer runs, and it still hides and removes the notification |
| Notifications.MarkRead | app/components/Notification.tsx:64-70 | The notifications with that id become read; nothing else about any notification changes |
| Notifications.MarkReadIdempotent | app/components/Notification.tsx:64-70 | Marking twice is marking once |
| Notifications.MarkThenRemove | app/components/Notification.tsx:56-70 | Removing a notification after marking it read gives the same list as removing it directly |
| Notifications.AddThenRemove | app/components/Notification.tsx:46-58 | A notification added under a fresh id and then removed leaves the list as it was |
| Notifications.NotificationCenter.constructor | app/components/Notification.tsx:36 | The list starts empty |
| Notifications.NotificationCenter.AddNotification | app/components/Notification.tsx:38-54 | The new notification goes first and the rest keep their order; the returned delay is the removal timer it starts |
| Notifications.NotificationCenter.RemoveNotification | app/components/Notification.tsx:56-58 | Every notification with that id is removed |
| Notifications.NotificationCenter.ClearNotifications | app/components/Notification.tsx:60-62 | The list becomes empty |
| Notifications.NotificationCenter.MarkAsRead | app/components/Notification.tsx:64-70 | The list becomes MarkRead of the old list |
| Toasts.ToastHideDelay | app/components/Toast.tsx:18-30 | A toast hides itself exactly when shown with a positive duration, after 3000 ms when no duration is given |
| Toasts.ShowThenRemove | app/components/Toast.tsx:135-148 | A toast added under a fresh id and then removed leaves the queue as it was |
| Toasts.ToastQueue.constructor | app/components/Toast.tsx:129 | The queue starts empty |
| Toasts.ToastQueue.ShowToast | app/components/Toast.tsx:131-144 | The toast is appended under the clock's id, which is returned; the removal timer is RemovalDelay with default 3000 |
| Toasts.ToastQueue.RemoveToast | app/components/Toast.tsx:146-148 | Every toast with that id is removed |
| Toasts.ToastQueue.ClearToasts | app/components/Toast.tsx:150-152 | The queue becomes empty |
| Alerts.AlertHideDelay | app/components/Alert.tsx:17-28 | An alert hides itself exactly when shown with a positive duration, after 5000 ms when no duration is given |
| Alerts.ShowThenRemove | app/components/Alert.tsx:129-142 | An alert added under a fresh id and then removed leaves the queue as it was |
| Alerts.AlertQueue.constructor | app/components/Alert.tsx:123 | The queue starts empty |
| Alerts.AlertQueue.ShowAlert | app/components/Alert.tsx:125-138 | The alert is appended under the clock's id, which is returned; the removal timer is RemovalDelay with default 5000 |
| Alerts.AlertQueue.RemoveAlert | app/components/Alert.tsx:140-142 | Every alert with that id is removed |
| Alerts.AlertQueue.ClearAlerts | app/components/Alert.tsx:144-146 | The queue becomes empty |
| Confirmation.Shown | app/components/ConfirmationDialog.tsx:149-161 | A shown record carries the caller's texts and kind, with buttons that run the caller's callbacks when given |
| Confirmation.Render | app/components/ConfirmationDialog.tsx:17-70 | Nothing is drawn for a hidden record; otherwise each missing text takes its default ('Konfirmasi', 'Ya, Lanjutkan', 'Batal', warning) |
| Confirmation.MessageOnlyDialog | app/components/ConfirmationDialog.tsx:19-23 | A dialog given only a message shows all the defaults |
| Confirmation.TransitionsConsistent | app/components/ConfirmationDialog.tsx:134-168 | The hidden and shown records are both consistent (shown exactly when buttons are installed) and only the shown one draws a dialog |
| Confirmation.ConfirmationHook.constructor | app/components/ConfirmationDialog.tsx:125-137 | The dialog starts hidden |
| Confirmation.ConfirmationHook.ShowConfirmation | app/components/ConfirmationDialog.tsx:139-164 | The dialog shows the caller's options; a dialog still open is replaced and its promise is abandoned |
| Confirmation.ConfirmationHook.Confirm | app/components/ConfirmationDialog.tsx:152-156 | The dialog hides, the caller's onConfirm runs if given, and the promise resolves true |
| Confirmation.ConfirmationHook.Cancel | app/components/ConfirmationDialog.tsx:157-161 | The dialog hides, the caller's onCancel runs if given, and the promise resolves false |
| Confirmation.ConfirmationHook.HideConfirmation | app/components/ConfirmationDialog.tsx:166-168 | The dialog hides without running a callback; a pending promise is abandoned |
| UrlDetails.UpdateCallFor | app/components/organisms/URLDetails.tsx:45-49 | No call for a blank URL; otherwise the trimmed, non-empty URL and the trimmed code, left out when blank |
| UrlDetails.UpdateCallStable | app/components/organisms/URLDetails.tsx:49 | Feeding the call's values back through the form gives the same call |
| UrlDetails.EditForm.constructor | app/components/organisms/URLDetails.tsx:27-30 | Viewing, with empty fields, not updating |
| UrlDetails.EditForm.StartEditing | app/components/organisms/URLDetails.tsx:32-36 | Editing the stored URL and code, so the input shows the same URL as before |
| UrlDetails.EditForm.CancelEditing | app/components/organisms/URLDetails.tsx:38-42 | Viewing again with both fields empty |
| UrlDetails.EditForm.HandleUpdate | app/components/organisms/URLDetails.tsx:44-56 | A blank URL changes nothing. Otherwise `onUpdate` gets UpdateCallFor's values; success returns to viewing with empty fields, a throw keeps the fields and passes the error on. Updating ends false |

## Left out

- Network calls, JSON parsing, `localStorage` and page navigation are not modelled: a request is returned as a value, and its outcome is a parameter. This includes storing the token after sign-up and the redirects to the login page.
- QR-code generation is a parameter (`qrOf`) of the dashboard handlers.
- The dashboard's clipboard copy, QR modal and QR download (`copyToClipboard`, `openQRModal`, `downloadQRCode`) are not modelled: they only touch the browser.
- The profile page's account deletion (`handleDeleteAccount`) and its authentication loading flag are not modelled: they are network calls followed by navigation.
- Timers (`setTimeout`) are not modelled. A handler or `add`/`show` call returns the delay of the timer it would start, and the removal the timer performs is the matching remove method.
- Interleavings of concurrent async handlers are not modelled. Each handler runs from its start to its `finally` as one step, so the busy flags `creating`, `isUpdating` and `changingPassword` are only seen in their final `false` state. The sign-up handler is split at its `await` into `Submit` and `Complete`, so its `isLoading` flag is observable.
- Dashboard.DashboardPage.FetchUrls: QR generation is the parameter `qrOf`. A failed generation is caught inside `generateQRCode`, which then returns '' (app/dashboard/page.tsx:51-66). The model covers this by letting `qrOf` return '', so the fetch still succeeds. A failed fetch or JSON parse gives the retry message, and so does a `data` without `urls` (its `map` throws before any state is set), which is why that answer is the outcome `LoadFailed`.
- Numbers are integers. Floating-point division, `NaN` and fractional values from the server are not modelled. `Math.round(t / n)` is computed exactly on integers.
- JsNumbers.StringToNumber reads only optionally signed decimal integers with surrounding white space. Other numeric syntaxes of `Number(...)` (fractions, exponents, hex, `Infinity`), JSON arrays and objects are not modelled.
- Date and locale formatting (`toLocaleString`, `toLocaleDateString`, the weekday labels of the daily chart) and the percentage heights of chart bars are not modelled.
- Style and icon choices by message kind, the CSS classes and the markup are not modelled.
- Lengths are counted in characters, not in UTF-16 code units.
- Analytics.SortBy: proved to return an ascending permutation; stability for months with the same number is not stated.
- The `onChange` setters of the form inputs are not modelled as separate operations: the classes' fields are set directly.
- The `isVisible` state of the toast, alert and dialog components (a one-render lag behind `show`, and the exit animation) is not modelled.
- The analytics page's own fetch, loading and error state is not modelled, and the filter code is not URL-encoded in the query string, as in the source.
- A notification's action button handler is modelled by its label only.
