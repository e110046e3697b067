# GrowthNexus website core, modelled in Dafny

This project models the client-side logic of the GrowthNexus consulting
website: a bilingual (English/Arabic) React application where users buy
credits, use AI services, and administrators manage site texts, settings
and analytics. It covers:

- **Checkout**: applying and removing a promo code, the price shown and charged,
  and the redirect taken from the payment service's answer.
- **Payment callback**: how the returned payment id is found and how the
  verification answer becomes a status, a message, an icon, a title, a colour
  and buttons.
- **Language context**: the active language, its toggle, right-to-left, and the
  dotted-path translation lookup `t`.
- **Content editor**: flattening the locale dictionaries into keys; grouping
  stored rows by key and language; the sync that inserts missing
  (key, language) rows in batches of 100; sections; the key filter; saving.
- **Layout**: the navigation links, which of them is active, and what a click does.
- **PDF viewer**: page and zoom controls with their bounds, and the load handlers.
- **Credits**: the credit check hook and the insufficient-credits dialog.
- **Analytics dashboard**: revenue, complaints, service usage and the seven-day
  revenue trend.
- **System settings**: one key at a time through a shared five-minute cache, or
  several keys at once.
- **Mock backend**: the signed-in user, the credit counters, and the append-only
  consultation and contact lists.
- **CV optimizer page**: upload, clear and send.
- **Password reset page**: the ordered checks and the submit handler.

Each source file is one module. Pure expressions are functions with contracts.
Handlers that update component or module state are methods of a class, whose
fields are that state. Every outside dependency is a parameter:

- the promo validator, the payment service, the verification request, the
  database tables and their errors;
- the AI reply, the clock readings, random ids and object URLs;
- the user's confirmation.

Shared helpers live in `Text` (trim, split and join, ASCII case, string order,
sorting), `Assoc` (the last-write-wins map a key/value loop builds) and
`Wrappers` (`Option`).

Money is whole numbers (minor units). The PDF zoom factor is counted in quarter
steps: 1.0 is 4 and the bounds 0.5 and 2.5 are 2 and 10.

## Model

| member | source | states |
|---|---|---|
| Checkout.OrElse | components/CheckoutModal.tsx:61 | an absent or empty message falls back to the translated default; a non-empty one is shown as is |
| Checkout.ApplyOutcome | components/CheckoutModal.tsx:50-65 | a discount exists iff the validator returned a valid result, iff there is no error; it keeps the typed code and the result's id, and discount plus new total equals the original price; a rejection uses its message else the invalid-promo text, a throw its message else the validate-error text |
| Checkout.Resolve | components/CheckoutModal.tsx:87 | a single object resolves to itself, an array answer to its first element; nothing is resolved only for no body or an empty array |
| Checkout.TargetUrl | components/CheckoutModal.tsx:90 | the redirect is non-empty; it is `redirect_url` when that is truthy, else `redirectUrl`; none exactly when both are falsy or nothing resolved |
| Checkout.SnakeUrlFirst | components/CheckoutModal.tsx:90 | a non-empty `redirect_url` always wins |
| Checkout.ArrayUsesFirst | components/CheckoutModal.tsx:87 | an array answer redirects exactly as its first element alone |
| Checkout.CheckoutModal.constructor | components/CheckoutModal.tsx:28-39 | empty code, no discount, no errors, nothing in progress |
| Checkout.CheckoutModal.FinalPrice | components/CheckoutModal.tsx:109 | the shown total is the original price less the applied discount, or the original price |
| Checkout.CheckoutModal.Payload | components/CheckoutModal.tsx:75-81 | the amount charged is the shown total; the promo code is sent iff a discount is applied, and it is the applied code |
| Checkout.CheckoutModal.EditPromoCode | components/CheckoutModal.tsx:156-159 | the code field ignores typing while a discount is applied and changes nothing else |
| Checkout.CheckoutModal.ApplyPromo | components/CheckoutModal.tsx:43-68 | a blank code makes no request and changes nothing; otherwise the trimmed code is sent, the old discount and error are replaced by the outcome's, the typed code is kept, and the invariant discount + total = price holds |
| Checkout.CheckoutModal.RemovePromo | components/CheckoutModal.tsx:163-166 | removes the discount and empties the code field |
| Checkout.CheckoutModal.Pay | components/CheckoutModal.tsx:70-107 | sends the current payload; a found redirect goes to `onSuccess` when given, else to the location; no redirect sets the no-redirect error; a throw sets its message else the payment-failed text; processing ends false |
| Checkout.ChargedIsShown | components/CheckoutModal.tsx:77 | the amount sent equals the total shown, and with a discount it plus the discount is the original price |
| PaymentCallback.Get | pages/PaymentCallback.tsx:20 | the value of the first query pair with the name; none iff no pair has it |
| PaymentCallback.PaymentId | pages/PaymentCallback.tsx:20 | `paymentId` when non-empty, else `Id` when non-empty, else none |
| PaymentCallback.Classify | pages/PaymentCallback.tsx:36-47 | success iff the answer says success or status `SETTLED` or `paid`; error iff the request threw or the body is null; any other answer fails with its message else the default |
| PaymentCallback.NoteText | pages/PaymentCallback.tsx:24-46 | a message from the server is shown as is; every fixed note has a non-empty text in either language |
| PaymentCallback.StatusIcon | pages/PaymentCallback.tsx:53-63 | the spinner only while loading, the check only on success |
| PaymentCallback.StatusTitle | pages/PaymentCallback.tsx:65-76 | every status has a non-empty title in either language |
| PaymentCallback.StatusColor | pages/PaymentCallback.tsx:78-88 | failed and error are red to orange |
| PaymentCallback.StatusPresentation | pages/PaymentCallback.tsx:53-88 | failed and error share icon and colour; every status has its own title in either language |
| PaymentCallback.Buttons | pages/PaymentCallback.tsx:104-123 | no button while loading; retry only for failed or error, and always beside home |
| PaymentCallback.PaymentCallbackPage.constructor | pages/PaymentCallback.tsx:12-13 | starts loading with no message |
| PaymentCallback.PaymentCallbackPage.VerifyPayment | pages/PaymentCallback.tsx:16-48 | without an id: error, the not-found text, no request; otherwise the id is requested and the status and text are the classification's |
| Language.IsRTL | context/LanguageContext.tsx:43 | right to left exactly for Arabic, left to right exactly for English |
| Language.Toggle | context/LanguageContext.tsx:24-26 | toggling always changes the language |
| Language.ToggleTwice | context/LanguageContext.tsx:24-26 | toggling twice restores the language |
| Language.InitialDirection | context/LanguageContext.tsx:17 | the page starts left to right and each toggle flips the direction |
| Language.Child | context/LanguageContext.tsx:35 | a field is found iff the value is an object with that name, and the first such field is taken |
| Language.Translate | context/LanguageContext.tsx:29-40 | the value the path's segments reach in the active dictionary, and the path itself whenever the walk fails |
| Language.T | context/LanguageContext.tsx:29-40 | the lookup loop returns the value reached through the active dictionary, or the path itself |
| Language.TranslateFound | context/LanguageContext.tsx:29-39 | a path whose segments lead to a value translates to that value |
| Language.TranslateMissing | context/LanguageContext.tsx:34-35 | a walk that meets null or a missing segment gives back the path |
| Language.MissingPrefixFallsBack | context/LanguageContext.tsx:33-36 | once a segment is missing, no longer path is found either |
| ContentEditor.GroupSpec | components/ContentEditor.tsx:70-78 | grouping rows yields exactly their keys, each with the last `en` and last `ar` value ('' when none); other languages are ignored |
| ContentEditor.GroupRows | components/ContentEditor.tsx:72-78 | the `forEach` builds that grouping |
| ContentEditor.FetchContent | components/ContentEditor.tsx:60-86 | a store error keeps the old map, no data gives the empty map, rows give their grouping |
| ContentEditor.SetLeaf | components/ContentEditor.tsx:43-44 | a leaf creates its entry with empty texts if needed, then sets its language |
| ContentEditor.TraverseStatic | components/ContentEditor.tsx:39-51 | the traversal appends the dotted keys of the string leaves (for English only) and records every leaf under its language |
| ContentEditor.StaticFields | components/ContentEditor.tsx:40-50 | the field loop of one object does the same for its fields in order |
| ContentEditor.VisitStatic | components/ContentEditor.tsx:41-49 | one field: a string is a leaf, a non-null object is descended into, anything else is skipped |
| ContentEditor.ParseStaticKeys | components/ContentEditor.tsx:34-58 | the keys are the English leaves' keys; the map is the English then the Arabic leaves |
| ContentEditor.TaggedSpec | components/ContentEditor.tsx:39-51 | one traversal's keys are its leaves' keys, and it sets only its own language |
| ContentEditor.StaticMapSpec | components/ContentEditor.tsx:43-46 | a key is in the map iff it is a leaf of either dictionary, with the last English and last Arabic leaf value ('' when none) |
| ContentEditor.FlattenWalks | components/ContentEditor.tsx:39-51 | every listed key is the dotted path of segments that leads to its leaf |
| ContentEditor.ListedKeysTranslate | components/ContentEditor.tsx:42 | `t` of a listed key in English gives that key's leaf text |
| ContentEditor.FirstSegment | components/ContentEditor.tsx:207 | the text before the first dot: a dot-free prefix followed by a dot or the end |
| ContentEditor.Section | components/ContentEditor.tsx:91 | the first segment, or `general` when that is empty |
| ContentEditor.Sections | components/ContentEditor.tsx:207 | sorted without repeats; exactly the first segments of the keys |
| ContentEditor.FilteredKeys | components/ContentEditor.tsx:210-214 | at most the keys; a key is kept iff it is listed and passes the section and case-insensitive search tests |
| ContentEditor.FilteredKeysAppend | components/ContentEditor.tsx:210-214 | the filter keeps listed order and repeats: the result for a concatenation is the results for its parts in turn, and one key is kept iff it passes |
| ContentEditor.SectionFilterIsFirstSegment | components/ContentEditor.tsx:211 | starting with `section.` is having a dot and that first segment |
| ContentEditor.TagInjective | components/ContentEditor.tsx:132 | for `en`/`ar`, distinct (key, language) pairs have distinct tags |
| ContentEditor.ExistingTags | components/ContentEditor.tsx:131-132 | the set holds exactly the tags of the existing rows; none when no data |
| ContentEditor.TraverseMissing | components/ContentEditor.tsx:135-151 | the sync traversal appends the missing leaves' insertable rows in order |
| ContentEditor.MissingFields | components/ContentEditor.tsx:136-150 | the field loop of one object does the same for its fields in order |
| ContentEditor.VisitMissing | components/ContentEditor.tsx:137-148 | one field: a leaf whose tag is absent is appended; an object is descended into |
| ContentEditor.MissingSpec | components/ContentEditor.tsx:139-146 | an item is inserted iff it comes from a leaf whose tag is not already stored |
| ContentEditor.CollectMissing | components/ContentEditor.tsx:133-151 | the two traversals, English then Arabic, collect exactly the rows to insert against the stored tags |
| ContentEditor.MissingAbsentPairs | components/ContentEditor.tsx:132-139 | when stored rows are `en`/`ar`, the inserted items are exactly the leaves whose (key, language) is not stored |
| ContentEditor.Batches | components/ContentEditor.tsx:166-171 | the batches concatenate to the list, in order, each non-empty and at most 100 long, all but the last exactly 100 |
| ContentEditor.HandleSync | components/ContentEditor.tsx:120-181 | nothing without confirmation; up to date when nothing is missing; otherwise the missing items in batches |
| ContentEditor.HandleSave | components/ContentEditor.tsx:88-118 | the upserted item carries the key's section; success removes only that key-language mark; an error alerts and keeps the marks |
| Layout.NavLinks | components/Layout.tsx:35-45 | the five base links in order, and the admin link last only for an admin |
| Layout.CheckActive | components/Layout.tsx:73-91 | the home link is active iff the path is `/` with no hash; a section link `/#id` is active iff the path is `/` and the hash is `#id`; an active link's page is the current path or lies above it |
| Layout.PlainLinkActive | components/Layout.tsx:86-88 | a plain link is active exactly on its path and below it, segment by segment |
| Layout.AtMostOneActive | components/Layout.tsx:73-91 | at any location, no two navigation links are active |
| Layout.HandleNavClick | components/Layout.tsx:47-71 | the menu closes first and only then; home on home only scrolls to the top; every navigation goes to the clicked path; a section link off home navigates there; on home it scrolls to the section, pushes and replaces when the element exists and otherwise only closes the menu; a plain path navigates and scrolls to the top |
| PdfViewer.PrevPage | components/PdfViewer.tsx:33 | one page back, never below 1 |
| PdfViewer.NextPage | components/PdfViewer.tsx:34 | one page on, never past the page count |
| PdfViewer.ZoomIn | components/PdfViewer.tsx:35 | a quarter step up, at most 2.5; already at or above 2.5 it stays at 2.5 |
| PdfViewer.ZoomOut | components/PdfViewer.tsx:36 | a quarter step down, at least 0.5; already at or below 0.5 it stays at 0.5 |
| PdfViewer.StepsUndo | components/PdfViewer.tsx:33-36 | away from the bounds, a step and its opposite cancel |
| PdfViewer.Viewer.constructor | components/PdfViewer.tsx:16-20 | page 1 of 0, zoom 1.0, loading, no fallback |
| PdfViewer.Viewer.OnLoadSuccess | components/PdfViewer.tsx:22-25 | records the page count, stops loading, changes nothing else |
| PdfViewer.Viewer.OnLoadError | components/PdfViewer.tsx:27-31 | switches to the fallback, stops loading, changes nothing else |
| PdfViewer.Viewer.ClickPrev | components/PdfViewer.tsx:76-77 | disabled on page 1; otherwise one page back; the page stays at least 1 |
| PdfViewer.Viewer.ClickNext | components/PdfViewer.tsx:86-87 | disabled on the last page; otherwise one page on, within the count |
| PdfViewer.Viewer.ClickZoomOut | components/PdfViewer.tsx:97-98 | disabled at 0.5; otherwise a quarter step down, within bounds |
| PdfViewer.Viewer.ClickZoomIn | components/PdfViewer.tsx:105-106 | disabled at 2.5; otherwise a quarter step up, within bounds |
| Credits.CurrentCredits | hooks/useCreditsCheck.ts:49 | the user's CV credits, or 0 when absent |
| Credits.CreditsCheck.constructor | hooks/useCreditsCheck.ts:46-49 | dialog closed, requirement the default |
| Credits.CreditsCheck.HasEnoughCredits | hooks/useCreditsCheck.ts:61 | enough iff the shortfall for the last recorded requirement is 0 |
| Credits.CreditsCheck.CheckCredits | hooks/useCreditsCheck.ts:51-58 | answers whether credits cover the requirement, records it, opens the dialog only when they do not, never closes it |
| Credits.CreditsCheck.SetShowModal | hooks/useCreditsCheck.ts:46 | sets the dialog flag |
| Credits.Shortfall | components/InsufficientCreditsModal.tsx:78 | never negative; the missing amount when short, else 0 |
| Credits.ShortfallIsZeroIffEnough | components/InsufficientCreditsModal.tsx:78 | the shortfall is 0 exactly when the credits suffice |
| Credits.Render | components/InsufficientCreditsModal.tsx:25 | nothing while closed; when open, the credits, the requirement and the shortfall |
| Credits.HandleBuyCredits | components/InsufficientCreditsModal.tsx:27-30 | closes first, then goes to `/pricing` and nowhere else |
| Credits.FailedCheckShowsShortfall | components/InsufficientCreditsModal.tsx:78 | a dialog opened by a failed check shows a positive shortfall, the exact difference |
| Analytics.RevenueNonNegative | components/AnalyticsDashboard.tsx:29-33 | the total revenue (`TotalRevenue`, the paid amounts with a missing one as 0) is never negative when no amount is negative |
| Analytics.AmountOrZero | components/AnalyticsDashboard.tsx:32 | a missing or null amount counts as 0 |
| Analytics.PaidOnly | components/AnalyticsDashboard.tsx:31 | exactly the paid transactions |
| Analytics.PaidOnlyAppend | components/AnalyticsDashboard.tsx:31 | the filter keeps order and repeats: the paid transactions of a concatenation are those of each part in turn, and one transaction is kept iff paid |
| Analytics.RevenueIgnoresUnpaid | components/AnalyticsDashboard.tsx:29-33 | the total revenue counts only paid transactions |
| Analytics.ActiveComplaints | components/AnalyticsDashboard.tsx:35-37 | at most the contacts; 0 iff none is a complaint, all iff all are |
| Analytics.ComplaintsAppend | components/AnalyticsDashboard.tsx:35-37 | the count is additive over concatenation and one contact counts 1 iff it is a complaint, so it is the number of complaints |
| Analytics.ComplaintData | components/AnalyticsDashboard.tsx:81-88 | complaints plus general inquiries is the number of contacts, and neither is negative |
| Analytics.ServiceUsageData | components/AnalyticsDashboard.tsx:75-78 | two slices, `CV Sessions` and `Comparisons`, whose values are the numbers of CV sessions and of comparisons |
| Text.DatePart | components/AnalyticsDashboard.tsx:62 | the date part: the longest `T`-free prefix of the timestamp, ending at its end or at the first `T`; the mock store dates new records with it too (services/mockSupabase.ts line 49) |
| Analytics.Grouped | components/AnalyticsDashboard.tsx:59-65 | the grouped days are exactly the paid transactions' days |
| Analytics.UnpaidIgnored | components/AnalyticsDashboard.tsx:61 | a transaction that is not paid, wherever it stands, changes neither the per-day sums nor the total revenue |
| Analytics.GroupByDay | components/AnalyticsDashboard.tsx:60-65 | the `forEach` builds the per-day sums |
| Analytics.SortedDays | components/AnalyticsDashboard.tsx:68 | the grouped days, ascending, without repeats |
| Analytics.DaySumsMakeTotal | components/AnalyticsDashboard.tsx:63 | the per-day sums add up to the total revenue |
| Analytics.RevenueData | components/AnalyticsDashboard.tsx:57-72 | the last min(7, n) grouped days in ascending order; each point holds that day's label and its per-day sum |
| Analytics.AddAsWritten | components/AnalyticsDashboard.tsx:63 | a missing amount makes the sum NaN; otherwise a NaN or absent sum restarts from 0, `null` keeps the sum and a number is added to it |
| Analytics.GroupedAsWritten | components/AnalyticsDashboard.tsx:59-65 | the grouping as written covers the same days |
| Analytics.AsWrittenAgrees | components/AnalyticsDashboard.tsx:63 | with no missing paid amount, the code as written gives the intended sums |
| Analytics.MissingAmountResetsDay | components/AnalyticsDashboard.tsx:63 | with a missing amount between 5 and 7 on one day, the code as written shows 7 where the revenue counts 12 |
| SystemConfig.MatchingMembers | hooks/useSystemConfig.ts:27-31 | the values found for a key are exactly the values stored under it |
| SystemConfig.MatchingAppend | hooks/useSystemConfig.ts:27-31 | the matches keep the rows' order and repeats, so two rows with the key give two values and `.single()` fails |
| SystemConfig.SingleValue | hooks/useSystemConfig.ts:27-31 | a value only when exactly one row has the key, and it is that row's |
| SystemConfig.Selected | hooks/useSystemConfig.ts:63-66 | a row is kept iff it is in the table and its key was asked for |
| SystemConfig.SelectedAppend | hooks/useSystemConfig.ts:63-66 | the selection keeps the table's order and repeats: the rows of a concatenation are those of each part in turn, and one row is kept iff its key was asked for |
| SystemConfig.SelectedLast | hooks/useSystemConfig.ts:63-73 | for a requested key the winning row is the table's last, other keys get nothing |
| Assoc.BuildMap | hooks/useSystemConfig.ts:70-73 | the loop leaves each key with its last assigned value |
| SystemConfig.ConfigCache.constructor | hooks/useSystemConfig.ts:8-9 | empty cache, time 0 |
| SystemConfig.ConfigValue.constructor | hooks/useSystemConfig.ts:13-14 | the default value, loading |
| SystemConfig.ConfigValue.Fetch | hooks/useSystemConfig.ts:16-47 | a request is made iff there is no fresh non-empty cached value; a hit answers from the cache; a success caches the value and resets the shared time, keeping it and every other cached key fresh; an error or throw gives the default and keeps the cache; loading ends false |
| SystemConfig.ConfigValues.constructor | hooks/useSystemConfig.ts:57-58 | empty map, loading |
| SystemConfig.ConfigValues.Fetch | hooks/useSystemConfig.ts:60-83 | on success exactly the requested keys present in the table, each with its last row; on error the old map; loading ends false |
| MockStore.NewConsultation | services/mockSupabase.ts:46-50 | the request's fields with the given id and date |
| MockStore.NewContact | services/mockSupabase.ts:56-60 | the submission's fields with the given id and date |
| MockStore.Store.constructor | services/mockSupabase.ts:7-13 | signed out, the one seeded consultation, no submissions |
| MockStore.Store.GetUser | services/mockSupabase.ts:17-20 | the signed-in profile object itself, or null |
| MockStore.Store.SignIn | services/mockSupabase.ts:21-32 | a new profile with the role's demo identity and credits (999/999 for an admin, 3 CV and 50 chat for a user) becomes current |
| MockStore.Store.SignOut | services/mockSupabase.ts:33-37 | no current user |
| MockStore.Store.GetConsultations | services/mockSupabase.ts:40-43 | the list's contents, as a separate value |
| MockStore.Store.CreateConsultation | services/mockSupabase.ts:44-53 | appends exactly the new record, keeping the earlier ones |
| MockStore.Store.SubmitContact | services/mockSupabase.ts:54-63 | appends exactly the new record, keeping the earlier ones |
| MockStore.Store.UpdateCredits | services/mockSupabase.ts:64-71 | adds the amount to the named counter only, with no lower bound; without a user nothing changes |
| CvOptimizer.Greeting | pages/CvOptimizer.tsx:54-59 | the assistant's `init` message naming the file |
| CvOptimizer.History | pages/CvOptimizer.tsx:83-86 | one entry per message, in order, with its text; `user` for the user's, `model` for the assistant's |
| CvOptimizer.HistoryAppend | pages/CvOptimizer.tsx:83-86 | the history of a longer conversation extends that of its start |
| CvOptimizer.CvOptimizerPage.constructor | pages/CvOptimizer.tsx:9-14 | no file, no messages, empty input, 0 credits |
| CvOptimizer.CvOptimizerPage.LoadCredits | pages/CvOptimizer.tsx:19-23 | the counter takes the signed-in user's chat credits |
| CvOptimizer.CvOptimizerPage.HandleFileUpload | pages/CvOptimizer.tsx:40-61 | no file or a non-PDF changes nothing (a non-PDF alerts); a PDF sets the file and preview and restarts the conversation with the greeting |
| CvOptimizer.CvOptimizerPage.HandleClearFile | pages/CvOptimizer.tsx:63-67 | no file, no preview, no messages |
| CvOptimizer.CvOptimizerPage.HandleSend | pages/CvOptimizer.tsx:69-102 | blank input or no credit: nothing; otherwise the earlier history and the input are sent, the user message then the reply are appended, the input is cleared, one chat credit is spent here and in the store; the store keeps its user and that user's CV credits |
| ResetPassword.Validate | pages/ResetPassword.tsx:38-48 | a mismatch is reported first, then a password under 6 characters; none iff both pass |
| ResetPassword.SessionRedirect | pages/ResetPassword.tsx:19-31 | to `/login` exactly when there is no session |
| ResetPassword.FailureText | pages/ResetPassword.tsx:63 | the error's message when non-empty, else `Failed to update password` |
| ResetPassword.ResetPasswordPage.constructor | pages/ResetPassword.tsx:12-16 | empty fields, no error, not loading, no success |
| ResetPassword.ResetPasswordPage.HandleReset | pages/ResetPassword.tsx:33-67 | the service is called iff both checks pass; a failed check sets its error; success sets the flag with no error and schedules `/` after 3000 ms; a failure sets the message; loading ends false |

## Left out

- Text.ToLower and Text.ToUpper: map ASCII letters only. JavaScript's full Unicode case mapping is not modelled, so the search filter and the complaint test are exact only for ASCII.
- Text.Less: orders strings by character code. JavaScript's default `sort` orders by UTF-16 code unit, which differs only outside the Basic Multilingual Plane.
- ResetPassword.Validate: counts characters. JavaScript's `length` counts UTF-16 code units.
- Floating point is not modelled. Money is whole minor units, and the PDF zoom is quarter steps.
- The `toLocaleString` and percentage formatting of the dashboard are not modelled.
- The dashboard's user-growth chart is not modelled. It depends on the clock's last 30 days.
- React rendering, effects' scheduling and state batching are not modelled. Each handler is one atomic step, with its outside answers as parameters.
- DOM, scrolling, `window.location`, `alert`, `confirm` and console output are not performed. Navigation and alerts are returned as values.
- The scroll-to-top effect on route change in the layout is not modelled.
- The content editor shows only the first 50 keys of a filtered list. That display limit is presentation and is not modelled.
- After a save, the content editor refreshes the translations. That refresh is not modelled.
- ContentEditor.HandleSync: batch insert errors are only logged and do not change the outcome; the refetch after the sync and a thrown error's alert are not modelled.
- ContentEditor.TagInjective: holds only for `en`/`ar`. A stored row in another language can share a `key-lang` tag with a different pair, as in the source.
- The locale dictionaries are values of string leaves, `null` and objects. JavaScript property access on a string leaf (`length`, indexes) is not modelled: a leaf has no children.
- The `isRTL` switch between English and Arabic texts is a parameter of the payment callback, not taken from the language context.
- The promo validator and the payment service are not modelled. Their answers are parameters, and no discount rules are invented.
- The verification request, the database queries and the AI service are not modelled. Their results are parameters.
- SystemConfig.ConfigValues.Fetch: the rows' order is taken as the table's order. The database promises no order, so a key stored twice could resolve to either value.
- MockStore: the simulated delays are not modelled. Random ids and the current time are parameters.
- MockStore.Store.GetConsultations: the list is a value, so the copy is exact. In JavaScript the copy is shallow, and the record objects themselves stay shared; records are values here.
- ContentEditor.HandleSave: the upsert's `updated_at` timestamp and its `(key, lang)` conflict target are not modelled. The table is outside the model, and the upserted item is returned instead.
- Language.Child: takes the first field with a given name. A JavaScript object literal keeps the last of duplicate names, so dictionaries with duplicate names differ.
- The dictionary traversals visit fields in declaration order. JavaScript's `for...in` lists integer-like names first, in ascending order, so the key order differs for such names.
- The preview URL's release when the file changes is not modelled. Neither is the AI call's failure, because the source awaits it without a handler.
- Analytics.RevenueData: uses the intended per-day grouping `Analytics.Grouped` (see Findings below); the code as written is `Analytics.GroupedAsWritten`.
- Credits.CreditsCheck: the user's CV credits are read once, when the hook is created. The hook re-reads them on every render, so a later change of the user's credits, and `hasEnoughCredits` turning true after it, is not modelled.

## Findings

| source | as written | input that shows it | evidently intended | confidence | as-written member | corrected member |
|---|---|---|---|---|---|---|
| components/AnalyticsDashboard.tsx:63 | the day's sum adds `t.amount` without the `\|\| 0` that the total revenue uses (line 32), so a paid transaction without an amount makes the sum NaN, and the next `\|\| 0` resets it to 0 | three paid transactions on one day with amounts 5, missing, 7: the trend shows 7 for that day while the total revenue is 12 | each day's sum reads a missing amount as 0, like the total, so the sums add up to the total revenue | not executed | Analytics.MissingAmountResetsDay | Analytics.DaySumsMakeTotal |
