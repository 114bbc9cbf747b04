# Mailico core, modelled in Dafny

Mailico is a Next.js mail dashboard. Users sign in through Supabase, keep a profile with their own
Resend API key and a list of sender identities, compose emails, and read a small blog. This project
models the logic of the files that decide what the application does with a request, a form or a
pathname. There is one Dafny module per source file:

- `Blogs` (`src/lib/blogs.ts`) parses the blog file.
  - Posts are separated by `===`. In each post, a header of `key: value` lines is separated from the body by the first `---`.
  - The header lines are folded into a record by a loop in which the last line wins.
  - A block without a title or slug makes the whole parse fail.
  - Posts are sorted newest first, in place, and looked up by slug.
- `SendRoute` (`src/app/api/send/route.ts`) is the `POST /api/send` handler.
  - It refuses a body without `api`, `from` or `email` (400) and builds the `Name <address>` header.
  - It maps the provider's outcome to 200, 500 or 400.
- `ComposeForm` (`src/components/Layout/ComposeForm.tsx`) is a class with the component's state.
  - `LoadSenders` loads the sender rows.
  - `SendEmail` checks the form, posts it, and then resets the form or builds the error toast.
  - The module also connects the form's payload to `SendRoute.Post`.
- `Middleware` (`src/middleware.ts`) covers the protected-prefix test and the redirect to `/auth?next=...`.
  - It also covers the `setAll` cookie loop over two `CookieJar` objects.
- `AuthClient` (`src/app/auth/auth-client.tsx`) covers the page to return to and the initial mode.
  - An `AuthForm` class holds `onSubmit` with its checks, the auth call it makes and its navigation.
- `AuthConfirm` (`src/app/auth/confirm/auth-confirm.tsx`) covers fragment parsing (`getHashParams`).
  - It also covers `run`: the one-time-password path, then the session-token path, then the error page.
- `ProfileEdit` (`src/components/profile-edit.tsx`) is a `ProfileEditor` class.
  - It holds `Load`, `SaveProfile`, `AddSender` and `DeleteSender`.
  - It also models the `cn` class-name helper.
- `FetchUser` (`data/fetchUser.ts`) builds the user's display record from fallback chains.
- `Plans` (`src/lib/plans.ts`) is the plan limit table.
- `BottomNav` (`src/components/Layout/BottomNav.tsx`) covers when the footer replaces the tab bar, and which tab is active.
- `SideBar` (`src/components/Layout/SideBar.tsx`) covers which section is highlighted.

Five shared modules model the JavaScript built-ins and framework calls these files rely on:

- `JsValue` models `undefined` / `null` / string fields, truthiness, `??`, `||` and reading a record's key.
- `JsString` models `trim`, `toLowerCase`, `indexOf`, `includes`, `startsWith`, `split`, `join` and string `<`.
- `Entries` models assigning key/value pairs into a record one after another.
- `SearchParams` models `URLSearchParams.get` and `set`.
- `Router` names the two router calls the pages make, `replace` and `refresh`.

The outside world is passed in as parameters. This covers what Supabase, Resend or `fetch` answer, the
rejection-reason text, the result of `new Date(...).toISOString()`, the page origin and whether a window
exists. Each stateful component is a class whose fields are the component's `useState` variables. Each
handler is specified against a pure step function of the old state and those answers, e.g.
`ComposeForm.SendStep` or `ProfileEdit.SaveStep`. The lemmas state the properties of those functions.

The send route takes the provider key from the request body. It checks no quota. It sends one email to the
`email` field as given, without splitting it into several recipients, and records nothing.

## Model

| member | source | states |
|---|---|---|
| JsString.TrimSpec | src/lib/blogs.ts:19 | `trim()` returns a contiguous slice of its input that neither starts nor ends with whitespace, and it is empty exactly when the input is all whitespace |
| JsString.TrimIdempotent | src/lib/blogs.ts:25 | trimming a trimmed string changes nothing |
| JsString.IndexOf | src/lib/blogs.ts:30 | `indexOf` gives the first index at which the pattern occurs, and `None` (-1) exactly when it occurs nowhere |
| JsString.SplitSpec | src/lib/blogs.ts:18 | joining the pieces of `split(sep)` with `sep` gives the input back, and no piece contains `sep` |
| JsString.SplitJoin | src/components/profile-edit.tsx:40 | for a one-character separator no part contains, `split` undoes `join` |
| JsString.LessTransitive | src/lib/blogs.ts:55 | the string order used by the date comparison is transitive |
| JsString.LessTotal | src/lib/blogs.ts:55 | two different strings are ordered one way or the other |
| JsString.NotLessTransitive | src/lib/blogs.ts:55 | "not less than" chains, the order a newest-first sort relies on |
| Entries.AssignLookup | src/lib/blogs.ts:28-33 | after assigning a list of pairs, a key is present exactly when it was before or some pair names it, and it holds the value of the last pair naming it |
| Entries.SameAssignmentsAgree | src/middleware.ts:21-26 | the same pairs assigned into two records leave every assigned key with the same value in both |
| SearchParams.Get | src/app/auth/auth-client.tsx:22 | `get` is `None` exactly when no pair has the name, otherwise it gives the value of a pair with that name |
| SearchParams.SetThenGet | src/middleware.ts:49 | after `set`, `get` gives the new value, every other name reads as before, and exactly one pair has the name |
| Blogs.ParseBlogsFile | src/lib/blogs.ts:14-49 | the definition of `parseBlogsFile`: split on `===`, trim, drop blank blocks, parse each; its properties are stated by Blogs.BlankBlocksDropped and Blogs.ParsedPostsValid |
| Blogs.ParsePosts | src/lib/blogs.ts:21-48 | the definition of mapping the block callback, the first invalid block aborting the parse; its properties are stated by Blogs.ParsePostsOk, Blogs.ParsePostsAllOk and Blogs.ParsePostsInvalid |
| Blogs.NonBlankMembers | src/lib/blogs.ts:19-20 | `map(trim).filter(Boolean)` keeps exactly the non-empty trimmed forms of the pieces |
| Blogs.BlankBlocksDropped | src/lib/blogs.ts:17-20 | every post block is trimmed and non-empty, and blocks come from exactly the `===` pieces that are not all whitespace |
| Blogs.HeaderAndContent | src/lib/blogs.ts:22-35 | the header is the text before the first `---` (the whole block if there is none), and the content is the trimmed text after it, later `---`s included |
| Blogs.LineEntryAtFirstColon | src/lib/blogs.ts:30-32 | a header line without `:`, or with nothing before its first `:`, gives no entry; otherwise the key is the lower-cased trimmed text before the first `:` and the value the trimmed rest, colons included |
| Blogs.ParseMeta | src/lib/blogs.ts:28-33 | the header loop builds the record obtained by assigning the header lines' entries in order |
| Blogs.MetaLastWins | src/lib/blogs.ts:29-33 | a key is in the header record exactly when some line names it, and it holds the value of the last line naming it |
| Blogs.BlockToPost | src/lib/blogs.ts:37-47 | a block gives no post exactly when its title or slug is missing or empty, and a post's title and slug are never empty |
| Blogs.PostFields | src/lib/blogs.ts:41-47 | title and slug come from the header, `date` and `excerpt` default to the empty string, and the content is the text after the first `---` |
| Blogs.ParseBlock | src/lib/blogs.ts:21-48 | the block callback, loop included, computes `BlockToPost` |
| Blogs.ParsePostsOk | src/lib/blogs.ts:21-48 | a successful parse has one post per block, in block order, each the post of its block |
| Blogs.ParsePostsAllOk | src/lib/blogs.ts:37-39 | the parse succeeds exactly when every block has a title and a slug |
| Blogs.ParsePostsInvalid | src/lib/blogs.ts:37-39 | a failed parse reports the first block without a title or slug |
| Blogs.ParsedPostsValid | src/lib/blogs.ts:14-49 | every parsed post has a title and a slug, and the file parses exactly when every block has both |
| Blogs.AdjacentIsNewestFirst | src/lib/blogs.ts:55 | posts whose neighbours are in order are newest first throughout |
| Blogs.SortNewestFirst | src/lib/blogs.ts:55 | sorting the array in place leaves it a permutation of the posts, newest first by date string |
| Blogs.InsertLeft | src/lib/blogs.ts:55 | one insertion step extends the sorted prefix by one post and keeps the posts |
| Blogs.GetAllPosts | src/lib/blogs.ts:51-56 | `getAllPosts` fails exactly when parsing fails; otherwise it gives the parsed posts, permuted, newest first |
| Blogs.FindBySlug | src/lib/blogs.ts:59 | `find` gives the first post with the slug, and `undefined` exactly when no post has it |
| Blogs.GetPostBySlug | src/lib/blogs.ts:58-60 | a post is found only with the slug asked for and among the parsed posts; `undefined` exactly when none has the slug; parse errors pass through |
| SendRoute.Post | src/app/api/send/route.ts:4-42 | the definition of the `POST` handler given the body and the provider outcome; its properties are stated by SendRoute.SendsOnlyWithRequiredFields, SendRoute.SentEmail and SendRoute.StatusOfOutcome |
| SendRoute.FromHeaderRoundTrip | src/app/api/send/route.ts:25 | the display name (without `<`) and the address are read back from the `Name <address>` header |
| SendRoute.SendsOnlyWithRequiredFields | src/app/api/send/route.ts:15-41 | an email reaches the provider exactly when the body parses and has a non-empty `api`, `from` and `email`; otherwise 400 with the matching message |
| SendRoute.SentEmail | src/app/api/send/route.ts:8-32 | the email carries the body's key, recipient and message (empty when absent), a subject that is `(no subject)` when empty, and the `Name <address>` header whose name is `Mailico` only when `fromName` is absent or null, for any name; a name without `<` and the address read back from it |
| SendRoute.StatusOfOutcome | src/app/api/send/route.ts:34-40 | after a send the status is 200 with the data, 500 with the provider error, or 400 when the call threw, each exactly for that outcome |
| ComposeForm.SendStep | src/components/Layout/ComposeForm.tsx:59-105 | the definition of `sendEmail` as a step from the old state; its properties are stated by ComposeForm.IncompleteFormNotPosted, ComposeForm.PostedPayload, ComposeForm.ResetOnlyOnOk and ComposeForm.LoadingCleared |
| ComposeForm.FindSender | src/components/Layout/ComposeForm.tsx:66 | `find` gives the first sender with the address, and `None` exactly when none has it |
| ComposeForm.FromNameIsFirstMatch | src/components/Layout/ComposeForm.tsx:66-75 | the display name is the first matching sender's name, or `Mailico` when that name is empty |
| ComposeForm.FromNameWithoutMatch | src/components/Layout/ComposeForm.tsx:75 | with no matching sender the display name is `Mailico` |
| ComposeForm.IncompleteFormNotPosted | src/components/Layout/ComposeForm.tsx:60-79 | a form without sender, recipient or message is not posted and is left unchanged; nothing is posted exactly then or when the schedule cannot be converted |
| ComposeForm.PostedPayload | src/components/Layout/ComposeForm.tsx:73-80 | the payload carries the form's fields, the resolved display name, and a schedule exactly when the schedule input is not empty |
| ComposeForm.ResetOnlyOnOk | src/components/Layout/ComposeForm.tsx:91-99 | only an ok reply clears recipient, subject, message and schedule and counts an `onSent`; otherwise only `loading` changes |
| ComposeForm.FailureText | src/components/Layout/ComposeForm.tsx:85-89 | a reply that is not ok is reported as the rejection text followed by the reply's reason, else its error, else `Failed to send email` |
| ComposeForm.LoadingCleared | src/components/Layout/ComposeForm.tsx:102-104 | `loading` is false after every send that passed the check |
| ComposeForm.PayloadLacksKey | src/components/Layout/ComposeForm.tsx:73-80 | the route answers every payload the form posts with 400 `Missing required fields`, sending nothing |
| ComposeForm.EverySendFails | src/components/Layout/ComposeForm.tsx:59-105 | every complete form the route answers ends in the failure toast, with the form left filled in |
| ComposeForm.KeyedPayloadSent | src/app/api/send/route.ts:8-32 | with a provider key added, the route hands the payload's email to the provider |
| ComposeForm.ComposeForm.LoadSenders | src/components/Layout/ComposeForm.tsx:42-57 | without a user nothing changes; otherwise the senders are the rows returned, or none for `null` |
| ComposeForm.ComposeForm.SendEmail | src/components/Layout/ComposeForm.tsx:59-105 | the new state, the payload posted and the toast are those of `SendStep` |
| Middleware.IsProtected | src/middleware.ts:38-44 | the definition of the `isProtected` chain; stated as a prefix test by Middleware.ProtectedIffPrefix |
| Middleware.Decide | src/middleware.ts:46-53 | the definition of the redirect decision; its properties are stated by Middleware.RedirectCarriesNext |
| Middleware.ProtectedIffPrefix | src/middleware.ts:38-44 | a path is protected exactly when it starts with one of `/sent`, `/inbox`, `/drafts`, `/trash`, `/profile` |
| Middleware.RawPrefixExamples | src/middleware.ts:39-44 | the test is on raw prefixes: `/sentinel` is protected, `/scheduled` and `/` are not |
| Middleware.RedirectCarriesNext | src/middleware.ts:46-53 | only a protected page without a user is redirected, to `/auth` on the same origin, with one `next` holding the page and other parameters unchanged |
| Middleware.SetAll | src/middleware.ts:20-27 | the request jar gets each cookie's value and the response jar its value and options, in order, last one winning |
| Middleware.JarsAgree | src/middleware.ts:21-26 | after `setAll` both jars hold every cookie name with the same value, that of the last cookie with the name |
| AuthClient.NextPath | src/app/auth/auth-client.tsx:22 | the definition of `nextPath`; its properties are stated by AuthClient.NextPathSpec |
| AuthClient.SubmitStep | src/app/auth/auth-client.tsx:40-86 | the definition of `onSubmit` as a step from the old state; its properties are stated by AuthClient.SubmitChecks, AuthClient.CallCarriesForm and AuthClient.SubmitNavigation |
| AuthClient.NextPathSpec | src/app/auth/auth-client.tsx:22 | the return page is the `next` parameter when it is non-empty, `/profile` otherwise, and never empty |
| AuthClient.GuardRedirectReturns | src/app/auth/auth-client.tsx:22-23 | a visitor the guard redirects returns to the page they asked for, in the mode the original query asked for |
| AuthClient.MountReturnsToPage | src/app/auth/auth-client.tsx:33-38 | a visitor the guard redirected, once signed in, is sent on mount back to the page they asked for, which the guard then lets through; without a session nothing happens |
| AuthClient.SubmitChecks | src/app/auth/auth-client.tsx:43-50 | an empty email or password is refused first, untrimmed; then, in sign-up only, a blank name; nothing else is refused |
| AuthClient.CallCarriesForm | src/app/auth/auth-client.tsx:54-75 | the call carries email and password as typed; sign-up adds the trimmed name and the `/auth/confirm` link on the origin |
| AuthClient.SubmitNavigation | src/app/auth/auth-client.tsx:63-85 | sign-up goes to `/sent`, sign-in to the return page and refreshes, a failure goes nowhere with a non-empty message; `loading` ends false |
| AuthClient.AuthForm.constructor | src/app/auth/auth-client.tsx:21-30 | the form starts in the query's mode with empty fields and the query's return page |
| AuthClient.AuthForm.SetMode | src/app/auth/auth-client.tsx:25 | switching mode changes only the mode |
| AuthClient.AuthForm.OnSubmit | src/app/auth/auth-client.tsx:40-86 | the new state, call, toast and navigation are those of `SubmitStep` |
| AuthConfirm.HashParams | src/app/auth/confirm/auth-confirm.tsx:7-12 | the definition of `getHashParams`; its properties are stated by AuthConfirm.FragmentRoundTrip, AuthConfirm.FragmentValues and AuthConfirm.NoWindowNoSession |
| AuthConfirm.Run | src/app/auth/confirm/auth-confirm.tsx:19-51 | the definition of `run`: the calls made and the navigations; its properties are stated by AuthConfirm.CallsMade and AuthConfirm.OneNavigation |
| AuthConfirm.SegmentPairOf | src/app/auth/confirm/auth-confirm.tsx:10 | a `name=value` segment whose name has no `=` reads as that pair |
| AuthConfirm.FragmentRoundTrip | src/app/auth/confirm/auth-confirm.tsx:7-12 | a fragment written from readable pairs reads back as those pairs, assigned in order |
| AuthConfirm.FragmentValues | src/app/auth/confirm/auth-confirm.tsx:9-11 | each name of such a fragment is a parameter holding the value of its last pair |
| AuthConfirm.CallsMade | src/app/auth/confirm/auth-confirm.tsx:21-42 | the OTP is verified exactly when `token_hash` and `type` are non-empty; the session is set exactly when that did not succeed and both fragment tokens are non-empty |
| AuthConfirm.OneNavigation | src/app/auth/confirm/auth-confirm.tsx:29-50 | exactly one `replace` happens: to `/sent` exactly when a call made succeeded, otherwise to `/auth?error=confirm_failed` |
| AuthConfirm.NoWindowNoSession | src/app/auth/confirm/auth-confirm.tsx:8 | without a window the fragment is empty, so no session is set |
| ProfileEdit.LoadStep | src/components/profile-edit.tsx:65-105 | the definition of `load` as a step from the old state; its properties are stated by ProfileEdit.LoadFillsForm |
| ProfileEdit.KeyOrNull | src/components/profile-edit.tsx:123 | a key written is never empty; the rest is stated by ProfileEdit.KeyNullIffBlank |
| ProfileEdit.SaveStep | src/components/profile-edit.tsx:111-136 | the definition of `saveProfile` as a step; its properties are stated by ProfileEdit.SaveSpec and ProfileEdit.LoadThenSave |
| ProfileEdit.AddStep | src/components/profile-edit.tsx:138-164 | the definition of `addSender` as a step; its properties are stated by ProfileEdit.AddSpec |
| ProfileEdit.DeleteStep | src/components/profile-edit.tsx:166-178 | the definition of `deleteSender` as a step; its properties are stated by ProfileEdit.DeleteSpec |
| ProfileEdit.Cn | src/components/profile-edit.tsx:39-41 | the definition of `cn`; its properties are stated by ProfileEdit.CnSplitsBack |
| ProfileEdit.LoadFillsForm | src/components/profile-edit.tsx:65-105 | a loaded profile is kept with its sender rows (none when that query returned null) and sets name, domain, phone, country, avatar and key each to its column (`''` for null), leaving the new-sender inputs; no user or an error changes only `loading`; only a missing user navigates to sign-in |
| ProfileEdit.KeyNullIffBlank | src/components/profile-edit.tsx:123 | the saved key is `null` exactly when the input is blank, and otherwise the trimmed input |
| ProfileEdit.LoadThenSave | src/components/profile-edit.tsx:94-124 | loading trimmed columns and saving at once writes the same columns back, null ones as `''` except the key, which stays null |
| ProfileEdit.SaveSpec | src/components/profile-edit.tsx:111-136 | nothing is written or changed without a profile `user_id`; otherwise the trimmed fields are written for that user, `saving` ends false; a failed write shows its message (or the fallback text) and navigates nowhere, the state otherwise unchanged; a successful one shows `Profile updated`, goes to `/profile` and takes the reloaded state |
| ProfileEdit.AddSpec | src/components/profile-edit.tsx:138-164 | a sender is inserted exactly for a loaded profile and a non-blank name and address, trimmed and verified; the inputs are cleared only on success |
| ProfileEdit.DeleteSpec | src/components/profile-edit.tsx:166-178 | a failed delete changes nothing and reports a non-empty message; a successful one reports `Sender removed` and reloads |
| ProfileEdit.CnSplitsBack | src/components/profile-edit.tsx:39-41 | `cn` is empty exactly when no class is truthy, and splitting it on spaces gives back the truthy classes when none contains a space |
| ProfileEdit.ProfileEditor.constructor | src/components/profile-edit.tsx:44-61 | the editor starts loading, with no profile and empty fields |
| ProfileEdit.ProfileEditor.Load | src/components/profile-edit.tsx:65-105 | the new state, toasts and navigation are those of `LoadStep` |
| ProfileEdit.ProfileEditor.SaveProfile | src/components/profile-edit.tsx:111-136 | the update sent and the new state are those of `SaveStep` |
| ProfileEdit.ProfileEditor.AddSender | src/components/profile-edit.tsx:138-164 | the row inserted and the new state are those of `AddStep` |
| ProfileEdit.ProfileEditor.DeleteSender | src/components/profile-edit.tsx:166-178 | the new state, toasts and navigations are those of `DeleteStep` |
| FetchUser.FetchUser | data/fetchUser.ts:9-36 | the definition of `fetchUser` as written, given the user and the profile row; its properties are stated by FetchUser.FetchUserFallbacks and FetchUser.DomainAndPlanDefaults |
| FetchUser.FirstTruthy | data/fetchUser.ts:28-32 | the first non-empty field of a chain, with no earlier one non-empty, or the default when none is |
| FetchUser.OrElseChain | data/fetchUser.ts:28-32 | the nested fallbacks, as the source writes them, give the first non-empty field of the chain |
| FetchUser.FetchUserFallbacks | data/fetchUser.ts:17-36 | a record exists exactly when there is a user (so without one the guest record is never returned), and each field is the first non-empty of its chain |
| FetchUser.DomainAndPlanDefaults | data/fetchUser.ts:31-32 | domain and plan are never empty, and without a profile row they are `example.com` and `free` |
| FetchUser.OrGuestSpec | data/fetchUser.ts:9-15 | the corrected function gives the guest record without a user, and otherwise the user's record |
| Plans.Limits | src/lib/plans.ts:11-31 | the definition of `PLAN_LIMITS`; its properties are stated by Plans.LimitsMonotone, Plans.YearlyIsDiscount and Plans.FreeTier |
| Plans.NameRoundTrip | src/lib/plans.ts:1 | each plan type has one name and each name one plan type |
| Plans.LimitsMonotone | src/lib/plans.ts:11-31 | every limit and the monthly price grow, or stay, from a tier to a higher one |
| Plans.YearlyIsDiscount | src/lib/plans.ts:8-23 | only the pro tier has a yearly price, and it is below twelve monthly payments |
| Plans.FreeTier | src/lib/plans.ts:12-17 | the free tier's limits are 1, 3, 3 and price 0, and its three-user domain cap is the lowest |
| BottomNav.Render | src/components/Layout/BottomNav.tsx:15-59 | the definition of what the bar renders; its properties are stated by BottomNav.RenderSpec and BottomNav.AtMostOneActive |
| BottomNav.RenderSpec | src/components/Layout/BottomNav.tsx:8-41 | the tabs show exactly when the footer does not, as Inbox, Sent, Automation, Control, with `aria-current="page"` exactly on the active ones |
| BottomNav.AtMostOneActive | src/components/Layout/BottomNav.tsx:8-34 | no pathname activates two tabs |
| BottomNav.ActiveExamples | src/components/Layout/BottomNav.tsx:19-34 | `/inboxes` activates no tab, `/inbox` and `/inbox/3` activate Inbox; `/blogs` shows the footer and `/auth/confirm` does not |
| SideBar.CurrentActive | src/components/Layout/SideBar.tsx:21-26 | the definition of `currentActive`; its properties are stated by SideBar.CurrentActiveIsFirstMatch and SideBar.ExactlyOneActive |
| SideBar.CurrentActiveIsFirstMatch | src/components/Layout/SideBar.tsx:21-27 | the prop wins when given; otherwise the section is the first of sent, drafts, scheduled, trash whose path occurs in the pathname |
| SideBar.FirstMatchSpec | src/components/Layout/SideBar.tsx:22-26 | the first match picks an entry whose path occurs with no earlier one occurring, and `inbox` exactly when none occurs |
| SideBar.ExactlyOneActive | src/components/Layout/SideBar.tsx:41-70 | exactly one of the five items is highlighted, the current section's |
| SideBar.SubstringExamples | src/components/Layout/SideBar.tsx:22-26 | `/x/sent/y` highlights Sent; `/` and `/inbox` highlight Inbox |

## Left out

- Reading the blog file from disk, the Supabase and Resend clients, `fetch`, toasts, React effects and rendering are not modelled. What they return is a parameter of the operation that uses it.
- Blogs.SortNewestFirst: the source's comparator returns `-1` for equal dates. So the engine's order of posts with equal dates is unspecified. The model proves only that the result is a permutation with no date below a later one, and sorts by insertion.
- JsString.Less compares characters by code point, while JavaScript compares UTF-16 code units. The two orders differ only for characters outside the Basic Multilingual Plane.
- JsString.ToLower lower-cases ASCII letters only. Full Unicode case mapping is not modelled.
- `URLSearchParams` percent-decoding and `+`-as-space are not modelled. Query and fragment pairs are taken as already decoded, and a leading `?` is dropped.
- The middleware's `matcher` configuration and the refresh of the Supabase session are not modelled. The guard decision takes whether a user is signed in as a parameter.
- The session-refresh `getUser()` call (src/middleware.ts:33-35) is left out for the same reason.
- Only string, `null` and absent JSON properties are modelled. A number or object in a field the route reads is not, and neither is the `EmailTemplate` React element.
- ComposeForm.ReplyOf models a provider error as text. In the browser, an error object would render as `[object Object]` in the toast.
- The compose form's `fetchRejectionReason` text and the date conversion are parameters. An unreadable date is an input that makes the conversion throw.
- `cn` in `src/app/auth/auth-client.tsx:14-16` is the same helper as `ProfileEdit.Cn`. Its argument `false` is modelled as `null`, which is equally falsy.
- The id `deleteSender` passes to the delete query (`src/components/profile-edit.tsx:166-170`) is not modelled; the query's answer is an input to `ProfileEdit.ProfileEditor.DeleteSender`.
- `signOut` in `src/components/profile-edit.tsx:180-183` only calls the auth service and navigates to `/auth`, so it is not modelled.
- The `loading` set at the start of `load` is not observable after it, so `ProfileEdit.LoadStep` keeps only its final value.

## Findings

| source | as written | input that shows it | evidently intended | confidence | as-written member | corrected member |
|---|---|---|---|---|---|---|
| src/components/Layout/ComposeForm.tsx:73-80 | the compose form posts `from`, `fromName`, `email`, `subject`, `message` and `scheduledAt`, but never the `api` key that src/app/api/send/route.ts:15 requires | any complete form, e.g. from `a@x.com`, to `b@y.com`, message `hi` | the payload carries the user's provider key, so that the route sends the email | medium; not executed | ComposeForm.EverySendFails | ComposeForm.KeyedPayloadSent |
| data/fetchUser.ts:9-36 | the guest record is built, but `return userData` sits inside `if (user)`, so without a user the function returns `undefined` | no signed-in user | the guest record is returned when nobody is signed in | medium; not executed | FetchUser.FetchUserFallbacks | FetchUser.OrGuestSpec |
