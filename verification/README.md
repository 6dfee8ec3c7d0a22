# KindCart core, modelled in Dafny

KindCart is a donation website. This project models the behaviour behind its pages as pure Dafny functions over immutable records and proves properties about them. It covers these parts of the site:

- the Kindness Exchange board: listing, filtering, adding donations and need requests, and marking them pending or matched;
- the mock authentication provider: login against a fixed table of three accounts, register, increment donation count and logout;
- the sign-up page's password policy and submit gate;
- the donate page's item toggles, default tab and submit button;
- the delivery-partner application form;
- the item-name line of the donation success dialog;
- the count-up animation of the impact page;
- the dashboard statistics;
- the four dialogs the board opens (adding a donation, adding a request, requesting an item, offering to a request), and the two dialogs under `src/components/exchange`, which no page in this model renders.

Each React handler becomes a function from the old state (and the event's inputs) to the new state. Storage is modelled as follows:

- The `kindcart_user` entry is a `stored` field kept beside the session user.
- The board's and the dashboard's stored lists are `Option` inputs to their load functions.
- Ids, timestamps and `parseInt` are parameters.
- A dialog's submit returns a `Modal.Step`. It holds the payload handed to the parent's callback (none when the handler returns early), the form left behind, and whether the dialog asked to be closed.

Shared modules:

- `Wrappers` holds `Option`.
- `Seqs` holds `Keep`, the model of JavaScript's `filter`, and the subsequence relation.
- `Text` holds ASCII case mapping, `trim`, `includes`, `split` and `join`.

## Model

| member | source | states |
|---|---|---|
| Seqs.Keep | src/pages/KindnessExchange.tsx:145-163 | `filter` keeps exactly the elements satisfying the predicate: every kept element is in the input and satisfies it, and every input element satisfying it is kept with all of its copies; nothing is kept more often than it occurs |
| Seqs.KeepIsSubsequence | src/pages/KindnessExchange.tsx:145-163 | `filter` preserves the order of the elements it keeps |
| Text.ToLower | src/contexts/AuthContext.tsx:60-61 | `toLowerCase()` keeps the length, lowers every character by position and leaves no upper-case letter |
| Text.Trim | src/contexts/AuthContext.tsx:60 | `trim` is empty exactly for all-white-space input; otherwise the result neither starts nor ends with white space and is no longer than the input |
| Text.TrimIgnoresPadding | src/contexts/AuthContext.tsx:60 | white space added at either end does not change `trim` |
| Text.TrimIsInfix | src/contexts/AuthContext.tsx:60 | `trim` returns a contiguous slice of its input with only white space cut away before and after it |
| Text.TrimCharacterised | src/contexts/AuthContext.tsx:60 | a text without white space at either end, padded with white space, trims to exactly that text |
| Text.TrimIdempotent | src/components/exchange/AddDonationModal.tsx:54-59 | trimming twice is trimming once |
| Text.Split | src/pages/KindnessExchange.tsx:172 | `split(' ')` yields at least one part, no part contains the separator, and joining the parts with it gives back the input |
| Text.Join | src/components/DonationSuccessModal.tsx:35 | `join` of no parts is empty, of one part is that part, and otherwise starts with the first part; joining the parts of `Text.Split` gives back the split string |
| Text.JoinAppend | src/components/DonationSuccessModal.tsx:35 | joining one more part appends the separator and that part |
| Text.ContainsIffOccurs | src/pages/KindnessExchange.tsx:146-147 | `includes` holds exactly when the needle occurs at some index of the haystack |
| Auth.Mount | src/contexts/AuthContext.tsx:36-43 | mounting adopts the stored user, stops loading and leaves session and storage in agreement |
| Auth.NormalizeEmail | src/contexts/AuthContext.tsx:60 | the normalised e-mail has no upper-case letter, is no longer than the input, and is empty exactly for an all-white-space input |
| Auth.NormalizeIsLowerTrim | src/contexts/AuthContext.tsx:60 | the normalised e-mail is the lower-cased input with its white space trimmed |
| Auth.PublicView | src/contexts/AuthContext.tsx:65 | the session user carries the account's id, name, e-mail, role and count, and no avatar |
| Auth.Find | src/contexts/AuthContext.tsx:61 | `find` returns the first account whose lower-cased e-mail equals the key, and none when no account matches |
| Auth.Lookup | src/contexts/AuthContext.tsx:60-61 | the account found is a table row whose lower-cased e-mail equals the normalised input; none is found exactly when no row matches |
| Auth.Login | src/contexts/AuthContext.tsx:45-79 | login succeeds exactly when the looked-up account's password equals the trimmed password; on success the session is the account without its password, stored too; on failure session and storage are unchanged; loading always ends false |
| Auth.Register | src/contexts/AuthContext.tsx:81-105 | register always succeeds and starts a session for a new member with the trimmed name, the normalised e-mail, count 0 and the given id, stored too |
| Auth.IncrementDonationCount | src/contexts/AuthContext.tsx:107-113 | with a user, the count (absent read as 0) goes up by one and no other field changes; without one, nothing changes |
| Auth.Logout | src/contexts/AuthContext.tsx:115-118 | logout clears both the session and the stored user |
| Auth.LogoutIdempotent | src/contexts/AuthContext.tsx:115-118 | logging out twice is logging out once |
| Auth.TransitionsKeepInSync | src/contexts/AuthContext.tsx:36-118 | every transition keeps the session user equal to the stored user |
| Auth.AccountEmailsLower | src/contexts/AuthContext.tsx:53-57 | the table's e-mails are already lower case |
| Auth.TableRows | src/contexts/AuthContext.tsx:53-57 | the table has three rows with the e-mails `admin@kindcart.org`, `john@example.com` and `jane@example.com` and the password `password123` |
| Auth.LookupTable | src/contexts/AuthContext.tsx:53-61 | an account is found exactly for the three table e-mails after normalising, and each has the password `password123` |
| Auth.LoginTable | src/contexts/AuthContext.tsx:53-63 | login succeeds exactly for one of the three table e-mails with the trimmed password `password123` |
| Auth.LoginIgnoresSession | src/contexts/AuthContext.tsx:45-79 | whether login succeeds never depends on the current session |
| Auth.RegisterThenLogin | src/contexts/AuthContext.tsx:81-105 | registering does not create an account that login would accept |
| Auth.RegisterIgnoresStateAndPassword | src/contexts/AuthContext.tsx:81-105 | registration ignores the existing state and the password |
| Auth.LoginIgnoresPadding | src/contexts/AuthContext.tsx:60-63 | white space around the e-mail or the password does not change the login |
| Auth.LoginIgnoresEmailCase | src/contexts/AuthContext.tsx:60-61 | two e-mails that differ only in letter case log in alike |
| Auth.LoginDependsOnNormalized | src/contexts/AuthContext.tsx:60-63 | two logins whose normalised e-mails and trimmed passwords agree give the same outcome |
| Auth.TrimToLower | src/contexts/AuthContext.tsx:60 | trimming and lower-casing commute |
| Auth.TrimStartToLower | src/contexts/AuthContext.tsx:60 | dropping leading white space commutes with lower-casing |
| Auth.TrimEndToLower | src/contexts/AuthContext.tsx:60 | dropping trailing white space commutes with lower-casing |
| Auth.NormalizeExample | src/contexts/AuthContext.tsx:91 | `"JANE@EX.com "` normalises to `"jane@ex.com"` |
| Auth.TrimExample | src/contexts/AuthContext.tsx:91 | trimming `"JANE@EX.com "` drops the trailing space |
| Auth.LowerExample | src/contexts/AuthContext.tsx:91 | lower-casing `"JANE@EX.com"` gives `"jane@ex.com"` |
| Auth.IncrementFromZero | src/contexts/AuthContext.tsx:107-113 | a user with count 0 has count 1 after an increment, with id, name and e-mail unchanged |
| Auth.RegisterThenIncrement | src/contexts/AuthContext.tsx:88-113 | after registering and one increment the user has count 1, the given id, the trimmed name and the normalised e-mail |
| Exchange.FilteredDonations | src/pages/KindnessExchange.tsx:145-153 | the donation list shows, in order, exactly the available items that match search, category and urgency, each as many times as it occurs in the board |
| Exchange.FilteredRequests | src/pages/KindnessExchange.tsx:155-163 | the request list shows, in order, exactly the open requests that match search, category and urgency, each as many times as it occurs in the board |
| Exchange.DonationFilterIff | src/pages/KindnessExchange.tsx:145-153 | a listed donation is shown exactly when all four conditions hold |
| Exchange.RequestFilterIff | src/pages/KindnessExchange.tsx:155-163 | a listed request is shown exactly when all four conditions hold |
| Exchange.UnfilteredDonations | src/pages/KindnessExchange.tsx:145-153 | with empty search and `all` selectors, the list is just the available donations |
| Exchange.UnfilteredRequests | src/pages/KindnessExchange.tsx:155-163 | with empty search and `all` selectors, the list is just the open requests |
| Exchange.NoUrgencyHidden | src/pages/KindnessExchange.tsx:149 | a donation without an urgency disappears as soon as an urgency is selected |
| Exchange.ShortName | src/pages/KindnessExchange.tsx:172 | the display name is the first word, a space, then at most one initial and a full stop |
| Exchange.ShortNameOneWord | src/pages/KindnessExchange.tsx:172 | a one-word name becomes the name followed by `" ."` |
| Exchange.ShortNameShape | src/pages/KindnessExchange.tsx:172 | for a name `first rest` with no space in `first`, the short name is `first`, a space, the first character of `rest` unless `rest` is empty or starts with a space, and `.` |
| Exchange.SplitAfterWord | src/pages/KindnessExchange.tsx:172 | splitting at the first separator yields the word before it, then the split of the rest |
| Exchange.ShortNameTwoWords | src/pages/KindnessExchange.tsx:172 | `Jane Doe` becomes `Jane D.` |
| Exchange.ShortNameMononym | src/pages/KindnessExchange.tsx:172 | `Madonna` becomes `Madonna .` |
| Exchange.AddDonation | src/pages/KindnessExchange.tsx:165-179 | signed out, nothing changes; signed in, exactly one available item is appended, owned by the user and carrying the draft's fields |
| Exchange.AddRequest | src/pages/KindnessExchange.tsx:187-201 | signed out, nothing changes; signed in, exactly one open request is appended, named `Anonymous` exactly when anonymous |
| Exchange.MarkPending | src/pages/KindnessExchange.tsx:209-215 | every donation with the id becomes pending and every other donation is unchanged |
| Exchange.MarkMatched | src/pages/KindnessExchange.tsx:223-229 | every request with the id becomes matched and every other request is unchanged |
| Exchange.HandleRequestItem | src/pages/KindnessExchange.tsx:209-215 | requesting an item marks every donation with its id pending, leaves every other donation unchanged and ignores the request form |
| Exchange.HandleDonateToRequest | src/pages/KindnessExchange.tsx:223-229 | offering to a request marks every request with its id matched, leaves every other request unchanged and ignores the offer form |
| Exchange.RequestedDonationLeavesView | src/pages/KindnessExchange.tsx:209-215 | after a request, the filtered list is the old one without that item |
| Exchange.AnsweredRequestLeavesView | src/pages/KindnessExchange.tsx:223-229 | after an offer, the filtered list is the old one without that request |
| Exchange.OwnDonationDisabled | src/pages/KindnessExchange.tsx:405 | the user's own new donation has its request button disabled for them and enabled for any user with another id |
| Exchange.OwnRequestDisabled | src/pages/KindnessExchange.tsx:455 | the user's own new request has its donate button disabled for them and enabled for any user with another id |
| Exchange.LoadDonations | src/pages/KindnessExchange.tsx:67-103 | the stored list is used when present; otherwise two available sample items |
| Exchange.LoadRequests | src/pages/KindnessExchange.tsx:105-141 | the stored list is used when present; otherwise two open sample requests, named `Anonymous` exactly when anonymous |
| RegisterPage.HasCharIff | src/pages/Register.tsx:24-26 | a character-class test holds exactly when some character is in the class |
| RegisterPage.ValidatePassword | src/pages/Register.tsx:21-28 | each rule flag holds exactly when the password is at least 8 long, or has an upper-case letter, a lower-case letter or a digit |
| RegisterPage.PasswordValidIff | src/pages/Register.tsx:30-31 | the password is valid exactly when all four properties hold |
| RegisterPage.HandleSubmit | src/pages/Register.tsx:34-44 | `register` is called exactly when the password is valid and confirmed; otherwise nothing changes |
| RegisterPage.EnabledButtonRegisters | src/pages/Register.tsx:268 | a submit from an enabled button that the browser's own field checks let through registers, and a submit that does not register comes from a disabled button |
| RegisterPage.PasswordExamples | src/pages/Register.tsx:21-31 | `Abcd1234` is accepted and `Abc1234` is refused |
| DonatePage.ToggleItem | src/pages/Donate.tsx:46-52 | toggling flips the item's membership, appends an absent item, shortens the list when present, and keeps every other item with the same number of copies |
| DonatePage.KeepShrinks | src/pages/Donate.tsx:49 | filtering out an element that is present shortens the list |
| DonatePage.ToggleKeepsNoDuplicates | src/pages/Donate.tsx:46-52 | toggling never introduces a duplicate |
| DonatePage.ToggleTwiceRestores | src/pages/Donate.tsx:46-52 | toggling an absent item twice restores the selection |
| DonatePage.DefaultTab | src/pages/Donate.tsx:16-17 | the default tab is "get help" exactly when the `tab` query parameter is `get-help` |
| DonatePage.ToggleEnablesSubmit | src/pages/Donate.tsx:213 | selecting a new item enables the button, and deselecting the only item disables it |
| DonationSuccess.ItemName | src/components/DonationSuccessModal.tsx:26-34 | an id outside the five known ones is shown as itself |
| DonationSuccess.KnownItemNames | src/components/DonationSuccessModal.tsx:27-33 | each of the five known ids gets its display name |
| DonationSuccess.Names | src/components/DonationSuccessModal.tsx:26-34 | the names follow the selection one to one, in order |
| DonationSuccess.ItemNames | src/components/DonationSuccessModal.tsx:26-35 | the line is the names joined by `", "`, and empty for no selection |
| DonationSuccess.ItemNameNonEmpty | src/components/DonationSuccessModal.tsx:34 | a non-empty id never shows as an empty name |
| DonationSuccess.ItemNamesExample | src/components/DonationSuccessModal.tsx:26-35 | `["toys", "crayons"]` shows as `Toys, crayons` |
| DonationSuccess.OfferedItemsNamed | src/pages/Donate.tsx:38-44 | every item the donate page offers has a display name different from its id |
| DonationSuccess.ShowCertificate | src/components/DonationSuccessModal.tsx:24-83 | the certificate button appears exactly for a first donation with a handler |
| PartnerForm.SetText | src/components/delivery-partner/PartnerApplicationForm.tsx:61-63 | a text edit changes that field only |
| PartnerForm.SetFlag | src/components/delivery-partner/PartnerApplicationForm.tsx:61-63 | a check-box edit changes that flag only |
| PartnerForm.SetAvailability | src/components/delivery-partner/PartnerApplicationForm.tsx:65-72 | checking appends the option; unchecking removes every copy and keeps the order of the rest; every other option keeps its number of copies and the other fields are untouched |
| PartnerForm.HandleSubmit | src/components/delivery-partner/PartnerApplicationForm.tsx:74-140 | missing-fields is reported exactly when a required field is empty; agreement-required exactly when all are filled but an agreement is missing; a rejection changes nothing; acceptance resets the form |
| PartnerForm.OptionalFieldsIgnored | src/components/delivery-partner/PartnerApplicationForm.tsx:78 | editing a field outside the required four never changes the verdict |
| PartnerForm.AvailabilityIgnored | src/components/delivery-partner/PartnerApplicationForm.tsx:78-94 | the availability list never changes the verdict |
| PartnerForm.CompleteFormAccepted | src/components/delivery-partner/PartnerApplicationForm.tsx:78-94 | all four required fields and both agreements mean acceptance |
| Impact.StepSize | src/pages/Impact.tsx:30-33 | the step is the least whole number that reaches the target in 60 steps, and 0 for a target of 0 |
| Impact.Tick | src/pages/Impact.tsx:30-33 | a tick never passes the target, never lowers a counter below it, and keeps it at the target once reached |
| Impact.RunFromZero | src/pages/Impact.tsx:25-35 | after n ticks from zero a counter shows min(n × step, target) |
| Impact.RunFrom | src/pages/Impact.tsx:25-35 | after n ticks from any start at or below the target a counter shows min(start + n × step, target) |
| Impact.RunAtTarget | src/pages/Impact.tsx:30-33 | a counter at its target stays there |
| Impact.RunMonotone | src/pages/Impact.tsx:30-33 | ticks never lower a counter and never lift it past its target |
| Impact.ReachesTargetInSteps | src/pages/Impact.tsx:24-35 | 60 ticks from zero land exactly on any target |
| Impact.TickAll | src/pages/Impact.tsx:28-34 | each counter stays within its target and never decreases |
| Impact.CountersIndependent | src/pages/Impact.tsx:29-34 | changing one counter changes no other counter after a tick |
| Impact.RunAllPointwise | src/pages/Impact.tsx:28-35 | running all four counters is running each one on its own |
| Impact.AnimationCompletes | src/pages/Impact.tsx:9-40 | the animation shows 1250, 520, 18 and 1500 after 60 ticks |
| Dashboard.ComputeStats | src/pages/Dashboard.tsx:59-84 | total is the history's length; impact points are twice the deliveries; a count is zero exactly when no entry qualifies |
| Dashboard.StatsAppend | src/pages/Dashboard.tsx:59-84 | one more entry adds one to the total and one to each count it qualifies for |
| Dashboard.StatusColor | src/pages/Dashboard.tsx:86-93 | an unknown status gets the grey badge |
| Dashboard.StatusColorsDistinct | src/pages/Dashboard.tsx:86-93 | the three known statuses and the default get four different badges |
| Dashboard.StatusLabel | src/pages/Dashboard.tsx:159 | the label has the status's length, its first letter upper-cased and the rest unchanged |
| Dashboard.StatusLabelExamples | src/pages/Dashboard.tsx:159 | `delivered` reads `Delivered` and `pending` reads `Pending` |
| Dashboard.LoadHistory | src/pages/Dashboard.tsx:23-57 | the stored history is used when present; otherwise three sample entries |
| Dashboard.SeededStats | src/pages/Dashboard.tsx:25-84 | with nothing stored the dashboard shows 3 donations, 1 delivered, 1 child helped and 2 points |
| Dashboard.SampleCounts | src/pages/Dashboard.tsx:30-74 | of the three sample entries exactly one is delivered and exactly one has a recipient |
| Modal.Reject | src/components/AddRequestModal.tsx:39 | an early return sends nothing, keeps the form and leaves the dialog open |
| AddRequestModal.HandleSubmit | src/components/AddRequestModal.tsx:37-62 | submits exactly when title, description, category and reason are non-empty as typed; the payload carries them, with the age parsed only when given; then the form resets to the defaults and the dialog closes |
| AddRequestModal.SubmitReachesBoard | src/pages/KindnessExchange.tsx:187-201 | a submitted request becomes one new open request on the board, owned by the user and anonymous exactly as chosen |
| AddDonationModal.HandleSubmit | src/components/AddDonationModal.tsx:32-53 | submits exactly when title, description and category are non-empty as typed; an empty location is dropped and the urgency is passed on; then the form resets and the dialog closes |
| AddDonationModal.BlankTextAccepted | src/components/AddDonationModal.tsx:34 | a title and description of spaces only pass the handler's guard |
| AddDonationModal.SubmitReachesBoard | src/pages/KindnessExchange.tsx:165-179 | a submitted donation becomes one new available item on the board, with the chosen urgency |
| ExchangeAddDonationModal.HandleSubmit | src/components/exchange/AddDonationModal.tsx:47-69 | submits exactly when title and description have content after trimming and a category is chosen; the payload is trimmed and a blank location dropped; then the form empties and the dialog closes |
| ExchangeAddDonationModal.ButtonMatchesHandler | src/components/exchange/AddDonationModal.tsx:152 | the button is disabled exactly when the handler would refuse |
| ExchangeAddDonationModal.PayloadIsTrimmed | src/components/exchange/AddDonationModal.tsx:54-59 | an accepted payload has a non-empty title and description with no white space at either end |
| InteractionModal.HandleSubmit | src/components/exchange/InteractionModal.tsx:33-43 | submits exactly when message and e-mail have content after trimming, passing both trimmed and clearing the fields; the dialog stays open |
| InteractionModal.HandleClose | src/components/exchange/InteractionModal.tsx:45-49 | closing clears both fields, sends nothing and requests close |
| InteractionModal.ButtonMatchesHandler | src/components/exchange/InteractionModal.tsx:140 | the button is disabled exactly when the handler would refuse |
| InteractionModal.Render | src/components/exchange/InteractionModal.tsx:51-54 | nothing is rendered without an item; the two mode flags follow the action and the item kind and are never both set |
| DonateItemModal.Prefill | src/components/DonateItemModal.tsx:31-36 | name and e-mail come from the signed-in user, or are empty; the rest is empty |
| DonateItemModal.HandleSubmit | src/components/DonateItemModal.tsx:38-52 | submits exactly when name, e-mail and message are non-empty, passing the request and the form unchanged; then the prefill is restored and the dialog closes |
| DonateItemModal.SubmitMatchesRequest | src/pages/KindnessExchange.tsx:223-229 | after an accepted offer the request no longer appears in the filtered list |
| RequestItemModal.Prefill | src/components/RequestItemModal.tsx:29-34 | name and e-mail come from the signed-in user, or are empty; the rest is empty |
| RequestItemModal.HandleSubmit | src/components/RequestItemModal.tsx:36-50 | submits exactly when name, e-mail and reason are non-empty, passing the item and the form unchanged; then the prefill is restored and the dialog closes |
| RequestItemModal.SubmitMarksPending | src/pages/KindnessExchange.tsx:209-215 | after an accepted request the item no longer appears in the filtered list |

## Left out

- Unicode. `trim` strips only the space and code points 9–13, not the other Unicode white space. Case mapping covers ASCII letters only. Both are ASCII-exact.
- `parseInt`. It is a parameter of `AddRequestModal.HandleSubmit`, so its NaN result and its prefix parsing are not modelled.
- Timing. The simulated one- and two-second latencies, the impact page's `setInterval`/`setTimeout` schedule (modelled as a tick count) and any timer jitter are left out.
- Ids and timestamps. `Date.now()` ids and `toISOString()` timestamps are parameters.
- Storage. The JSON encoding of localStorage entries is not modelled: a stored value is the record itself.
- Storage writes of the board and the dashboard. After every board transition the new list is written whole to `kindcart_donations` or `kindcart_requests` (src/pages/KindnessExchange.tsx:179, 201, 215, 229), and the seeded samples are written on first load (lines 102 and 140; src/pages/Dashboard.tsx:55 for the dashboard). Each write stores exactly the list the transition returns, so a reload passes it back to `Exchange.LoadDonations`, `Exchange.LoadRequests` or `Dashboard.LoadHistory` as the stored value. The model keeps only the reads, as `Option` inputs.
- Browser constraint validation. No form sets `noValidate`, so the browser refuses a submit whose `required` field is empty, whose `type="email"` field is not an e-mail address, or whose number is outside `min`/`max` (for example src/pages/Register.tsx:161, 172, 177 and the age field at src/components/AddRequestModal.tsx:111-116). The handlers never see such a submit. Each dialog's and page's `HandleSubmit` models its handler alone, so it accepts inputs the browser would have stopped, such as an age of 25.
- RegisterPage.EnabledButtonRegisters: relates the button to the handler only. With an empty name or an e-mail such as `x` the button is enabled but the browser blocks the submit, so `register` is not called.
- Unreachable error path. The `try`/`catch` of the partner submit cannot fire in the code as written.
- Failing storage writes. In login and register, `localStorage.setItem` (src/contexts/AuthContext.tsx:67 and :97) can throw after `setUser` has run (lines 66 and 96). The `catch` (lines 74-77 and 100-103) then returns false while the session user is set and the stored user is not, so session and storage disagree. The model treats every storage write as succeeding, which is why `Auth.InSync` holds after every transition.
- `itemMap`. In `DonationSuccess.ItemName`, a JavaScript object-prototype key such as `constructor` would read an inherited member instead of the id; ids are treated as plain keys.
- Presentation. Toasts, navigation targets other than the register page's dashboard redirect, scrolling, icons, styling and the remaining presentational files are left out.
- Missing features. Password hashing, account lockout, persistent accounts and server sessions are not implemented in `src/contexts/AuthContext.tsx`. The model follows the code, so login consults only the three built-in plaintext accounts, and registration remembers nothing beyond the session user.
- Impact page stop. `src/pages/Impact.tsx` clears the timer after two seconds rather than after a tick count. The model assumes all 60 ticks run before that.
- Other handlers. The donate page's help-request and donation-submit handlers log and show a browser alert (src/pages/Donate.tsx:54-64). The dialogs' per-field change handlers are plain setters. None of them is modelled.
- DonationSuccess.ItemNames: states only one direction for the empty line, because an empty id also shows as an empty name.
- RegisterPage.ValidatePassword: counts the password's length in characters. JavaScript's `length` counts UTF-16 code units, so a password with characters outside the Basic Multilingual Plane can pass the 8-character rule in the browser while being shorter here.
- Exchange.ShortName: takes the first character of the second word. JavaScript's `[0]` takes the first UTF-16 code unit, which is half a character for a surname starting outside the Basic Multilingual Plane.
