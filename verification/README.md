# Flash-pay NFC redemption, modelled in Dafny

This project models the NFC-to-LNURL redemption logic of the flash-pay point-of-sale app. The logic lives in three React components:

- `nfc.tsx`, the invoice screen. A card tap redeems a Lightning invoice through the LNURL-withdraw flow of LUD-03. In payout mode, a tap instead pays the card a reward through a BTCPay pull payment.
- `payout.tsx`, the payout screen. A card tap is resolved through the issuer's balance page to the card's lnurl. That lnurl is paid once, and the screen then navigates back.
- `nfcp.tsx`, the rewards screen. A tap only stores the card's text.

The browser, HTTP and library calls become values, so each screen is a pure step function. A step maps `(State, Event)` to a new state and a sequence of `Effect`s: alerts, scans, requests, the loading flag and navigation.

- **Events** carry everything the screen learns from outside: permission changes, button clicks, tag reads with their records, the `getParams` result and the callback answer, and balance-page answers.
- **Faults** are explicit. `Withdraw.Run.faulted` marks a handler run that threw. `Balance.Submitted.Caught` marks a balance lookup whose exception was caught.

| module | file | models |
|---|---|---|
| `Js` | js.dfy | the JavaScript built-ins used: truthiness, `startsWith`, `includes`, ASCII `toLowerCase`, `split`, out-of-range reads, `${n}` |
| `Ndef` | ndef.dfy | `decodeNDEFRecord` and the choice of the first record |
| `SearchParams` | search_params.dfy | `URLSearchParams.set` as the WHATWG URL Standard defines its `set(name, value)` method |
| `Balance` | balance.dfy | `handleSubmit`: the balance-page URL, the leftmost match of `/href="lightning:(lnurl\w+)"/`, and the guarded and unguarded ways of storing the capture |
| `Effects` | effects.dfy | the effects, and the loading flag they leave behind |
| `Withdraw` | withdraw.dfy | `nfcHandler`: the trigger, the compatibility and tag checks, the callback URL, and the classification of the callback answer |
| `Gate` | gate.dfy | the permission probe at mount, `onchange`, a scan on each rise of the flag, and the activation button |
| `Rewards` | rewards.dfy | `redeemRewards` and `extractLnurl` |
| `PayoutScreen`, `InvoiceScreen`, `RewardsScreen` | payout_screen.dfy, invoice_screen.dfy, rewards_screen.dfy | one state machine per component, with lemmas over arbitrary event sequences |

Three points of JavaScript behaviour shape the model:

- A React state set to the value it already holds re-runs no effect. So a card tapped twice in a row with the same text starts no second attempt, and an lnurl found again triggers nothing.
- `fetch` bodies can be read only once. The second `result.json()` in `nfcHandler` therefore always rejects, so the diagnostic alert never carries an error message. The handler then throws, and the loading view stays up.
- Each rise of the permission flag, and each click of the activate button, creates another `NDEFReader` whose listener handles every later read. The gate counts them in `readers`. In payout mode, one tap therefore sends one balance request per reader.

## Model

| member | source | states |
|---|---|---|
| Js.ContainsIsIncludes | components/ParsePOSPayment/nfc.tsx:195 | the executable substring test agrees both ways with "the pattern occurs at some index", the meaning of `String.prototype.includes` |
| Js.LowerAscii | components/ParsePOSPayment/nfc.tsx:253 | the ASCII lower-casing keeps the length, leaves no `A`-`Z`, and changes only `A`-`Z`, each to the letter 32 code points up |
| Js.LowerAsciiFixesLower | components/ParsePOSPayment/nfc.tsx:195 | text without an upper-case ASCII letter is left unchanged |
| Js.LowerAsciiIdempotent | components/ParsePOSPayment/nfc.tsx:195 | lower-casing a lower-cased text changes nothing |
| Js.Split | components/ParsePOSPayment/nfc.tsx:52-53 | `split` on one character yields at least one piece, and no piece contains the separator |
| Js.JoinSplit | components/ParsePOSPayment/nfc.tsx:52-53 | joining the pieces of a split with the separator gives back the text |
| Js.SplitJoin | components/ParsePOSPayment/nfc.tsx:52-53 | splitting a join of separator-free pieces gives back the pieces |
| Js.SplitSecondPiece | components/ParsePOSPayment/nfc.tsx:52 | piece 1 of a split on `?` is exactly the text strictly between the first `?` and the next `?` or the end |
| Js.DecimalRoundTrip | components/ParsePOSPayment/nfc.tsx:273 | `${status}` is a digit string that reads back as the status |
| Ndef.DecodeRecord | components/ParsePOSPayment/nfc.tsx:30-48 | no payload, or a payload that is neither `ArrayBuffer` nor `DataView`, decodes to ""; a buffer is decoded whole; a view is decoded through its underlying buffer; a rejected label is a fault |
| Ndef.ViewDecodesWholeBuffer | components/ParsePOSPayment/nfc.tsx:39-40 | a `DataView` decodes the same as its whole `.buffer`, whatever its offset and length |
| Ndef.DefaultLabelIsUtf8 | components/ParsePOSPayment/nfc.tsx:46 | a missing or empty label decodes exactly like an explicit "utf-8" |
| Ndef.OnlyFirstRecordCounts | components/ParsePOSPayment/payout.tsx:130-131 | records after the first never influence the decoded text |
| SearchParams.ReplaceFirst | components/ParsePOSPayment/nfc.tsx:244 | setting a present name leaves one entry for it, holding the new value at the position of the first old entry; the other names' entries are unchanged |
| SearchParams.Set | components/ParsePOSPayment/nfc.tsx:244-245 | after `set(n, v)` there is exactly one `n` entry and it holds `v`; entries of other names keep their order; an absent `n` is appended at the end |
| SearchParams.SetKeepsOtherNames | components/ParsePOSPayment/nfc.tsx:244-245 | setting one name changes neither the count nor the value of any other name |
| SearchParams.SetIdempotent | components/ParsePOSPayment/nfc.tsx:244 | setting the same name and value twice equals setting it once |
| SearchParams.EntriesDetermined | components/ParsePOSPayment/nfc.tsx:244 | two queries with one `n` entry each agree if they agree on its value, its position and all other entries |
| Balance.BalanceUrlOfLud17 | components/ParsePOSPayment/nfc.tsx:52-55 | for `lnurlw://<host>/<path>?<query>`, the request goes to `https://<host>/boltcards/balance?<query>` |
| Balance.HostPiece | components/ParsePOSPayment/nfc.tsx:53 | the third `/`-piece of `scheme//host/rest` is the host |
| Balance.QueryPiece | components/ParsePOSPayment/nfc.tsx:52 | the second `?`-piece of `before?query` is the query |
| Balance.BalanceUrlWithoutQuery | components/ParsePOSPayment/nfc.tsx:52-55 | text without `?` still yields an `https://` URL, ending in the word `undefined` |
| Balance.WordRun | components/ParsePOSPayment/nfc.tsx:58 | the run of `\w` characters found is maximal: all word characters, followed by a non-word character or the end |
| Balance.MatchesAtIsRegex | components/ParsePOSPayment/nfc.tsx:58 | the scanner accepts a position exactly when the backtracking pattern matches there, with exactly one possible capture |
| Balance.MatchGivesPattern | components/ParsePOSPayment/nfc.tsx:58 | a position the scanner accepts holds the fixed head, a non-empty word run and the closing quote |
| Balance.PatternGivesMatch | components/ParsePOSPayment/nfc.tsx:58 | the head, a non-empty word run and a closing quote at a position make the scanner accept it, capturing `lnurl` and that run |
| Balance.RunStopsAtQuote | components/ParsePOSPayment/nfc.tsx:58 | `\w+` can never consume the closing quote, so a matching word run must be the maximal one |
| Balance.FirstMatchFrom | components/ParsePOSPayment/nfc.tsx:58 | the position found matches and no earlier position does; none is found only when no position matches |
| Balance.FindLnurl | components/ParsePOSPayment/nfc.tsx:58 | `html.match` yields nothing exactly when no position matches; otherwise the capture at the leftmost match, which starts with "lnurl", is longer than 5, is all word characters and sits in `href="lightning:<capture>"` in the page |
| Balance.FindLnurlOfAnchor | components/ParsePOSPayment/nfc.tsx:58 | a page in which no position before the anchor for `cap` starts `href="lightning:lnurl` yields exactly `cap`, whatever other quoted attributes precede it |
| Balance.QuotedAttributeBeforeAnchor | components/ParsePOSPayment/nfc.tsx:58 | the page `<a class="btn" ` + anchor + `>`, with quotes before the anchor, still yields exactly `cap` |
| Balance.FirstMatchIsLeftmost | components/ParsePOSPayment/nfc.tsx:58 | from any start at or before the leftmost match, the scanner returns exactly that match |
| Balance.CaptureFacts | components/ParsePOSPayment/nfc.tsx:58 | a capture starts with "lnurl", is longer than 5, is all word characters, and its anchor occurs in the page at the match |
| Balance.MatchHasQuote | components/ParsePOSPayment/nfc.tsx:58 | every match has the quote after `href=` five characters in |
| Balance.NoMatchBefore | components/ParsePOSPayment/nfc.tsx:58 | no match starts before a position when no quote occurs up to five characters past it |
| Balance.SubmitUnguarded | components/ParsePOSPayment/nfc.tsx:50-63 | the capture is stored when the page matches; a failed request and a page without a match (`lnurlMatch[1]` on null) both end in the caught exception |
| Balance.SubmitGuarded | components/ParsePOSPayment/payout.tsx:46-60 | only a failed request or non-text answer ends in the catch; a page without a match is skipped; a match is stored |
| Balance.GuardOnlyAvoidsFault | components/ParsePOSPayment/payout.tsx:53-56 | both variants store the same capture on the same pages; the unguarded one throws exactly where the guarded one throws or skips |
| Withdraw.ReadJson | components/ParsePOSPayment/nfc.tsx:250 | reading a body marks it used; a used body always rejects, and a fresh one resolves iff it is JSON |
| Withdraw.HttpErrorAlert | components/ParsePOSPayment/nfc.tsx:273-277 | the diagnostic alert always contains "HTTP error code: " followed by the status |
| Withdraw.Classify | components/ParsePOSPayment/nfc.tsx:252-280 | ok with status "ok" in any case: silent; ok otherwise: the reason or the generic message; failed with a reason about the amount bounds: the insufficient-funds alert; failed without a reason, or a `null` body: a throw before any alert; any other failure: the diagnostic with the status, shown bare and then a throw because the body was already read; loading is cleared exactly when nothing throws |
| Withdraw.CallbackUrlCarriesChallengeAndInvoice | components/ParsePOSPayment/nfc.tsx:240-247 | the callback URL keeps its location, fragment and other query entries, and carries exactly one `k1` holding the challenge and one `pr` holding the invoice |
| Withdraw.NfcHandler | components/ParsePOSPayment/nfc.tsx:194-281 | text without "lnurl" (any case) gives exactly the incompatibility alert; no invoice gives exactly the missing-invoice alert; otherwise the run starts with the sound, loading on and the parameter request, and then: a rejected `getParams` throws; a tag other than "withdrawRequest" alerts it with the reason and clears loading; an unparseable callback throws; only a withdraw tag ever fetches, and any fetch goes to the callback URL built from the parsed callback, `k1` and the invoice |
| Withdraw.CallCallback | components/ParsePOSPayment/nfc.tsx:249-280 | the request to the callback URL comes first and no later effect is another request; a network failure or a body that is not JSON throws right after it; otherwise the classified answer follows it |
| Withdraw.CallCallbackLoading | components/ParsePOSPayment/nfc.tsx:249-280 | after the request, a throw leaves loading set and a completed answer clears it |
| Withdraw.StartedSetsLoading | components/ParsePOSPayment/nfc.tsx:205-216 | after the sound and the parameter request, loading is on whatever it was before |
| Withdraw.WithdrawRun | components/ParsePOSPayment/nfc.tsx:195-250 | for compatible text with an invoice, a withdraw tag and a parseable callback, the run is the start (sound, loading on, parameter request) followed by the callback run on the URL built from `k1` and the invoice |
| Withdraw.NfcHandlerLoading | components/ParsePOSPayment/nfc.tsx:215-280 | a run that throws leaves loading set; a run past the checks that does not throw clears it; a run stopped by the checks leaves it as it was |
| Withdraw.MissingInvoiceUnreachable | components/ParsePOSPayment/nfc.tsx:189-203 | under its trigger the handler never shows the missing-invoice alert first; it starts with the incompatibility alert or the sound |
| Withdraw.InvoiceSuccessScenario | components/ParsePOSPayment/nfc.tsx:249-256 | a withdraw card answered 200 with status "OK" gives exactly: the sound, loading on, the parameter request, the callback request carrying `k1` and `pr`, and loading off; no alert and no throw |
| Withdraw.InsufficientFundsScenario | components/ParsePOSPayment/nfc.tsx:257-261 | an HTTP 400 answer whose reason says the amount is above the maximum gives exactly the start, the callback request, the insufficient-funds alert and loading off, with no throw |
| Withdraw.MissingReasonFaults | components/ParsePOSPayment/nfc.tsx:257-259 | for any non-2xx status, an answer without a reason gives exactly the start and the callback request, then throws before any alert, so loading stays on |
| Gate.Mount | components/ParsePOSPayment/nfc.tsx:142-176 | the flag is on after mount iff the query reports granted; a listener is subscribed iff the query succeeded; one scan starts iff the flag is on and NFC is supported |
| Gate.PermissionChange | components/ParsePOSPayment/nfc.tsx:168-187 | with a listener, the flag follows "granted"; a scan starts exactly on a false-to-true rise on a supported device; without a listener nothing happens |
| Gate.ScansFollowRises | components/ParsePOSPayment/payout.tsx:172-182 | over any sequence of changes, the scans started equal the number of rises, and the flag ends as the last state dictates |
| Gate.UnsubscribedGateStaysShut | components/ParsePOSPayment/nfcp.tsx:94-106 | without the Permissions API, or after a failed query, no sequence of changes alters the gate or starts a scan |
| Gate.ActivateButton | components/ParsePOSPayment/nfc.tsx:316-323 | disabled iff permitted or unsupported; the label is "Flashcard not supported", else "Flashcard activated", else "Activate Flashcard Tap to Pay" |
| Gate.EnabledIffInvitesActivation | components/ParsePOSPayment/nfcp.tsx:179-185 | the button can be pressed exactly when its label invites activation |
| Gate.Activate | components/ParsePOSPayment/nfc.tsx:99-104 | the activation ends with the activation alert, keeps the flag, and starts a scan iff NFC is supported |
| Rewards.RedeemRewardsPaysOnce | components/ParsePOSPayment/nfc.tsx:65-83 | a redemption posts exactly once when there is an lnurl and never otherwise, paying "0.01" to that lnurl; it never navigates, scans or calls a withdraw callback |
| PayoutScreen.Init | components/ParsePOSPayment/payout.tsx:19-24 | the screen starts not loading, not redeemed, without lnurl or text |
| PayoutScreen.SetLnurlSafely | components/ParsePOSPayment/payout.tsx:62-64 | the deduplicating setter always leaves the state holding the new value |
| PayoutScreen.StepRedeemsAtMostOnce | components/ParsePOSPayment/payout.tsx:89-98 | one event issues at most one payout, none once redeemed; each payout comes with one navigation back and sets `hasRedeemed`, which never goes back; loading is never set |
| PayoutScreen.AtMostOnePayout | components/ParsePOSPayment/payout.tsx:24-98 | over any event sequence: at most one payout POST, none if already redeemed, navigations equal payouts, and loading unchanged |
| PayoutScreen.AnswerRedeemsAtMostOnce | components/ParsePOSPayment/payout.tsx:53-98 | one balance answer issues at most one payout, none once redeemed, each with one navigation back and the redemption mark set |
| PayoutScreen.SameLnurlIsNoOp | components/ParsePOSPayment/payout.tsx:62-64 | an answer carrying the lnurl already held changes only the count of awaited answers and triggers nothing |
| PayoutScreen.NoMatchKeepsLnurl | components/ParsePOSPayment/payout.tsx:53-59 | a failed request or a page without a match keeps the lnurl and the redemption mark, with no effect |
| PayoutScreen.NewLnurlPaysOut | components/ParsePOSPayment/payout.tsx:89-98 | a new lnurl before any redemption is stored, paid out to the pull payment and followed by one navigation back |
| PayoutScreen.AnswerNewLnurl | components/ParsePOSPayment/payout.tsx:62-98 | storing a new non-empty lnurl on an unredeemed screen gives exactly the payout and the navigation back |
| PayoutScreen.TagReadStoresText | components/ParsePOSPayment/payout.tsx:128-136 | a read stores the text and requests balance pages iff the text starts with "lnurlw", all for that text's page |
| PayoutScreen.EmptyMessageChangesNothing | components/ParsePOSPayment/payout.tsx:130-131 | a message without records throws on `records[0]` before anything is stored: the step changes nothing |
| PayoutScreen.ReadByOneReader | components/ParsePOSPayment/payout.tsx:128-136 | with one listening reader, a read stores the text and awaits exactly as many answers as lookups it starts |
| PayoutScreen.Lud17Lookups | components/ParsePOSPayment/payout.tsx:48-50 | one reader reading `lnurlw://<host>/<path>?<query>` starts exactly one lookup, of `https://<host>/boltcards/balance?<query>` |
| PayoutScreen.PayoutHappyPath | components/ParsePOSPayment/payout.tsx:46-98 | a LUD-17 tag and a page holding the anchor, with no earlier `href="lightning:lnurl` before it, give exactly: the balance request for the tag's host and query, the payout to the captured lnurl, and one navigation back |
| InvoiceScreen.ViewOf | components/ParsePOSPayment/nfc.tsx:283-328 | the loading view shows iff loading; otherwise the activation button shows iff there is no invoice, labelled and enabled by the gate |
| InvoiceScreen.Init | components/ParsePOSPayment/nfc.tsx:24-28 | the screen starts not loading, without text, lnurl or awaited answers, on the mounted gate |
| InvoiceScreen.TagReadRouting | components/ParsePOSPayment/nfc.tsx:121-131 | with an invoice, a read of the text already held does nothing; a new non-empty text is stored and starts one handler run, whose effects are the step's and whose outcome sets the loading flag |
| InvoiceScreen.NoInvoiceNoRun | components/ParsePOSPayment/nfc.tsx:189-192 | without an invoice, or with an empty one, a read stores its text and starts no handler run: no effect, loading and the gate unchanged |
| InvoiceScreen.EmptyMessageChangesNothing | components/ParsePOSPayment/nfc.tsx:125-126 | a message without records throws on `records[0]` before anything is stored: the step changes nothing |
| InvoiceScreen.ReadIsNewText | components/ParsePOSPayment/nfc.tsx:121-131 | outside payout mode, a read with a listener is exactly the arrival of its decoded text |
| InvoiceScreen.FaultLeavesLoadingView | components/ParsePOSPayment/nfc.tsx:215-280 | a handler run that throws leaves the screen on the loading view |
| InvoiceScreen.CompletedAttemptClearsLoading | components/ParsePOSPayment/nfc.tsx:280 | a run for compatible text that does not throw takes the screen off the loading view |
| InvoiceScreen.NoMissingInvoiceAlert | components/ParsePOSPayment/nfc.tsx:200-203 | no event of the screen ever starts with the missing-invoice alert |
| InvoiceScreen.PayoutModeStep | components/ParsePOSPayment/nfc.tsx:125-130 | in payout mode a step keeps the text and the loading flag, calls no withdraw callback and never navigates |
| InvoiceScreen.PayoutModeRead | components/ParsePOSPayment/nfc.tsx:125-130 | in payout mode a read's effects are exactly the balance lookups of the decoded text, one per listener, each awaited; the text and loading stay, with no callback and no navigation |
| InvoiceScreen.AnswerOnlyPays | components/ParsePOSPayment/nfc.tsx:58-91 | a balance answer keeps the text and the loading flag, fetches no callback and never navigates |
| InvoiceScreen.PayoutModeNeverRedeemsInvoice | components/ParsePOSPayment/nfc.tsx:125-130 | the same holds over any event sequence in payout mode |
| InvoiceScreen.AnswerPaysEachNewLnurl | components/ParsePOSPayment/nfc.tsx:58-91 | an answer pays out iff it stores an lnurl different from the one held; the payout goes to that lnurl; a caught fault keeps the lnurl; nothing limits the number of distinct lnurls paid |
| InvoiceScreen.ActivateClick | components/ParsePOSPayment/nfc.tsx:304-324 | without an invoice, a click on the enabled button starts a scan and then alerts activation; a click on a disabled or absent button does nothing |
| RewardsScreen.ViewOf | components/ParsePOSPayment/nfcp.tsx:145-190 | the loading view shows iff loading; otherwise the button shows iff `payoutRequest` is defined |
| RewardsScreen.Init | components/ParsePOSPayment/nfcp.tsx:23-26 | the screen starts not loading and without text, on the mounted gate |
| RewardsScreen.StepOnlyGates | components/ParsePOSPayment/nfcp.tsx:70-81 | every step only scans or alerts activation and keeps loading; a read stores the decoded text with no filtering |
| RewardsScreen.NeverRedeems | components/ParsePOSPayment/nfcp.tsx:138-143 | over any event sequence: no payout, no navigation, no callback request, loading unchanged |
| RewardsScreen.NoProbeKeepsFlagOff | components/ParsePOSPayment/nfcp.tsx:94-106 | without the Permissions API, or after a failed query, the flag stays off over any event sequence |

## Left out

- Browser and network calls are left out: `NDEFReader`, the Permissions API, `alert`, `window.history.back`, axios, `fetch` and `process.env`. Their calls become effects, and their results become event fields.
- Audio playback is left out; only the `PlaySound` effect remains.
- `TextDecoder` is a function parameter. Byte-to-text decoding, and the labels it accepts, are not modelled.
- `getParams` from js-lnurl, with its bech32 decoding and metadata request, is an input value: `Withdraw.Resolution`, either the resolved fields or a rejection. Which texts make it reject is not modelled. `new URL(callback)` is the `Callback` input, parsed or not.
- `parsePaymentDestination` is left out; its result is only logged.
- `Url` values are not serialised back to text (`urlObject.toString()`). The model states the query entries instead.
- `amount.toFixed(2)` is the constant "0.01". Floating-point formatting is not modelled.
- Js.LowerAscii: only ASCII letters are lower-cased, one character to one. The Unicode case mapping of `toLowerCase` is not modelled: mappings of other letters (for example the KELVIN SIGN), mappings that change the length (U+0130 becomes two code units) and context-dependent ones (final sigma).
- JSON fields of the callback answer are strings or absent. Other JSON types are not modelled, such as a numeric `status`, on which `toLowerCase` would throw.
- A handler run is atomic. The interleaving of concurrent async runs, and of balance answers arriving in another order, is left out. Answers are taken in the order the events give them.
- Props (`paymentRequest`, `payoutRequest`) are fixed for a screen instance.
- JSX, styling and unmounting are left out. The rendered view is reduced to the loading view and the activation button.
- payout.tsx never renders a button, and `isLoading` is never set there. The model keeps the flag, and PayoutScreen.AtMostOnePayout shows that it never changes.
- Pages, API routes and `receipt.tsx` are not part of this model.
- PayoutScreen.AtMostOnePayout covers one screen instance. payout.tsx never resets `hasRedeemed`, so neither does the model; a fresh instance starts again from `Init`.
- The payout happy path (PayoutScreen.PayoutHappyPath) uses the LUD-17 form `lnurlw://host/path?query`, because `extractLnurl` acts only on text starting with "lnurlw"; other tag texts start no lookup (PayoutScreen.TagReadStoresText).
