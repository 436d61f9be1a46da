# EduChain records: a Dafny model of the lookup, wallet and state logic

EduChain is a Next.js application in which an administrator adds academic
records for students, students sign in with a Stacks wallet, and anyone can
check a student's verified records on a public page. This project models the
application's logic, one Dafny module per source file:

- `MockData` (`mock_data.dfy`): the record and user types, the fixed directory
  of one administrator and two students, and the two finders. The finders work
  like `Array.prototype.find`: they return the first match in list order. The
  id finder lower-cases both sides. The wallet finder compares exactly.
- `Actions` (`actions.dfy`): `verifyRecord`. It looks the identifier up by
  student id first and by wallet address only if that fails. It returns the
  public view of the user (name and student id only, never the wallet address
  or role) and only the records marked verified. If nobody matches, it returns
  the not-found error.
- `StacksManager` (`stacks_manager.dfy`): the wallet manager. It holds the
  session queries, the `add-record` contract call and the `get-records`
  read-only call. The wallet library's `UserSession` is a class with two
  pieces of state: the stored sign-in data and a pending redirect response.
  The manager and the auth provider share this one object, as in the source.
  Calls into the transaction library and the network are outcome parameters.
  `AddRecord` returns the library calls it reaches, so the model can state
  that a signed-out call reaches none of them. `GetRecords` returns the
  read-only request it builds.
- `AuthContext` (`auth_context.dfy`): the auth provider. It is a class with the
  two state cells `userData` and `user`, driven by `HandleSignIn`, the mount
  effect and `Logout`. Its invariant says that a shown user is always the
  first directory entry holding the testnet address of the provider's own
  `userData`, which can differ from what the session holds now.
- `Dashboard` (`dashboard.dfy`): the add-record form schema, the record that
  `handleAddRecord` builds, and the `records` state it is prepended to. The
  dashboard only updates its local list: it never calls the wallet manager's
  `addRecord`.
- `VerifyPage` (`verify_page.dfy`): the identifier schema (at least ten
  characters) and the `isLoading` / `error` / `result` cells of `onSubmit`.
  `onSubmit` is split at its `await` into `BeginSubmit` and `FinishSubmit`.
  The administrator's id `ADMIN-001` has nine characters, so the page can
  reach that account only by wallet address.
- `UserNav` (`user_nav.dfy`): `getInitials`, with JavaScript's `split`,
  indexing and `+` semantics written out.
- `Common` (`common.dfy`): `Option`, the `Outcome` of an opaque call, ASCII
  lower-casing and decimal rendering.

Inputs that the source takes from its environment are parameters:
- the random transaction ids of the seeded records (`SeedTxIds`)
- `Math.random()` (a real in [0, 1))
- the current year
- the outcomes of `makeContractCall`, `broadcastTransaction` and `fetch`

What the code does not do:
- It does not sign or expire the share link. The link's comments call it
  "cryptographically signed" and expiring
  (src/ai/flows/verification-link-generation.ts:4, 24 and 40-43), but it is
  text written by a language-model prompt. No code signs, expires or checks
  it, so the model has no token service.
- `addRecord` validates nothing before it builds the contract call.
- `handlePendingSignIn` is called only when a sign-in is pending, so no
  "nothing pending" error arises.
- `getRecords` returns `null` for every failure, without telling failures
  apart.

## Model

| member | source | states |
|---|---|---|
| `MockData.Users` | src/lib/mock-data.ts:23-92 | The directory `users` holds three entries: the administrator, Alice and Bob. Their ids, names, wallets, roles and records are as in the source. |
| `MockData.FindIndex` | src/lib/mock-data.ts:94-100 | The position where `find` stops is the first index whose element satisfies the predicate. There is none exactly when no element satisfies it. |
| `MockData.Find` | src/lib/mock-data.ts:94-100 | `find` gives `undefined` exactly when nothing matches. Otherwise it gives the element at the first matching index. |
| `MockData.FindUserByWallet` | src/lib/mock-data.ts:94-96 | The returned user is in the directory. Its wallet equals the query exactly, case-sensitively. It is the first such user in list order. The result is `undefined` exactly when no user holds that address. |
| `MockData.FindUserById` | src/lib/mock-data.ts:98-100 | The returned user's id equals the query after both are lower-cased. It is the first such user. The result is `undefined` exactly when no id matches ignoring case. |
| `MockData.FindUserByIdIgnoresCase` | src/lib/mock-data.ts:98-100 | Any two queries that agree once lower-cased find the same user. |
| `MockData.DirectoryKeysDistinct` | src/lib/mock-data.ts:23-92 | In the fixed directory, student ids differ pairwise even ignoring case, and wallet addresses differ pairwise. |
| `MockData.UniqueCandidate` | src/lib/mock-data.ts:94-100 | With distinct keys each lookup has at most one candidate: a finder returns a user exactly when that user carries the key. |
| `MockData.DirectoryRoles` | src/lib/mock-data.ts:23-92 | The administrator is the first entry and has no records. Every other entry is a student. Roles other than student and admin cannot be expressed. |
| `Actions.VerifiedOnly` | src/app/actions.ts:25 | Every record the filter keeps is verified. The result is never longer than the input. |
| `Actions.VerifiedOnlyCounts` | src/app/actions.ts:25 | Each verified record is kept exactly as often as it occurs. No unverified record is kept. |
| `Actions.VerifiedOnlyConcat` | src/app/actions.ts:25 | Filtering a concatenation is the concatenation of the filtered parts, so kept records stay in their original order. |
| `Actions.VerifiedOnlyKeepsVerified` | src/app/actions.ts:25 | A list of verified records passes unchanged, so filtering twice is the same as filtering once. |
| `Actions.Lookup` | src/app/actions.ts:18-21 | An id match is the answer when there is one. Only otherwise is the wallet lookup used. Nothing is found exactly when no user matches by id (ignoring case) or by wallet. |
| `Actions.VerifyRecord` | src/app/actions.ts:16-34 | A successful response carries only verified records: exactly the filtered records of a directory user, with only that user's name and id. The response is a failure exactly when nobody matches. A failure carries "No student found with that ID or wallet address." |
| `Actions.IdMatchWins` | src/app/actions.ts:18-21 | When some id matches, the answer is the first id-matching user, whatever wallet addresses other users hold. |
| `Actions.WalletFallback` | src/app/actions.ts:19-21 | When no id matches, the answer is the first user holding the identifier as wallet address. |
| `Actions.FoundUnique` | src/app/actions.ts:18-29 | In a directory with distinct keys, the user holding the identifier (as id, or else as wallet) is the answer, with that user's verified records. |
| `Actions.AliceVerifiedRecords` | src/app/actions.ts:25 | Alice's verified records are her first two. The unverified third record is dropped. |
| `Actions.AliceById` | src/app/actions.ts:16-29 | Alice's id typed in any case finds Alice and exactly her two verified records. |
| `Actions.FoundByWalletAlone` | src/app/actions.ts:19-21 | An identifier longer than every student id can only match by wallet, so the user holding it as wallet address is the answer. |
| `Actions.AdminByWallet` | src/app/actions.ts:23-26 | The administrator's wallet finds the administrator with success and an empty list, not an error. |
| `StacksManager.UserSession.constructor` | src/lib/stacks-manager.ts:23 | The shared session object starts with the given stored sign-in data and pending redirect response. |
| `StacksManager.UserSession.IsUserSignedIn` | src/lib/stacks-manager.ts:66 | The session is signed in exactly when it holds stored sign-in data. |
| `StacksManager.UserSession.IsSignInPending` | src/contexts/auth-context.tsx:36 | A sign-in is pending exactly when a redirect response has not been handled yet. |
| `StacksManager.UserSession.LoadUserData` | src/lib/stacks-manager.ts:72 | On a signed-in session, `loadUserData()` gives exactly the stored sign-in data. |
| `StacksManager.UserSession.SignUserOut` | src/lib/stacks-manager.ts:60 | The stored sign-in data is removed. The pending response is untouched. |
| `StacksManager.UserSession.HandlePendingSignIn` | src/contexts/auth-context.tsx:37 | The pending response becomes the stored sign-in data, and nothing is pending any more. |
| `StacksManager.StacksWalletManager.constructor` | src/lib/stacks-manager.ts:36-42 | The manager holds the shared session, the testnet, and the placeholder contract `ST1PQ…PGZGM` / `edu-chain`. |
| `StacksManager.StacksWalletManager.DisconnectWallet` | src/lib/stacks-manager.ts:58-62 | Afterwards the session is signed out. A session that was not signed in is left as it was, so a second call is a no-op. |
| `StacksManager.StacksWalletManager.IsUserSignedIn` | src/lib/stacks-manager.ts:65-67 | The manager reports exactly the shared session's signed-in state. |
| `StacksManager.StacksWalletManager.GetUserData` | src/lib/stacks-manager.ts:70-75 | The result is `null` exactly when the session is not signed in. Otherwise it is the session's data. |
| `StacksManager.StacksWalletManager.GetUserAddress` | src/lib/stacks-manager.ts:78-86 | The result is `null` exactly when signed out. Otherwise it is the profile's address on the manager's network. |
| `StacksManager.AddressOn` | src/lib/stacks-manager.ts:82-85 | On mainnet the address is the mainnet one. On any other network it is the testnet one. |
| `StacksManager.StacksWalletManager.AddRecordOptions` | src/lib/stacks-manager.ts:100-116 | The payload targets the manager's contract address and name and the function `add-record`. Its arguments decode to exactly the five submitted values, in order. It is signed with the given key. |
| `StacksManager.AddRecordArgs` | src/lib/stacks-manager.ts:104-110 | The `functionArgs` array: the student's principal, then course, grade, year and institution as ascii, ascii, uint and ascii values. |
| `StacksManager.AddRecordArgsRoundTrip` | src/lib/stacks-manager.ts:104-110 | The argument list is principal, ascii, ascii, uint, ascii, and reads back as the five inputs. |
| `StacksManager.StacksWalletManager.AddRecord` | src/lib/stacks-manager.ts:93-132 | Signed out, the call fails with "User not signed in" and reaches no library call. Signed in, `makeContractCall` gets the built payload with the session's key. A throw there fails with its message and nothing is broadcast. Otherwise the signed transaction is broadcast, and the result is its txid or the broadcast error's message. Nothing is re-thrown. |
| `StacksManager.StacksWalletManager.ReadSender` | src/lib/stacks-manager.ts:140 | The read sender is the signed-in user's address on the manager's network. It falls back to the contract address when nobody is signed in, and also when that address is empty. |
| `StacksManager.StacksWalletManager.GetRecords` | src/lib/stacks-manager.ts:138-165 | The request is a `get-records` call on the manager's contract, with the read sender and the student's principal. The result is the parsed body exactly when the response is ok and parses. A throw, a non-ok status or a bad body gives `null`. |
| `AuthContext.AuthProvider.constructor` | src/contexts/auth-context.tsx:19-20 | Both state cells start as `null`, which satisfies the invariant. |
| `AuthContext.AuthProvider.HandleSignIn` | src/contexts/auth-context.tsx:22-33 | Signed out, both cells become `null`. Signed in, `userData` is the session's data and `user` is the first directory entry holding its testnet address, or `null` if none does. On the testnet that user holds the manager's `getUserAddress`. The invariant holds afterwards. |
| `AuthContext.AuthProvider.Mount` | src/contexts/auth-context.tsx:35-43 | A pending redirect sign-in is completed (it becomes the stored session) before the sign-in step runs. Otherwise the session is untouched. Afterwards `userData` reflects the session and the invariant holds. |
| `AuthContext.AuthProvider.Logout` | src/contexts/auth-context.tsx:49-53 | From any state, both cells end `null` and the session is signed out. A logout while signed out leaves the session as it was, so repeating it changes nothing. |
| `Dashboard.Breaks` | src/components/dashboard.tsx:59-62 | The rules of the schema: course shorter than 2, empty grade, year before 1900, year after next year, institution shorter than 3. |
| `Dashboard.RecordFormIssues` | src/components/dashboard.tsx:58-63 | An issue is reported exactly when the form breaks its rule. |
| `Dashboard.RecordFormAccepts` | src/components/dashboard.tsx:58-63 | The schema accepts the form when no rule is broken. |
| `Dashboard.BrokenRules` | src/components/dashboard.tsx:58-63 | The reported issues are exactly the checked rules that the form breaks. |
| `Dashboard.RecordFormIssuesExactly` | src/components/dashboard.tsx:58-63 | Each of the five rules (course, grade, earliest year, latest year, institution) is reported exactly when the form breaks it. |
| `Dashboard.RecordFormAcceptsExactly` | src/components/dashboard.tsx:58-63 | The form is accepted exactly when course has at least 2 characters, grade at least 1, institution at least 3, and 1900 ≤ year ≤ current year + 1. |
| `Dashboard.YearBoundaries` | src/components/dashboard.tsx:61 | Years 1900 and next year are accepted. Years 1899 and the year after next are rejected. |
| `Dashboard.ScaledRandom` | src/components/dashboard.tsx:174 | `Math.floor(Math.random() * 1000)` lies in 0..999. |
| `Dashboard.RecordId` | src/components/dashboard.tsx:174 | The id `REC-` followed by the decimal text of the drawn number. |
| `Common.Decimal` | src/components/dashboard.tsx:174 | The rendered number is a non-empty run of decimal digits. |
| `Common.DecimalRoundTrip` | src/components/dashboard.tsx:174 | Reading the rendered digits back gives the number. |
| `Dashboard.RecordIdRoundTrip` | src/components/dashboard.tsx:174 | An id `REC-<n>` parses back to `n`. |
| `Common.DecimalInjective` | src/components/dashboard.tsx:174 | Different numbers render to different digit texts. |
| `Dashboard.RecordIdInjective` | src/components/dashboard.tsx:174 | Two ids are equal exactly when the drawn numbers are equal. |
| `Dashboard.RecordIdsCollide` | src/components/dashboard.tsx:174 | Two different draws can give the same id: uniqueness is not guaranteed. |
| `Dashboard.NewRecord` | src/components/dashboard.tsx:173-178 | A new record is unverified, with transaction "Pending...". It carries the submitted course, grade, year and institution unchanged, and an id `REC-` followed by a number below 1000. |
| `Dashboard.DashboardState.constructor` | src/components/dashboard.tsx:166 | The initial list is the user's records, or empty without a user. |
| `Dashboard.DashboardState.HandleAddRecord` | src/components/dashboard.tsx:172-179 | The new record is at index 0. The previous records follow unchanged and in order, and the length grows by one. |
| `Dashboard.DashboardState.SubmitRecordForm` | src/components/dashboard.tsx:77-81 | Only a form the schema accepts reaches `handleAddRecord`. A rejected form leaves the list unchanged. |
| `VerifyPage.IdentifierAccepted` | src/app/verify/page.tsx:31-35 | An identifier passes the schema exactly when it has at least ten characters. |
| `VerifyPage.AdminIdRejected` | src/app/verify/page.tsx:31-35 | The nine-character `ADMIN-001` fails the ten-character minimum. The administrator's wallet address passes it. |
| `VerifyPage.VerifyPageState.constructor` | src/app/verify/page.tsx:43-45 | Nothing is shown and nothing is loading. |
| `VerifyPage.VerifyPageState.BeginSubmit` | src/app/verify/page.tsx:55-57 | Before the lookup, `isLoading` is true and `error` and `result` are cleared. |
| `VerifyPage.VerifyPageState.FinishSubmit` | src/app/verify/page.tsx:59-64 | On success, `result` holds the user and records and `error` is untouched. On failure, `error` is the response's error, or "Verification failed." when that is empty, and `result` is untouched. Loading ends. |
| `VerifyPage.VerifyPageState.OnSubmit` | src/app/verify/page.tsx:54-65 | Afterwards nothing is loading and at most one of `result` and `error` is set. A result is shown exactly when the lookup succeeds. The result is then exactly the lookup's user and records, every shown record is verified, and no error is shown. Otherwise the not-found message is shown. |
| `VerifyPage.VerifyPageState.HandleSubmit` | src/app/verify/page.tsx:87 | An identifier shorter than ten characters never reaches `onSubmit` and leaves the page as it was. An accepted identifier ends in `onSubmit`'s state: the lookup's user and verified records, or the not-found message. |
| `Common.LowerChar` | src/lib/mock-data.ts:99 | Upper-case ASCII letters map to their lower-case letter. Every other character is unchanged. No result is an upper-case ASCII letter. |
| `Common.Lower` | src/lib/mock-data.ts:99 | `toLowerCase()` keeps the length and lower-cases each character on its own. |
| `UserNav.FirstChar` | src/components/user-nav.tsx:27 | `part[0]`: the first character, or `undefined` for an empty part. |
| `UserNav.PlusChars` | src/components/user-nav.tsx:27 | JavaScript's `+` on two one-character strings that may be `undefined`. `undefined` is concatenated as the text "undefined", and two `undefined`s give `NaN`. |
| `UserNav.Split` | src/components/user-nav.tsx:25 | `split(' ')` gives at least one part, and no part contains a space. |
| `UserNav.JoinSplit` | src/components/user-nav.tsx:25 | Joining the parts with single spaces gives the name back, empty parts included. |
| `UserNav.SplitJoin` | src/components/user-nav.tsx:25 | Splitting space-free parts joined by spaces gives back exactly those parts. |
| `UserNav.GetInitialsAsWritten` | src/components/user-nav.tsx:24-30 | `getInitials` as written. It gives `NaN` exactly when the name contains a space and both its first and last parts are empty. |
| `UserNav.InitialsOfFullName` | src/components/user-nav.tsx:25-27 | For first, middle and last names with non-empty first and last, the initials are the first characters of the first and last names. That is exactly two characters, and middle names never contribute. |
| `UserNav.InitialsOfSingleWord` | src/components/user-nav.tsx:29 | A name without a space gives `name.substring(0, 2)`, the prefix of length min(2, length). |
| `UserNav.TrailingSpaceAsWritten` | src/components/user-nav.tsx:25-27 | As written, a one-word name followed by a space gives its first character followed by the text "undefined": "Alice " gives "Aundefined". |
| `UserNav.LoneSpaceAsWritten` | src/components/user-nav.tsx:25-27 | As written, " " gives `NaN`. |
| `UserNav.Words` | src/components/user-nav.tsx:25 | The words of a split are exactly its non-empty parts: each is non-empty and comes from the split, and every non-empty part is kept. |
| `UserNav.WordsConcat` | src/components/user-nav.tsx:25 | Taking the words distributes over concatenation, so the words stay in their original order. |
| `UserNav.GetInitials` | src/components/user-nav.tsx:24-30 | Corrected initials are at most two characters, each a non-space character of the name. |
| `UserNav.GetInitialsOfWords` | src/components/user-nav.tsx:24-30 | For every name with at least one word, the corrected initials are what the code gives for the name's words joined by single spaces. A name with no word gets empty initials. |
| `UserNav.GetInitialsAgrees` | src/components/user-nav.tsx:24-30 | On names whose first and last parts are non-empty, the corrected initials equal the code's. |
| `UserNav.TrailingSpaceCorrected` | src/components/user-nav.tsx:24-30 | A trailing space does not change the corrected initials of a one-word name: "Alice " gives "Al", as "Alice" does. |

## Left out

- `generateVerificationLink` (src/app/actions.ts:6-14, src/components/dashboard.tsx:189) and the dashboard's link-generation state: the link is text written by a language-model prompt. There is no signing, expiry or validation code, so no token service is modelled.
- `connectWallet` and `login`: they open the wallet library's connect dialog. The model keeps only its effect: a stored session, or a pending redirect response that `Mount` completes.
- Library internals are outside the model: how `makeContractCall` signs, how `broadcastTransaction` and `fetch` talk to the node, the hex encoding of Clarity values, and the node URL prefix. Each appears only as an outcome parameter or as the request value the model returns.
- StacksManager.StacksWalletManager.AddRecord: the Clarity constructors can throw inside the `try` (`standardPrincipalCV` on a malformed address, `uintCV` on a negative year, `stringAsciiCV` on non-ASCII text). Such a throw is folded into the `makeContractCall` outcome.
- StacksManager.StacksWalletManager.GetRecords: a throw of `standardPrincipalCV` before `fetch` is not modelled. It would also give `null`.
- StacksManager.StacksWalletManager.AddRecord: whatever `broadcastTransaction` returns without throwing counts as success with its `txid` field, as in the source. How the library reports a node rejection is not modelled.
- The `message` of a thrown value that is not an `Error` (it would be `undefined`) is not modelled. Every throw carries a message string.
- Actions.VerifyRecord: the `catch` branch ("An error occurred during verification.") is not modelled. Nothing inside the `try` can throw for a string identifier.
- Common.Lower: only ASCII `A`–`Z` are folded. JavaScript's `toLowerCase` also folds other letters.
- Lengths are counted in characters, not UTF-16 code units. Zod's coercion of `year` from text is not modelled: the year is an integer.
- `Math.random()` is an exact real in [0, 1). The current year is a parameter.
- Asynchrony is not modelled: the ordering of the pending sign-in promise, and a failure of the server-action transport (a rejected `verifyRecord` call would leave `isLoading` true).
- The page reload caused by `signUserOut`'s redirect is not modelled.
- StacksManager.UserSession.HandlePendingSignIn: it always succeeds in the model. In the source a rejected `handlePendingSignIn()` promise skips `handleSignIn` (src/contexts/auth-context.tsx:37-39), so both cells stay `null`. The model does not capture that outcome.
- StacksManager.StacksWalletManager.GetRecords: the argument is encoded as `standardPrincipalCV(userAddress).buf.toString('hex')` (src/lib/stacks-manager.ts:149). This assumes a `buf` field on the principal value, which some versions of the transaction library do not have. With such a version every call throws before `fetch` and returns `null`. The model assumes the field exists, so it always builds the request.
- UI is not modelled: rendering, toasts, clipboard, dialogs, role-based display, the layout, header, login page, hydration gate and the `useAuth` provider check.

## Findings

| source | as written | input that shows it | evidently intended | confidence | as-written member | corrected member |
|---|---|---|---|---|---|---|
| src/components/user-nav.tsx:25-27 | `parts[0][0] + parts[parts.length - 1][0]` indexes parts that can be empty: `undefined` is concatenated as text, and two `undefined`s add to `NaN` | the name "Alice " gives "Aundefined"; the name " " gives `NaN` | initials from the non-empty words of the name ("Al" for "Alice ") | medium: the directory's names are well formed, so the fixed data does not trigger it; not executed | `UserNav.TrailingSpaceAsWritten` | `UserNav.GetInitials` |
