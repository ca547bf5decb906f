# Tili: a Dafny model of the interview app's decision logic

Tili is a mock-interview web app: a React front end (login, a dashboard of
interviews, a dialog that creates an interview from a resume PDF and a job
description, an interview page, a results page) and a FastAPI back end (an
in-memory user table, JWT access and refresh tokens).

This project models the pieces of that code that make decisions or change
state, and proves what they promise:

- **Interview page** (`InterviewPage`): the four state hooks as the fields of a
  class; the start action; the question fetch, split at its `await` into
  `BeginFetch` and `FinishFetch`; the automatic-refetch effect guard; and the
  prioritised choice of what the page shows.
- **Results page** (`ResultsPage`): the three-way answer status, the filter of
  answered rows, the rounded percentage score with its bounds, extremes and
  monotonicity, and the routing of the reply by status (402 back to the
  interview, 401 to login).
- **Dashboard** (`Dashboard`, with the shared browser state in `ClientState`):
  the guards before the request, the reply handling, the 401 logout that
  removes exactly three localStorage keys, and the result label and colour.
- **Create-interview dialog** (`CreateInterviewSheet`): the required-field
  check, the Start button's disabled condition, the choice between pasted and
  PDF-extracted job-description text, the success path (close and reset) and
  the failure path (form kept).
- **User table** (`UserApi`): `signup` and `login` over `fake_users_db`.
- **Tokens** (`Auth`): token creation with an `exp`, the secret choice when
  decoding, the expiry check and the mapping of library errors to 401
  replies.

Every reply from the network is a datatype value passed in (`Threw`, or a
status with a parsed or unparsable body). PDF extraction (`readPdf`), password
hashing (`hash`), password verification (`verify`) and `jwt.decode`
(`jwtDecode`) are function-typed parameters. `jwt.encode` is the symbolic
constructor `Auth.Token.Signed(claims, key)`. `Auth.Verify` is a signature-only
reference for `jwt.decode`. Navigation is returned as the route the page would
go to. The current time is an integer number of seconds.

Two behaviours of the code are stated as proved facts and kept as written:

- Refresh tokens are signed with the access secret (`auth.py:30`), while
  refresh decoding verifies with the refresh secret (`auth.py:33`).
  Whenever the two secrets differ, a refresh token never decodes as a refresh
  token (`Auth.RefreshTokenRejectedAsRefresh`). An unexpired one is accepted
  as an access token (`Auth.RefreshTokenAcceptedAsAccess`).
- The refetch guard does not look at `isLoading` (`interview.tsx:57`). On a
  fresh page, the effect that runs after "Start Interview" issues a second
  request while the first is in flight (`InterviewPage.Page.StartInterview`,
  `InterviewPage.StartAndSettle`). After any reply, the guard is false, so
  the effect never loops (`InterviewPage.Page.FinishFetch`).

The interview page's guidelines promise five questions, each with ten seconds
of reading time and two minutes of writing time
(`tili-frontend/src/pages/interview.tsx:68-78`). The code stops at a
placeholder where the timer and the answer submission would go
(`tili-frontend/src/pages/interview.tsx:99`), and the back end has no question
or answer endpoint, so the model has no timed rounds.

## Model

| member | source | states |
|---|---|---|
| `InterviewPage.Render` | tili-frontend/src/pages/interview.tsx:64-104 | exactly one view, in priority order: guidelines, then loading, then a truthy error (showing that error), then the held question, else "No question found." |
| `InterviewPage.ShouldAutoFetch` | tili-frontend/src/pages/interview.tsx:56-60 | the effect fetches exactly when the guidelines are dismissed, no question is held and the error is falsy; a set error always blocks it |
| `InterviewPage.GuardIgnoresLoading` | tili-frontend/src/pages/interview.tsx:56-60 | the guard can ask for a fetch while the page is already showing "Loading" |
| `InterviewPage.Page.constructor` | tili-frontend/src/pages/interview.tsx:11-14 | the page starts on the guidelines, with no question, no error and not loading |
| `InterviewPage.Page.BeginFetch` | tili-frontend/src/pages/interview.tsx:16-26 | `isLoading` becomes true and one request is issued; nothing else changes |
| `InterviewPage.Page.FinishFetch` | tili-frontend/src/pages/interview.tsx:28-48 | a truthy `detail` becomes the error and clears the question; another JSON body stores `questionNumber`/`question` and clears the error; a thrown fetch, a non-ok status or an unparsable body sets the fixed message and keeps the question; `isLoading` ends false; afterwards the refetch guard is false |
| `InterviewPage.Page.StartInterview` | tili-frontend/src/pages/interview.tsx:51-54 | the guidelines are dismissed, a request is issued and the view is "Loading"; from a fresh page the refetch guard then holds |
| `InterviewPage.Page.RunEffect` | tili-frontend/src/pages/interview.tsx:56-60 | a request is issued exactly when the guard held; otherwise nothing changes |
| `InterviewPage.StartAndSettle` | tili-frontend/src/pages/interview.tsx:51-60 | start plus its effect issue exactly two requests; once both replies are handled the page is idle and the effect stays quiet |
| `ResultsPage.StatusOf` | tili-frontend/src/pages/Results.tsx:76-79 | skipped for a null or empty answer, weak for lengths 1..10, strong above 10; every answer gets exactly one status |
| `ResultsPage.AnsweredRows` | tili-frontend/src/pages/Results.tsx:64 | the filter keeps every answered row, only rows of the input, each of them answered, and is no longer than the input |
| `ResultsPage.AnsweredRowsAppend` | tili-frontend/src/pages/Results.tsx:64 | the filter keeps the input's order: filtering a concatenation concatenates the filtered parts |
| `ResultsPage.AnsweredRowsMultiset` | tili-frontend/src/pages/Results.tsx:64 | each answered row is kept exactly as often as it occurs in the input, and no other row is kept |
| `ResultsPage.AnsweredCount` | tili-frontend/src/pages/Results.tsx:64 | the number of kept rows is the number of positions whose answer is truthy |
| `ResultsPage.AnsweredIsNotSkipped` | tili-frontend/src/pages/Results.tsx:76-77 | a row counts towards the score exactly when its status is not skipped |
| `ResultsPage.AllAnsweredKeepsAll` | tili-frontend/src/pages/Results.tsx:64 | the filter keeps all rows if and only if every row is answered |
| `ResultsPage.NoneAnsweredKeepsNone` | tili-frontend/src/pages/Results.tsx:64 | the filter keeps nothing if and only if no row is answered |
| `ResultsPage.Percentage` | tili-frontend/src/pages/Results.tsx:65 | the score is the nearest integer to 100·answered/total, halves rounded up, as `Math.round` does for non-negative values |
| `ResultsPage.PercentageInRange` | tili-frontend/src/pages/Results.tsx:64-65 | with answered ≤ total the score lies in 0..100 |
| `ResultsPage.PercentageAllAnswered` | tili-frontend/src/pages/Results.tsx:64-65 | all rows answered gives 100 |
| `ResultsPage.PercentageNoneAnswered` | tili-frontend/src/pages/Results.tsx:64-65 | no row answered gives 0 |
| `ResultsPage.PercentageMonotone` | tili-frontend/src/pages/Results.tsx:64-65 | for a fixed total, more answered rows never lower the score |
| `ResultsPage.ScoreOf` | tili-frontend/src/pages/Results.tsx:64-65 | an empty list gives NaN; any other list gives `Percentage` of the number of positions with a truthy answer over the number of rows, which lies in 0..100 |
| `ResultsPage.ScoreOfExtremes` | tili-frontend/src/pages/Results.tsx:64-65 | a non-empty list with every row answered scores 100, with none answered scores 0 |
| `ResultsPage.RouteOf` | tili-frontend/src/pages/Results.tsx:40-60 | 402 with "Interview not completed" goes back to the interview; 401 with "Token has expired" logs out; an ok status with a row list loads; everything else is ignored |
| `ResultsPage.Page.constructor` | tili-frontend/src/pages/Results.tsx:23-25 | no rows, loading, score 0 |
| `ResultsPage.Page.FetchResults` | tili-frontend/src/pages/Results.tsx:28-70 | 402 navigates to `/interview/{id}` and sets neither rows nor score; 401 clears the logged-in flag and username and navigates to /login without rows; success sets the rows and their score; any other reply changes nothing; `loading` ends false on every path; localStorage is untouched |
| `ResultsPage.LoadIgnoredReply` | tili-frontend/src/pages/Results.tsx:58-70 | on a fresh page an ignored reply leaves no rows, score 0 and loading false |
| `ClientState.CredentialKeys` | tili-frontend/src/pages/Dashboard.tsx:50-52 | exactly three keys: username, access_token, refresh_token |
| `ClientState.Client.constructor` | tili-frontend/src/pages/Dashboard.tsx:16-21 | the shared atoms and localStorage start with the given values |
| `ClientState.Client.AccessToken` | tili-frontend/src/pages/Dashboard.tsx:26 | present exactly when the `access_token` key is stored, and then the value stored under it |
| `ClientState.Client.ClearLoginAtoms` | tili-frontend/src/pages/Dashboard.tsx:53-54 | logged-in becomes false and the username ""; localStorage and the interview atom are unchanged |
| `ClientState.Client.RemoveCredentials` | tili-frontend/src/pages/Dashboard.tsx:50-52 | exactly the three credential keys are removed; every other stored entry keeps its value |
| `Dashboard.ResultLabel` | tili-frontend/src/pages/Dashboard.tsx:115-119 | 1 is "Passed", 2 is "Failed", anything else including null is "Pending" |
| `Dashboard.ResultColour` | tili-frontend/src/pages/Dashboard.tsx:106-112 | green for 1, red for 2, yellow otherwise |
| `Dashboard.LabelFollowsColour` | tili-frontend/src/pages/Dashboard.tsx:106-119 | two results share a colour if and only if they share a label |
| `Dashboard.ErrorFor` | tili-frontend/src/pages/Dashboard.tsx:46-59 | a non-ok reply shows the server's non-empty `detail`, else "Failed to fetch interviews."; an unparsable body shows the catch block's message |
| `Dashboard.Page.constructor` | tili-frontend/src/pages/Dashboard.tsx:17-18 | no interviews and no error |
| `Dashboard.Page.FetchInterviews` | tili-frontend/src/pages/Dashboard.tsx:25-61 | a request is made exactly when there is a truthy token and a non-empty username; no token navigates to /login; an empty username does nothing; success sets the page list and the shared atom to the same `interviews`; a non-ok reply sets the error; a 401 with a JSON body also removes exactly the three credential keys, clears the login atoms and navigates to /login; other entries are untouched |
| `CreateInterviewSheet.StartDisabled` | tili-frontend/src/components/CreateInterviewSheet.tsx:140 | disabled exactly when the job name is empty, the resume is missing or loading; an enabled button implies the required fields are present |
| `CreateInterviewSheet.ExtractedJobDescription` | tili-frontend/src/components/CreateInterviewSheet.tsx:53-56 | "" when there is no file, otherwise what reading the PDF gives (possibly a failure) |
| `CreateInterviewSheet.JobDescriptionChoice` | tili-frontend/src/components/CreateInterviewSheet.tsx:58 | non-empty pasted text wins; the extracted text is used only when the pasted text is empty |
| `CreateInterviewSheet.CallFor` | tili-frontend/src/components/CreateInterviewSheet.tsx:53-58 | `onCreate` is called exactly when both PDF reads succeed, with the job name, the resume text and the chosen job description ("" with neither pasted text nor file) |
| `CreateInterviewSheet.Sheet.constructor` | tili-frontend/src/components/CreateInterviewSheet.tsx:26-31 | closed, empty form, not loading |
| `CreateInterviewSheet.Sheet.ResetForm` | tili-frontend/src/components/CreateInterviewSheet.tsx:70-75 | all four form fields become empty; open and loading are unchanged |
| `CreateInterviewSheet.Sheet.BeginCreate` | tili-frontend/src/components/CreateInterviewSheet.tsx:44-50 | with an empty job name or no resume: the missing-fields error toast, no loading, no snapshot, nothing else changes; otherwise loading starts (the button is then disabled) and the form is captured |
| `CreateInterviewSheet.Sheet.CompleteCreate` | tili-frontend/src/components/CreateInterviewSheet.tsx:52-67 | on success the dialog closes and the form is reset; on a failed read or a rejected `onCreate` the form and dialog are kept and the failure toast is raised; the toast is a success exactly when the call was made and accepted; loading ends false either way |
| `CreateInterviewSheet.ClickStart` | tili-frontend/src/components/CreateInterviewSheet.tsx:44-67 | a click on an enabled button passes the required-field check (the toast is never the missing-fields one), makes exactly `CallFor` of the form as it was, shows a success toast exactly when both reads and `onCreate` succeed, ends idle, and on success leaves a closed, empty dialog |
| `CreateInterviewSheet.Display` | tili-frontend/src/components/CreateInterviewSheet.tsx:46-64 | the missing-fields and the failure toasts are errors, the creation toast is the one success, and each has a non-empty text |
| `CreateInterviewSheet.DisplayDistinguishes` | tili-frontend/src/components/CreateInterviewSheet.tsx:46-64 | the three toast texts differ, so the text alone says which outcome occurred |
| `UserApi.SubjectClaims` | backend/main.py:45-46 | the token claims are exactly `{"sub": username}` |
| `UserApi.UserTable.constructor` | backend/main.py:24-29 | the table holds exactly the one seed user "user@example.com" with its stored hash |
| `UserApi.UserTable.Signup` | backend/main.py:31-37 | a taken name raises 400 "User already exists" and leaves the table unchanged; a new name adds exactly that key with `{username, hash(password)}`; every other entry is unchanged; each record stays stored under its own name |
| `UserApi.UserTable.Login` | backend/main.py:39-51 | 401 "Invalid credentials" exactly when the user is absent or verification fails; otherwise access and refresh tokens for `sub` = the username and token type "bearer", a name that in a valid table is the stored record's own; the table is never changed |
| `UserApi.SignupTwice` | backend/main.py:33-36 | a second signup of a name that the first signup added is refused and the table keeps the first record |
| `UserApi.SignupThenLogin` | backend/main.py:31-51 | after signing up, logging in with the same password yields tokens whose subject is that user |
| `Auth.Lifetime` | backend/auth.py:22 | a given non-zero delta is used; a missing or zero delta (falsy in Python) falls back to the default, as in both create methods |
| `Auth.WithExpiry` | backend/auth.py:21-23 | the copy has the input's keys plus `exp`, every other claim unchanged, and `exp` set to the expiry |
| `Auth.CreateAccessToken` | backend/auth.py:20-24 | signed with the access secret; the caller's claims plus `exp` = now + the delta or the default minutes |
| `Auth.CreateRefreshToken` | backend/auth.py:26-30 | also signed with the access secret; the caller's claims plus `exp` = now + the delta or the default days |
| `Auth.SecretFor` | backend/auth.py:33 | the refresh secret for refresh decoding, the access secret otherwise |
| `Auth.CheckDecoded` | backend/auth.py:34-48 | the payload is returned unchanged when it has no `exp` or `exp` ≥ now; `now > exp` is 401 "Token has expired" (strict: `exp` = now passes); the library's expired-signature error is 401 "Token has expired"; its decode error is 401 "Token is invalid" |
| `Auth.DecodeToken` | backend/auth.py:32-48 | success only with the library's payload under the chosen secret; library decode and expiry errors map to their 401 replies; a decoded payload goes through the handler's own strict `exp` check |
| `Auth.Verify` | backend/auth.py:35 | a token decodes exactly under the key that signed it, to its own claims; otherwise a decode error |
| `Auth.AccessTokenRoundTrip` | backend/auth.py:20-48 | decoding a fresh access token gives back its claims plus `exp` until `exp`, and "Token has expired" after; the boundary at `exp` itself comes from the handler's own check, since `Verify` leaves out the library's expiry check |
| `Auth.RefreshTokenRejectedAsRefresh` | backend/auth.py:30-33 | with distinct secrets, a refresh token is always rejected as "Token is invalid" by refresh decoding |
| `Auth.RefreshTokenAcceptedAsAccess` | backend/auth.py:30-35 | an unexpired refresh token passes access decoding |

## Left out

- The timed interview (reading and writing timers, auto-submit, the 60-word limit, streamed feedback, five-question sequencing): the code does not implement it (`tili-frontend/src/pages/interview.tsx:99`).
- Network calls, request headers and the bearer token sent: each reply is an input value; the token's value never changes a branch of the modelled code.
- Navigation: returned as the route that would be opened; the router itself is not modelled. The interview and results pages are not routed in `App.tsx`.
- React scheduling: setter calls apply in sequence; re-renders and effects run only when the model calls `RunEffect`; console logging is dropped.
- `ResultsPage.Page.FetchResults`: for an ok reply whose body is not a list, the source first stores that body as the results and then throws in `filter`; the model leaves the results unchanged.
- `ResultsPage.Percentage`: computed in exact integers; JavaScript's floating-point division and `Math.round` are not modelled.
- `ResultsPage.StatusOf`: `length` is the number of Dafny characters, not UTF-16 code units.
- PDF text extraction (`readPDF` with pdfjs): the parameter `readPdf`, which may fail.
- Field setters wired to inputs, the Cancel button and `onOpenChange`: plain assignments with nothing to prove.
- Dashboard `handleCreateInterview`: it builds form data and logs it, with no request.
- The dashboard's `error` state is set but never rendered; the model stores it.
- `UserApi.UserTable.Signup`: `hash` is a deterministic function; bcrypt's random salt is not modelled.
- bcrypt verification (`verify`) and its failure on a malformed stored hash are not modelled.
- `Auth.Verify`: models the signature check only; the algorithm list, PyJWT's own `exp` check and its leeway are left to the `jwtDecode` parameter of `Auth.DecodeToken`.
- `Auth.CreateAccessToken`: `exp` is taken on the same integer clock as decoding; the source builds it from naive local time (`datetime.now()`) and compares with a UTC timestamp.
- `Auth.CreateRefreshToken`: the same single integer clock; the source builds the refresh token's `exp` from naive local time too.
- `print(current_time)` in `decodeToken`: output only.
- The `/`, `/refresh` and `/protected` endpoints, the CORS setup, the LLM client and prompt, the environment loading and the pydantic models: outside the modelled core.
- The login, signup, home and navbar components and all styling and animation: presentation only.
