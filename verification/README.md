# Physical AI textbook: auth service and chat backend core

This project models two parts of the textbook's server side and proves
properties of them in Dafny.

- **The Node auth service** (`auth-service`):
  - the five routes `/register`, `/login`, `/me`, `/profile` and `/logout`;
  - the request validators and the `requireAuth` gate in front of them;
  - the field rules: the e-mail pattern, the password length, the name
    length and the two background enums.

  The `users` and `user_sessions` tables are maps, with the UNIQUE
  constraints stated as a store invariant (`Store.Valid`). Every route is a
  pure transition from a store to a reply and a new store. Time is an
  integer number of milliseconds. The bcrypt hasher, the salt and the
  generated ids and tokens are parameters.
- **The Python backend**:
  - `AuthService`: SHA-256 hashing, user lookup, user creation and the
    truthy-only profile update. Its table is a sequence of rows, and
    SHA-256 is a function parameter.
  - The ingestion helpers `chunk_text` and `extract_title_from_markdown`,
    with Python's `str.rfind`, slicing, `str.strip` and `str.split`
    written out.
  - The chat service's session handling: the `uuid.UUID` validity check,
    written out from the constructor's normalisation and `int(h, 16)`;
    the message log; the retrieval context; the 2000-character prompt
    truncation; and `process_user_query`. The vector search and the
    language model are parameters.

Modules:

| module | file | contents |
|---|---|---|
| `Wrappers` | wrappers.dfy | `Option` and `Result` |
| `Text` | text.dfy | Python's `strip`, `split` and `join`, truthiness, `Min` and `Max` |
| `Fields` | fields.dfy | e-mail and password rules; the Zod schemas as parsers |
| `Store` | store.dfy | the two tables, their invariant, inserts and deletes |
| `Replies` | replies.dfy | replies, status codes and the user view |
| `Validation` | validation.dfy | the three body validators and `requireAuth` |
| `Routes` | routes.dfy | the five routes |
| `SessionLifecycle` | session_lifecycle.dfy | properties that span several requests |
| `PyAuth` | py_auth.dfy | the backend `AuthService` |
| `Ingest` | ingest.dfy | `chunk_text` and `extract_title_from_markdown` |
| `PyUuid` | uuid.dfy | which strings `uuid.UUID` accepts |
| `Chat` | chat.dfy | sessions, messages, prompt and `process_user_query` |

## Model

| member | source | states |
|---|---|---|
| Fields.ValidateEmail | auth-service/src/auth.ts:5-8 | accepts exactly the strings that match `^[^\s@]+@[^\s@]+\.[^\s@]+$`, read literally as three non-empty runs without whitespace or `@`, separated by `@` and by a `.` |
| Fields.RegexGivesShape | auth-service/src/auth.ts:6-7 | a matching address has no whitespace and exactly one `@`, which is not first, and it has a `.` after the `@` that is neither next to the `@` nor last |
| Fields.ShapeGivesRegex | auth-service/src/auth.ts:6-7 | the converse: every string of that shape matches the pattern |
| Fields.TwoAtsRejected | auth-service/src/auth.ts:6-7 | no string containing two `@` characters is accepted |
| Fields.ValidatePassword | auth-service/src/auth.ts:10-21 | a password is invalid exactly when it has fewer than 8 UTF-16 code units, so length 8 is valid; invalid carries the fixed "at least 8 characters" message, valid the empty message |
| Fields.Utf16Length | auth-service/src/auth.ts:11 | JavaScript's `.length` lies between the number of code points and twice that, and equals it when every character is in the Basic Multilingual Plane |
| Fields.ParseSoftware | auth-service/src/models/user.ts:24 | accepts exactly `Beginner`, `Intermediate` and `Advanced`, case-sensitively, and the parsed value prints back as the input |
| Fields.ParseHardware | auth-service/src/models/user.ts:25 | accepts exactly `None`, `Arduino` and `RaspberryPi`, and the parsed value prints back as the input |
| Fields.EnumRoundTrip | auth-service/src/models/user.ts:24-25 | parsing a printed enum value returns it, and a string parses exactly when it is one of the listed spellings |
| Fields.EmailIssues | auth-service/src/models/user.ts:21 | the e-mail field has no issue exactly when it is a string and accepted, so a missing or `null` e-mail is an issue; every issue names the `email` field |
| Fields.NameIssues | auth-service/src/models/user.ts:22 | the name has no issue exactly when it is a string of 1 to 100 code units; every issue names the `name` field |
| Fields.PasswordIssues | auth-service/src/models/user.ts:23 | the password has no issue exactly when it is a string of at least 8 code units; every issue names the `password` field |
| Fields.SoftwareIssues | auth-service/src/models/user.ts:24 | the software background has no issue exactly when it is a string and one of the three spellings |
| Fields.HardwareIssues | auth-service/src/models/user.ts:25 | the hardware background has no issue exactly when it is a string and one of the three spellings |
| Fields.OptionalIssues | auth-service/src/models/user.ts:26 | an optional string field has no issue exactly when it is not `null`: it may be missing, but `null` is not `undefined` |
| Fields.OptionalEnumIssues | auth-service/src/models/user.ts:41-42 | an optional enum field has no issue exactly when it is missing or a string of its domain; `null` is an issue |
| Fields.ParseRegistration | auth-service/src/models/user.ts:20-27 | a registration body parses exactly when every required field passes its rule and the learning goal is missing or a string, never `null`; the data carries the body's values, and each enum value prints back as the spelling sent; a failure lists issues that name exactly the fields failing their rule |
| Fields.ParseLogin | auth-service/src/models/user.ts:32-35 | a login body parses exactly when the e-mail matches and the password has at least 8 code units, and the data is the body's two values; a failure lists issues that name exactly the fields failing their rule |
| Fields.ParseUpdateProfile | auth-service/src/models/user.ts:40-44 | every field may be missing but none may be `null`, and a background given as a string must be in its enum; missing fields stay missing, present ones print back as sent; a failure lists issues that name exactly the fields failing their rule |
| Validation.ValidateRegistration | auth-service/dist/middleware/validation.js:15-55 | a body is accepted exactly when it is JSON and satisfies the registration schema, and every rejection is a 400; a body that is not JSON gets "Invalid request data"; a short non-empty password is reported alone, before any e-mail problem; a malformed non-empty e-mail is reported alone, before the schema runs |
| Validation.ValidateLogin | auth-service/dist/middleware/validation.js:57-97 | the same pre-checks in the same order, then the login schema; accepted exactly when the login schema holds, and every rejection is a 400 |
| Validation.ValidateUpdateProfile | auth-service/dist/middleware/validation.js:99-118 | accepted exactly when the body is JSON and the update schema holds, with the parsed data; every rejection is a 400 |
| Validation.BearerToken | auth-service/dist/middleware/validation.js:121-125 | a header yields a token exactly when it starts with `Bearer ` (case-sensitive), and the header is that prefix followed by the token |
| SessionLifecycle.Bearer | auth-service/dist/middleware/validation.js:121-125 | the header built from a token hands back exactly that token, the inverse of `BearerToken` |
| Validation.RequireAuth | auth-service/dist/middleware/validation.js:120-138 | a missing or non-Bearer header is a 401 and an unknown token is a 401, both with the store untouched; a token strictly past its expiry is deleted and answered with 401; otherwise the caller is admitted as the session's user with the store untouched |
| Validation.GateOnlyReclaimsExpired | auth-service/dist/middleware/validation.js:126-135 | the gate keeps the store valid and never touches users; the only session it can remove is the presented one, and only when it has expired; an admitted user exists |
| Validation.ExpiredTokenThenUnknown | auth-service/dist/middleware/validation.js:126-135 | after the gate reclaims an expired session, the same token is answered "invalid", not "expired" |
| SessionLifecycle.ExpiryBoundary | auth-service/dist/middleware/validation.js:130-135 | a session is accepted at the very instant of its expiry, and one millisecond later it is rejected and deleted |
| Store.EmailsUnique | auth-service/dist/routes/auth.js:16-27 | in a store that satisfies the table constraints, no two users share an e-mail address |
| Store.FindByEmail | auth-service/dist/routes/auth.js:43 | the lookup returns a stored user with that e-mail, or nothing exactly when no user has it |
| Store.FindById | auth-service/dist/routes/auth.js:131 | the lookup returns a stored user, which in a valid store has that id; nothing is returned only when no stored user has it |
| Store.InsertSession | auth-service/dist/routes/auth.js:56-59 | a session insert fails exactly on a taken token or session id; otherwise it adds that one session and changes nothing else |
| Store.InsertSessionValid | auth-service/dist/routes/auth.js:29-37 | an accepted insert for an existing user keeps the table constraints |
| Store.DeleteSession | auth-service/dist/middleware/validation.js:133 | deleting by token removes exactly that session and keeps every other row |
| Store.DeleteSessionsOf | auth-service/dist/routes/auth.js:193 | deleting by user removes exactly that user's sessions and keeps every other row |
| Replies.PublicView | auth-service/dist/routes/auth.js:109-119 | the user object of `/login`, `/me` and `/profile` leaves out the password hash and copies every other column, the timestamps included; `is_active` is the number stored in the INTEGER column, not a boolean |
| Routes.NewUser | auth-service/dist/routes/auth.js:16-52 | the new row holds the given id, e-mail, name and hash, backgrounds that parse back to the validated enum values, and the instant of creation; `is_active` takes the column default 1; an empty learning goal is stored as NULL |
| Routes.RegisterHandler | auth-service/dist/routes/auth.js:42-79 | a known e-mail is a 409 exactly then; success exactly when the e-mail, the user id, the token and the session id are all free; when the user row goes in but the session row clashes, the reply is a 500 and the new user stays stored, with no session; a known e-mail or taken id changes nothing |
| Routes.Register | auth-service/dist/routes/auth.js:40-85 | a rejected body is a 400 and an e-mail already present is a 409 (exactly then), both leaving the store unchanged; success requires a valid body and a fresh address and id; it adds exactly the new user and one session expiring seven days after `now`, echoes the password hash, and keeps the store valid; a 500 after the user row went in leaves that user stored without a session; only 200, 400, 409 and 500 occur |
| Routes.RegisterKeepsValid | auth-service/dist/routes/auth.js:49-59 | the handler's two inserts, even when the session insert fails after the user insert, keep the table constraints |
| SessionLifecycle.RegisterSucceedsIff | auth-service/dist/routes/auth.js:43-59 | registration succeeds exactly when the body validates, the address and the generated user id are free, and the generated token and session id are unused; the address then maps to the new user |
| Routes.Login | auth-service/dist/routes/auth.js:86-127 | an unknown e-mail or a rejected password is a 401 with the store unchanged; success adds one session for the user, expiring seven days on, and keeps every existing session and user; the user object has no hash |
| Routes.Me | auth-service/dist/routes/auth.js:128-153 | the gate's reply when it denies; when it admits, the store is unchanged and the reply is the user without its hash, or 404 when the user is gone |
| Routes.ApplyProfile | auth-service/dist/routes/auth.js:158-166 | a falsy background keeps the stored value, while the learning goal is always overwritten, with NULL when the body's value is falsy; no other column changes |
| Routes.Profile | auth-service/dist/routes/auth.js:154-189 | only the caller's row changes, and only as described for `ApplyProfile`; sessions and the e-mail index are untouched; a body that is not JSON is a 500 and a missing user a non-200, both with nothing changed |
| Routes.Logout | auth-service/dist/routes/auth.js:190-200 | an admitted caller loses every one of its sessions, whichever token it presented, and no other session or user changes |
| SessionLifecycle.RegisterThenMe | auth-service/dist/routes/auth.js:53-59 | the token returned by registration opens `/me` for the new user throughout the seven days, without the password hash; `/me` reports `is_active` as the number 1 where `/register` had said `true` |
| SessionLifecycle.RegisterTwice | auth-service/dist/routes/auth.js:43-46 | after a successful registration, registering the same address again is a 409 and leaves the store exactly as the first registration left it |
| SessionLifecycle.RegisterThenLogin | auth-service/dist/routes/auth.js:89-103 | with a sound hasher, logging in with the registered password succeeds, and the registration session survives the login next to the new one |
| SessionLifecycle.LoginWithRegisteredPassword | auth-service/dist/routes/auth.js:89-103 | with a sound hasher, logging in with the password whose hash is stored succeeds and adds exactly one session |
| SessionLifecycle.LogoutRevokesEveryToken | auth-service/dist/routes/auth.js:190-194 | logging out with one token makes every other token of the same user invalid |
| SessionLifecycle.ProfileStoresAnyBackground | auth-service/dist/routes/auth.js:154-166 | `/profile` stores any non-empty string as a background, so a stored row can leave the enum domain that the update schema would have enforced with a 400 |
| SessionLifecycle.ProfileClearsGoal | auth-service/dist/routes/auth.js:158-166 | a `/profile` body whose learning goal is missing, `null` or empty clears the stored goal and keeps both backgrounds |
| SessionLifecycle.NullGoalRejected | auth-service/src/models/user.ts:26 | a registration body that is valid without a learning goal is refused with a 400 and one `InvalidType` issue on `learning_goal` when the goal is `null`, and the store is unchanged |
| SessionLifecycle.AnnRegisters | auth-service/dist/routes/auth.js:40-79 | a concrete registration into a store without that address succeeds, keeps the store valid, and stores the hash of the password |
| SessionLifecycle.AnnIsValid | auth-service/src/models/user.ts:20-27 | the concrete registration body passes the registration schema, and its credentials pass the login schema |
| SessionLifecycle.MeWithLiveToken | auth-service/dist/routes/auth.js:128-147 | `/me` with an unexpired token of an existing user returns that user and changes nothing |
| PyAuth.HashPassword | backend/services/auth_service.py:23-26 | the hash is always accepted by `verify_password` for the same password, and it is accepted for another password exactly when that password has the same digest |
| PyAuth.VerifyRejectsOtherPassword | backend/services/auth_service.py:18-21 | with a collision-free digest, a hash verifies no password but its own |
| PyAuth.GetUserByEmail | backend/services/auth_service.py:8-11 | returns a stored row with that e-mail, or nothing exactly when no row has it |
| PyAuth.GetUserById | backend/services/auth_service.py:13-16 | returns a stored row with that id, or nothing exactly when no row has it |
| PyAuth.FirstMatch | backend/services/auth_service.py:11 | the position of the first row the filter accepts, with no earlier row accepted, or -1 when no row is accepted |
| PyAuth.CreateUser | backend/services/auth_service.py:28-54 | fails exactly when the id or the e-mail is taken; otherwise it appends one active row that stores the digest of the password, never the password itself, and the digest verifies it |
| PyAuth.ApplyUpdate | backend/services/auth_service.py:70-75 | each of the three fields changes only when given a truthy value; nothing else changes |
| PyAuth.UpdateUserProfile | backend/services/auth_service.py:56-80 | no row with the id gives `None` and an unchanged table; otherwise only the first such row changes, as for `ApplyUpdate`, and is returned; its id, e-mail, name, hash and active flag are kept |
| PyAuth.GoalNeverCleared | backend/services/auth_service.py:74-75 | once a user has a learning goal, no update removes it |
| PyAuth.ProfileSemanticsContrast | backend/services/auth_service.py:70-75 | the backend and the Node `/profile` route treat the backgrounds alike; their learning goals agree exactly when a truthy goal is given or there was none before |
| Ingest.Clamp | backend/tools/ingest.py:32 | slice bounds are normalised as Python does: negative bounds count from the end, and the result lies within the text |
| Ingest.RFind | backend/tools/ingest.py:32 | `rfind` returns an index in the normalised range that holds the character, with none after it in the range, or -1 when the range has none |
| Ingest.LastSentenceEnd | backend/tools/ingest.py:30-34 | the largest of the four `rfind` results is the last `.`, `!`, `?` or newline in the range, or -1 when the range has none |
| Ingest.NextCut | backend/tools/ingest.py:24-37 | each piece ends strictly after its start and at most `chunk_size` characters after it |
| Ingest.NextCutSpec | backend/tools/ingest.py:24-37 | the first piece, and a piece that reaches the end of the text, is `chunk_size` long; any other piece ends just after the last sentence end lying after its start and within the last `overlap` characters of its window, or at full length when there is none |
| Ingest.Pieces | backend/tools/ingest.py:39-41 | every emitted chunk is non-empty and stripped |
| Ingest.ChunkStep | backend/tools/ingest.py:39-44 | one loop turn appends the next cut, keeping the cuts ascending, and appends the new stripped piece exactly when it is non-empty |
| Ingest.ChunkText | backend/tools/ingest.py:13-50 | a text of at most `chunk_size` characters comes back whole and unstripped; otherwise the chunks are the non-empty stripped pieces between the cuts of the chunking, each at most `chunk_size` long; the loop terminates because `start` strictly increases |
| Ingest.PiecesWithin | backend/tools/ingest.py:39-41 | when consecutive cuts are at most `chunk_size` apart, no chunk is longer than `chunk_size` |
| Ingest.StepsGaps | backend/tools/ingest.py:24-37 | consecutive cuts of a chunking are at most `chunk_size` apart |
| Ingest.TilesCover | backend/tools/ingest.py:39-44 | the raw slices between ascending cuts concatenate to the text between the first and the last cut, so they neither overlap nor leave gaps |
| Ingest.ChunkingCoversText | backend/tools/ingest.py:23-48 | the raw slices of a chunking cover the whole text, so `overlap` sizes only the search window |
| Ingest.FirstCutIsChunkSize | backend/tools/ingest.py:29-37 | the first chunk is never shortened at a sentence end, because its search window is empty |
| Text.Join | backend/services/chat_service.py:98 | `sep.join` of a single piece is that piece; its partners are `Text.JoinAppend` and `Text.SplitJoin` |
| Text.JoinAppend | backend/services/chat_service.py:98 | joining one more piece at the end appends the separator and that piece |
| Text.Split | backend/tools/ingest.py:62 | splitting yields at least one piece, no piece contains the separator, and joining the pieces with it rebuilds the input |
| Text.SplitJoin | backend/tools/ingest.py:62 | splitting a join of separator-free pieces gives the pieces back |
| Text.Strip | backend/tools/ingest.py:39 | the result is a stripped substring of the input whose removed ends are whitespace; it is empty exactly when the input is all whitespace |
| Text.StripIdempotent | backend/tools/ingest.py:65 | stripping a stripped string changes nothing |
| Ingest.HeadingIndex | backend/tools/ingest.py:63-64 | the first of the first ten lines that starts with `# `, or -1 when there is none |
| Ingest.ExtractTitle | backend/tools/ingest.py:58-66 | the title is the stripped rest of the first line among the first ten that starts with `# `, or `Untitled Document` when there is none; it never contains a newline and has no whitespace at its ends |
| Ingest.StripKeepsOut | backend/tools/ingest.py:65 | stripping never introduces a character |
| PyUuid.RemoveAll | backend/services/chat_service.py:37 | removing a pattern never lengthens the string and leaves it unchanged when its first character does not occur |
| PyUuid.RemoveAllWithoutOccurrence | backend/services/chat_service.py:37 | where the pattern occurs nowhere, the string is unchanged |
| PyUuid.RemoveAllAtFirst | backend/services/chat_service.py:37 | the leftmost occurrence is removed, the text before it kept, and the removal resumes after it; with the previous row this fixes the result on every input |
| PyUuid.DropChar | backend/services/chat_service.py:37 | removing a character leaves every other character and no occurrence of the removed one |
| PyUuid.StripChars | backend/services/chat_service.py:37 | `strip('{}')`, and `int()`'s skipping of whitespace: the result is a slice of the input whose removed ends are all dropped characters, and neither of its own ends is one; a string without them at its ends is left as it is |
| PyUuid.Normalise | backend/services/chat_service.py:37 | the string handed to `int(h, 16)` is no longer than the input and has no hyphen |
| PyUuid.ParsesAsHex | backend/services/chat_service.py:37 | `int(h, 16)` returns only for a string holding at least one hex digit; its partners are `PlainDigitsParse` and `SeparatorNotSkipped` |
| PyUuid.SeparatorNotSkipped | backend/services/chat_service.py:37 | `int()` does not skip the information separator `\x1c`, though `str.isspace` counts it, so `"\x1c"` before hex digits does not parse |
| PyUuid.IsUuid | backend/services/chat_service.py:36-41 | an accepted id has at least 32 characters; its partners are `ShortRejected`, `CanonicalIsUuid` and `BracedIsUuid` |
| PyUuid.ShortRejected | backend/services/chat_service.py:36-41 | a string shorter than 32 characters is never a UUID |
| PyUuid.PlainDigitsParse | backend/services/chat_service.py:37 | hex digits with single underscores between them pass `int(h, 16)` |
| PyUuid.CanonicalNormalise | backend/services/chat_service.py:37 | the normalisation of an 8-4-4-4-12 lower-case string is its 32 digits |
| PyUuid.CanonicalIsUuid | backend/services/chat_service.py:36-41 | every string in the form `str(uuid)` produces is accepted |
| PyUuid.BracedIsUuid | backend/services/chat_service.py:36-41 | such a string in braces is accepted too |
| Chat.GetSession | backend/services/chat_service.py:30-41 | a session is found exactly when the id passes the UUID check and is stored |
| Chat.MalformedIdNeverFound | backend/services/chat_service.py:34-41 | an id the UUID check refuses finds nothing, whatever the store holds |
| Chat.CreateSession | backend/services/chat_service.py:19-28 | adds exactly the fresh session and leaves the messages alone |
| Chat.AddMessage | backend/services/chat_service.py:43-57 | the message goes after all existing ones, which stay as they were |
| Chat.SessionMessages | backend/services/chat_service.py:59-63 | the result holds exactly the messages of that session |
| Chat.SessionMessagesAppend | backend/services/chat_service.py:59-63 | the messages of a session in an extended log are those of the old log followed by those of the extension |
| Chat.Retrieve | backend/services/chat_service.py:76-93 | when every score is below 0.1 (or there are no results) there are no context texts and no sources; otherwise there is one text and one source per result, in search order |
| Chat.SourcesIffRelevant | backend/services/chat_service.py:77-92 | sources are empty exactly when nothing reaches the threshold; then every result reaching it is reported |
| Chat.Context | backend/services/chat_service.py:95-101 | a non-empty selected text leads the context, otherwise the general instruction does; in both cases the retrieved texts joined by ". " follow, and nothing else; the "no relevant content" text never survives |
| Chat.PromptFor | backend/services/chat_service.py:86-117 | the prompt sent for a query ends with the answer cue; when the question leaves room it is at most 2000 characters, a prefix of the query's context followed by the whole question |
| Chat.Prompt | backend/services/chat_service.py:103-117 | a prompt within 2000 characters is kept whole; otherwise, when the question leaves room, the context is cut so the prompt has exactly 2000 characters; otherwise the prompt is the bare question cut to 2000 characters; it always ends with the answer cue |
| Chat.ShortQuestionKept | backend/services/chat_service.py:108-114 | a question that leaves room for the labels is sent whole after a prefix of the context, within 2000 characters |
| Chat.LongQuestionExceedsLimit | backend/services/chat_service.py:115-117 | a question of 2000 characters yields a prompt of 2019 characters |
| Chat.PromptIgnoresMetadata | backend/services/chat_service.py:76-117 | the prompt depends on the results only through their texts and whether any is relevant |
| Chat.GenerateResponse | backend/services/chat_service.py:65-161 | answers exactly when the search and the model both return; the answer is the model's reply to the built prompt, with the sources of `Retrieve` |
| Chat.ResolveSession | backend/services/chat_service.py:167-187 | the given session is reused exactly when the id is non-empty, passes the UUID check and exists; otherwise exactly one new session is opened |
| Chat.ProcessUserQuery | backend/services/chat_service.py:163-200 | the user's message, with the selected text as its context, is recorded in the resolved session before generation; an answered query also records the answer there and returns that session's id; a raising generation leaves only the user's message |
| Chat.FirstQueryOpensSession | backend/services/chat_service.py:185-199 | an answered query without a session id opens the fresh session, and its history becomes the question followed by the answer |
| Chat.FollowUpStaysInSession | backend/services/chat_service.py:171-180 | a follow-up with an existing canonical session id opens no session, answers in that session, and strictly extends its history |
| Chat.MalformedIdOpensSession | backend/services/chat_service.py:181-184 | an id the UUID check refuses always opens a new session, even when a session of that exact name exists |

## Left out

- SQLite connection setup and the table DDL are not modelled. The tables are maps, and their UNIQUE and PRIMARY KEY constraints are the invariant `Store.Valid`.
- Routes.Register: requires `Store.Valid`, the constraints the database enforces on every state; the same holds for `Login`, `Me`, `Profile` and `Logout`.
- bcrypt (`auth-service/dist/utils/password.js`) is not part of this model. The hasher is a pair of functions; soundness is a hypothesis of the lemmas that need it, and salting and rounds are not modelled.
- SHA-256 is a function parameter of `PyAuth`. Its collision-freedom is a hypothesis of `PyAuth.VerifyRejectsOtherPassword`.
- Ids and tokens built from `Date.now()`, `Math.random()` and `uuid4` are parameters. A collision in the Node service is modelled as the 500 it causes.
- Chat.ProcessUserQuery: requires the id of a new session to be unused, as `uuid4` practically guarantees.
- Concurrency, and races between an existence check and the insert, are not modelled.
- The mock routes and middleware under `auth-service/src/routes` and `auth-service/src/middleware` are not part of this model. The compiled `dist` files carry the real behaviour.
- ISO-8601 timestamps are integers in milliseconds. `created_at`, `updated_at` and the response `timestamp` are not compared.
- Zod internals are approximated:
  - its own `.email()` check is taken to be the same pattern as `validateEmail`;
  - issue messages are reduced to a kind;
  - a body field is missing, `null` or a string; JSON numbers, booleans, arrays and objects in a field are not modelled.
- Error details that echo exception messages (`details: error.message`) are not modelled.
- The embedding, vector-search and language-model calls are parameters, and a raised exception is `None`. The OpenRouter client setup is not modelled.
- The 0.1 relevance threshold is compared on `real`, not on a floating-point score.
- PyUuid.IsUuid: `int()` also accepts non-ASCII decimal digits, and those are not modelled. The `TypeError` path for non-string ids is not modelled either.
- Chat.GetSession: the `UUID` column is compared as a string. In the database, a spelling of a stored id that PostgreSQL's uuid input accepts (upper case, braces, missing hyphens) would find the session; the model finds it only under the exact stored spelling. A spelling `uuid.UUID` accepts but PostgreSQL refuses (`urn:uuid:` prefix, `0x`, a sign, surrounding whitespace, underscores) makes the query raise an uncaught database error; the model finds nothing.
- Chat.ResolveSession: for such ids the source either resumes the stored session or fails the request, where the model opens a new session. For a found session it returns the client's spelling, which under string comparison is the stored id; the source returns `str(session.id)`, its canonical form.
- Chat.ProcessUserQuery: inherits both gaps of `ResolveSession`: a non-canonical spelling of a stored id opens a new session rather than resuming it, and an id that makes the database query raise is answered rather than failing the request.
- Chat.SessionMessages: messages are ordered by insertion, which stands in for ordering by timestamp.
- Ingest.ChunkText: requires `chunk_size > 0`. With a non-positive size, a non-empty text longer than the size makes the source loop forever; an empty text with a negative size gives `[]`; a text no longer than the size (the empty text with size 0) comes back as `[text]`.
- `run_ingestion`, `calculate_checksum` and file globbing in `backend/tools/ingest.py` are I/O and are not modelled.
- The personalise and translate services, the frontend, configuration and the other route handlers are not part of this model.
