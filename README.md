# opia-server: message fanout, devices, accounts and sessions

opia-server is the back end of an end-to-end encrypted messenger. This
project models its core in Dafny and proves properties of that model. The
model covers:

- **Devices.** A client device is an *installation*. Binding an
  installation to an actor (an account) creates an *installation link*;
  its id, the *ioid*, is the address that message packets are sent to.
- **Messages.** A message is submitted as one encrypted *packet* per link
  of the recipient. The server checks that the packets address exactly
  those links, stores the message together with one receipt per packet,
  and pushes one real-time frame per packet to whichever link has a live
  WebSocket connection.
- **Backlog.** A device that connects receives its backlog.
- **Accounts.** Signup proves control of a phone number through
  challenge-response codes on previously registered *properties*.
- **Sessions.** Login opens a session bound to the actor, the
  installation, the link and the secret. Refresh copies that session under
  a new refresh token.
- **Errors.** The exception handler turns the routes' exceptions into HTTP
  responses.

The files follow the program's structure:

| file | models |
|---|---|
| `common.dfy`, `text.dfy` | shared vocabulary; the Kotlin string operations used: `trim`, `lowercase`, `replaceFirstChar`, `split`, `Int.toString` |
| `api.dfy` | `api.kt` (`ApiErrors`, `Api`) and `Administration.kt` (`Administration`) |
| `installations.dfy`, `actors.dfy`, `actor_properties.dfy`, `actor_links.dfy`, `auth_sessions.dfy`, `messages.dfy` | the services, each as a class whose fields are its tables |
| `messaging.dfy` | `MessagingService` and the connection counter |
| `messages_api.dfy`, `realtime_api.dfy`, `development_api.dfy`, `actors_api.dfy`, `auth_sessions_api.dfy` | the routes, as methods over those classes |

The services and the routes change state step by step, so they are
classes and methods with `modifies` clauses and loops. Each method is
proved against specification functions. The string handling and the
message projections are pure, so they are functions and lemmas.

Each table is a field of type `seq` (in table order) or `map` (keyed by
id). Each class keeps the table's constraints as its `Valid()` invariant:

- unique ids;
- the partial unique indexes on:
  - the handle;
  - the (installation, actor) pair of a link;
  - the (actor, peer) pair of a contact link;
  - the content of a valid primary property;
- varchar lengths;
- packet and receipt rows reference a stored message.

Other outside influences are handled as follows:

- **Failed inserts and updates.** An insert or update that the database
  would refuse (unique index, varchar overflow, unset non-null column) is
  modelled as the exception it throws. The route answers such an
  exception with a 500.
- **Supplied as parameters.** The clock, random ids, tokens and
  verification codes are parameters, and so is the UUID parser.
- **The sockets.** They are a `Sockets` object that logs every frame
  written and every close issued.

## Model

Source paths are relative to the repository root; every one is under `src/main/kotlin/app/opia/`.

| member | source | states |
|---|---|---|
| Text.Lower | src/main/kotlin/app/opia/services/ActorsService.kt:138 | lowercasing keeps the length and lowers each character in place (ASCII letters only) |
| Text.TrimStart | src/main/kotlin/app/opia/services/ActorsService.kt:138 | the result is a suffix that starts with a non-blank, and everything cut off is whitespace |
| Text.TrimEnd | src/main/kotlin/app/opia/services/ActorsService.kt:138 | the result is a prefix that ends with a non-blank, and everything cut off is whitespace |
| Text.TrimIsTrimmed | src/main/kotlin/app/opia/services/ActorsService.kt:138 | `trim()` yields a string with no blank at either end, no longer than its argument |
| Text.TrimIdempotent | src/main/kotlin/app/opia/services/ActorsService.kt:138 | trimming twice equals trimming once |
| Text.LowerIdempotent | src/main/kotlin/app/opia/services/ActorsService.kt:138 | lowercasing twice equals lowercasing once |
| Text.LowerTrim | src/main/kotlin/app/opia/services/ActorsService.kt:138 | lowercasing commutes with trimming |
| Text.TrimPadded | src/main/kotlin/app/opia/services/ActorsService.kt:138 | whitespace padding on either side is invisible to `trim()` |
| Text.LowerFirst | src/main/kotlin/app/opia/services/ActorsService.kt:139 | only the first character is lowered; the length and the rest are kept |
| Text.SplitOn | src/main/kotlin/app/opia/routes/ActorsApi.kt:150 | a split always yields at least one piece (empty pieces are kept) |
| Text.SplitPiecesFree | src/main/kotlin/app/opia/routes/ActorsApi.kt:150 | no piece of a split contains a delimiter |
| Text.SplitJoin | src/main/kotlin/app/opia/routes/ActorsApi.kt:151 | joining the pieces with the delimiter restores the string (split loses nothing) |
| Text.SplitTwoIff | src/main/kotlin/app/opia/routes/ActorsApi.kt:151-152 | two pieces means the string is `a + d + b` with `a`, `b` delimiter-free |
| Text.SplitTwo | src/main/kotlin/app/opia/routes/ActorsApi.kt:151-152 | `a + d + b` with delimiter-free `a`, `b` splits into exactly `[a, b]` |
| Text.DecimalString | src/main/kotlin/app/opia/services/ActorPropertiesService.kt:95 | `toString()` of a natural number is a non-empty string of digits |
| Text.DecimalRoundTrip | src/main/kotlin/app/opia/services/ActorPropertiesService.kt:95 | reading the printed number back gives the number |
| Text.DecimalLength | src/main/kotlin/app/opia/services/ActorPropertiesService.kt:95 | a number in [10^(k-1), 10^k) prints with exactly k digits |
| Api.Validation | src/main/kotlin/app/opia/routes/api.kt:49-51 | the exception carries the code and exactly the given field names, each with a null value |
| Api.ValidationCode | src/main/kotlin/app/opia/routes/api.kt:54 | the code-only exception has no fields at all |
| Api.Validation2 | src/main/kotlin/app/opia/routes/api.kt:57-60 | the status exception carries the status and exactly the given field names, each with a null value |
| Api.NullFields | src/main/kotlin/app/opia/routes/api.kt:49-51 | pairing names with null keeps the names in order |
| Api.HeaderValues | src/main/kotlin/app/opia/routes/api.kt:42-43 | the values of a header are found by its lower-cased name, and are exactly the values stored under it |
| Api.HeaderNameCase | src/main/kotlin/app/opia/routes/api.kt:42-43 | two header names differing only in ASCII case find the same values |
| Api.HeaderOrFail | src/main/kotlin/app/opia/routes/api.kt:42-43 | ok iff the header, looked up whatever the case of its name, has a value, and then it is the first one; otherwise Required naming exactly that header |
| Api.InstallationIdHeader | src/main/kotlin/app/opia/routes/AuthSessionsApi.kt:61 | ok iff the header is present and parses; a missing header keeps its Required failure; an unparsable one is a 500-class throwable |
| Api.Success | src/main/kotlin/app/opia/routes/api.kt:14-17 | the success envelope defaults to code OK and no count |
| Administration.AssociateBy | src/main/kotlin/app/opia/plugins/Administration.kt:31 | the error map's keys are exactly the distinct field names, each mapped to the status list |
| Administration.HandleException | src/main/kotlin/app/opia/plugins/Administration.kt:20-54 | entity-not-found gives 422 Reference with no errors; both validation exceptions give 422 with their code and one key per field name; anything else gives a 500 text |
| Administration.ValidationResponseKeys | src/main/kotlin/app/opia/plugins/Administration.kt:28-36 | the response has one key per distinct name (fewer keys than names iff a name repeats), each `[Status(code)]` |
| Administration.CodeOnlyResponse | src/main/kotlin/app/opia/plugins/Administration.kt:28-36 | a field-less validation exception still answers with an empty errors map |
| Installations.UpsertedState | src/main/kotlin/app/opia/services/InstallationsService.kt:77-94 | after `create` the id's row holds the given fields; an existing row keeps its creation and deletion stamps; no other row changes |
| Installations.UpsertIdempotent | src/main/kotlin/app/opia/services/InstallationsService.kt:77-94 | repeating `create` with the same arguments leaves the same table, whatever the clock |
| Installations.StampDeletedEffect | src/main/kotlin/app/opia/services/InstallationsService.kt:115-118 | every link of exactly that pair is stamped, others untouched, ids kept, and the pair has no undeleted link left |
| Installations.StampDeletedKeepsIndex | src/main/kotlin/app/opia/services/InstallationsService.kt:50-52 | stamping links deleted preserves the partial unique index on (installation, actor) |
| Installations.StaleLinksStayListed | src/main/kotlin/app/opia/services/InstallationsService.kt:103-105 | a soft-deleted link is still listed for its actor, so it stays a fanout target |
| Installations.RelinkAdmitted | src/main/kotlin/app/opia/routes/AuthSessionsApi.kt:97-98 | after `deleteLinks` the index can never reject the following `linkInstallation` |
| Installations.StampDeletedUnlinked | src/main/kotlin/app/opia/services/InstallationsService.kt:115-118 | when no link refers to the installation, `deleteLinks` leaves the link table as it was |
| Installations.InstallationsService.Get | src/main/kotlin/app/opia/services/InstallationsService.kt:73-75 | found iff an installation has the id, and then it is exactly the row stored under that id |
| Installations.InstallationsService.Create | src/main/kotlin/app/opia/services/InstallationsService.kt:77-94 | refused iff a text overflows its column (table unchanged); otherwise the upsert, returning the stored row; links untouched |
| Installations.InstallationsService.LinkInstallation | src/main/kotlin/app/opia/services/InstallationsService.kt:96-101 | refused iff the pair already has an undeleted link or the installation id names no installation (the foreign key of line 43); otherwise exactly one fresh undeleted link is appended |
| Installations.InstallationsService.ListLinks | src/main/kotlin/app/opia/services/InstallationsService.kt:103-105 | exactly the actor's links, deleted ones included |
| Installations.InstallationsService.GetLink | src/main/kotlin/app/opia/services/InstallationsService.kt:111-113 | found iff a link has the id (deleted or not), and it is that link |
| Installations.InstallationsService.DeleteLinks | src/main/kotlin/app/opia/services/InstallationsService.kt:115-118 | the loop leaves every link of the pair, deleted or not, stamped with the deletion time and every other link untouched (see StampDeletedEffect), and keeps every invariant |
| Installations.InstallationsService.Delete | src/main/kotlin/app/opia/services/InstallationsService.kt:121-123 | false iff the installation did not exist; throws (and changes nothing) iff a link, deleted or not, still refers to it; otherwise that row is gone and nothing else changes |
| Actors.SanitizeHandle | src/main/kotlin/app/opia/services/ActorsService.kt:138 | a sanitised handle is trimmed, no longer than the input and has no upper-case letter |
| Actors.SanitizeUnique | src/main/kotlin/app/opia/services/ActorsService.kt:137 | login identifiers are sanitised exactly like handles |
| Actors.SanitizeSecret | src/main/kotlin/app/opia/services/ActorsService.kt:139 | the trimmed secret with only its first character lowered |
| Actors.SanitizeHandleIdempotent | src/main/kotlin/app/opia/services/ActorsService.kt:138 | sanitising a handle twice changes nothing more |
| Actors.SanitizeHandleVariant | src/main/kotlin/app/opia/services/ActorsService.kt:138 | a whitespace-padded case variant sanitises to the same handle |
| Actors.SanitizeSecretIdempotent | src/main/kotlin/app/opia/services/ActorsService.kt:139 | sanitising a secret twice changes nothing more |
| Actors.FindByHandle | src/main/kotlin/app/opia/services/ActorsService.kt:82-85 | found iff some undeleted actor holds the sanitised handle, and the one found does |
| Actors.FindByHandleVariant | src/main/kotlin/app/opia/services/ActorsService.kt:31-33 | with the handle index in force, any string sanitising to an actor's handle finds exactly that actor |
| Actors.FindSecretUpdate | src/main/kotlin/app/opia/services/ActorsService.kt:131-134 | found iff an update matches both actor and secret, and the one found does |
| Actors.InsertFailure | src/main/kotlin/app/opia/services/ActorsService.kt:87-93 | an actor insert fails iff a text overflows its column or an undeleted actor holds the sanitised handle |
| Actors.ActorsService.Get | src/main/kotlin/app/opia/services/ActorsService.kt:78-80 | found iff an actor has the id (deleted or not), and it is that actor |
| Actors.ActorsService.GetByHandle | src/main/kotlin/app/opia/services/ActorsService.kt:82-85 | as FindByHandle, on the actor table |
| Actors.ActorsService.Create | src/main/kotlin/app/opia/services/ActorsService.kt:87-93 | refused iff the sanitised handle is taken or a text overflows, with that failure (table unchanged); otherwise exactly one Account/Default actor with the sanitised handle is appended |
| Actors.ActorsService.Delete | src/main/kotlin/app/opia/services/ActorsService.kt:96-98 | false iff no actor had the id; throws (and changes nothing) iff a secret update (the foreign key of line 56) or a row of another table (the given referrers) still refers to it; otherwise exactly that row is removed |
| Actors.ActorsService.Patch | src/main/kotlin/app/opia/services/ActorsService.kt:100-105 | null iff no actor has the id; otherwise only name and/or desc of that row change, or the update throws on overflow |
| Actors.ActorsService.CreateSecretUpdate | src/main/kotlin/app/opia/services/ActorsService.kt:121-126 | appends exactly one (actor, secret) record iff the secret fits its column and the actor exists; otherwise nothing changes |
| Actors.ActorsService.GetLatestSecretUpdate | src/main/kotlin/app/opia/services/ActorsService.kt:131-134 | as FindSecretUpdate, on the update table |
| Actors.RemoveAtKeepsIndex | src/main/kotlin/app/opia/services/ActorsService.kt:31-33 | removing a row keeps ids and undeleted handles unique and drops its id |
| ActorProperties.IndexOfId | src/main/kotlin/app/opia/services/ActorPropertiesService.kt:100 | finds the position of the row with the id iff there is one |
| ActorProperties.Validated | src/main/kotlin/app/opia/services/ActorPropertiesService.kt:99-103 | the validated row is valid |
| ActorProperties.OwnedPrimary | src/main/kotlin/app/opia/services/ActorPropertiesService.kt:105-110 | the row is owned by the actor and primary |
| ActorProperties.LiveById | src/main/kotlin/app/opia/services/ActorPropertiesService.kt:71-74 | the undeleted row with the id, found iff there is one |
| ActorProperties.Write | src/main/kotlin/app/opia/services/ActorPropertiesService.kt:99-110 | an update is refused iff the row overflows or would give the content index a second row; refused: the table is kept; otherwise only that position changes |
| ActorProperties.WriteKeepsConsistent | src/main/kotlin/app/opia/services/ActorPropertiesService.kt:99-110 | an admitted update of an owned-primary-consistent row keeps every table constraint |
| ActorProperties.ValidatingUnownedSucceeds | src/main/kotlin/app/opia/services/ActorPropertiesService.kt:99-103 | validating an unowned row is always admitted |
| ActorProperties.ValidatedRowsOne | src/main/kotlin/app/opia/services/ActorPropertiesService.kt:99-103 | validating one row is validating the set of its id |
| ActorProperties.OwnedRowsOne | src/main/kotlin/app/opia/services/ActorPropertiesService.kt:105-110 | owning one row is owning the set of its id |
| ActorProperties.CodeHasSixDigits | src/main/kotlin/app/opia/services/ActorPropertiesService.kt:88 | every code drawn from [100000, 1000000) prints as exactly six digits that read back as the code |
| ActorProperties.ActorPropertiesService.Get | src/main/kotlin/app/opia/services/ActorPropertiesService.kt:71-74 | found iff an undeleted row has the id |
| ActorProperties.ActorPropertiesService.List | src/main/kotlin/app/opia/services/ActorPropertiesService.kt:76-79 | exactly the actor's undeleted properties |
| ActorProperties.ActorPropertiesService.GetPrimaryByContent | src/main/kotlin/app/opia/services/ActorPropertiesService.kt:81-84 | found iff an undeleted primary row has exactly that content (validity not consulted) |
| ActorProperties.ActorPropertiesService.Create | src/main/kotlin/app/opia/services/ActorPropertiesService.kt:86-97 | refused iff the content overflows; otherwise one unowned, invalid, non-primary row with a six-digit code for the draw is appended |
| ActorProperties.ActorPropertiesService.Replace | src/main/kotlin/app/opia/services/ActorPropertiesService.kt:32-34 | an update is refused iff it would give the content index two rows or overflow; otherwise only that row changes |
| ActorProperties.ActorPropertiesService.ValidateProperty | src/main/kotlin/app/opia/services/ActorPropertiesService.kt:99-103 | null iff the id is unknown; throws only when the row is owned and validating it would give the content index a second row; otherwise exactly that row becomes valid (already valid: nothing changes) |
| ActorProperties.ActorPropertiesService.OwnAndPrimarizeProperty | src/main/kotlin/app/opia/services/ActorPropertiesService.kt:105-110 | null iff the id is unknown; throws only on a content clash; otherwise only that row is owned and primary |
| ActorLinks.ToDTO | src/main/kotlin/app/opia/services/ActorLinksService.kt:40 | the DTO copies every column but the row id |
| ActorLinks.Dtos | src/main/kotlin/app/opia/services/ActorLinksService.kt:43-45 | one DTO per row, in order |
| ActorLinks.NewRow | src/main/kotlin/app/opia/services/ActorLinksService.kt:56-61 | the row naming its creator is insertable |
| ActorLinks.AsWrittenNeverInsertable | src/main/kotlin/app/opia/services/ActorLinksService.kt:56-61 | the row built as written is never insertable, whatever the arguments |
| ActorLinks.ActorLinksService.All | src/main/kotlin/app/opia/services/ActorLinksService.kt:43-45 | every link (deleted included) appears, one per row |
| ActorLinks.ActorLinksService.ListByActor | src/main/kotlin/app/opia/services/ActorLinksService.kt:47-50 | exactly the actor's undeleted links |
| ActorLinks.ActorLinksService.Get | src/main/kotlin/app/opia/services/ActorLinksService.kt:52-54 | found iff a row has the id |
| ActorLinks.ActorLinksService.Insert | src/main/kotlin/app/opia/services/ActorLinksService.kt:14-27 | refused iff a non-null column is unset, the actor, peer or creator is not in the actor table (the foreign keys of lines 15, 16, 21), or the pair is linked already; otherwise exactly one row is appended |
| ActorLinks.ActorLinksService.CreateAsWritten | src/main/kotlin/app/opia/services/ActorLinksService.kt:56-61 | as written, `create` always throws and changes nothing |
| ActorLinks.ActorLinksService.Create | src/main/kotlin/app/opia/services/ActorLinksService.kt:56-61 | refused iff the actor, the peer or the creator is not in the actor table, or the pair is linked; otherwise an Invited link by the creator is appended |
| AuthSessions.ToDTO | src/main/kotlin/app/opia/services/AuthSessionsService.kt:40-50 | every column copied, no access token |
| AuthSessions.AuthSessionsService.Get | src/main/kotlin/app/opia/services/AuthSessionsService.kt:57-59 | found iff a row has the id |
| AuthSessions.AuthSessionsService.GetByRefreshToken | src/main/kotlin/app/opia/services/AuthSessionsService.kt:61-64 | found iff a row matches both token and installation; deletion is not consulted |
| AuthSessions.AuthSessionsService.Create | src/main/kotlin/app/opia/services/AuthSessionsService.kt:66-76 | refused iff the token overflows; otherwise exactly one row with the given bindings is appended |
| AuthSessionsApi.ResolveActor | src/main/kotlin/app/opia/routes/AuthSessionsApi.kt:68-74 | the handle's actor wins; Reference "unique" iff neither a handle nor a primary property matches; otherwise the property's owner, and a throwable when it has no owner or the owner is gone |
| AuthSessionsApi.Authenticate | src/main/kotlin/app/opia/routes/AuthSessionsApi.kt:64-82 | resolution errors pass through; a wrong secret is Forbidden "secret"; a missing secret update is Internal; success pairs the actor with a matching update |
| AuthSessionsApi.BindLink | src/main/kotlin/app/opia/routes/AuthSessionsApi.kt:84-100 | a given ioid: 422 unknown / 403 foreign / used, nothing changes; none: the link insert throws iff the installation is unknown (nothing changes), else the pair's links are stamped and one fresh link appended |
| AuthSessionsApi.OpenSession | src/main/kotlin/app/opia/routes/AuthSessionsApi.kt:102-116 | one session row with the bindings; access token for the actor on that link; the actor's properties as hints |
| AuthSessionsApi.Login | src/main/kotlin/app/opia/routes/AuthSessionsApi.kt:84-116 | after authentication: the link step's refusals change nothing; otherwise one session row for the actor on the bound link, with its access token and the actor's properties |
| AuthSessionsApi.PostAuthSession | src/main/kotlin/app/opia/routes/AuthSessionsApi.kt:60-117 | a refused login changes nothing; each error path, including an unknown installation; a created session is bound to the header's installation, the resolved actor and its update |
| AuthSessionsApi.ParseRefreshHeaderIff | src/main/kotlin/app/opia/routes/AuthSessionsApi.kt:122-128 | the header is accepted exactly when it is "Bearer " plus a space-free token |
| AuthSessionsApi.PostRefresh | src/main/kotlin/app/opia/routes/AuthSessionsApi.kt:118-154 | 400 / 401 / 422 paths change nothing; success copies every binding of the current session under the new token |
| Messages.PacketsOf | src/main/kotlin/app/opia/services/MessagesService.kt:68 | exactly the packet rows of the message |
| Messages.PacketsTo | src/main/kotlin/app/opia/services/MessagesService.kt:173 | exactly the packet rows addressed to the link |
| Messages.ToMessagePacket | src/main/kotlin/app/opia/services/MessagesService.kt:93 | the client-visible columns, no nested message |
| Messages.ToMessageReceipt | src/main/kotlin/app/opia/services/MessagesService.kt:108 | every receipt column copied |
| Messages.ToRawMessage | src/main/kotlin/app/opia/services/MessagesService.kt:74-76 | the message columns with empty packet and receipt lists |
| Messages.ToMessage | src/main/kotlin/app/opia/services/MessagesService.kt:63-72 | the message with the projections of exactly its own packets and receipts, in table order |
| Messages.ToFullMessagePacket | src/main/kotlin/app/opia/services/MessagesService.kt:94-95 | the packet projection plus its parent message, raw |
| Messages.PacketRowsFor | src/main/kotlin/app/opia/services/MessagesService.kt:140-149 | one packet row per request packet, in request order |
| Messages.ReceiptRowsFor | src/main/kotlin/app/opia/services/MessagesService.kt:151-155 | one untouched receipt per request packet, in request order |
| Messages.PacketRoundTrip | src/main/kotlin/app/opia/services/MessagesService.kt:140-149 | storing a packet and projecting it back gives the request packet |
| Messages.ReadBackSubmitted | src/main/kotlin/app/opia/services/MessagesService.kt:130-159 | a new message read back after `add` is exactly what the client submitted |
| Messages.RowIn | src/main/kotlin/app/opia/services/MessagesService.kt:118 | the stored row with the id |
| Messages.WithParents | src/main/kotlin/app/opia/services/MessagesService.kt:173 | each packet with its own parent message attached |
| Messages.MessagesService.Get | src/main/kotlin/app/opia/services/MessagesService.kt:117-119 | found iff the id is stored, as that message with its packets and receipts |
| Messages.MessagesService.Add | src/main/kotlin/app/opia/services/MessagesService.kt:121-160 | idempotent on the id; a new id appends one message row and one packet and receipt row per packet; the result is what `get` then returns |
| Messages.MessagesService.ListUnacknowledged | src/main/kotlin/app/opia/services/MessagesService.kt:165-174 | every packet addressed to the link, with its parent message; receipts and actor id not consulted |
| Messaging.Sockets.Send | src/main/kotlin/app/opia/services/messaging/MessagingService.kt:25-27 | exactly one frame is written to the session |
| Messaging.Sockets.Close | src/main/kotlin/app/opia/services/messaging/MessagingService.kt:43 | exactly one close is issued on the session |
| Messaging.Int32Inc | src/main/kotlin/app/opia/services/messaging/MessagingService.kt:18-21 | a 32-bit increment: +1, except the largest value wraps to the smallest |
| Messaging.Draws | src/main/kotlin/app/opia/services/messaging/MessagingService.kt:21 | k draws give k connection numbers |
| Messaging.DrawsIncrease | src/main/kotlin/app/opia/services/messaging/MessagingService.kt:21 | connection numbers strictly increase until the counter passes the largest Int |
| Messaging.DrawsWrap | src/main/kotlin/app/opia/services/messaging/MessagingService.kt:21 | the draw after the largest Int is the smallest |
| Messaging.ConnectionCounter.GetAndIncrement | src/main/kotlin/app/opia/services/messaging/MessagingService.kt:21 | returns the old value and advances with wrap-around |
| Messaging.Registered | src/main/kotlin/app/opia/services/messaging/MessagingService.kt:38-47 | the connection holds its link's slot; every other slot unchanged; the registry stays keyed |
| Messaging.Unregistered | src/main/kotlin/app/opia/services/messaging/MessagingService.kt:52 | the link's slot is cleared whoever holds it; every other slot unchanged |
| Messaging.StaleUnregisterDropsSuccessor | src/main/kotlin/app/opia/services/messaging/MessagingService.kt:51-54 | an older connection ending after a newer one for the same link removes the newer one |
| Messaging.MatchesAtMostOne | src/main/kotlin/app/opia/services/messaging/MessagingService.kt:58-64 | in a keyed registry at most one connection matches a link |
| Messaging.Delivery | src/main/kotlin/app/opia/services/messaging/MessagingService.kt:56-65 | one send writes a frame iff the link is connected, and at most one |
| Messaging.MessagingService.RegisterClient | src/main/kotlin/app/opia/services/messaging/MessagingService.kt:37-49 | the previous occupant (if any) is closed once with (1008, "duplicate"); nothing is sent |
| Messaging.MessagingService.UnregisterClient | src/main/kotlin/app/opia/services/messaging/MessagingService.kt:51-54 | the registry becomes Unregistered(old, conn) |
| Messaging.MessagingService.Send | src/main/kotlin/app/opia/services/messaging/MessagingService.kt:56-65 | the loop over the registry writes exactly Delivery(clients, rcpt, msg) and closes nothing |
| MessagesApi.Recipients | src/main/kotlin/app/opia/routes/MessagesApi.kt:86-88 | the links the packets address, in packet order |
| MessagesApi.RemoveLink | src/main/kotlin/app/opia/routes/MessagesApi.kt:87 | exactly the links with another id remain |
| MessagesApi.Unaddressed | src/main/kotlin/app/opia/routes/MessagesApi.kt:86-92 | exactly the links no packet addresses |
| MessagesApi.RemoveUnaddressed | src/main/kotlin/app/opia/routes/MessagesApi.kt:86-88 | removing one more addressed link equals extending the addressed set |
| MessagesApi.NoTargetsLeaveAll | src/main/kotlin/app/opia/routes/MessagesApi.kt:79 | before any packet, every link is expected |
| MessagesApi.TargetCheckPermutation | src/main/kotlin/app/opia/routes/MessagesApi.kt:76-92 | with distinct link ids the check passes iff there are links and the packets' recipients are a permutation of the link ids |
| MessagesApi.CheckTargets | src/main/kotlin/app/opia/routes/MessagesApi.kt:76-92 | the route's loop returns the failure (or none) the target check prescribes |
| MessagesApi.RetryAfterNewLink | src/main/kotlin/app/opia/routes/MessagesApi.kt:82-84 | a request that passed is refused with a count mismatch once the recipient gains a link |
| MessagesApi.Sends | src/main/kotlin/app/opia/routes/MessagesApi.kt:97-101 | one send per stored packet, to its link, with the packet-less message |
| MessagesApi.Deliveries | src/main/kotlin/app/opia/routes/MessagesApi.kt:97-101 | no more frames than sends |
| MessagesApi.DeliveriesReachConnected | src/main/kotlin/app/opia/routes/MessagesApi.kt:97-101 | every frame goes to a connected addressed link with its packet; every packet to a connected link produces one |
| MessagesApi.Dispatch | src/main/kotlin/app/opia/routes/MessagesApi.kt:97-101 | the loop writes exactly the deliveries of the stored packets, in order |
| MessagesApi.PostMessage | src/main/kotlin/app/opia/routes/MessagesApi.kt:68-105 | refused iff the target check fails, with nothing stored or sent; otherwise a retried id leaves messages, packets and receipts as they were and returns the stored message, a new id appends exactly its message row and one packet and one receipt row per request packet, and every stored packet is pushed to its connected link |
| RealTimeApi.BacklogFrame | src/main/kotlin/app/opia/routes/RealTimeApi.kt:39 | the frame pairs the parent message with the packet stripped of it |
| RealTimeApi.BacklogFrames | src/main/kotlin/app/opia/routes/RealTimeApi.kt:38-40 | one frame per pulled packet, in order, to the session |
| RealTimeApi.Written | src/main/kotlin/app/opia/routes/RealTimeApi.kt:38-50 | a failing write cuts the backlog short; none fails: all frames |
| RealTimeApi.BacklogFramesShape | src/main/kotlin/app/opia/routes/RealTimeApi.kt:37-40 | each backlog frame carries a packet for that link, with the parent message stripped of packets and receipts |
| RealTimeApi.DrainBacklog | src/main/kotlin/app/opia/routes/RealTimeApi.kt:38-40 | the loop writes the backlog frames in order up to the failing write, and fails iff a write does |
| RealTimeApi.Session | src/main/kotlin/app/opia/routes/RealTimeApi.kt:23-54 | numbered, registered (evicting a predecessor), backlog written, and the slot cleared on every path |
| DevelopmentApi.TestPackets | src/main/kotlin/app/opia/routes/DevelopmentApi.kt:31 | one fixed "SGk=" packet per link of the peer, addressed to it |
| DevelopmentApi.TestPacketsPassCheck | src/main/kotlin/app/opia/routes/DevelopmentApi.kt:29-31 | the test packets would pass the messages route's check iff the peer has links |
| DevelopmentApi.SendTest | src/main/kotlin/app/opia/routes/DevelopmentApi.kt:31-41 | a retried id leaves messages, packets and receipts unchanged and returns the stored message; a new id appends the submitted test message's row and one packet and one receipt row per link of the peer; every stored packet is pushed |
| DevelopmentApi.DevSend | src/main/kotlin/app/opia/routes/DevelopmentApi.kt:21-44 | unknown sender, linkless sender, unknown peer are Reference errors changing nothing; otherwise the test message is stored under the sender's first link (a retried id changes no table, a new id appends exactly its message, packet and receipt rows) and dispatched like a submitted one |
| DevelopmentApi.DevCreateActor | src/main/kotlin/app/opia/routes/DevelopmentApi.kt:48-52 | refused iff the handle is taken or a text is too long (nothing changes); otherwise exactly one actor named after its handle with the fixed password is appended |
| ActorsApi.CheckBounds | src/main/kotlin/app/opia/routes/ActorsApi.kt:137-143 | none iff all three bounds hold; otherwise the first failing field, in route order, with a size error |
| ActorsApi.SignupBounds | src/main/kotlin/app/opia/routes/ActorsApi.kt:134-143 | passing means the trimmed handle and name and the sanitised secret are within bounds |
| ActorsApi.HandleBoundExceedsColumn | src/main/kotlin/app/opia/routes/ActorsApi.kt:137 | a handle of 19 or 20 passes the route's bound but overflows the 18-character column |
| ActorsApi.HandleBoundAdmitsNineteen | src/main/kotlin/app/opia/routes/ActorsApi.kt:137 | such a request exists |
| ActorsApi.ResponsePieces | src/main/kotlin/app/opia/routes/ActorsApi.kt:150 | no piece contains ';' or ',', and every value yields a piece |
| ActorsApi.ParsePieceIff | src/main/kotlin/app/opia/routes/ActorsApi.kt:151-155 | a piece parses to (id, code) exactly when it is `id=code` with no other '=' |
| ActorsApi.CheckPiece | src/main/kotlin/app/opia/routes/ActorsApi.kt:151-177 | each refusal in route order (schema, unparsable id thrown, unknown, other installation, owned, wrong code); accepted iff parsed, found, same installation, unowned, and valid or the code matches |
| ActorsApi.AcceptPiece | src/main/kotlin/app/opia/routes/ActorsApi.kt:151-182 | one piece: its step of the loop; a refused piece changes nothing; an accepted one is returned validated and exactly its row was validated |
| ActorsApi.AcceptAll | src/main/kotlin/app/opia/routes/ActorsApi.kt:150-183 | the loop returns and leaves exactly what the piece-by-piece run prescribes (see AcceptRunYields, AcceptRunFails) |
| ActorsApi.AcceptStepEffect | src/main/kotlin/app/opia/routes/ActorsApi.kt:156-182 | one step on a consistent table: a refusal keeps the table; an acceptance validates exactly that row; consistency is kept |
| ActorsApi.AcceptRunKeeps | src/main/kotlin/app/opia/routes/ActorsApi.kt:150-183 | the loop keeps the table consistent and only validates rows, whatever the pieces |
| ActorsApi.AcceptRunFails | src/main/kotlin/app/opia/routes/ActorsApi.kt:150-183 | the loop stops only with a Challenge-Response error or a thrown exception |
| ActorsApi.AcceptRunYields | src/main/kotlin/app/opia/routes/ActorsApi.kt:150-183 | success: one accepted property per piece, in order, each in the table, and exactly their rows were validated |
| ActorsApi.AcceptedAfterValidation | src/main/kotlin/app/opia/routes/ActorsApi.kt:162-172 | validating rows never turns an accepted piece into a refused one |
| ActorsApi.AcceptRunAccepts | src/main/kotlin/app/opia/routes/ActorsApi.kt:150-183 | if every piece is acceptable on the initial table, the loop succeeds |
| ActorsApi.OwnAll | src/main/kotlin/app/opia/routes/ActorsApi.kt:192-200 | the loop returns and leaves exactly what the property-by-property run prescribes (see OwnRunYields, OwnRunFails) |
| ActorsApi.OwnStepEffect | src/main/kotlin/app/opia/routes/ActorsApi.kt:195-199 | one step: owns exactly that row and yields it owned and primary, or throws the index violation, keeps the table, and owning any id set containing it breaks the content index |
| ActorsApi.OwnRunKeeps | src/main/kotlin/app/opia/routes/ActorsApi.kt:192-200 | the loop keeps the table consistent and only owns rows |
| ActorsApi.OwnRunYields | src/main/kotlin/app/opia/routes/ActorsApi.kt:192-200 | success: each property in order, owned and primary, and exactly their rows owned |
| ActorsApi.OwnRunFails | src/main/kotlin/app/opia/routes/ActorsApi.kt:192-200 | failure is the index violation, and then owning all the rows breaks the content index |
| ActorsApi.Preflight | src/main/kotlin/app/opia/routes/ActorsApi.kt:131-147 | header, bounds, then Challenge-Response presence, in that order; success yields the installation and all pieces |
| ActorsApi.Admit | src/main/kotlin/app/opia/routes/ActorsApi.kt:150-203 | returns and leaves exactly what the admission outcome prescribes (see AdmitEffect) |
| ActorsApi.Enroll | src/main/kotlin/app/opia/routes/ActorsApi.kt:184-203 | returns and leaves exactly what the enrolment outcome prescribes (see EnrollEffect) |
| ActorsApi.EnrollEffect | src/main/kotlin/app/opia/routes/ActorsApi.kt:184-203 | created iff a phone number is among the properties, the actor insert succeeds and owning them keeps the content index; created: actor and secret record appended, exactly those rows owned, one owned primary property per accepted one |
| ActorsApi.EnrollYields | src/main/kotlin/app/opia/routes/ActorsApi.kt:184-203 | created: the returned properties have the accepted ids, include a phone number and are rows of the new table |
| ActorsApi.AdmitEffect | src/main/kotlin/app/opia/routes/ActorsApi.kt:150-203 | created: the actor and its secret record appended, the returned properties valid, owned, primary, one per piece, and the table differs only in their rows |
| ActorsApi.SignupEffect | src/main/kotlin/app/opia/routes/ActorsApi.kt:130-204 | created: the preflight passed and the admission of the trimmed handle and name and the sanitised secret succeeded |
| ActorsApi.Signup | src/main/kotlin/app/opia/routes/ActorsApi.kt:130-204 | returns and leaves what the signup outcome prescribes; preflight errors change nothing; a created account has the trimmed and sanitised fields, its secret recorded, a phone number, one valid owned primary property per piece, and the property table differs only in those rows |
| ActorsApi.InferType | src/main/kotlin/app/opia/routes/ActorsApi.kt:277-278 | the requested type, else Email iff the content has an '@' |
| ActorsApi.PostProperty | src/main/kotlin/app/opia/routes/ActorsApi.kt:273-292 | Conflict iff signup scope and the trimmed content is already primary; created iff it fits; the new property is fresh, unowned, invalid, with a six-digit code |
| ActorsApi.LinkActor | src/main/kotlin/app/opia/routes/ActorsApi.kt:245 | the named actor, else the caller |
| ActorsApi.PostLinkAsWritten | src/main/kotlin/app/opia/routes/ActorsApi.kt:237-248 | as written, the route always throws and stores nothing |
| ActorsApi.PostLink | src/main/kotlin/app/opia/routes/ActorsApi.kt:237-248 | refused iff the linking actor, the peer or the caller is not an actor or the pair is linked, changing nothing; otherwise an Invited link created by the caller, and exactly that row is appended |
| ActorsApi.GetActor | src/main/kotlin/app/opia/routes/ActorsApi.kt:210-214 | an unparsable path id throws; otherwise the actor with the id, or Reference on "id" iff unknown |
| ActorsApi.ActorReferrers | src/main/kotlin/app/opia/routes/ActorsApi.kt:217-224 | exactly the actors that some installation link, property, contact link, auth session, message or packet names through its foreign key to the actor table |
| ActorsApi.DeleteActor | src/main/kotlin/app/opia/routes/ActorsApi.kt:217-224 | an unparsable path id throws; 422 iff no actor had the id; throws iff a secret update or a row of the installation-link, property, contact-link, session, message or packet tables refers to it; 200: exactly that row removed; anything else changes nothing |
| ActorsApi.GetActorByHandle | src/main/kotlin/app/opia/routes/ActorsApi.kt:226-234 | Required without a handle; Reference iff no undeleted actor holds it; otherwise that actor |

## Left out

- Transactions and concurrency: every call runs alone and to completion. Coroutines, `ConcurrentHashMap` races and the interleaving of a registration with a concurrent send are not modelled. In this sequential model it is unobservable that registration happens before the backlog is read.
- Rollback: none is modelled, because the routes run their steps in separate transactions. A failed later step of signup leaves the earlier writes in place, as in the source.
- Access tokens: the claims are modelled and the JWT signature and expiry are not, because they are cryptography and the clock. Authentication of the real-time and links routes is assumed; the principal's `!!` never fails.
- Inputs: randomness (row ids, refresh tokens, verification codes), the clock and `UUID.fromString` are parameters.
- Request body decoding (`call.receive`) and the WebSocket frame codec: failing to deserialise is outside the model. Frames received on `/rt` are ignored.
- Logging, and the connection's `name`: only the connection counter's serial is modelled.
- Unicode: whitespace and lowercasing are the ASCII subsets of Kotlin's rules, so non-ASCII letters are left unchanged.
- Thin read routes: `GET actors`, `GET actors/links` and `GET actors/{id}/installations` are not modelled separately. Each returns one service function that is modelled (`all`, `ListByActor`, `ListLinks`) inside the success envelope.
- Service operations that no core route calls: `MessagesService.all`, `InstallationsService.all`/`allLinks` (kept as a plain function), `ActorPropertiesService.all`/`delete`, `AuthSessionsService.all`, `ActorsService.all`/`updateProfile`/`updateBanner`. The last two need the media tables, which are not part of this model.
- Receipt transitions (received, rejected, read): the core has no operation that changes a receipt.
- Foreign keys between services: a delete of an actor is refused when a secret update or a row of the installation-link, property, contact-link, session, message or packet tables refers to it, and an insert into the contact-link table checks its three actors. The references listed below are not checked.
- Installations.InstallationsService.LinkInstallation: `installation_links.actor_id` (InstallationsService.kt:44) is not checked, so a link for an unknown actor is modelled as inserted. Every core caller passes an actor it has just read.
- ActorProperties.ActorPropertiesService.Create and ActorsApi.PostProperty: `actor_properties.installation_id` (ActorPropertiesService.kt:21) is not checked. The property route passes the installation id of the request header without looking it up, so a property for an unknown installation is modelled as created, where the database would refuse it.
- ActorProperties.ActorPropertiesService.OwnAndPrimarizeProperty: `actor_properties.actor_id` (ActorPropertiesService.kt:20) is not checked; signup passes the actor it has just created.
- AuthSessions.AuthSessionsService.Create: `actor_id`, `installation_id`, `ioid` and `secret_update_id` (AuthSessionsService.kt:15-20) are not checked. In particular, when a client names its own installation link, the session insert for an unknown installation is modelled as succeeding rather than throwing.
- Messages.MessagesService.Add: the message's `from_id` and `rcpt_id` (MessagesService.kt:19-20), the packets' `from_ioid`, `rcpt_id` and `rcpt_ioid` (:31-33) and the receipts' `rcpt_ioid` (:43) are not checked, so an add naming an unknown actor or installation link is modelled as stored.
- Installations.InstallationsService.Delete: only the installation links' reference is checked; properties and auth sessions that name the installation (ActorPropertiesService.kt:21, AuthSessionsService.kt:16) do not make the modelled delete throw.
- ActorsApi.DeleteActor: posts, events and event memberships also refer to actors (PostsService.kt:23, EventsService.kt:17 and 39), but those tables are not part of this model, so they do not make the modelled delete throw.
- Installations.InstallationsService.DeleteLinks: every stamped row gets the same `now`. The source reads the clock once per row (line 117), so its stamps may differ by the clock's advance within one call.
- DevelopmentApi.DevSend: the test message's `sentAt` and the stored `now` are separate parameters, matching the source's two clock reads. Their order is not constrained.
- The shutdown URL of `Administration.kt`: it is server configuration.
- `ValidationException(field, ApiError)`: the signup, property and lookup routes throw this, but `api.kt` does not define that constructor. The model gives it its own reply, `Invalid(field, error)`, and does not decide how the error handler would render it.
- AuthSessionsApi.PostRefresh: the route's later check that the session's installation equals the header's is not a separate outcome. The lookup already matched on the installation, so that check can never fire.
- AuthSessionsApi.OpenSession: requires a refresh token of 88 characters, the length of 64 random bytes in base64. The model does not produce the token itself.

## Findings

| source | as written | input that shows it | evidently intended | confidence | as-written member | corrected member |
|---|---|---|---|---|---|---|
| src/main/kotlin/app/opia/services/ActorLinksService.kt:56-61 | `create` sets only `actor_id` and `peer_id`, but `created_by` (line 21) is a non-null reference with no default, so the insert always fails | any call, e.g. `create(a, b)` on an empty table | record the creating actor in `created_by` | not executed | ActorLinks.ActorLinksService.CreateAsWritten | ActorLinks.ActorLinksService.Create |
| src/main/kotlin/app/opia/routes/ActorsApi.kt:237-248 | POST `actors/links` calls that `create`, so every link request ends in a 500 | any authenticated link request | an Invited link from the named actor (or the caller), created by the caller | not executed | ActorsApi.PostLinkAsWritten | ActorsApi.PostLink |
