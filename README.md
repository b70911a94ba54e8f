# study_clock core in Dafny

study_clock is a Django application in which users time their study
activities and chat with each other. This project models four parts of it
and proves properties of each:

- **The private-chat consumer** (`consumers.py`). Each websocket connection
  works out a room key `chat_{user.id}_{peer id}`. It joins that group when
  the user is signed in, otherwise it closes. On disconnect it leaves the
  group. On receive it stores a `PrivateMessage` and fans the serialized
  record out to every channel in the room. `chat_message` writes the record
  to its own socket. The channel layer is modelled as a group registry
  (room -> set of channels) plus one outbox per channel.
- **The models** (`models.py`). `Activity.add_time` adds the same minutes to
  the four counters and saves the row. New activities start at zero.
  `__str__` prints `name - username`.
- **The handlers** (`views.py`). They cover:
  - creating, renaming, deleting and listing a user's activities, and adding
    timer minutes to one (`TimerUpdate`);
  - the message history between two users, ordered by timestamp;
  - e-mail confirmation by token, and changing the e-mail address.

  Each handler returns a `Response` with the status code and body the view
  builds. When the view raises and nothing catches it, the model returns
  status 500 with an `Uncaught` body.
- **The user manager** (`managers.py`). `create_user` checks its required
  fields in a fixed order. `create_superuser` fills in three flags with
  `setdefault` and checks two of them.

Where the source updates state in place, the model does the same. It uses
classes:
- `ChannelLayer`, `MessageStore`, `ActivityTable` and `UserTable` stand for
  the channel layer and the database tables;
- `ChatConsumer` and `Activity` are the objects whose fields the handlers
  assign.

Each state-changing method's contract ties the new state to a pure function
of the old state (`Join`, `Leave`, `Fanout`, `Bump`, `ReplaceRow`, `Select`,
`VerifyEmail`, `UpdateEmail`). The properties are proved as lemmas about
those functions.

Calls into code this model cannot see become function-valued parameters:
- `int()` on the posted time;
- `uuid.UUID()` on the token;
- `normalize_email`;
- password hashing;
- the serializer's address check.

The clock and `uuid4()` become plain parameters.

Two consequences of the code as written are proved:

- **Rooms are per direction.** The room key puts the connecting user's own
  id first (`consumers.py:14`) and is injective
  (`Consumers.RoomKeyInjective`). So user a chatting with b and user b
  chatting with a are in two different rooms. A message a sends never
  reaches b's live socket (`Consumers.CrossConnectedPeersMissLiveFrames`).
  b sees it only through the history endpoint, which gives both users the
  same messages in time order (`MessageViews.HistorySymmetric`; the model
  fixes one order for equal timestamps, where the database may list ties
  differently for the two requests).
- **Activity names can be duplicated.** Renaming does not check the new
  name (`ActivityViews.RenameCanDuplicateNames`). Creating checks the posted
  name but saves it trimmed, so " math" passes the check when "math" exists
  (`ActivityViews.CreateCanDuplicateNames`). Either way a user can end up
  with two activities of the same name, and `TimerUpdate` then adds time to
  the one with the largest key.

## Model

| member | source | states |
|---|---|---|
| Decimal.NatToString | study_clock/clock/consumers.py:14 | the f-string text of an id is a non-empty string of decimal digits |
| Decimal.DigitsValueOfNatToString | study_clock/clock/consumers.py:14 | the digits of an id's text read back as the id |
| Decimal.NatToStringInjective | study_clock/clock/consumers.py:14 | two ids print the same text if and only if they are equal |
| Messages.MessageStore.Create | study_clock/clock/consumers.py:31-35 | `objects.create` appends exactly one new message, whose id no stored message has, and keeps ids increasing |
| Channels.Join | study_clock/clock/consumers.py:17 | `group_add` adds the channel to that room and to no other; no group is left empty |
| Channels.Leave | study_clock/clock/consumers.py:24 | `group_discard` removes the channel from that room only and prunes a group it empties |
| Channels.LeaveUndoesJoin | study_clock/clock/consumers.py:17-24 | a connect followed by its disconnect restores the registry exactly |
| Channels.LeaveAbsentIsNoop | study_clock/clock/consumers.py:24 | discarding a channel that is not in the group changes nothing |
| Channels.JoinIdempotent | study_clock/clock/consumers.py:17 | adding a channel twice is the same as adding it once |
| Channels.JoinFreshChannel | study_clock/clock/consumers.py:17 | a fresh connection belongs to exactly the one room it joined |
| Channels.LeaveGroupsOf | study_clock/clock/consumers.py:24 | after discard the channel is in every room it was in except that one |
| Channels.Fanout | study_clock/clock/consumers.py:39-45 | `group_send` appends the frame once to every member's outbox and leaves every other outbox unchanged |
| Channels.ChannelLayer.GroupAdd | study_clock/clock/consumers.py:17 | the registry becomes `Join` of the old one; outboxes unchanged |
| Channels.ChannelLayer.GroupDiscard | study_clock/clock/consumers.py:24 | the registry becomes `Leave` of the old one; outboxes unchanged |
| Channels.ChannelLayer.GroupSend | study_clock/clock/consumers.py:39-45 | outboxes become `Fanout` to the room's current members; registry unchanged |
| Channels.ChannelLayer.Send | study_clock/clock/consumers.py:49 | exactly the sending channel's outbox gains the frame |
| Consumers.IdText | study_clock/clock/consumers.py:14 | `user.id` prints as digits for a signed-in user and as `None` for the anonymous one |
| Consumers.RoomKeyInjective | study_clock/clock/consumers.py:14 | two room keys are equal if and only if the user and the peer id are both equal |
| Consumers.RoomKeyOrderDependent | study_clock/clock/consumers.py:14 | for a != b, the key a builds for b differs from the key b builds for a |
| Consumers.ConnectStep | study_clock/clock/consumers.py:16-20 | a signed-in user joins only its room and is accepted; an anonymous one is closed with the registry untouched |
| Consumers.AsWrittenConnectRejectsAuthenticated | study_clock/clock/consumers.py:17 | for a signed-in user the as-written connect closes, while the intended one accepts and joins the room |
| Consumers.CrossConnectedPeersMissLiveFrames | study_clock/clock/consumers.py:14-45 | after a connects to b and b to a, a frame sent to a's room leaves b's outbox unchanged |
| Consumers.ChatConsumer.Connect | study_clock/clock/consumers.py:11-20 | stores the user, peer id and room key; registry and lifecycle follow `ConnectStep`; outboxes unchanged |
| Consumers.ChatConsumer.Disconnect | study_clock/clock/consumers.py:22-24 | a signed-in user's channel leaves its room, otherwise the registry is unchanged; the connection is closed, so no later frame is received |
| Consumers.ChatConsumer.Receive | study_clock/clock/consumers.py:26-45 | on an accepted connection, with a signed-in user and non-empty content, one message is stored and fanned out to the room's members; otherwise store and outboxes are unchanged |
| Consumers.ChatConsumer.ChatMessage | study_clock/clock/consumers.py:47-49 | only this connection's outbox gains the event's record |
| Models.BumpKeepsDifferences | study_clock/clock/models.py:48-51 | add_time adds the same amount to all four counters, so their pairwise differences are kept |
| Models.BumpComposes | study_clock/clock/models.py:46-52 | adding a then b minutes equals adding a + b |
| Models.BumpKeepsNonNegative | study_clock/clock/models.py:33-36 | non-negative counters stay non-negative under a non-negative addition |
| Models.NegativeMinutesGoBelowZero | study_clock/clock/models.py:46-51 | a negative amount takes fresh counters below zero; add_time itself does not refuse it |
| Models.ActivityTextDeterminesOwner | study_clock/clock/models.py:43-44 | for a given activity name, `__str__` equal if and only if the usernames are equal |
| Models.ReplaceRow | study_clock/clock/models.py:52 | after saving, the table holds exactly the rows with other keys plus the saved row (if its key was present); every key stays in place, so key order is kept |
| Models.ActivityTable.Insert | study_clock/clock/models.py:30-36 | a new row gets a fresh key, the owner and name, and all four counters at zero |
| Models.ActivityTable.Update | study_clock/clock/models.py:33-36 | the database refuses a row with a negative counter and keeps the table; otherwise rows become `ReplaceRow` of the old rows; every stored row keeps non-negative counters |
| Models.ActivityTable.Delete | study_clock/clock/views.py:491 | exactly the row with that key is removed |
| Models.Activity.Save | study_clock/clock/models.py:52 | the table row of this activity becomes its current field values, unless a counter is negative, in which case the save fails and the table is unchanged |
| Models.Activity.AddTime | study_clock/clock/models.py:46-53 | the counters become `Bump` of the old counters by the minutes; name and owner are unchanged; the row is saved, or, when a counter went below zero, the save fails and the table is unchanged |
| Models.UserTable.Save | study_clock/clock/views.py:289 | only the saved user's row changes |
| ActivityViews.Matching | study_clock/clock/views.py:445 | `filter(user=..., name=...)`: exactly the rows of that user with that name; in a key-ordered table the result is key-ordered (the order is a modelling choice, see Left out) |
| ActivityViews.Owned | study_clock/clock/views.py:500 | `filter(user=...)`: exactly the user's rows |
| ActivityViews.LastMatchHasLargestPk | study_clock/clock/views.py:532 | `last()` of the unordered match is the match with the largest key |
| Text.TrimStart | study_clock/clock/serializers.py:75-78 | the result is a suffix of the text, starts with no whitespace, and everything removed is whitespace |
| Text.TrimEnd | study_clock/clock/serializers.py:75-78 | the result is a prefix of the text, ends with no whitespace, and everything removed is whitespace |
| Text.Trim | study_clock/clock/serializers.py:75-78 | the serializer's `name` has no leading or trailing whitespace and is no longer than the posted text |
| Text.TrimLeavesUnpadded | study_clock/clock/serializers.py:75-78 | trimming changes a text if and only if it starts or ends with whitespace |
| Text.TrimIdempotent | study_clock/clock/serializers.py:51-54 | trimming an already trimmed text changes nothing |
| ActivityViews.CreateKeepsNamesUnique | study_clock/clock/views.py:445-451 | adding a row whose owner has no activity of that name keeps (owner, name) unique |
| ActivityViews.CreateCanDuplicateNames | study_clock/clock/views.py:443-451 | as written, a user who has "math" and posts " math" passes the existence check and gets a second "math" |
| ActivityViews.RenameCanDuplicateNames | study_clock/clock/views.py:467-471 | renaming has no such check: a user can end up with two activities of one name |
| ActivityViews.RenameChangesOnlyName | study_clock/clock/views.py:468-471 | renaming keeps the row's key, owner and counters and every other row |
| ActivityViews.CreateActivity | study_clock/clock/views.py:440-454 | a match on the posted name gives 400 and no change; a trimmed name the field refuses (blank, over 50 characters, NUL) gives 400 and no change; otherwise one row with the trimmed name and zero counters is added and 200 returns that name |
| ActivityViews.CreateActivityChecked | study_clock/clock/views.py:440-454 | as CreateActivity but checking the trimmed name; it keeps every user's activity names unique |
| ActivityViews.UpdateActivity | study_clock/clock/views.py:464-473 | with exactly one match the row is renamed and 200 returned; with none or several, `get` raises (500) and nothing changes |
| ActivityViews.DeleteActivity | study_clock/clock/views.py:483-492 | no match gives 400 and no change; otherwise exactly the matching rows are removed and 200 returned |
| ActivityViews.GetActivitiesList | study_clock/clock/views.py:498-511 | 200, with one entry per row of the user, in table order (a modelling choice, see Left out), carrying name, username and the four counters |
| ActivityViews.TimerUpdate | study_clock/clock/views.py:517-535 | a cast failure gives 400 before any lookup; no match gives 400; otherwise the match with the largest key gets the minutes added and nothing else changes, except that when a counter would go below zero the save raises (500) and nothing is stored |
| MessageViews.Between | study_clock/clock/views.py:398-400 | keeps exactly the messages from me to peer or from peer to me, with their multiplicities |
| MessageViews.SortByTime | study_clock/clock/views.py:401 | `order_by('timestamp')`: the result is a permutation of the input and is ordered by timestamp |
| MessageViews.History | study_clock/clock/views.py:398-401 | ordered by timestamp, and a permutation of the conversation's messages |
| MessageViews.MessageHistory | study_clock/clock/views.py:397-403 | 200, ordered by timestamp; a record is listed if and only if it is stored and passes between the two users |
| MessageViews.BetweenSymmetric | study_clock/clock/views.py:398-400 | the filter is the same whichever of the two users asks |
| MessageViews.HistorySymmetric | study_clock/clock/views.py:398-401 | both participants see the same history |
| MessageViews.StoredMessageInHistory | study_clock/clock/views.py:398-401 | a stored message appears in the history of both its sender and its receiver |
| AccountViews.VerifyEmail | study_clock/clock/views.py:276-292 | 200 if and only if the token is present, parses and is held by exactly one user; that user is confirmed and loses the token; any other outcome changes nothing |
| AccountViews.VerifyEmailRejections | study_clock/clock/views.py:277-292 | missing token: 400 "Token is required."; unparseable: 400 "Invalid token"; no holder: 400 "Invalid or expired token"; several holders: 500 |
| AccountViews.VerifyTwiceFails | study_clock/clock/views.py:286-292 | a token that confirmed once is refused the second time |
| AccountViews.UpdateEmail | study_clock/clock/views.py:326-336 | the posted address is trimmed first; 200 if and only if the trimmed address is not blank, at most 254 characters, valid and stored for no user; the requester then has that address, a fresh token and is unconfirmed, with every other field kept; other users are untouched; a refusal is 400 with no change |
| AccountViews.UpdateThenVerify | study_clock/clock/views.py:326-336 | the token issued by an address change confirms the new address |
| AccountViews.HandleVerifyEmail | study_clock/clock/views.py:276-292 | response and new user table are those of `VerifyEmail` on the old table |
| AccountViews.UpdateEmailIgnoresPadding | study_clock/clock/serializers.py:51-59 | a padded address is accepted, refused and stored exactly as its trimmed form |
| AccountViews.HandleUpdateEmail | study_clock/clock/views.py:326-336 | response and new user table are those of `UpdateEmail` on the old table |
| Managers.CreateUser | study_clock/clock/managers.py:8-34 | passes its checks if and only if e-mail, date of birth, country and username are all given; the user carries them, the normalized e-mail, the password hash and the extra fields |
| Managers.CreateUserReportsFirstMissing | study_clock/clock/managers.py:10-21 | the error raised is the message of the first absent field, in the order e-mail, date of birth, country, username |
| Managers.WithSuperuserDefaults | study_clock/clock/managers.py:38-40 | a flag the caller gave is kept; a missing flag becomes True |
| Managers.CreateSuperuser | study_clock/clock/managers.py:36-49 | is_staff other than True is refused first, then is_superuser other than True; only then the field checks of create_user run, on the defaulted flags |
| Managers.SuperuserPremiumFlag | study_clock/clock/managers.py:38-40 | a created superuser is premium unless the caller passed is_premium, whose value (False included) is kept |

## Left out

- The websocket transport, the async scheduling of handlers and the JSON
  encoding are not modelled. Each handler is one atomic step. A frame
  carries the serialized record itself.
- The library calls are parameters: `int()`, `uuid.UUID()`,
  `normalize_email`, `set_password`'s hash and the e-mail field's syntax
  check. Their own behaviour is not modelled.
- The clock (`timestamp` auto_now_add) and `uuid4()` are parameters. The
  model does not guarantee that a drawn token is unique.
- `send_email_confirmation` is not modelled. It is mail I/O, and
  `utils.py` is not part of this model.
- The posted activity `name` is taken to be text. DRF would also accept a
  number and save its decimal text; that case is not modelled.
- Missing keys in `request.data` are not modelled. The create, rename,
  delete and timer-update handlers index it directly and would raise
  KeyError (500); the model takes the posted values as given.
- `receive` is modelled only for textual content. A truthy `content` of
  another JSON type (a number, a list) is not modelled.
- Foreign-key existence is not modelled. A message to a non-existent
  receiver id would fail on insert.
- Querysets without `order_by` (the activity filters; `Activity` declares no
  `Meta.ordering`) come back in the database's order. The model returns
  them in key order, which also makes `.last()` the match with the largest
  key, as Django's `order_by('-pk')` fallback does.
- AccountViews.VerifyEmail: `email_confirmation_token` is not declared in
  `models.py`. The model assumes a UUID field, so the lookup compares parsed
  UUID values; with a text field, another spelling of the same UUID would
  find no holder.
- ActivityViews.TimerUpdate: the upper limit some databases put on an
  integer column (2147483647 on PostgreSQL) is not modelled; only the
  non-negative check every database keeps is.
- MessageViews.HistorySymmetric: `order_by('timestamp')` leaves messages
  with equal timestamps in an unspecified order; the model sorts ties one
  fixed way, so both users get the identical sequence, where the database
  promises the same messages, each list in time order.
- AccountViews.UpdateEmail: a refusal is reported as an error on the
  `email` field, without the serializer's message texts.
- Managers.CreateUser: the model constructor's refusal of unknown keyword
  arguments is not modelled; the extra fields are carried as given. The
  IntegrityError `save()` raises for a username or e-mail already in use
  (`unique=True`) is not modelled either.
- The e-mail confirmation fields are not declared in `models.py`. A new
  user is assumed unconfirmed and without a token, and a new message is
  assumed unread.
- `User.__str__` (it returns the username), the commented-out second
  consumer in `consumers.py`, `SendMessageView`, the avatar, login,
  registration, page and user-list views, and the admin are outside this
  model.

## Findings

| source | as written | input that shows it | evidently intended | confidence | as-written member | corrected member |
|---|---|---|---|---|---|---|
| study_clock/clock/consumers.py:17 | `connect` calls `group_add` on `self.channel_name`, a str, so it raises AttributeError before `accept()` | any signed-in user opening the chat socket | `self.channel_layer.group_add(self.chat_room, self.channel_name)`, then accept | high, not executed | Consumers.ConnectStepAsWritten (shown by Consumers.AsWrittenConnectRejectsAuthenticated) | Consumers.ChatConsumer.Connect |
| study_clock/clock/views.py:443-451 | the existence check filters on the posted `name`, but the serializer saves the trimmed name | user 7 has "math" and posts " math" | check for an existing activity with the cleaned name | medium, not executed | ActivityViews.CreateActivity (shown by ActivityViews.CreateCanDuplicateNames) | ActivityViews.CreateActivityChecked |
