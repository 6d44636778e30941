# Lockstep game servers: a verified model

This project models the concurrent core of a two-player lockstep game: the game server's rooms and
registries, the lobby's matchmaking, the gateway's framing and session table, and the login server's
version ordering. `dafny verify dfyconfig.toml` checks all of it.

How it is laid out:

- `Types`: fixed-width integers and the option type.
- `RoomModel`, `SnapshotJson`: one room as a value, and what a whole run of its locked sections
  broadcasts. The main result is that the frame log is a function of the event trace.
- `SnapshotReader`: a reader of the player list text, written apart from the printer, that finds each value
  by its member's name.
- `RoomIds`: the wrapping room-id counter, with its increment and its reset as separate steps.
- `GameModel`, `GameRuns`: the game server at request granularity. One request, one disconnect
  clean-up, one room's turn in the loop, one snapshot or one `CreateRoom` call is one step. An invariant
  holds in every reachable state, and everything said about whole runs follows from it.
- `Replies`: what each answer of the game server tells its caller.
- `GameServer`: the classes `Room` and `RoomManager`, updated in place, every method proved equal to the
  corresponding step of `RoomModel` and `GameModel`.
- `LockAtomic`: the game server at lock granularity. Each mutex section, and each unlocked read or
  write, is one step; any number of handlers and the loop run interleaved.
- `Granularity`: every run of the request-atomic model is an interleaving of the lock-granular one.
- `Executions`: in every interleaving each room object runs through its own sections, so the frame log
  and the members' agreement hold there too; and what the loop can still send for a removed room.
- `Verdicts`, `Mappings`: the guarantees that hold request by request and can fail under interleaving (a
  room's life, and every mapped player being in their room), with exactly the schedules that break them.
- `Races`: for each of those schedules a run from the initial state that follows it.
- `LockOrder`: every code path's lock operations, their one strict order, and deadlock freedom.
- `Lobby`, `Seating`: the matchmaking queue as a single waiting slot, and the guarantee across both
  servers that the position a player is told is the seat the game server reports.
- `Framing`: the packet header and the length-prefixed frames, printed into byte buffers and parsed from
  a reader that delivers the stream in arbitrary pieces.
- `Sessions`, `CloseOnce`: the gateway's session table with its address index, what a session writes when
  it sends, and the race of many callers to close one session.
- `Version`: the version comparison loop against the order it implements, and the number that each piece of a
  version stands for.

Some results say exactly when the code meets a guarantee, because it does not always:

- A third player repeats a seat number (`AddPlayerSeats`), and a pair may be seated otherwise than told if
  its room id is still in use (`SeatedAsToldExactly`).
- A frame survives the round trip exactly up to 65531 payload bytes (`FrameRoundTripExact`).
- Removing a session loses the index entry of another one exactly when the two share an address
  (`FindableThroughout`), and then that live session is no longer found (`SharedAddressLosesSession`).
- A nickname with a double quote makes two different player lists print alike (`QuoteForgesAPlayer`).
- A version piece with a character that is no digit counts as 0, unless the digits before it exceed 64 bits
  (`SpoiledPiece`).
- A stream stays registered exactly until its player opens or closes one (`StaysRegisteredExactly`), so a
  clean-up also unregisters a newer stream of the same player (`CleanUpDropsNewerStream`).
- With overlapping calls two draws can return one room id, exactly if a reset comes between them and they
  are equally far from their last resets (`SameIdExactly`).
- With interleaved sections a start can follow the verdict, a room can announce two verdicts, and a player
  can be mapped to a room that is gone; `StartAfterVerdictExactly`, `SecondVerdictExactly` and
  `MappingsSoundExactly` say exactly when, and `WholeLifeExactly` that nothing else can go wrong with a
  room's life.

The code and its documentation disagree in one place that matters here: game_server/game_server.md:51
says the broadcast inputs are the 6 raw bytes. The code broadcasts the 2 action bytes
(game_server/src/room.cpp:92), and so does the model.

Assumptions: an unsynchronised read or write of a shared field (`HasPlayer`, `IsFull`, `GetState`, setting
`ready`) is one atomic step; a write to a stream returns; a container's iteration order is arbitrary.

## Model

| member | source | states |
|---|---|---|
| RoomModel.FrameLogIsTraceFunction | game_server/src/room.cpp:58-146 | in any game, for any number of players and ticks, the tick at any position of the event trace broadcasts the frame numbered by the ticks before it (modulo 2^32), with the size of the room and, seat by seat, exactly the fifth and sixth byte of the first not outdated input since the previous tick (zeros for a shorter one), and nothing for a seat without one; so it holds the two action bytes `[j, b]` of a client whose first input was a frame number followed by them |
| RoomModel.ClientInputStored | game_server/src/room.cpp:58-103 | a frame number in network order followed by two bytes `[j, b]`, if it is in time and the sender's seat is empty, leaves exactly `[j, b]` at that seat and changes nothing else |
| RoomModel.ClientInputReads | game_server/src/room.cpp:79-92 | the number read back from such an input is the one put in, and what a frame carries of it is `[j, b]` |
| Types.BigEndian32IsPositional | game_server/src/room.cpp:79-82 | the four bytes of a frame number are read most significant byte first |
| RoomModel.TwoSeatOffers | game_server/src/room.cpp:51-99 | in a two-player room the inputs that count for seat 1 are the first player's and those for seat 2 the second player's, and no other seat is ever filled |
| RoomModel.CurrentFrame | game_server/src/room.cpp:58-122 | at every point of a game the frame being gathered holds exactly the first offers since the last tick |
| RoomModel.GameCounts | game_server/src/room.cpp:105-122 | during a game the frame number counts the ticks modulo 2^32 and one broadcast is made per tick |
| RoomModel.DroppedInputs | game_server/src/room.cpp:58-103 | an input changes nothing if and only if the room is not gaming, the player unknown, the input short or outdated, or the seat already filled in this frame; it never broadcasts |
| RoomModel.StartGameIsAtStart | game_server/src/room.cpp:133-146 | a start announces the room and leaves it gaming at frame 0 with nothing gathered |
| RoomModel.ApplyKeepsWellFormed | game_server/src/room.cpp:9-163 | every section keeps the uid list duplicate-free and equal to the table's keys, the seats in join order, everything ever broadcast, and each member's data but for the ready flag |
| RoomModel.RunKeeps | game_server/src/room.cpp:9-163 | over any run members keep their seats and join order, and broadcasts only grow |
| RoomModel.ReadyFlags | game_server/src/room.cpp:124-153 | over any run a player is ready if and only if they asked for it, once in the room, since the last game ended |
| RoomModel.AddPlayerSeats | game_server/src/room.cpp:9-18 | joining keeps the seats distinct if and only if the player was in already or fewer than two were |
| RoomModel.RemovePlayerSeats | game_server/src/room.cpp:20-56 | leaving keeps tables and seats, touches nobody else, and the next to join a half-empty room gets the seat that was given up |
| SnapshotJson.SnapshotLosesNothing | game_server/src/room.cpp:165-177 | over nicknames without double quotes, two player lists print alike if and only if they are the same list, in the same order |
| SnapshotJson.QuoteForgesAPlayer | game_server/src/room.cpp:172 | any two players print like one whose nickname holds the text between theirs |
| SnapshotJson.NicknameLiteralValid | game_server/src/room.cpp:172 | without backslashes, a printed nickname is a string of section 7 of RFC 8259 if and only if it has no double quote and no control character |
| SnapshotReader.SnapshotReadsBack | game_server/src/room.cpp:165-177 | over nicknames free of quotes, backslashes and control characters, a reader that takes an array of objects apart and looks up the members `uid`, `nickname` and `character_id` gets back exactly the list that was printed, in order |
| SnapshotReader.EntryReadsBack | game_server/src/room.cpp:172 | one printed element reads as one object with those three members and leaves what follows it |
| SnapshotReader.DecimalReadsBack | game_server/src/room.cpp:172 | every printed integer reads back as itself |
| RoomIds.CounterBounded | game_server/src/game_service.cpp:13-17 | in every interleaving of draws and resets the counter stays between 1000 and 1000000001 plus the resets owed, and so do the ids drawn, as long as at most 1147483646 are owed |
| RoomIds.OneMoreWraps | game_server/src/game_service.cpp:13 | that bound is tight: overlapping draws alone lead from the start to a state owing 1147483646 resets, whose next increment wraps to a negative number |
| RoomIds.DrawsBetweenResets | game_server/src/game_service.cpp:13-17 | without a reset in between, concurrent draws are consecutive |
| RoomIds.CounterClosedForm | game_server/src/game_service.cpp:13-17 | in every interleaving the counter is 1000, or where it began if it was never reset, plus the draws since the last reset |
| RoomIds.DrawnInOrder | game_server/src/game_service.cpp:13 | the ids handed out are the counter's values at the draws, in order |
| RoomIds.SameIdExactly | game_server/src/game_service.cpp:13-17 | in every interleaving two draws return the same id if and only if a reset takes effect between them and equally many draws stand between each of them and its last reset |
| RoomIds.OverlappingResetsRepeatAnId | game_server/src/game_service.cpp:13-17 | from the start, two late resets around a draw hand out one id twice in a row |
| RoomIds.WholeCallIsDrawThenReset | game_server/src/game_service.cpp:13-17 | an uninterrupted call is its draw followed by the reset it owes |
| RoomIds.IdsRepeatWithPeriod | game_server/src/game_service.cpp:6-17 | two uninterrupted calls draw the same id if and only if they are a multiple of 999999002 calls apart, so any 999999002 consecutive ids are distinct |
| GameModel.StepKeepsInv | game_server/src/room_manager.cpp:13-127 | every request-atomic step keeps: the tables refer to existing rooms under their own ids, rooms are well formed, every mapped player is in the live room it is mapped to, every session is an open stream of its player, and every room is at a legal point of its life |
| GameModel.StopKeepsInv | game_server/src/room_manager.cpp:67-80 | stopping and destroying a live room leaves nobody mapped to it and the room dead for good |
| GameModel.MappedRoomHasPlayers | game_server/src/room_manager.cpp:110-117 | a mapped player's lookup finds a room in the table that lists the player |
| GameModel.AddAllFrame | game_server/src/game_service.cpp:21-28 | adding a player list only appends to the members and never touches a member, the phase, the frame or the broadcasts |
| GameModel.EachRoomOnce | game_server/src/room_manager.cpp:13-31 | a loop iteration gives every room of its snapshot exactly one turn and touches no other room |
| GameRuns.RunProjects | game_server/src/room_manager.cpp:13-31 | seen from one room object, every run of the whole server is a run of that room's own events |
| GameRuns.RealFrameLog | game_server/src/room.cpp:58-146 | whatever else the server does, the frames a started room really broadcasts are those of its own event trace, each seat holding the two action bytes its client sent |
| GameRuns.WholeLife | game_server/src/room.cpp:124-163 | in every reachable state a room's broadcasts are none, or a start and the frames 0, 1, 2 and so on, then at most one verdict; only a room out of the table has its verdict, and it is idle and not ready |
| GameRuns.DestroyedRoomIsSilent | game_server/src/room_manager.cpp:13-31 | a room out of the table never changes or broadcasts again in any run, even if the loop still holds it, and never comes back |
| GameRuns.StopClearsReady | game_server/src/room.cpp:148-153 | after a stop nobody is ready and nobody is missing |
| GameRuns.InputBranchesUnreachable | game_server/src/game_service.cpp:107-115 | from a stream an input's sender is in the room found for it and the payload is long enough, so it is dropped only when not gaming, outdated or late for its seat |
| GameRuns.OtherMemberIsFirst | game_server/src/game_service.cpp:149-155 | the winner search finds a member other than the leaver if there is one |
| GameRuns.WinnerIsAMember | game_server/src/game_service.cpp:148-155 | in a game there is always one, in a two-player room the other player |
| GameRuns.DisconnectVerdict | game_server/src/game_service.cpp:145-163 | a leaver in mid-game makes its room announce a remaining member as winner; then the room is out of the table and none of its members is mapped |
| GameRuns.QuietDisconnect | game_server/src/game_service.cpp:145-163 | a leaver whose room is not gaming changes no room, sends nothing and leaves the room in the table |
| GameRuns.MemberReceivesBroadcasts | game_server/src/room_manager.cpp:92-100 | a member registered throughout a span is sent exactly what the room broadcasts in it, in order and once |
| GameRuns.LockstepAgreement | game_server/src/room_manager.cpp:82-100 | two members registered throughout a span are sent identical sequences, and successive frames in them have successive numbers |
| GameRuns.FramesConsecutive | game_server/src/room.cpp:105-122 | in every reachable state successive frames of a room have successive numbers |
| GameRuns.FinishedStreamIsSilent | game_server/src/game_service.cpp:143-164 | nothing is ever written to a stream whose handler has finished |
| GameRuns.StaysRegisteredExactly | game_server/src/game_service.cpp:49-163 | in every run a registered stream is still its player's session at the end if and only if no event in between opens or closes a stream of that player |
| GameRuns.CleanUpDropsNewerStream | game_server/src/game_service.cpp:162-163 | a run in which closing an older stream leaves its player unregistered while a newer stream of theirs is open |
| Replies.SnapshotTells | game_server/src/room.cpp:165-177 | read member by member, a room's snapshot text lists its members in join order, each with their own uid, nickname and character |
| Replies.EnterAnswer | game_server/src/game_service.cpp:66-90 | entering is answered with error 0 if and only if the room is in the table and lists the player, and then with the room, seat 1 exactly for the first to have joined, and a text that reads back to the members; otherwise with error -3001, and nothing changes |
| Replies.ReadyAnswer | game_server/src/game_service.cpp:91-106 | the answer carries error 0 if and only if the room lists the player, whose flag is then the one thing that changes, and error -3001 otherwise |
| Replies.InputsUnanswered | game_server/src/game_service.cpp:59-134 | an input writes nothing to anybody, and a request that is not understood changes nothing |
| Replies.GameOverAnswer | game_server/src/game_service.cpp:116-133 | the answer carries error 0 if and only if the caller is mapped to a room of the table, which has then announced the winner the caller named, to its members only, and has left the table; otherwise error -3001, and nothing changes |
| Replies.CreateRoomAnswer | game_server/src/game_service.cpp:10-40 | the answer carries error 0 and the id drawn if and only if the text parses and every element converts, and error -1 without an id otherwise; either way the room is in the table and has gained exactly the players named before the first bad element, each as first named |
| GameServer.Room.constructor | game_server/src/room.cpp:5-7 | a new room is idle, empty and at frame 0 |
| GameServer.Room.AssignGameId | game_server/src/room.cpp:51-56 | the seat the next player gets |
| GameServer.Room.AddPlayer | game_server/src/room.cpp:9-18 | the object's new state is the model's join, and stays well formed |
| GameServer.Room.RemovePlayer | game_server/src/room.cpp:20-29 | the search and erase loop removes the player and its first place in the list |
| GameServer.Room.MarkReady | game_server/src/game_service.cpp:97 | sets that player's flag and nothing else |
| GameServer.Room.PushInput | game_server/src/room.cpp:58-103 | the object's new state is the model's input step in every branch; `RoomModel.ClientInputStored` says what that step stores |
| GameServer.Room.Broadcast | game_server/src/room.cpp:179-182 | one write per member with a session, in join order |
| GameServer.Room.Tick | game_server/src/room.cpp:105-122 | the object and the streams change as the model's tick says |
| GameServer.Room.CheckAllReady | game_server/src/room.cpp:124-131 | true if and only if there are two members and every member is ready |
| GameServer.Room.StartGame | game_server/src/room.cpp:133-146 | the object and the streams change as the model's start says |
| GameServer.Room.ClearReady | game_server/src/room.cpp:151-153 | the loop clears every flag and changes nothing else |
| GameServer.Room.StopGame | game_server/src/room.cpp:148-163 | the object and the streams change as the model's stop says |
| GameServer.Room.BuildSnapshotJson | game_server/src/room.cpp:165-177 | the string loop prints the members in join order, as the text of SnapshotJson, which reads back to them by `Replies.SnapshotTells` |
| GameServer.RoomManager.constructor | game_server/src/room_manager.h:38-50 | the empty registries satisfy the invariant |
| GameServer.RoomManager.GetOrCreateRoom | game_server/src/room_manager.cpp:42-51 | returns the table's room or a fresh one now in the table, and changes no other room |
| GameServer.RoomManager.GetRoom | game_server/src/room_manager.cpp:53-60 | finds exactly the table's room |
| GameServer.RoomManager.RemoveRoom | game_server/src/room_manager.cpp:62-65 | the id leaves the table and nothing else changes |
| GameServer.RoomManager.DestroyRoom | game_server/src/room_manager.cpp:67-80 | unmaps every member and removes the room, or does nothing if it is gone |
| GameServer.RoomManager.UnmapAll | game_server/src/room_manager.cpp:72-75 | the loop unmaps exactly the listed players |
| GameServer.RoomManager.RegisterSession | game_server/src/room_manager.cpp:82-85 | the player's session is now this stream |
| GameServer.RoomManager.UnregisterSession | game_server/src/room_manager.cpp:87-90 | the player has no session |
| GameServer.RoomManager.SendToPlayers | game_server/src/room_manager.cpp:92-100 | the loop writes once to each listed player with a session, in order |
| GameServer.RoomManager.GetRoomByUid | game_server/src/room_manager.cpp:110-117 | finds the live room the player is mapped to, if any |
| GameServer.RoomManager.MapUidToRoom | game_server/src/room_manager.cpp:119-122 | that player's mapping is replaced |
| GameServer.RoomManager.UnmapUid | game_server/src/room_manager.cpp:124-127 | that player's mapping is gone |
| GameServer.RoomManager.CopyRooms | game_server/src/room_manager.cpp:14-20 | the copy holds every room of the table, each once |
| GameServer.RoomManager.TakeSnapshot | game_server/src/room_manager.cpp:14-20 | the loop now holds every room of the table once, in some order |
| GameServer.RoomManager.ProcessRoom | game_server/src/room_manager.cpp:22-31 | ticks a gaming room, starts an idle one that is full and ready, and leaves any other alone |
| GameServer.RoomManager.ProcessNext | game_server/src/room_manager.cpp:22-31 | one room's turn is the model's, and keeps the invariant |
| GameServer.RoomManager.RunIteration | game_server/src/room_manager.cpp:13-31 | an uninterrupted iteration visits the whole snapshot |
| GameServer.RoomManager.DrawRoomId | game_server/src/game_service.cpp:13-17 | returns the counter and advances it around its circle |
| GameServer.RoomManager.FillRoom | game_server/src/game_service.cpp:21-32 | adds players up to the first element that does not convert, and tells whether there was one |
| GameServer.RoomManager.CreateRoom | game_server/src/game_service.cpp:10-40 | the new state and the response are the model's, bad text and bad elements included |
| GameServer.RoomManager.OpenStream | game_server/src/game_service.cpp:49-56 | the first read makes the stream its player's session |
| GameServer.RoomManager.Reply | game_server/src/game_service.h:16-25 | one write to the requester's own stream |
| GameServer.RoomManager.EnterRoom | game_server/src/game_service.cpp:66-90 | a member is told the snapshot and its seat and is mapped; anyone else gets the error and nothing changes |
| GameServer.RoomManager.PlayerReady | game_server/src/game_service.cpp:91-106 | a member becomes ready; anyone else gets the error and nothing changes |
| GameServer.RoomManager.FrameInput | game_server/src/game_service.cpp:107-115 | six bytes reach the sender's room; anything else is dropped |
| GameServer.RoomManager.GameOver | game_server/src/game_service.cpp:116-133 | stops and destroys the sender's room, or answers with the error |
| GameServer.RoomManager.ProcessRequest | game_server/src/game_service.cpp:59-134 | every request changes the server as the model's step, and keeps the invariant |
| GameServer.RoomManager.FirstOther | game_server/src/game_service.cpp:149-155 | the winner search loop |
| GameServer.RoomManager.LeaveGame | game_server/src/game_service.cpp:145-160 | the verdict of a leaver in mid-game |
| GameServer.RoomManager.CloseStream | game_server/src/game_service.cpp:143-164 | the whole clean-up is the model's step, and keeps the invariant |
| LockOrder.EveryPathIsOrdered | game_server/src/room_manager.cpp:92-117 | every code path of both servers, the lobby's database sections included, down every branch and for any number of rooms, players and streams, takes its locks in one strict order and gives them all back |
| LockOrder.SomeoneCanStep | game_server/src/room.cpp:105-122 | a blocked thread leads, by locks of rising rank, to one that can step |
| LockOrder.DeadlockFree | lobby_server/src/lobby_service.cpp:83-101 | a state has unfinished work if and only if some thread can step; when none can, every lock is free |
| LockOrder.EveryRunIsSafe | game_server/src/game_service.h:16-25 | for any arrivals and any schedule: no deadlock, and steps taken plus work left equal the work that arrived, so finite work ends with every lock released |
| LockAtomic.StepKeepsSound | game_server/src/game_service.cpp:59-164 | in every interleaving room pointers stay valid and a dereferenced player is there |
| LockAtomic.NoRegisteredStreamOutlivesItsCall | game_server/src/game_service.cpp:49-164 | in every interleaving of any number of calls, several for one player included, each session belongs to a call of that player that has not finished unregistering |
| LockAtomic.FinishedCallIsSilent | game_server/src/room_manager.cpp:82-100 | so nothing is ever written to the stream of a finished call |
| LockAtomic.RealCounterBounded | game_server/src/game_service.cpp:13-17 | the counter bound holds of the interleaved server itself |
| Granularity.StepAlone | game_server/src/game_service.cpp:59-164 | every request-atomic step is a stretch of lock-granular sections run without interruption |
| Granularity.RequestRunsAreInterleavings | game_server/src/room_manager.cpp:8-127 | every run of the request-atomic model is an interleaving of the lock-granular one that ends in the same state with no request in progress |
| Executions.RunIsExecution | game_server/src/room_manager.cpp:8-127 | every interleaved run is an execution, with its states written out |
| Executions.StepIsRoomStep | game_server/src/room.cpp:9-163 | in every interleaving a section does to a room object exactly the room event it stands for, and nothing if it stands for none |
| Executions.RoomIsItsTrace | game_server/src/room.cpp:9-163 | in every interleaving each room object is the run of its own sections |
| Executions.InterleavedFrameLog | game_server/src/room.cpp:58-146 | so the frame log of a started room is the function of its trace in every interleaving too, down to the two action bytes each client sent |
| Executions.LogCountsCasts | game_server/src/room_manager.cpp:22-31 | a section adds a start or frame to the loop's log of a room if and only if the room broadcasts one |
| Executions.AtMostOneMore | game_server/src/room_manager.cpp:13-31 | in every interleaving, once a room is out of the table at most one more start or frame is broadcast for it, and none if the loop's snapshot does not hold it |
| Executions.InterleavedReceipt | game_server/src/room_manager.cpp:82-100 | in every interleaving a member registered throughout is sent exactly what the room broadcasts, in order and once |
| Executions.InterleavedAgreement | game_server/src/room_manager.cpp:82-100 | in every interleaving two such members are sent identical sequences, and successive frames in them have successive numbers |
| Executions.RegistrationExactly | game_server/src/room_manager.cpp:82-90 | in every interleaving a registered stream stays its player's session if and only if no section registers or unregisters a stream of that player |
| Executions.ServerRunsCounter | game_server/src/game_service.cpp:13-17 | the counter of the interleaved server is the counter of RoomIds, so its ids have that closed form |
| Verdicts.VerdictMeansStop | game_server/src/room.cpp:148-163 | in every interleaving a room has announced a verdict if and only if a call has stopped it |
| Verdicts.StartAfterVerdictExactly | game_server/src/room_manager.cpp:22-31 | in every interleaving a start follows a verdict if and only if a stop takes effect between the loop's ready check and the start, or every member is made ready again between a stop and the ready check that leads to the start |
| Verdicts.OrderlyNeverStartsLate | game_server/src/room_manager.cpp:22-31 | so no start follows a verdict if no stop takes effect between a ready check and its start and nobody is made ready in a stopped room |
| Verdicts.SecondVerdictExactly | game_server/src/game_service.cpp:116-160 | in every interleaving a room announces two verdicts if and only if two different calls stop it and the second found it before the first had finished destroying it |
| Verdicts.WholeLifeExactly | game_server/src/room.cpp:105-163 | in every interleaving a room's broadcasts are none, or a start and the frames 0, 1, 2 and so on, then at most one verdict, if and only if none of those three schedules occurs |
| Mappings.StepKeepsMappings | game_server/src/room_manager.cpp:62-80 | a section keeps every mapped player in the room of the table they are mapped to if and only if it neither maps a player to an id under which the table does not list them nor removes a room to which somebody is mapped |
| Mappings.MappingsSoundExactly | game_server/src/game_service.cpp:70-81 | that holds in every state of an interleaved execution if and only if no section of it is of those two kinds |
| Mappings.MappedDuringRemoval | game_server/src/room_manager.cpp:67-80 | until then, a room is removed with a player mapped to it only if the mapping took effect while the call that removes it was destroying it |
| Mappings.GuardedMappingsStaySound | game_server/src/game_service.cpp:70-81 | so mappings stay sound if each takes effect while the table lists the player and nobody is past looking the room up to destroy it |
| Races.StartAfterVerdict | game_server/src/room_manager.cpp:23-28 | from the initial state, an interleaving with a stop between ready check and start makes a room broadcast its verdict first and its start second |
| Races.StartAfterReadies | game_server/src/game_service.cpp:91-132 | and so does one in which both players become ready again between the stop and the removal |
| Races.SecondVerdict | game_server/src/game_service.cpp:116-132 | from the initial state, two game-over requests that both find the room make it announce two verdicts |
| Races.MappedToNoRoom | game_server/src/game_service.cpp:70-81 | from the initial state, an interleaving that removes the room before the mapping leaves a player mapped to a room that is not in the table |
| Races.MappedBeforeRemoval | game_server/src/room_manager.cpp:67-80 | and so does one that maps the player in time, but after the destroying call has unmapped the members |
| Lobby.LobbyService.constructor | lobby_server/src/lobby_service.cpp:15-21 | nobody is online, nobody waits and no gateway is connected |
| Lobby.LobbyService.PushToGateway | lobby_server/src/lobby_service.cpp:50-59 | one push if the gateway is connected, none otherwise |
| Lobby.LobbyService.MatchCriticalSection | lobby_server/src/lobby_service.cpp:180-201 | the search loop and the two pops do what the queue function says |
| Lobby.LobbyService.EraseFromQueue | lobby_server/src/lobby_service.cpp:91-97 | the erase-while-iterating loop removes exactly that player's entries and keeps the order of the rest |
| Lobby.LobbyService.HandleMatchStop | lobby_server/src/lobby_service.cpp:255-273 | a stop removes that player from the queue and answers with success |
| Lobby.LobbyService.ClientDisconnect | lobby_server/src/lobby_service.cpp:83-101 | a disconnect removes that player from the online set and the queue |
| Lobby.LobbyService.HandleLogin | lobby_server/src/lobby_service.cpp:103-135 | a login counts only for a player with a name, who is told their data; others are told that they do not exist, and a request that does not parse changes and answers nothing |
| Lobby.LobbyService.HandleLogout | lobby_server/src/lobby_service.cpp:152-164 | a logout takes the player off the online set, and its answer has the connection dropped |
| Lobby.LobbyService.RequestRoom | lobby_server/src/lobby_service.cpp:206-221 | what a room request does to the game server and what the lobby learns of it, lost calls and lost answers included |
| Lobby.LobbyService.Notify | lobby_server/src/lobby_service.cpp:221-252 | both players are sent the notices of `Lobby.NoticesTell`, or nothing goes out without a gateway |
| Lobby.LobbyService.Enqueue | lobby_server/src/lobby_service.cpp:177-252 | after the database read: queue, room and notices, and nothing else when nobody is paired |
| Lobby.LobbyService.HandleMatchGame | lobby_server/src/lobby_service.cpp:166-253 | the whole request, with the default nickname and the answer to the requester; a request that does not parse changes and answers nothing |
| Lobby.NoticesTell | lobby_server/src/lobby_service.cpp:221-252 | both notices carry error 0, the room's number as a text that reads back to it, both players in order, and positions 1 and 2; or both carry error -1 |
| Lobby.OnlineMeansLoggedIn | lobby_server/src/lobby_service.cpp:83-164 | a player is online if and only if a login with a name has not been followed by their logout or disconnect |
| Lobby.SectionIsWait | lobby_server/src/lobby_service.cpp:180-201 | the critical section on a queue of at most one entry is the waiting slot's step |
| Lobby.QueueIsOneSlot | lobby_server/src/lobby_service.cpp:89-265 | after every run of requests, stops and disconnects the queue holds at most one entry, the slot's, has made the slot's pairs, and entries made equal twice the pairs plus those removed plus those waiting |
| Lobby.SlotMeansWaiting | lobby_server/src/lobby_service.cpp:180-265 | a player is in the slot if and only if it asked when nobody waited and since then nobody else has asked and it has not left |
| Lobby.PairsAreWaiterAndRequester | lobby_server/src/lobby_service.cpp:194-200 | a pair is always an earlier unbroken waiter and the player now asking, who are different, and whoever waits when another asks is paired |
| Seating.SeatOf | game_server/src/room.cpp:51-56 | a member's seat is 1 if and only if it was the first to join |
| Seating.SeatedAsToldExactly | game_server/src/game_service.cpp:19-28 | a pair is seated as the lobby tells it if and only if its id names no live room, or a live one that is empty or was first joined by the pair's first player |
| Seating.FreshRoomHoldsThePair | game_server/src/game_service.cpp:13-28 | an unused id gives a new idle room with exactly the pair in it, under their own names and characters and on seats 1 and 2 |
| Seating.SeatReportedForever | game_server/src/game_service.cpp:73-81 | whatever the server does meanwhile, every later entry into a live room reports the seat first assigned |
| Seating.PositionIsSeat | lobby_server/src/lobby_service.cpp:194-240 | end to end: for any pair the queue makes after any run, and an unused id, the room holds exactly the two; both are told error 0 and the two players in order; and the number each is told, read back from its text, is a room whose entering is answered, at any later time the room exists, with no error and the position told |
| Framing.EncodeHeader | gateway/network/packet.go:17-23 | the buffer holds the header's nine bytes |
| Framing.HeaderRoundTrip | gateway/network/packet.go:17-33 | decoding undoes encoding whatever follows, and fails only on packets that are too short |
| Framing.HeaderLayout | gateway/network/packet.go:17-23 | bytes 0 to 3 are the id and bytes 4 to 7 the key, most significant byte first, and byte 8 is the type |
| Framing.HeaderDecodesOnlyItself | gateway/network/packet.go:25-33 | whatever decodes to a header starts with that header's bytes |
| Framing.EncodeAppFrame | gateway/network/packet.go:43-50 | the buffer filled with 16-bit lengths, or the panic of a buffer that wraps too short |
| Framing.FrameShape | gateway/network/packet.go:43-50 | a frame carries the payload cut to its length modulo 2^16, and there is a panic if and only if that exceeds 65531 |
| Framing.FrameLayout | gateway/network/packet.go:43-50 | a frame starts with the number of bytes after its first two, then the command, both most significant byte first, then the payload |
| Framing.BytesArePositional | gateway/network/packet.go:17-50 | integers are written most significant byte first: the bytes' positional value is the integer |
| Framing.Reader.ReadFull | gateway/network/packet.go:64-84 | reads exactly the bytes asked for however the stream is cut, or reports its end |
| Framing.Reader.ReadAppFrame | gateway/network/packet.go:62-87 | reads the next frame off the stream, errors included, however the stream is cut |
| Framing.Reader.Serve | gateway/network/udp_server.go:122-133 | the read loop dispatches exactly the frames before the first error |
| Framing.FrameRoundTripExact | gateway/network/packet.go:43-87 | a frame survives printing and reading if and only if its payload has at most 65531 bytes |
| Framing.ParseUndoesPrint | gateway/network/packet.go:43-87 | for every list of such frames and every split of their bytes into chunks, reading gives the list back and then a clean end |
| Framing.CutFrame | gateway/network/packet.go:64-84 | which error a cut frame gives, for every place of the cut |
| Framing.TruncatedStream | gateway/network/packet.go:62-87 | a stream cut anywhere gives exactly its complete frames and then an error |
| Framing.FrameForKcp | gateway/network/session.go:78-86 | the inline framing of a send |
| Framing.SendFramesLikeEncode | gateway/network/session.go:79-84 | a send and EncodeAppFrame produce the same bytes, panics included, if and only if the payload length modulo 2^16 is neither 65534 nor 65535 |
| Sessions.FirstFreeIsFirst | gateway/network/manager.go:30-36 | the id chosen is the first random draw that is neither 0 nor in use |
| Sessions.Session.constructor | gateway/network/session.go:35-45 | a new session is connected and bound to no address |
| Sessions.Session.SetUDPAddr | gateway/network/session.go:47-52 | binds the address |
| Sessions.Session.SetKCPConn | gateway/network/session.go:60-64 | sets or clears the connection |
| Sessions.Session.Send | gateway/network/session.go:68-105 | a KCP frame or panic if and only if the session is connected, the channel is 1 and there is a KCP connection; UDP if and only if it is connected, that is not so, the channel is 1 or 2 and there are an address and a server; the WebSocket in every other connected case; refused if and only if not connected. The UDP bytes decode to the session's id and key with type 2, followed by the data |
| Sessions.Session.DispatchPacket | gateway/network/session.go:122-173 | which server a command goes to, and when the game stream is opened |
| Sessions.Session.Close | gateway/network/session.go:200-230 | the first close cancels the game stream, notifies, closes the connections and removes the session; any later one does nothing |
| Sessions.SessionManager.constructor | gateway/network/manager.go:19-24 | both maps are empty |
| Sessions.SessionManager.AddSession | gateway/network/manager.go:26-43 | the draw loop enters a fresh session under the first free id and changes nothing else |
| Sessions.SessionManager.GetSession | gateway/network/manager.go:45-49 | null if and only if no live session has the id, and otherwise that session, as the table has it |
| Sessions.SessionManager.GetSessionByAddr | gateway/network/manager.go:51-58 | the live session the index has for that address |
| Sessions.SessionManager.MapUDPAddr | gateway/network/manager.go:60-64 | that index entry is replaced |
| Sessions.SessionManager.RemoveSession | gateway/network/manager.go:66-77 | the session and its address's entry go, and nothing else |
| Sessions.SessionManager.GetSessionsByUID | gateway/network/manager.go:79-90 | every session of the player, each once |
| Sessions.UdpServer.HandlePacket | gateway/network/udp_server.go:57-102 | a packet's whole effect: binding, acknowledgement and injection, or nothing |
| Sessions.UdpServer.InjectKCP | gateway/network/kcp_conn.go:26-32 | a full channel drops the packet |
| Sessions.UdpServer.WriteTo | gateway/network/kcp_conn.go:43-60 | a KCP packet goes out under the header of the session of its address |
| Sessions.UdpServer.AcceptKCP | gateway/network/udp_server.go:106-138 | a connection without a session is refused; otherwise its frames are dispatched to the end of the stream and the session is left without a connection |
| Sessions.IndexAgrees | gateway/network/manager.go:26-77 | in every run each index entry leads to a live session bound to that address |
| Sessions.MapAddrAgrees | gateway/network/manager.go:60-64 | mapping an address keeps that if and only if the session is live and bound to it |
| Sessions.StepKeepsFindable | gateway/network/manager.go:66-77 | a step loses a bound session's entry if and only if it removes a session whose address another live one shares |
| Sessions.FindableThroughout | gateway/network/manager.go:26-77 | all along a run every bound session has its entry if and only if no removal in it is of that kind |
| Sessions.LookupIsSearch | gateway/network/manager.go:51-58 | if no state of a run has two live sessions on one address, every lookup answers as a linear search would |
| Sessions.SharedAddressLosesSession | gateway/network/manager.go:70-76 | a run in which a live, bound session is no longer found under its address |
| Sessions.OnlyKeyHoldersBind | gateway/network/udp_server.go:57-82 | a packet changes the table if and only if it starts with the header of a live unbound session under its key; a bound session keeps its address for life |
| Sessions.AcceptedPacket | gateway/network/udp_server.go:57-102 | a packet with a live session's id and key binds exactly that session if it was unbound, which is then found under the sender's address; type 0 is answered with its own header and nothing is injected, and for type 1 exactly what follows the header is handed to KCP |
| Sessions.RejectedPacket | gateway/network/udp_server.go:57-75 | any other packet binds, answers and injects nothing |
| Sessions.HandshakeIsEchoed | gateway/network/udp_server.go:88-92 | a handshake is answered with its own header, byte for byte |
| Sessions.SendReachesClient | gateway/network/session.go:76-104 | on whichever transport a send ends up, the client recovers the message, except if and only if it is a KCP frame with more than 65531 payload bytes |
| CloseOnce.StepKeepsInv | gateway/network/session.go:200-230 | every interleaved step keeps: at most one caller per session has passed the check, and a session stays in the table under its id until that caller removes it |
| CloseOnce.ExactlyOnePasses | gateway/network/session.go:200-207 | in every interleaving, once any close of a session is past the check exactly one of its callers has found it connected |
| CloseOnce.OneNoticeOwnRemoval | gateway/network/session.go:213-229 | at most one notice per session, and every removal hits the session being closed, never a later one with its id |
| CloseOnce.WhenAllHaveReturned | gateway/network/session.go:200-230 | when all closes have returned, a session is disconnected, out of the table and announced if and only if anybody closed it |
| Version.CompareVersion | login_server/main.go:111-130 | the loop computes the lexicographic order of the two endless sequences of places |
| Version.CompareZero | login_server/main.go:111-130 | versions compare equal if and only if they agree at every place, absent places counting as 0 |
| Version.CompareAntisymmetric | login_server/main.go:111-130 | swapping the arguments swaps the verdict |
| Version.CompareCongruent | login_server/main.go:111-130 | versions that compare equal compare alike with every third one |
| Version.CompareTransitive | login_server/main.go:111-130 | the order is transitive, and strict as soon as one step is |
| Version.SplitAppend | login_server/main.go:112-113 | appending a dot and a piece adds one place |
| Version.TrailingZero | login_server/main.go:111-130 | a trailing ".0" on either side never changes a verdict |
| Version.PieceValue | login_server/main.go:116-123 | a piece of digits, leading zeros and a sign allowed, stands for its decimal value, and for the nearest 64-bit integer when that is out of range |
| Version.SpoiledPiece | login_server/main.go:116-123 | a piece without digits, or with another character among them, counts as 0 if and only if the digits before that character fit 64 bits without sign; if they do not, it counts as the largest or smallest 64-bit integer |
| Version.AtoiUndoesDecimal | login_server/main.go:116-123 | every printed 64-bit integer reads back as itself |
| Version.CompareIsListOrder | login_server/main.go:111-130 | any two versions compare as the lists of their pieces' integers do, place by place and the shorter one padded with zeros |
| Version.PrintedVersionsCompare | login_server/main.go:111-130 | versions printed from two lists of 64-bit integers compare as the zero-padded lists do, so 1.10 is above 1.9 |

## Left out

- GameRuns.WholeLife: request by request; `Verdicts.WholeLifeExactly` says exactly which interleavings keep it.
- Mappings.MappingsSoundExactly: says which sections break a mapping, not that a broken one is never repaired, as a new room under the same id can do.
- GameModel.StepKeepsInv: its runs never call `RemovePlayer`, which nothing in the repository calls; the operation itself is in `RoomModel.RemovePlayerSeats`.
- LockOrder.EveryRunIsSafe: assumes that a stream write returns, and covers the mutexes of the lobby and game servers, not the gateway's.
- LockAtomic.StepKeepsSound: the two nested sections of `GetRoomByUid` count as one step, and so does a player's write of the unsynchronised ready flag.
- Granularity.RequestRunsAreInterleavings: one direction only; the converse is false, by `Races`.
- Sessions.UdpServer.HandlePacket: one packet is one step, and so is one close; `Sessions.MapAddrAgrees` says what a removal in between would break.
- Sessions.SessionManager.AddSession: random ids are a given list of draws, and that the retry loop ends at all is not claimed.
- Sessions.UdpServer.AcceptKCP: one connection served to its end, without others replacing it meanwhile.
- gRPC, protobuf, KCP, WebSocket, Redis and MySQL: messages are datatypes, streams are byte or message sequences, sends are appended to a log.
- JSON parsing and printing by the library, and the conversion of uids given as text: the player list arrives as its elements, any of which may fail to convert.
- `DBManager`, role creation, player data and the online count, login and registration, tokens, configuration and logging.
- Timing: the 66 ms ticks, timeouts and heartbeats; only the order of ticks is kept.
- Starting and stopping the loop thread, and `SendToPlayer`, which nothing in the repository calls.
- `ReportGameResult` and `UpdateBattleStats`, which nothing in the repository calls, and the player's `offline` field, which nothing reads.
- The gateway's calls to the lobby and the game server, and its receive loop for game streams.
- The listeners and connection set-up of the UDP, KCP and WebSocket servers.
