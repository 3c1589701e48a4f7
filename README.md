# Requestrr core, modelled in Dafny

Requestrr is a chat bot that lets Discord users request movies, TV shows and
music from download clients (Radarr, Sonarr, Overseerr, Lidarr), and a web
UI that configures it. This project models the parts of Requestrr that decide
things, and proves what they promise:

- **Approval store** (`approvals.dfy`): the repository of pending Overseerr
  approvals, a class over a map from request id to a record of message
  references, with `AddMessage`, `Remove`, snapshots and the reload rule
  that rejects repeated request ids.
- **Approval decisions and the sweep** (`approval_decisions.dfy`,
  `request_marker.dfy`, `approval_sync.dfy`, `pending_registration.dfy`):
  the approve/deny emoji, admin channels, the inference of a decision from
  reactions (admin messages first), the request-id marker that pending
  footers carry and the bot reads back, the sweep over stored records, the
  handling of an admin's reaction, the fan-out that updates every recorded
  message, and the registration of the requester's and admins' messages.
- **Component-id protocol** (`component_ids.dfy`,
  `component_id_round_trips.dfy`, `discord_text.dfy`, `select_options.dfy`,
  `issue_episodes.dfy`): the `/`-separated ids and option values the
  movie, TV and music interfaces write, the bot's dispatcher that reads them
  back (author check, prefix order), round trips for every id kind, and the
  label, title and select-list builders.
- **Workflows** (`tv_issue_workflow.dfy`, `music_workflow.dfy`): the TV
  issue workflow (search, season shaping, the modal key, the issue location
  text, episode loading) and the music requesting workflow, each as a
  function from catalog answers to the one directive the interface gets.
- **Lidarr** (`lidarr_client.dfy`, `profile_mapper.dfy`,
  `profile_sync.dfy`, `lidarr_controller.dfy`): the client's URL and album
  rules, MusicBrainz paging, conversions and request payloads; the metadata
  profile mapper and its normalisers; the startup profile sync; the
  controller's category validation chain.
- **Settings** (`discord_settings.dfy`): `DiscordSettings.Equals` and the
  restart decision built on it.
- **Music settings UI** (`lidarr_actions.dfy`, `music_reducer.dfy` (module
  `MusicClients`), `music_view.dfy`, `music_page.dfy`): the Lidarr category
  actions, the music clients reducer, the restriction helpers of the music
  page and the page's save protocol.
- Shared helpers: `wrappers.dfy` (Option), `text.dfy` (trimming, splitting,
  ASCII lower case, decimal integers), `sequences.dfy`.

Discord, Overseerr, HTTP, the file system and the clock are not modelled:
what they return is a parameter, and what the code sends them is a recorded
output (a directive, an effect list, a request value).

## Model

| member | source | states |
|---|---|---|
| Approvals.AddedRecord | Requestrr.WebApi/RequestrrBot/Approvals/RequestApprovalRepository.cs:46-75 | the stored record keeps the request id and contains the (channel, message) pair; a pair already present leaves the message list as it was, a new pair is appended at the end, and a new record holds exactly that one reference |
| Approvals.AddToUnknownCreates | Requestrr.WebApi/RequestrrBot/Approvals/RequestApprovalRepository.cs:46-73 | a request id not yet stored gets a record with that id, the user name (a missing one becomes ""), the user id and exactly the new message reference |
| Approvals.AddToExistingRequester | Requestrr.WebApi/RequestrrBot/Approvals/RequestApprovalRepository.cs:55-62 | on an existing record a non-blank user name overwrites the stored one and keeps the user id; otherwise the name stays and a stored user id of 0 is replaced by a non-zero one |
| Approvals.AddKeepsPairsUnique | Requestrr.WebApi/RequestrrBot/Approvals/RequestApprovalRepository.cs:64-73 | adding a reference keeps the (channel, message) pairs of a record pairwise distinct |
| Approvals.ToDictionary | Requestrr.WebApi/RequestrrBot/Approvals/RequestApprovalRepository.cs:107 | when building the dictionary succeeds, every loaded record is stored under its own id and every stored record comes from the list |
| Approvals.ToDictionaryFailsOnlyOnRepeats | Requestrr.WebApi/RequestrrBot/Approvals/RequestApprovalRepository.cs:107 | a list with distinct request ids always becomes a dictionary |
| Approvals.ToDictionaryRejectsRepeats | Requestrr.WebApi/RequestrrBot/Approvals/RequestApprovalRepository.cs:107 | a list with a repeated request id never becomes a dictionary (the load throws) |
| Approvals.ToDictionaryIffDistinct | Requestrr.WebApi/RequestrrBot/Approvals/RequestApprovalRepository.cs:107 | building the dictionary succeeds exactly when the loaded request ids are distinct |
| Approvals.LoadedStore | Requestrr.WebApi/RequestrrBot/Approvals/RequestApprovalRepository.cs:96-120 | a parsed list with distinct ids becomes its dictionary, with entries filled in list order and enumerated in that order; a missing or unreadable file, a null list or repeated ids give an empty store; in every case each record sits under its own id and each key holds exactly one entry |
| Approvals.ToDictionaryOrder | Requestrr.WebApi/RequestrrBot/Approvals/RequestApprovalRepository.cs:107 | the keys of a built dictionary are exactly the list's ids, each once |
| Approvals.RequestApprovalRepository.constructor | Requestrr.WebApi/RequestrrBot/Approvals/RequestApprovalRepository.cs:96-120 | a missing file gives an empty store that is written at once; an unreadable file, a null list or repeated ids give an empty store without a write; otherwise the store holds the file's records, its entries are filled in file order with none free, and nothing is written |
| Approvals.RequestApprovalRepository.Save | Requestrr.WebApi/RequestrrBot/Approvals/RequestApprovalRepository.cs:122-134 | after a save the file holds exactly the current records |
| Approvals.RequestApprovalRepository.GetSnapshot | Requestrr.WebApi/RequestrrBot/Approvals/RequestApprovalRepository.cs:21-32 | nothing for an unknown id, otherwise a record equal field for field to the stored one |
| Approvals.RequestApprovalRepository.GetAllSnapshots | Requestrr.WebApi/RequestrrBot/Approvals/RequestApprovalRepository.cs:34-40 | one copy of every stored record, each exactly once, in the order the dictionary's entries enumerate their keys |
| Approvals.RequestApprovalRepository.AddMessage | Requestrr.WebApi/RequestrrBot/Approvals/RequestApprovalRepository.cs:42-78 | only the entry of the given id changes, to the added record; a new id takes the most recently freed dictionary entry, or a new last entry when none is free; the file is rewritten with the new records |
| Approvals.RequestApprovalRepository.Remove | Requestrr.WebApi/RequestrrBot/Approvals/RequestApprovalRepository.cs:80-89 | exactly the given id is removed, its entry freed, and the rest are enumerated in their order; the file is rewritten with the remaining records exactly when something was removed, and otherwise neither the file nor the store changes |
| Approvals.FilledLayout | Requestrr.WebApi/RequestrrBot/Approvals/RequestApprovalRepository.cs:107 | a dictionary filled from a list without removals has no free entry and enumerates the list's keys in list order |
| Approvals.InsertWellFormed | Requestrr.WebApi/RequestrrBot/Approvals/RequestApprovalRepository.cs:75 | adding a new key keeps every key in one entry and the free list exact, holds the old keys and the new one, and with no free entry enumerates the new key last |
| Approvals.DeleteWellFormed | Requestrr.WebApi/RequestrrBot/Approvals/RequestApprovalRepository.cs:84 | removing a key frees its entry, keeps the free list exact, and enumerates the other keys in their order |
| Approvals.Insert | Requestrr.WebApi/RequestrrBot/Approvals/RequestApprovalRepository.cs:75 | a new key lands in some entry: the most recently freed one, leaving one entry fewer on the free list, or a new last entry; every filled entry keeps its key |
| Approvals.Delete | Requestrr.WebApi/RequestrrBot/Approvals/RequestApprovalRepository.cs:84 | the entry count stays; only an entry holding the key changes; with keys held once the key is gone afterwards; the free list grows by one exactly when the key was present |
| Approvals.WithoutAll | Requestrr.WebApi/RequestrrBot/ChatBot.cs:755-798 | keeps exactly the keys of the order that are not among the removed ids |
| Approvals.DeleteEachEnumerates | Requestrr.WebApi/RequestrrBot/ChatBot.cs:755-798 | deleting several keys one after another keeps the layout exact and enumerates the other keys in their order |
| Approvals.ReusedEntryEnumeratedFirst | Requestrr.WebApi/RequestrrBot/Approvals/RequestApprovalRepository.cs:75-84 | after adding 1 and 2, removing 1 and adding 3, the dictionary enumerates 3 before 2 |
| Approvals.RequestApprovalRepository.Order | Requestrr.WebApi/RequestrrBot/Approvals/RequestApprovalRepository.cs:38 | the enumeration order lists every stored key exactly once |
| ApprovalDecisions.ConfiguredEmoji | Requestrr.WebApi/RequestrrBot/ChatBot.cs:931-949 | the configured emoji, trimmed, when it is not blank; the default otherwise |
| ApprovalDecisions.EmojiChoice | Requestrr.WebApi/RequestrrBot/ChatBot.cs:921-949 | with nothing configured the emoji are ✅ and ❌; whitespace around a configured emoji does not change it |
| ApprovalDecisions.IsAdminChannel | Requestrr.WebApi/RequestrrBot/ChatBot.cs:707-723 | true iff the list exists and some entry parses as a 64-bit unsigned number equal to the channel id (false for a missing or empty list) |
| ApprovalDecisions.AdminChannelListed | Requestrr.WebApi/RequestrrBot/ChatBot.cs:714-719 | a channel whose decimal id is listed is an admin channel |
| ApprovalDecisions.Verdict | Requestrr.WebApi/RequestrrBot/ChatBot.cs:826-843 | a message with a one-sided tally decides approve iff it has only approve reactions and deny iff it has only deny reactions |
| ApprovalDecisions.AdminFirst | Requestrr.WebApi/RequestrrBot/ChatBot.cs:810 | in the visiting order no non-admin reference comes before an admin one |
| ApprovalDecisions.AdminFirstPermutes | Requestrr.WebApi/RequestrrBot/ChatBot.cs:810 | the visiting order is a permutation of the record's references |
| ApprovalDecisions.AdminFirstMembers | Requestrr.WebApi/RequestrrBot/ChatBot.cs:810 | the visiting order holds exactly the record's references |
| ApprovalDecisions.AdminsNonAdminsSplit | Requestrr.WebApi/RequestrrBot/ChatBot.cs:810 | the admin and non-admin references together are the record's references |
| ApprovalDecisions.FirstVerdictAt | Requestrr.WebApi/RequestrrBot/ChatBot.cs:810-843 | the first readable message with a one-sided or two-sided tally decides, whatever follows it |
| ApprovalDecisions.FirstVerdict | Requestrr.WebApi/RequestrrBot/ChatBot.cs:810-851 | a decision is the verdict of a decisive message with no decisive message before it in the visiting order; with no decisive message (unreadable ones skipped) there is no decision |
| ApprovalDecisions.VerdictPastHead | Requestrr.WebApi/RequestrrBot/ChatBot.cs:810-851 | skipping a non-decisive first message keeps the decision and its witness |
| ApprovalDecisions.FirstVerdictAppend | Requestrr.WebApi/RequestrrBot/ChatBot.cs:810-851 | a decisive message in the first part decides; otherwise the second part does |
| ApprovalDecisions.InferDecision | Requestrr.WebApi/RequestrrBot/ChatBot.cs:805-808 | a record without references has no decision |
| ApprovalDecisions.AdminMessagesDecideFirst | Requestrr.WebApi/RequestrrBot/ChatBot.cs:810-843 | when some admin message is decisive, the non-admin messages are never consulted |
| ApprovalDecisions.DecisionNeedsOneSidedMessage | Requestrr.WebApi/RequestrrBot/ChatBot.cs:826-843 | a decision b needs a readable message whose tally holds only b's emoji (tallies are not combined across messages) |
| ApprovalDecisions.NoReactionNoDecision | Requestrr.WebApi/RequestrrBot/ChatBot.cs:826-851 | without a readable message carrying approve or deny reactions there is no decision |
| ApprovalDecisions.ReactionDecision | Requestrr.WebApi/RequestrrBot/ChatBot.cs:450-537 | a reaction yields (request id, choice) only from a non-bot admin on a bot message whose content or footer carries the marker, with choice true iff the emoji is the approve emoji; every such approve or deny reaction yields one |
| RequestMarker.PendingFooter | Requestrr.WebApi/RequestrrBot/ChatClients/Discord/DiscordMovieUserInterface.cs:293-295 | the footer starts with the marker when the base footer is blank, else with the base footer, " \| " and the marker |
| RequestMarker.FooterShape | Requestrr.WebApi/RequestrrBot/ChatClients/Discord/DiscordMovieUserInterface.cs:293-295 | the footer is the prefix, the marker, a space and the request id |
| RequestMarker.MatchAt | Requestrr.WebApi/RequestrrBot/ChatBot.cs:63 | a match at a position needs the marker there (case-insensitively) and yields a non-empty run of digits |
| RequestMarker.FirstMatch | Requestrr.WebApi/RequestrrBot/ChatBot.cs:63 | the leftmost match: no match starts earlier, and none means no position matches |
| RequestMarker.TryGetRequestId | Requestrr.WebApi/RequestrrBot/ChatBot.cs:908-919 | the content's first match is parsed as an int; only when the content has none is the footer's first match used; a parsed id is in 0..2^31-1 |
| RequestMarker.FooterMatch | Requestrr.WebApi/RequestrrBot/ChatBot.cs:63 | in a footer written with a digit-free prefix the first match is the request id's digits |
| RequestMarker.RequestIdRoundTrip | Requestrr.WebApi/RequestrrBot/ChatBot.cs:908-919 | the id written into a pending footer is the id read back from a message whose content carries no marker |
| ApprovalSync.DirectEffects | Requestrr.WebApi/RequestrrBot/ChatBot.cs:628-686 | a direct-message reference is retried over the requester's DM at most once, and never when it is not a DM or the requester's user id is 0 |
| ApprovalSync.FanOutShape | Requestrr.WebApi/RequestrrBot/ChatBot.cs:581-626 | the fan-out makes at most one edit per reference, all carrying the same outcome and none pushing a decision, and every reference whose message is found is edited with its admin flag and the requester's name |
| ApprovalSync.MissingChannelMessageSkipped | Requestrr.WebApi/RequestrrBot/ChatBot.cs:587-617 | a non-DM reference whose channel or message is gone is skipped |
| ApprovalSync.Resolution | Requestrr.WebApi/RequestrrBot/ChatBot.cs:759-792 | no status leaves the record; a pending status resolves iff a decision is inferred, to that decision and with a push; any other status resolves to (status is APPROVED) without a push |
| ApprovalSync.SettlesCases | Requestrr.WebApi/RequestrrBot/ChatBot.cs:759-797 | a record is removed iff its status is terminal, or pending with an inferred decision whose push does not throw; an unknown status never removes it |
| ApprovalSync.SettledIdsMembers | Requestrr.WebApi/RequestrrBot/ChatBot.cs:755-798 | the sweep removes exactly the ids of the snapshots that settle |
| ApprovalSync.PushBeforeUpdates | Requestrr.WebApi/RequestrrBot/ChatBot.cs:765-781 | for a pending record with a decision, the decision is pushed first and every later effect carries the same outcome |
| ApprovalSync.TerminalNotPushed | Requestrr.WebApi/RequestrrBot/ChatBot.cs:786-792 | a sweep over records with unknown or terminal status pushes no decision |
| ApprovalSync.SweepStep | Requestrr.WebApi/RequestrrBot/ChatBot.cs:755-798 | the sweep handles records one after another: one more record adds its own removal and effects |
| ApprovalSync.ApprovalBot.UpdateRequesterDm | Requestrr.WebApi/RequestrrBot/ChatBot.cs:628-686 | the DM retry appends exactly the direct-message effects |
| ApprovalSync.ApprovalBot.UpdateApprovalMessages | Requestrr.WebApi/RequestrrBot/ChatBot.cs:581-626 | the loop over the record's references appends exactly the fan-out's effects |
| ApprovalSync.ApprovalBot.SweepRecord | Requestrr.WebApi/RequestrrBot/ChatBot.cs:757-797 | one record: removed from the store iff it settles, its dictionary entry freed and the rest enumerated in order, its effects appended, and the file rewritten exactly when it was removed |
| ApprovalSync.ApprovalBot.SweepRecords | Requestrr.WebApi/RequestrrBot/ChatBot.cs:755-798 | the loop removes exactly the settled ids, freeing their entries in sweep order so the dictionary enumerates the rest in their order, appends every record's effects in order, and rewrites the file once per removal, leaving it holding the final records; an exception on one record does not stop the loop |
| ApprovalSync.ApprovalBot.ResolveRecord | Requestrr.WebApi/RequestrrBot/ChatBot.cs:759-797 | one record's messages: reports exactly whether it settles and appends exactly its effects |
| ApprovalSync.ApprovalBot.SweepNext | Requestrr.WebApi/RequestrrBot/ChatBot.cs:757-797 | one more pass of the loop extends the removed ids, the freed entries, the effects and the file writes by that record's |
| ApprovalSync.ApprovalBot.SweepAll | Requestrr.WebApi/RequestrrBot/ChatBot.cs:755-798 | the loop over every record reaches the state of the sweep over all of them |
| ApprovalSync.ApprovalBot.SweepStored | Requestrr.WebApi/RequestrrBot/ChatBot.cs:740-798 | the snapshots taken at the start are swept: settled ones removed with their entries freed, the rest enumerated in order, effects appended, one file write per removal |
| ApprovalSync.ApprovalBot.SweepGated | Requestrr.WebApi/RequestrrBot/ChatBot.cs:732-800 | with the gate taken, the stored snapshots are swept as above and the gate is released |
| ApprovalSync.SettledOrder | Requestrr.WebApi/RequestrrBot/ChatBot.cs:755-798 | the ids the sweep removes, in removal order: exactly the settled ids |
| ApprovalSync.SweepEnumerates | Requestrr.WebApi/RequestrrBot/ChatBot.cs:755-798 | deleting the settled ids in removal order leaves the dictionary enumerating the other keys in their order |
| ApprovalSync.ApprovalBot.Sweep | Requestrr.WebApi/RequestrrBot/ChatBot.cs:725-801 | nothing happens unless the movie or TV client is Overseerr and the gate is free; otherwise the settled snapshots are removed, their entries freed and the rest enumerated in order, the effects appended, the file rewritten once per removal, and the gate released |
| ApprovalSync.ApprovalBot.SettleMessages | Requestrr.WebApi/RequestrrBot/ChatBot.cs:893-906 | with a stored record that has references every surface is updated and the record removed, its entry freed, the rest enumerated in order and the file rewritten once; otherwise only the reacted message is edited and the store is unchanged |
| ApprovalSync.ApprovalBot.HandleDecision | Requestrr.WebApi/RequestrrBot/ChatBot.cs:544-579 | a terminal status is mirrored without pushing the reaction's choice; otherwise the choice is pushed and then the surfaces are updated; a failed push changes nothing, in the store or on Discord; a settled record with references is removed with its entry freed and the file rewritten once, any other leaves the store unchanged |
| ApprovalSync.MirroredOutcome | Requestrr.WebApi/RequestrrBot/ChatBot.cs:893-906 | mirroring a terminal status pushes nothing and every edit carries that status's outcome |
| PendingRegistration.RequesterRef | Requestrr.WebApi/RequestrrBot/ChatClients/Discord/DiscordMovieUserInterface.cs:303-305 | the requester's message is registered as a non-admin reference, marked direct iff its channel is private |
| PendingRegistration.AdminPost | Requestrr.WebApi/RequestrrBot/ChatClients/Discord/DiscordMovieUserInterface.cs:385-396 | an admin channel id yields a post iff it parses and the guild has that channel; the post is admin, not direct, in that channel |
| PendingRegistration.AdminRefs | Requestrr.WebApi/RequestrrBot/ChatClients/Discord/DiscordMovieUserInterface.cs:385-396 | at most one reference per configured id, every one admin and not direct |
| PendingRegistration.AdminRefsSnoc | Requestrr.WebApi/RequestrrBot/ChatClients/Discord/DiscordMovieUserInterface.cs:385-396 | the admin loop skips an id that does not parse or has no channel and appends one reference otherwise |
| PendingRegistration.AdminRefSource | Requestrr.WebApi/RequestrrBot/ChatClients/Discord/DiscordMovieUserInterface.cs:385-396 | every admin reference comes from a configured id that parses to its channel |
| PendingRegistration.AdminRefsInAdminChannels | Requestrr.WebApi/RequestrrBot/ChatBot.cs:707-723 | every admin message registered at request time is in a channel the bot later recognises as an admin channel |
| PendingRegistration.PendingRefs | Requestrr.WebApi/RequestrrBot/ChatClients/Discord/DiscordMovieUserInterface.cs:303-318 | the requester's reference is registered first, then the admin posts; without admin channels only the requester's |
| PendingRegistration.Added | Requestrr.WebApi/RequestrrBot/ChatClients/Discord/DiscordMovieUserInterface.cs:305 | one registration stores the reference under the request id and leaves other ids alone |
| PendingRegistration.RegisterPending | Requestrr.WebApi/RequestrrBot/ChatClients/Discord/DiscordMovieUserInterface.cs:303-318 | the store ends as the pure registration of the requester's and admin references; a new request id takes the most recently freed entry or a new last one; the file is rewritten once per reference and holds the final records |
| PendingRegistration.SendAdminPending | Requestrr.WebApi/RequestrrBot/ChatClients/Discord/DiscordTvShowUserInterface.cs:564-596 | the admin loop adds one admin reference per parsable id with a channel, and nothing for a missing list; a new request id takes an entry once; the file is rewritten once per post, and not at all without one |
| PendingRegistration.SendAdminPosts | Requestrr.WebApi/RequestrrBot/ChatClients/Discord/DiscordTvShowUserInterface.cs:568-594 | over the configured ids the loop registers exactly the admin references, takes an entry for a new request id once, and rewrites the file once per post |
| PendingRegistration.SendAdminPost | Requestrr.WebApi/RequestrrBot/ChatClients/Discord/DiscordMovieUserInterface.cs:385-396 | one configured id posts exactly when it parses and the guild has the channel; a post is registered and written once, no post changes nothing |
| PendingRegistration.AddedAllAppend | Requestrr.WebApi/RequestrrBot/ChatClients/Discord/DiscordMovieUserInterface.cs:303-318 | registering two lists one after the other is registering their concatenation |
| PendingRegistration.AddedAllHoldsEveryRef | Requestrr.WebApi/RequestrrBot/Approvals/RequestApprovalRepository.cs:64-76 | after registration the record exists and holds every registered pair |
| PendingRegistration.AddedAllKeepsOthers | Requestrr.WebApi/RequestrrBot/Approvals/RequestApprovalRepository.cs:75 | registration adds only the request id and leaves other records untouched |
| PendingRegistration.AddedAllKeepsPairsUnique | Requestrr.WebApi/RequestrrBot/Approvals/RequestApprovalRepository.cs:64-73 | registration keeps the record's pairs unique |
| PendingRegistration.NewPendingRecord | Requestrr.WebApi/RequestrrBot/ChatClients/Discord/DiscordMovieUserInterface.cs:303-318 | a new pending record holds the requester's name and id, starts with the requester's message and holds every admin post |
| PendingRegistration.NewRecordStart | Requestrr.WebApi/RequestrrBot/Approvals/RequestApprovalRepository.cs:46-54 | a record created by registration starts with the first reference |
| ApprovalSync.ApprovalBot.constructor | Requestrr.WebApi/RequestrrBot/ChatBot.cs:64 | the sync gate starts free and nothing has been sent |
| ComponentIds.AuthorCheck | Requestrr.WebApi/RequestrrBot/ChatBot.cs:396-398 | a click is dispatched only when the second field parses as the clicking user's id; another user's parsable id is ignored; a missing or malformed author throws |
| ComponentIds.HandleComponent | Requestrr.WebApi/RequestrrBot/ChatBot.cs:389-440 | the handler dispatches only clicks by the id's author (the routing itself is stated by the round-trip lemmas below) |
| ComponentIds.HandleComponentFixed | Requestrr.WebApi/RequestrrBot/ChatClients/Discord/DiscordTvShowUserInterface.cs:269-312 | the corrected handler also dispatches only clicks by the id's author |
| ComponentIds.KindOf | Requestrr.WebApi/RequestrrBot/ChatBot.cs:400-440 | a routed kind is one whose prefix the lower-cased id starts with |
| ComponentIds.KindOfByPrefix | Requestrr.WebApi/RequestrrBot/ChatBot.cs:400-440 | an id starting with a branch's prefix is routed to that branch; no branch's prefix extends another's, so the order of the tests never decides |
| ComponentIds.Route | Requestrr.WebApi/RequestrrBot/ChatBot.cs:389-440 | a dispatched click reaches the handler its kind serves; a click is ignored exactly when its kind is unrouted or it is a select with no value |
| ComponentIds.RouteFixed | Requestrr.WebApi/RequestrrBot/ChatClients/Discord/DiscordTvShowUserInterface.cs:266-313 | the corrected routing dispatches to the handler the kind serves; the show issue lists dispatch the location selection and the seven-field submit button opens the modal with its season and episode; every other id routes as written |
| ComponentIdRoundTrips.FieldsSplit | Requestrr.WebApi/RequestrrBot/ChatBot.cs:396 | splitting a '/'-joined id on '/' gives back its slash-free fields |
| ComponentIdRoundTrips.ByAuthor | Requestrr.WebApi/RequestrrBot/ChatBot.cs:396-440 | a click by the id's author is routed on the lower-cased id's prefix with the id's fields and the selected values |
| ComponentIdRoundTrips.DecodeSearchValue | Requestrr.WebApi/RequestrrBot/ChatBot.cs:976-979 | a search option value "{category}/{media id}" decodes, through First and Last, to the same category and media id, for movies, movie issues, shows and show issues |
| ComponentIdRoundTrips.DecodeMovieIssueValue | Requestrr.WebApi/RequestrrBot/ChatBot.cs:1001-1009 | a movie issue option value decodes to the same category, movie and issue |
| ComponentIdRoundTrips.DecodeTvSeasonValue | Requestrr.WebApi/RequestrrBot/ChatBot.cs:1058-1066 | a season option value decodes to the same category, show and season |
| ComponentIdRoundTrips.DecodeArtistValue | Requestrr.WebApi/RequestrrBot/ChatBot.cs:1148-1151 | an artist option value decodes to the same category and artist id |
| ComponentIdRoundTrips.DecodeMovieConfirm | Requestrr.WebApi/RequestrrBot/ChatBot.cs:982-987 | the movie confirm id's fields decode to the category (field 2) and the movie (last field) |
| ComponentIdRoundTrips.DecodeMovieIssueButton | Requestrr.WebApi/RequestrrBot/ChatBot.cs:1012-1021 | the movie issue button's fields decode to category, movie and issue (fields 2-4) |
| ComponentIdRoundTrips.DecodeMovieNotify | Requestrr.WebApi/RequestrrBot/ChatBot.cs:408-411 | the movie notify id's fields decode to the user (field 1) and the movie (last field) |
| ComponentIdRoundTrips.DecodeTvConfirm | Requestrr.WebApi/RequestrrBot/ChatBot.cs:1069-1077 | the show confirm id decodes, after skipping two fields, to category, show and season |
| ComponentIdRoundTrips.DecodeTvIssueButton | Requestrr.WebApi/RequestrrBot/ChatBot.cs:1104-1113 | the show issue button as written decodes to category, show and issue, with no season or episode |
| ComponentIdRoundTrips.DecodeArtistConfirm | Requestrr.WebApi/RequestrrBot/ChatBot.cs:1154-1159 | the artist confirm id decodes to the category (field 2) and the artist (last field) |
| ComponentIdRoundTrips.MovieSearchRoundTrip | Requestrr.WebApi/RequestrrBot/ChatClients/Discord/DiscordMovieUserInterface.cs:48-54 | the user who opened the movie search list, picking an option, gets the movie selection for the same category and movie |
| ComponentIdRoundTrips.MovieIssueSearchRoundTrip | Requestrr.WebApi/RequestrrBot/ChatClients/Discord/DiscordMovieUserInterface.cs:42-54 | picking an option of the movie issue search list gives the movie issue selection for the same category and movie, with no issue |
| ComponentIdRoundTrips.MovieConfirmRoundTrip | Requestrr.WebApi/RequestrrBot/ChatClients/Discord/DiscordMovieUserInterface.cs:101 | the movie confirm button requests the same movie in the same category |
| ComponentIdRoundTrips.MovieIssueSelectRoundTrip | Requestrr.WebApi/RequestrrBot/ChatClients/Discord/DiscordMovieUserInterface.cs:126-127 | picking an issue type gives the movie issue selection for the same category, movie and issue |
| ComponentIdRoundTrips.MovieIssueButtonRoundTrip | Requestrr.WebApi/RequestrrBot/ChatClients/Discord/DiscordMovieUserInterface.cs:138-142 | the movie issue submit button opens the issue modal for the same category, movie and issue |
| ComponentIdRoundTrips.MovieNotifyRoundTrip | Requestrr.WebApi/RequestrrBot/ChatClients/Discord/DiscordMovieUserInterface.cs:323 | the movie notify button subscribes the same user to the same movie |
| ComponentIdRoundTrips.TvSearchRoundTrip | Requestrr.WebApi/RequestrrBot/ChatClients/Discord/DiscordTvShowUserInterface.cs:407-413 | picking an option of the show search list selects the same category and show |
| ComponentIdRoundTrips.TvIssueSearchRoundTrip | Requestrr.WebApi/RequestrrBot/ChatClients/Discord/DiscordTvShowUserInterface.cs:401-413 | picking an option of the show issue search list gives the issue selection for the same category and show, with no issue |
| ComponentIdRoundTrips.TvSeasonSelectRoundTrip | Requestrr.WebApi/RequestrrBot/ChatClients/Discord/DiscordTvShowUserInterface.cs:63-67 | picking a season option selects the same category, show and season |
| ComponentIdRoundTrips.TvConfirmRoundTrip | Requestrr.WebApi/RequestrrBot/ChatClients/Discord/DiscordTvShowUserInterface.cs:223 | the show confirm button requests the same category, show and season |
| ComponentIdRoundTrips.TvNotifyRoundTrip | Requestrr.WebApi/RequestrrBot/ChatClients/Discord/DiscordTvShowUserInterface.cs:110 | the show notify button subscribes the same user to the same show, season kind and season |
| ComponentIdRoundTrips.ArtistSearchRoundTrip | Requestrr.WebApi/RequestrrBot/ChatClients/Discord/DiscordMusicUserInterface.cs:27-33 | picking an artist option selects the same category and artist |
| ComponentIdRoundTrips.ArtistConfirmRoundTrip | Requestrr.WebApi/RequestrrBot/ChatClients/Discord/DiscordMusicUserInterface.cs:40 | the artist confirm button requests the same artist in the same category |
| ComponentIdRoundTrips.ArtistNotifyRoundTrip | Requestrr.WebApi/RequestrrBot/ChatClients/Discord/DiscordMusicUserInterface.cs:118 | the artist notify button subscribes the same user to the same artist |
| ComponentIdRoundTrips.TerminalIgnored | Requestrr.WebApi/RequestrrBot/ChatClients/Discord/DiscordMusicUserInterface.cs:91-126 | a click on a terminal button "0/1/0" never dispatches anything (its author field is 1, which is no real user; for user 1 the id routes nowhere) |
| ComponentIdRoundTrips.ModalNotAcknowledged | Requestrr.WebApi/RequestrrBot/ChatBot.cs:393-394 | an id containing "modal" is not acknowledged with an update |
| ComponentIdRoundTrips.MovieIssueButtonNotAcknowledged | Requestrr.WebApi/RequestrrBot/ChatBot.cs:393-394 | the movie issue submit button is not acknowledged, so it can answer with a modal |
| ComponentIdRoundTrips.TvIssueButtonNotAcknowledged | Requestrr.WebApi/RequestrrBot/ChatBot.cs:393-394 | the show issue submit button is not acknowledged, so it can answer with a modal |
| ComponentIdRoundTrips.TvIssueSeasonListFails | Requestrr.WebApi/RequestrrBot/ChatBot.cs:1089-1099 | as written, picking a season in the show issue season list throws: the one-field value has no values[1] |
| ComponentIdRoundTrips.TvIssueEpisodeListFails | Requestrr.WebApi/RequestrrBot/ChatBot.cs:1089-1099 | as written, picking an episode in the show issue episode list throws for the same reason |
| ComponentIdRoundTrips.TvIssueTypeListFails | Requestrr.WebApi/RequestrrBot/ChatBot.cs:1089-1099 | as written, picking an issue type in the show issue type list throws for the same reason |
| ComponentIdRoundTrips.TvIssueButtonRoundTrip | Requestrr.WebApi/RequestrrBot/ChatBot.cs:1104-1113 | as written, the show issue submit button opens the modal with the season and episode dropped |
| ComponentIdRoundTrips.FixedTvIssueSeasonList | Requestrr.WebApi/RequestrrBot/ChatClients/Discord/DiscordTvShowUserInterface.cs:266-275 | with the corrected routing, picking season s in the season list selects the same category, show, issue and episode with season s |
| ComponentIdRoundTrips.FixedTvIssueEpisodeList | Requestrr.WebApi/RequestrrBot/ChatClients/Discord/DiscordTvShowUserInterface.cs:277-289 | with the corrected routing, picking episode e in the episode list selects the same category, show, issue and season with episode e |
| ComponentIdRoundTrips.FixedTvIssueTypeList | Requestrr.WebApi/RequestrrBot/ChatClients/Discord/DiscordTvShowUserInterface.cs:291-298 | with the corrected routing, picking an issue type keeps the category, show, season and episode the list carries |
| ComponentIdRoundTrips.FixedTvIssueButton | Requestrr.WebApi/RequestrrBot/ChatClients/Discord/DiscordTvShowUserInterface.cs:303-313 | with the corrected routing, the submit button opens the modal with the same category, show, issue, season and episode |
| ComponentIdRoundTrips.FixedAgreesElsewhere | Requestrr.WebApi/RequestrrBot/ChatBot.cs:400-440 | the corrected handler agrees with the handler as written on every id that is not a show issue list or submit button |
| DiscordText.LimitStringSize | Requestrr.WebApi/RequestrrBot/ChatClients/Discord/DiscordMovieUserInterface.cs:70-73 | the result never exceeds the limit; a value within the limit is returned unchanged; a longer one becomes exactly limit characters: its first limit-3 characters and "..." |
| DiscordText.LimitKeepsPrefix | Requestrr.WebApi/RequestrrBot/ChatClients/Discord/DiscordMovieUserInterface.cs:70-73 | truncation keeps the start of the value |
| DiscordText.LimitIdempotent | Requestrr.WebApi/RequestrrBot/ChatClients/Discord/DiscordMovieUserInterface.cs:70-73 | truncating twice is truncating once |
| DiscordText.ReleaseYear | Requestrr.WebApi/RequestrrBot/ChatClients/Discord/DiscordMovieUserInterface.cs:59 | a year is taken iff the date is not blank and has at least four characters, and it is the date's first four characters |
| DiscordText.WithYear | Requestrr.WebApi/RequestrrBot/ChatClients/Discord/DiscordMovieUserInterface.cs:61-64 | a title cut to 93 characters plus " (YYYY)" fits the 100-character label and ends with the year |
| DiscordText.MovieTitle | Requestrr.WebApi/RequestrrBot/ChatClients/Discord/DiscordMovieUserInterface.cs:57-67 | the label is at most 100 characters; with a release year it ends with " (YYYY)", else it is the title truncated to 100 |
| DiscordText.ShortMovieTitleShown | Requestrr.WebApi/RequestrrBot/ChatClients/Discord/DiscordMovieUserInterface.cs:57-67 | a title of at most 93 characters is shown whole, followed by the year |
| DiscordText.MovieTitleKeepsStart | Requestrr.WebApi/RequestrrBot/ChatClients/Discord/DiscordMovieUserInterface.cs:57-67 | the label starts with the title's first 90 characters (the whole title if shorter) |
| DiscordText.TvShowTitle | Requestrr.WebApi/RequestrrBot/ChatClients/Discord/DiscordTvShowUserInterface.cs:646-660 | the label is at most 100 characters; the year is appended iff there is one and the title does not already contain it case-insensitively |
| DiscordText.TvShowTitleNoRepeatedYear | Requestrr.WebApi/RequestrrBot/ChatClients/Discord/DiscordTvShowUserInterface.cs:646-660 | a title that ends with its own first-aired year gets no second year |
| DiscordText.ArtistLabel | Requestrr.WebApi/RequestrrBot/ChatClients/Discord/DiscordMusicUserInterface.cs:135-142 | the artist label is at most 100 characters and a short name is shown unchanged |
| DiscordText.SplitOnPlain | Requestrr.WebApi/RequestrrBot/ChatClients/Discord/DiscordMovieUserInterface.cs:148-153 | a message without the token splits into itself |
| DiscordText.SplitOnField | Requestrr.WebApi/RequestrrBot/ChatClients/Discord/DiscordMovieUserInterface.cs:148-153 | splitting on the token separates the part before it from the rest |
| DiscordText.CreateInteractionString | Requestrr.WebApi/RequestrrBot/ChatClients/Discord/DiscordTvShowUserInterface.cs:319-324 | the result never exceeds size; it throws exactly when the room left for the insert is under 3 and the insert does not fit |
| DiscordText.TokenReplaced | Requestrr.WebApi/RequestrrBot/ChatClients/Discord/DiscordTvShowUserInterface.cs:319-324 | a message with one token gets the insert, truncated to the room the rest leaves, in its place |
| DiscordText.TokenAbsent | Requestrr.WebApi/RequestrrBot/ChatClients/Discord/DiscordTvShowUserInterface.cs:319-324 | a message without the token is only truncated to size |
| DiscordText.IssueLocationSuffix | Requestrr.WebApi/RequestrrBot/ChatClients/Discord/DiscordTvShowUserInterface.cs:721-739 | "" iff the season is missing or negative; " - All Seasons" for season 0; " - S{s}" for a positive season without a positive episode |
| DiscordText.EpisodeSuffix | Requestrr.WebApi/RequestrrBot/ChatClients/Discord/DiscordTvShowUserInterface.cs:721-739 | a positive season and episode give " - S{s}E{e}" |
| DiscordText.SeasonName | Requestrr.WebApi/RequestrrBot/ChatClients/Discord/DiscordTvShowUserInterface.cs:741-759 | the all-seasons entry gets the fully-requested mark iff the whole show is requested; any other season gets the fully-requested mark, the partially-requested mark or none, after its base name |
| DiscordText.PartialSeasonMarked | Requestrr.WebApi/RequestrrBot/ChatClients/Discord/DiscordTvShowUserInterface.cs:755 | a partially requested season is labelled with the partially-requested mark |
| SelectOptions.MovieSearchOptions | Requestrr.WebApi/RequestrrBot/ChatClients/Discord/DiscordMovieUserInterface.cs:48-54 | at most 15 options, one per movie in order, valued "{category}/{movie id}", labelled with the movie title (at most 100 characters), none default |
| SelectOptions.MovieSearchOptionPicked | Requestrr.WebApi/RequestrrBot/ChatClients/Discord/DiscordMovieUserInterface.cs:48-54 | picking the k-th option of either movie search list selects the k-th movie in the same category |
| SelectOptions.TvShowSearchOptions | Requestrr.WebApi/RequestrrBot/ChatClients/Discord/DiscordTvShowUserInterface.cs:407-413 | at most 15 options, one per show in order, valued "{category}/{tvdb id}", labelled with the show title, none default |
| SelectOptions.TvShowSearchOptionPicked | Requestrr.WebApi/RequestrrBot/ChatClients/Discord/DiscordTvShowUserInterface.cs:407-413 | picking the k-th option of either show search list selects the k-th show in the same category |
| SelectOptions.ArtistSearchOptions | Requestrr.WebApi/RequestrrBot/ChatClients/Discord/DiscordMusicUserInterface.cs:27-33 | at most 15 options, one per artist in order, valued "{category}/{artist id}", labelled with the artist label |
| SelectOptions.ArtistSearchOptionPicked | Requestrr.WebApi/RequestrrBot/ChatClients/Discord/DiscordMusicUserInterface.cs:27-33 | picking the k-th artist option selects the k-th artist in the same category |
| SelectOptions.IssueSeasonOptions | Requestrr.WebApi/RequestrrBot/ChatClients/Discord/DiscordTvShowUserInterface.cs:677-695 | an "all seasons" option valued "0" comes first only when no season 0 exists (default iff 0 is selected), then one option per season |
| SelectOptions.SeasonEntries | Requestrr.WebApi/RequestrrBot/ChatClients/Discord/DiscordTvShowUserInterface.cs:686-692 | one option per season, valued with its number and default iff that number is the selected one |
| SelectOptions.IssueSeasonOptionAt | Requestrr.WebApi/RequestrrBot/ChatClients/Discord/DiscordTvShowUserInterface.cs:677-695 | every option carries a season number and is default iff that number is selected |
| SelectOptions.SeasonDefaultIffSelected | Requestrr.WebApi/RequestrrBot/ChatClients/Discord/DiscordTvShowUserInterface.cs:677-695 | an option is default iff its value is the selected season number |
| SelectOptions.SeasonOptionPicked | Requestrr.WebApi/RequestrrBot/ChatClients/Discord/DiscordTvShowUserInterface.cs:266-275 | with the corrected routing, picking the k-th season option selects that season with the form's category, show, issue and episode |
| SelectOptions.IssueTypeOptions | Requestrr.WebApi/RequestrrBot/ChatClients/Discord/DiscordTvShowUserInterface.cs:291-293 | one option per issue type, labelled within 100 characters and default iff its value is the selected issue |
| SelectOptions.MovieIssueForm | Requestrr.WebApi/RequestrrBot/ChatClients/Discord/DiscordMovieUserInterface.cs:114-146 | a searcher that cannot report issues gives the not-found warning; otherwise, when the response being edited holds more than one select, its first select (the movie search list) comes first, then the issue list, and the submit button is added last iff an issue is selected |
| SelectOptions.MovieIssueButtonOpensModal | Requestrr.WebApi/RequestrrBot/ChatClients/Discord/DiscordMovieUserInterface.cs:138-142 | the movie issue form's submit button opens the modal for the same category, movie and issue |
| SelectOptions.IssueDefaults | Requestrr.WebApi/RequestrrBot/ChatClients/Discord/DiscordTvShowUserInterface.cs:262-264 | season defaults to 0, episode to -1, and a blank issue becomes "0" |
| SelectOptions.TvIssueForm | Requestrr.WebApi/RequestrrBot/ChatClients/Discord/DiscordTvShowUserInterface.cs:241-316 | without an issue searcher the user gets the not-found warning for the show; otherwise, in this order and at these indexes: the show search list of the response being edited when it has one; the season list (TIRSS id with the issue and episode) when it has options; the episode list (TIRSE id with the issue and season) when a season above 0 has episode options; the issue-type list (TIRS id with the season and episode) always; and the submit button, right after it, iff an issue is selected |
| SelectOptions.TvIssueFormSeasonList | Requestrr.WebApi/RequestrrBot/ChatClients/Discord/DiscordTvShowUserInterface.cs:266-275 | picking any entry of the form's season list fails with the handler as written, and with the corrected routing selects that entry's season keeping the form's issue and episode |
| SelectOptions.IssueSearchListCarried | Requestrr.WebApi/RequestrrBot/ChatClients/Discord/DiscordTvShowUserInterface.cs:253-260 | the show list of a TV issue search, once it holds a show, is recognised as the selector the issue form shows again |
| SelectOptions.OtherListsNotCarried | Requestrr.WebApi/RequestrrBot/ChatClients/Discord/DiscordTvShowUserInterface.cs:667-675 | neither the TV request list nor the form's issue-type list is taken for that selector |
| SelectOptions.TvIssueButtonLocation | Requestrr.WebApi/RequestrrBot/ChatClients/Discord/DiscordTvShowUserInterface.cs:303-313 | the show issue form's submit button, as routed today, loses the season and episode; with the corrected routing it carries the form's season and episode |
| IssueEpisodes.Insert | Requestrr.WebApi/RequestrrBot/ChatClients/Discord/DiscordTvShowUserInterface.cs:713 | inserting into an ascending list keeps it ascending and adds exactly that number |
| IssueEpisodes.SortNumbers | Requestrr.WebApi/RequestrrBot/ChatClients/Discord/DiscordTvShowUserInterface.cs:713 | the episode numbers sorted ascending: an ordered permutation |
| IssueEpisodes.SeasonNumbered | Requestrr.WebApi/RequestrrBot/ChatClients/Discord/DiscordTvShowUserInterface.cs:699-701 | the first season with that number, or none when no season has it |
| IssueEpisodes.BuildIssueEpisodeOptions | Requestrr.WebApi/RequestrrBot/ChatClients/Discord/DiscordTvShowUserInterface.cs:697-719 | no options when the season is missing or has no episodes; otherwise a full-season "0" option (default iff the selected episode is at most 0) and then at most 24 episodes in ascending order, so never more than 25 options |
| IssueEpisodes.EpisodeListAscending | Requestrr.WebApi/RequestrrBot/ChatClients/Discord/DiscordTvShowUserInterface.cs:713-716 | listed episodes are ascending and belong to the season |
| IssueEpisodes.ShortSeasonListsEveryEpisode | Requestrr.WebApi/RequestrrBot/ChatClients/Discord/DiscordTvShowUserInterface.cs:713-716 | a season of at most 24 episodes lists every one of them |
| TvIssueWorkflow.TvShow.ShapeSeasons | Requestrr.WebApi/RequestrrBot/TvShows/TvShowIssueWorkflow.cs:137-159 | a multi-season show gets the "all seasons" entry prepended when the restriction is all-seasons or it has at most 24 seasons, else keeps only its last 25 seasons; other shows are untouched |
| TvIssueWorkflow.ShapedSeasonsPrepends | Requestrr.WebApi/RequestrrBot/TvShows/TvShowIssueWorkflow.cs:141-151 | the prepended entry is an unavailable, unrequested "all seasons" season numbered 0, followed by the original seasons in order |
| TvIssueWorkflow.ShapedSeasonsKeepsLast | Requestrr.WebApi/RequestrrBot/TvShows/TvShowIssueWorkflow.cs:152-155 | a show with more than 24 seasons and no all-seasons restriction keeps exactly its last 25 seasons, in order |
| TvIssueWorkflow.ShapedSeasonsBound | Requestrr.WebApi/RequestrrBot/TvShows/TvShowIssueWorkflow.cs:141-156 | without the all-seasons restriction a shaped show lists at most 25 seasons |
| TvIssueWorkflow.ShapedSeasons | Requestrr.WebApi/RequestrrBot/TvShows/TvShowIssueWorkflow.cs:141-156 | every shaped season is the all-seasons entry or one of the show's seasons, and without the all-seasons restriction a multi-season show lists at most 25 |
| TvIssueWorkflow.FirstNormalSeason | Requestrr.WebApi/RequestrrBot/TvShows/TvShowIssueWorkflow.cs:269 | finds the first normal season with the given number, and none earlier; none when no normal season has it |
| TvIssueWorkflow.TvShow.EnsureSeasonEpisodes | Requestrr.WebApi/RequestrrBot/TvShows/TvShowIssueWorkflow.cs:262-281 | fills the episodes of the selected season from the fetched list, touching nothing else |
| TvIssueWorkflow.WithEpisodesGuards | Requestrr.WebApi/RequestrrBot/TvShows/TvShowIssueWorkflow.cs:264-273 | no season number, a number at most 0, a season not found, a season that already has episodes, or nothing fetched leave the seasons unchanged |
| TvIssueWorkflow.WithEpisodesFills | Requestrr.WebApi/RequestrrBot/TvShows/TvShowIssueWorkflow.cs:269-278 | an existing normal season without episodes gets exactly the fetched episodes and every other season stays as it was |
| TvIssueWorkflow.WithEpisodes | Requestrr.WebApi/RequestrrBot/TvShows/TvShowIssueWorkflow.cs:264-278 | the list keeps its length; each season is unchanged or is the first normal season with the number, given the fetched episodes; a season that has episodes is never changed |
| TvIssueWorkflow.LibraryQuery | Requestrr.WebApi/RequestrrBot/TvShows/TvShowIssueWorkflow.cs:115 | the library query is the name with every '.' replaced by a space, all other characters kept |
| TvIssueWorkflow.SearchByName | Requestrr.WebApi/RequestrrBot/TvShows/TvShowIssueWorkflow.cs:45-61 | without an issue-capable searcher or with no hit the user is warned; one hit opens that show; several hits show the selection list |
| TvIssueWorkflow.SearchById | Requestrr.WebApi/RequestrrBot/TvShows/TvShowIssueWorkflow.cs:70-95 | the show's issue details are displayed exactly when the searcher supports issues and the lookup finds the show; otherwise (also on a failed lookup) the user is warned about the id |
| TvIssueWorkflow.HandleIssueSelection | Requestrr.WebApi/RequestrrBot/TvShows/TvShowIssueWorkflow.cs:168-185 | shapes the seasons, fills the selected season's episodes and displays the issue details with the given issue, season and episode |
| TvIssueWorkflow.HandleSendModal | Requestrr.WebApi/RequestrrBot/TvShows/TvShowIssueWorkflow.cs:194-205 | shapes the seasons, fills the selected season's episodes and opens the issue modal with the given issue, season and episode |
| TvIssueWorkflow.ParseModalKey | Requestrr.WebApi/RequestrrBot/TvShows/TvShowIssueWorkflow.cs:216-221 | a parsed modal key has at least five '/'-separated fields, its show id is field 3 read as a 32-bit integer and its issue is field 4 |
| TvIssueWorkflow.DecodeModalKey | Requestrr.WebApi/RequestrrBot/TvShows/TvShowIssueWorkflow.cs:216-221 | a seven-field key yields the show id, issue, season and episode written in it |
| TvIssueWorkflow.ModalKeyRoundTrip | Requestrr.WebApi/RequestrrBot/TvShows/TvShowIssueWorkflow.cs:216-221 | the key the modal is built with reads back as its show, issue, season and episode, with -1 for a missing season or episode |
| TvIssueWorkflow.PrependIssueLocation | Requestrr.WebApi/RequestrrBot/TvShows/TvShowIssueWorkflow.cs:237-260 | a report with neither season nor episode keeps the description; otherwise the location line and a newline come before it |
| TvIssueWorkflow.Location | Requestrr.WebApi/RequestrrBot/TvShows/TvShowIssueWorkflow.cs:244-257 | the location is a single line, and is "All Seasons" exactly when the season is 0 |
| TvIssueWorkflow.SubmitIssue | Requestrr.WebApi/RequestrrBot/TvShows/TvShowIssueWorkflow.cs:214-235 | an unreadable key fails; otherwise an issue is filed with the show id, issue type and located description exactly when the searcher supports issues, and the result shown is the requester's answer or false when nothing was filed |
| TvIssueWorkflow.UnlocatedReportKeepsText | Requestrr.WebApi/RequestrrBot/TvShows/TvShowIssueWorkflow.cs:214-241 | a report made without season or episode files the user's text unchanged |
| TvIssueWorkflow.EpisodeReportLocated | Requestrr.WebApi/RequestrrBot/TvShows/TvShowIssueWorkflow.cs:214-259 | a report for an episode files "Season n Episode m", a newline and then the user's text |
| MusicWorkflow.ArtistQuery | Requestrr.WebApi/RequestrrBot/Music/MusicRequestingWorkflow.cs:59 | the artist query is the name with every '.' replaced by a space, all other characters kept |
| MusicWorkflow.FindAlbum | Requestrr.WebApi/RequestrrBot/Music/MusicRequestingWorkflow.cs:91 | the first album with the given id, and none exactly when no album has it |
| MusicWorkflow.ArtistPath | Requestrr.WebApi/RequestrrBot/Music/MusicRequestingWorkflow.cs:126-143 | an artist neither available nor requested shows its details; an available one is warned about; a requested one notifies the user of the existing request; no requester call is made |
| MusicWorkflow.AlbumPath | Requestrr.WebApi/RequestrrBot/Music/MusicRequestingWorkflow.cs:99-110 | an album neither available nor requested shows its details; an available one warns it is available; otherwise it warns it is already requested |
| MusicWorkflow.Selection | Requestrr.WebApi/RequestrrBot/Music/MusicRequestingWorkflow.cs:114-124 | an artist with albums shows the album list from page 0; without albums it takes the artist path |
| MusicWorkflow.SearchArtistList | Requestrr.WebApi/RequestrrBot/Music/MusicRequestingWorkflow.cs:55-66 | searches with the dotless query and warns exactly when nothing is found |
| MusicWorkflow.SearchArtist | Requestrr.WebApi/RequestrrBot/Music/MusicRequestingWorkflow.cs:36-52 | no hit warns, several hits show the artist list, and one hit goes on to that artist's selection with the albums listed for it |
| MusicWorkflow.HandleArtistSelection | Requestrr.WebApi/RequestrrBot/Music/MusicRequestingWorkflow.cs:69-72 | selecting an artist by id proceeds exactly as the selection path for that artist and its albums |
| MusicWorkflow.HandleAlbumSelection | Requestrr.WebApi/RequestrrBot/Music/MusicRequestingWorkflow.cs:74-111 | an unknown artist is warned about by id; "all" in any case, or an album id not among the artist's albums, takes the artist path; a listed album takes the album path |
| MusicWorkflow.RequestArtistCommand | Requestrr.WebApi/RequestrrBot/Music/MusicRequestingWorkflow.cs:152-166 | the artist is requested; a denial shows the denial, otherwise success is shown and the user is subscribed to the new request |
| MusicWorkflow.RequestAlbumCommand | Requestrr.WebApi/RequestrrBot/Music/MusicRequestingWorkflow.cs:168-189 | nothing happens for an album id the artist does not have; otherwise the album is requested and the denial or the success is shown |
| MusicWorkflow.ShowAlbumPage | Requestrr.WebApi/RequestrrBot/Music/MusicRequestingWorkflow.cs:191-208 | an unknown artist is warned about; an artist without albums takes the artist path; a known artist with albums gets exactly the album list of that artist at the requested page |
| MusicWorkflow.SingleResultIsSelection | Requestrr.WebApi/RequestrrBot/Music/MusicRequestingWorkflow.cs:46-50 | a search with exactly one hit behaves as selecting that artist |
| MusicWorkflow.PageZeroIsFirstVisit | Requestrr.WebApi/RequestrrBot/Music/MusicRequestingWorkflow.cs:114-124 | page 0 of an artist with albums is what selecting the artist shows |
| MusicWorkflow.UnknownAlbumIsAll | Requestrr.WebApi/RequestrrBot/Music/MusicRequestingWorkflow.cs:84-97 | an album id the artist does not have is handled exactly like "all" |
| MusicWorkflow.RequesterOnlyForListedAlbum | Requestrr.WebApi/RequestrrBot/Music/MusicRequestingWorkflow.cs:172-179 | the requester is called for an album only when the artist has an album with that id |
| LidarrClient.GetBaseUrl | Requestrr.WebApi/RequestrrBot/DownloadClients/Lidarr/LidarrClientV1.cs:232-237 | the URL starts with "https://" exactly when SSL is on, then the host and port, and ends with "/api/v" and the version |
| LidarrClient.TestConnection | Requestrr.WebApi/RequestrrBot/DownloadClients/Lidarr/LidarrClientV1.cs:45-56 | a non-blank base URL not starting with "/" is rejected before any request; otherwise the host-config request goes under the base URL |
| LidarrClient.IsFullAlbum | Requestrr.WebApi/RequestrrBot/DownloadClients/Lidarr/LidarrClientV1.cs:529-563 | a full album has primary type "Album" in any case and no secondary type EP or Single in any case; a missing secondary list counts as none |
| LidarrClient.AnyEpOrSingle | Requestrr.WebApi/RequestrrBot/DownloadClients/Lidarr/LidarrClientV1.cs:537-539 | true exactly when some secondary type is EP or Single, in any case |
| LidarrClient.PosterUrl | Requestrr.WebApi/RequestrrBot/DownloadClients/Lidarr/LidarrClientV1.cs:852-863 | the first image whose cover type is "poster" in any case gives the poster, preferring a non-blank remote URL over the URL; "" when no image is a poster |
| LidarrClient.PosterSkipsOthers | Requestrr.WebApi/RequestrrBot/DownloadClients/Lidarr/LidarrClientV1.cs:854-860 | images before the first poster never affect the poster URL |
| LidarrClient.ConvertToMusic | Requestrr.WebApi/RequestrrBot/DownloadClients/Lidarr/LidarrClientV1.cs:762-782 | available exactly when the size on disk is positive; requested exactly when monitored, or when Lidarr has no id for the artist and new requests are not monitored; the client id is blank exactly when Lidarr has none |
| LidarrClient.ConvertLidarrAlbum | Requestrr.WebApi/RequestrrBot/DownloadClients/Lidarr/LidarrClientV1.cs:784-810 | available exactly when some track file exists or the album was grabbed; requested and monitored follow Lidarr's flag; a default date becomes none; the artist id falls back to the given artist |
| LidarrClient.ConvertReleaseGroup | Requestrr.WebApi/RequestrrBot/DownloadClients/Lidarr/LidarrClientV1.cs:812-834 | a MusicBrainz album is never available, monitored or requested and has no Lidarr id; the first credit's name and id each win when present, and the fallback artist fills only a missing field (both fields without any credit) |
| LidarrClient.InsertByDate | Requestrr.WebApi/RequestrrBot/DownloadClients/Lidarr/LidarrClientV1.cs:338 | inserting an album into a newest-first list keeps it newest first and adds exactly that album |
| LidarrClient.Dated | Requestrr.WebApi/RequestrrBot/DownloadClients/Lidarr/LidarrClientV1.cs:393-397 | the albums of one date: every element has that date, and every album of that date is included |
| LidarrClient.DatedSubsequence | Requestrr.WebApi/RequestrrBot/DownloadClients/Lidarr/LidarrClientV1.cs:393-397 | the albums of one date keep their order in the list |
| LidarrClient.ByDateDescending | Requestrr.WebApi/RequestrrBot/DownloadClients/Lidarr/LidarrClientV1.cs:393-397 | the listing is newest first, with missing dates counting as the earliest, is a permutation of its input, and keeps the albums of each date in their input order (a stable sort) |
| LidarrClient.UndatedLast | Requestrr.WebApi/RequestrrBot/DownloadClients/Lidarr/LidarrClientV1.cs:338 | an album without a date comes after every album whose date is later than the minimum date (a minimum date ties with a missing one) |
| LidarrClient.NewestFirstUnique | Requestrr.WebApi/RequestrrBot/DownloadClients/Lidarr/LidarrClientV1.cs:393-397 | two newest-first lists that hold the albums of every date in the same order are equal |
| LidarrClient.StableDateSort | Requestrr.WebApi/RequestrrBot/DownloadClients/Lidarr/LidarrClientV1.cs:393-397 | any newest-first arrangement that keeps the albums of each date in input order is the date sort's result, so the sort is fully determined |
| LidarrClient.FullAlbums | Requestrr.WebApi/RequestrrBot/DownloadClients/Lidarr/LidarrClientV1.cs:336 | keeps exactly the present albums that are full albums |
| LidarrClient.ConvertAll | Requestrr.WebApi/RequestrrBot/DownloadClients/Lidarr/LidarrClientV1.cs:337 | converts every album with the same fallback artist, position by position |
| LidarrClient.LidarrListing | Requestrr.WebApi/RequestrrBot/DownloadClients/Lidarr/LidarrClientV1.cs:335-339 | the Lidarr listing is newest first, holds exactly the converted full albums, and keeps albums of equal date in Lidarr's order |
| LidarrClient.PageAlbums | Requestrr.WebApi/RequestrrBot/DownloadClients/Lidarr/LidarrClientV1.cs:376-382 | every album of a page is the conversion, with the artist, of one of its full-album release groups, every full-album group is converted into it, and none is available, requested or monitored |
| LidarrClient.PageAlbumsConcat | Requestrr.WebApi/RequestrrBot/DownloadClients/Lidarr/LidarrClientV1.cs:376-382 | release groups are converted independently: the albums of two runs of groups are the albums of each, in order |
| LidarrClient.PageAlbumsSingle | Requestrr.WebApi/RequestrrBot/DownloadClients/Lidarr/LidarrClientV1.cs:376-382 | a single release group contributes its conversion exactly when it is a full album |
| LidarrClient.Pages | Requestrr.WebApi/RequestrrBot/DownloadClients/Lidarr/LidarrClientV1.cs:366-388 | page offsets start at the given offset and grow by 100; a first page is always fetched while below the total; no collected album is available, requested or monitored |
| LidarrClient.CollectPages | Requestrr.WebApi/RequestrrBot/DownloadClients/Lidarr/LidarrClientV1.cs:359-388 | the paging loop collects exactly the albums and offsets of the paging run from offset 0 |
| LidarrClient.SearchMusicBrainzAlbums | Requestrr.WebApi/RequestrrBot/DownloadClients/Lidarr/LidarrClientV1.cs:354-398 | no artist or a blank artist id gives no albums and no fetch; otherwise the albums of the paging run, newest first |
| LidarrClient.SearchAlbums | Requestrr.WebApi/RequestrrBot/DownloadClients/Lidarr/LidarrClientV1.cs:303-350 | an artist Lidarr knows is listed from Lidarr, a failed Lidarr answer being an error; any other artist gets exactly the MusicBrainz listing: nothing for a null artist or blank artist id, else the paging run's albums sorted newest first |
| LidarrClient.ShortFirstPageOnly | Requestrr.WebApi/RequestrrBot/DownloadClients/Lidarr/LidarrClientV1.cs:384-385 | a first page shorter than 100 groups is the only page fetched |
| LidarrClient.FailureKeepsCollected | Requestrr.WebApi/RequestrrBot/DownloadClients/Lidarr/LidarrClientV1.cs:364-393 | a fetch that fails after a full first page keeps that first page's albums |
| LidarrClient.OffsetsBelowTotal | Requestrr.WebApi/RequestrrBot/DownloadClients/Lidarr/LidarrClientV1.cs:366 | every fetched offset is below the total the first page reported |
| LidarrClient.Hits | Requestrr.WebApi/RequestrrBot/DownloadClients/Lidarr/LidarrClientV1.cs:646-655 | the categories whose id is the requested one, all of them |
| LidarrClient.CategoryById | Requestrr.WebApi/RequestrrBot/DownloadClients/Lidarr/LidarrClientV1.cs:646-655 | a found category is listed and has the requested id; no category has it gives none |
| LidarrClient.UniqueCategoryFound | Requestrr.WebApi/RequestrrBot/DownloadClients/Lidarr/LidarrClientV1.cs:646-655 | a category whose id no other category shares is found |
| LidarrClient.HitsOfUnique | Requestrr.WebApi/RequestrrBot/DownloadClients/Lidarr/LidarrClientV1.cs:646-655 | a category with a unique id is its id's only hit |
| LidarrClient.NoHits | Requestrr.WebApi/RequestrrBot/DownloadClients/Lidarr/LidarrClientV1.cs:646-655 | an id no category has has no hits |
| LidarrClient.SharedCategoryIdFails | Requestrr.WebApi/RequestrrBot/DownloadClients/Lidarr/LidarrClientV1.cs:646-655 | two categories sharing the requested id make the lookup fail |
| LidarrClient.HitsCount | Requestrr.WebApi/RequestrrBot/DownloadClients/Lidarr/LidarrClientV1.cs:646-655 | two categories with the id give at least two hits |
| LidarrClient.Payload | Requestrr.WebApi/RequestrrBot/DownloadClients/Lidarr/LidarrClientV1.cs:657-672 | the create payload is monitored exactly when the artist is monitored and new requests are, monitors new items "all" or "none" with the artist, searches missing albums exactly when asked and new requests are searched, and takes the artist id and the category's profiles, tags and root folder |
| LidarrClient.CreateRequest | Requestrr.WebApi/RequestrrBot/DownloadClients/Lidarr/LidarrClientV1.cs:642-675 | a create payload is built exactly when the category lookup succeeds, with that category's quality profile and the monitor and search flags |
| LidarrClient.RequestRoute | Requestrr.WebApi/RequestrrBot/DownloadClients/Lidarr/LidarrClientV1.cs:568-576 | an artist with a blank Lidarr id is created, monitored and searched as new requests are; any other is updated and monitored |
| LidarrClient.UpdateOf | Requestrr.WebApi/RequestrrBot/DownloadClients/Lidarr/LidarrClientV1.cs:678-733 | an unparsable Lidarr id or a failed lookup fails; an artist Lidarr no longer has is recreated without searching; a found artist is updated with the category's tags, monitored as the flags say, and searched exactly when monitored and new requests are searched |
| LidarrClient.LostArtistNotSearched | Requestrr.WebApi/RequestrrBot/DownloadClients/Lidarr/LidarrClientV1.cs:684-691 | a requested artist that Lidarr lost is recreated monitored as new requests are, without a search for missing albums |
| ProfileMapper.NormalizeSecondaryTypeValue | Requestrr.WebApi/Controllers/DownloadClients/Lidarr/LidarrMetadataProfileMapper.cs:91-110 | a blank value is dropped; any other value is trimmed and then mapped through the case-insensitive alias table |
| ProfileMapper.NormalizeReleaseStatusValue | Requestrr.WebApi/Controllers/DownloadClients/Lidarr/LidarrMetadataProfileMapper.cs:112-121 | a blank value is dropped; any other value is trimmed, "Pseudo Release" in any case becoming "Pseudo-Release" |
| ProfileMapper.NormalizeValue | Requestrr.WebApi/Controllers/DownloadClients/Lidarr/LidarrMetadataProfileMapper.cs:27-57 | per list, the value step of its pipeline: blank values are dropped, primary types are only trimmed |
| ProfileMapper.TrimmedNormalize | Requestrr.WebApi/Controllers/DownloadClients/Lidarr/LidarrMetadataProfileMapper.cs:93-109 | a value with no surrounding white space becomes its alias, or stays itself when it has none |
| ProfileMapper.DjMixTarget | Requestrr.WebApi/Controllers/DownloadClients/Lidarr/LidarrMetadataProfileMapper.cs:97-100 | "DJ-mix", the alias target, normalises to itself |
| ProfileMapper.SpokenwordTarget | Requestrr.WebApi/Controllers/DownloadClients/Lidarr/LidarrMetadataProfileMapper.cs:101-102 | "Spokenword", the alias target, normalises to itself |
| ProfileMapper.AudioDramaTarget | Requestrr.WebApi/Controllers/DownloadClients/Lidarr/LidarrMetadataProfileMapper.cs:103-104 | "Audio drama", the alias target, normalises to itself |
| ProfileMapper.MixtapeStreetTarget | Requestrr.WebApi/Controllers/DownloadClients/Lidarr/LidarrMetadataProfileMapper.cs:105-106 | "Mixtape/Street", the alias target, normalises to itself |
| ProfileMapper.SoundtrackTarget | Requestrr.WebApi/Controllers/DownloadClients/Lidarr/LidarrMetadataProfileMapper.cs:107-108 | "Soundtrack", the alias target, normalises to itself |
| ProfileMapper.AliasFixed | Requestrr.WebApi/Controllers/DownloadClients/Lidarr/LidarrMetadataProfileMapper.cs:97-109 | every alias target normalises to itself |
| ProfileMapper.StatusTargetFixed | Requestrr.WebApi/Controllers/DownloadClients/Lidarr/LidarrMetadataProfileMapper.cs:118-119 | "Pseudo-Release" normalises to itself |
| ProfileMapper.TrimmedFixed | Requestrr.WebApi/Controllers/DownloadClients/Lidarr/LidarrMetadataProfileMapper.cs:93-109 | a trimmed secondary type without an alias normalises to itself |
| ProfileMapper.SecondaryIdempotent | Requestrr.WebApi/Controllers/DownloadClients/Lidarr/LidarrMetadataProfileMapper.cs:91-110 | normalising a secondary type twice is normalising it once, and the result is never blank |
| ProfileMapper.StatusTrimmedFixed | Requestrr.WebApi/Controllers/DownloadClients/Lidarr/LidarrMetadataProfileMapper.cs:114-120 | a trimmed release status other than "Pseudo Release" normalises to itself |
| ProfileMapper.StatusIdempotent | Requestrr.WebApi/Controllers/DownloadClients/Lidarr/LidarrMetadataProfileMapper.cs:112-121 | normalising a release status twice is normalising it once, and the result is never blank |
| ProfileMapper.NormalizeValueIdempotent | Requestrr.WebApi/Controllers/DownloadClients/Lidarr/LidarrMetadataProfileMapper.cs:27-121 | for every list, the value step is idempotent on non-blank values |
| ProfileMapper.Kept | Requestrr.WebApi/Controllers/DownloadClients/Lidarr/LidarrMetadataProfileMapper.cs:27-57 | the values kept after dropping blanks, normalising and filtering to the allowed set are all settled (normalised, allowed, non-blank), and no more than the input |
| ProfileMapper.KeptStep | Requestrr.WebApi/Controllers/DownloadClients/Lidarr/LidarrMetadataProfileMapper.cs:27-57 | a value is kept, normalised, exactly when it is non-blank and its normalised form is allowed; the rest keep their order |
| ProfileMapper.KeptContains | Requestrr.WebApi/Controllers/DownloadClients/Lidarr/LidarrMetadataProfileMapper.cs:27-57 | every non-blank value whose normalised form is allowed appears among the kept values |
| ProfileMapper.KeptSettled | Requestrr.WebApi/Controllers/DownloadClients/Lidarr/LidarrMetadataProfileMapper.cs:27-57 | a list of settled values is kept whole |
| ProfileMapper.DistinctFrom | Requestrr.WebApi/Controllers/DownloadClients/Lidarr/LidarrMetadataProfileMapper.cs:27-57 | the kept values come from the input, none has a key already seen, and no two share a key ignoring case |
| ProfileMapper.DistinctFromCovers | Requestrr.WebApi/Controllers/DownloadClients/Lidarr/LidarrMetadataProfileMapper.cs:27-57 | every key of the input is either already seen or kept |
| ProfileMapper.DistinctIgnoringCase | Requestrr.WebApi/Controllers/DownloadClients/Lidarr/LidarrMetadataProfileMapper.cs:27-57 | case-insensitive de-duplication keeps exactly the input's keys, no two values sharing one, and is exactly the first value of each key in input order |
| ProfileMapper.DistinctFromUnique | Requestrr.WebApi/Controllers/DownloadClients/Lidarr/LidarrMetadataProfileMapper.cs:27-57 | a list without case-insensitive duplicates, none already seen, is kept whole |
| ProfileMapper.DistinctFromFirstOccurrences | Requestrr.WebApi/Controllers/DownloadClients/Lidarr/LidarrMetadataProfileMapper.cs:27-57 | de-duplication after the seen keys keeps exactly the values that are the first of their key and whose key is unseen, in input order |
| ProfileMapper.Normalize | Requestrr.WebApi/Controllers/DownloadClients/Lidarr/LidarrMetadataProfileMapper.cs:27-57 | a null list gives []; every output value is settled for its list, no two share a key ignoring case, and the output is exactly the first kept value of each key, in input order |
| ProfileMapper.NormalizeIdempotent | Requestrr.WebApi/Controllers/DownloadClients/Lidarr/LidarrMetadataProfileMapper.cs:27-121 | normalising a normalised list returns it unchanged |
| ProfileMapper.NormalizeKeepsAllowed | Requestrr.WebApi/Controllers/DownloadClients/Lidarr/LidarrMetadataProfileMapper.cs:27-57 | every non-blank input whose normalised form is allowed is represented in the output |
| ProfileMapper.ProfileById | Requestrr.WebApi/Controllers/DownloadClients/Lidarr/LidarrMetadataProfileMapper.cs:12-16 | a found profile is listed with the requested id; none exactly when no profile has it |
| ProfileMapper.Filtered | Requestrr.WebApi/Controllers/DownloadClients/Lidarr/LidarrMetadataProfileMapper.cs:19-23 | a filtered category keeps every other field, has no release types, and holds its profile's normalised lists, empty for a null list, each clean: settled, non-blank and without case-insensitive repeats |
| ProfileMapper.FilteredIdempotent | Requestrr.WebApi/Controllers/DownloadClients/Lidarr/LidarrMetadataProfileMapper.cs:19-23 | filtering a category again with its own normalised lists changes nothing |
| ProfileMapper.FirstUnmatched | Requestrr.WebApi/Controllers/DownloadClients/Lidarr/LidarrMetadataProfileMapper.cs:14-17 | the first category whose metadata profile is unknown, every earlier one being known |
| ProfileMapper.ApplyProfileFilters | Requestrr.WebApi/Controllers/DownloadClients/Lidarr/LidarrMetadataProfileMapper.cs:10-25 | duplicate profile ids fail and change nothing; otherwise the categories before the first unknown profile are filtered in place, the rest stay unchanged, and success means every category matched |
| ProfileMapper.FilterUntilUnmatched | Requestrr.WebApi/Controllers/DownloadClients/Lidarr/LidarrMetadataProfileMapper.cs:14-24 | the loop rewrites the categories in order until the first unknown profile, leaving that one and the rest unchanged |
| ProfileSync.ConvertCategory | Requestrr.WebApi/RequestrrBot/DownloadClients/Lidarr/LidarrMetadataProfileStartupSyncService.cs:102-114 | every field is copied and a null list becomes empty; a category with all its lists present survives storing and converting unchanged |
| ProfileSync.ConvertStored | Requestrr.WebApi/RequestrrBot/DownloadClients/Lidarr/LidarrMetadataProfileStartupSyncService.cs:102-114 | converting a stored model category gives it back |
| ProfileSync.ConvertToModel | Requestrr.WebApi/RequestrrBot/DownloadClients/Lidarr/LidarrMetadataProfileStartupSyncService.cs:89-116 | every setting is copied, restrictions are left unset, a null category list becomes empty and each category is converted in order |
| ProfileSync.SetEquals | Requestrr.WebApi/RequestrrBot/DownloadClients/Lidarr/LidarrMetadataProfileStartupSyncService.cs:139-152 | two lists are set-equal exactly when every non-blank value of each matches, trimmed and ignoring case, some value of the other |
| ProfileSync.CoveredKeys | Requestrr.WebApi/RequestrrBot/DownloadClients/Lidarr/LidarrMetadataProfileStartupSyncService.cs:141-149 | one list is covered by another exactly when its trimmed, case-folded keys are a subset of the other's |
| ProfileSync.FiltersChanged | Requestrr.WebApi/RequestrrBot/DownloadClients/Lidarr/LidarrMetadataProfileStartupSyncService.cs:121-134 | a category with no old counterpart has changed; an unchanged one has the same primary types, secondary types and release statuses as sets |
| ProfileSync.SetEqualsNullBlank | Requestrr.WebApi/RequestrrBot/DownloadClients/Lidarr/LidarrMetadataProfileStartupSyncService.cs:139-152 | a null list equals a list holding only blank values |
| ProfileSync.SetEqualsPermutation | Requestrr.WebApi/RequestrrBot/DownloadClients/Lidarr/LidarrMetadataProfileStartupSyncService.cs:139-152 | reordering a list never changes set equality |
| ProfileSync.SetEqualsRepeat | Requestrr.WebApi/RequestrrBot/DownloadClients/Lidarr/LidarrMetadataProfileStartupSyncService.cs:139-152 | repeating a value never changes set equality |
| ProfileSync.SetEqualsCaseAndSpace | Requestrr.WebApi/RequestrrBot/DownloadClients/Lidarr/LidarrMetadataProfileStartupSyncService.cs:141-149 | values that differ only in case or surrounding white space compare equal |
| ProfileSync.OldById | Requestrr.WebApi/RequestrrBot/DownloadClients/Lidarr/LidarrMetadataProfileStartupSyncService.cs:120-123 | the old category with the given id, none exactly when no old category has it |
| ProfileSync.OldByIdFinds | Requestrr.WebApi/RequestrrBot/DownloadClients/Lidarr/LidarrMetadataProfileStartupSyncService.cs:120-123 | with distinct old ids, every old category is found by its id |
| ProfileSync.AnyFiltersChanged | Requestrr.WebApi/RequestrrBot/DownloadClients/Lidarr/LidarrMetadataProfileStartupSyncService.cs:121-136 | true exactly when some new category has no old counterpart or differs from it in its primary types, secondary types or release statuses as sets |
| ProfileSync.HasFilterChanges | Requestrr.WebApi/RequestrrBot/DownloadClients/Lidarr/LidarrMetadataProfileStartupSyncService.cs:118-137 | fails exactly when two old categories share an id; otherwise reports a change exactly when some new category has none or a differing filter set |
| ProfileSync.ConvertedCategoryUnchanged | Requestrr.WebApi/RequestrrBot/DownloadClients/Lidarr/LidarrMetadataProfileStartupSyncService.cs:89-137 | a converted stored category shows no filter change against the stored list |
| ProfileSync.ConvertedUnchanged | Requestrr.WebApi/RequestrrBot/DownloadClients/Lidarr/LidarrMetadataProfileStartupSyncService.cs:89-137 | the converted settings never show a filter change against themselves |
| ProfileSync.TagsAndReleaseTypesIgnored | Requestrr.WebApi/RequestrrBot/DownloadClients/Lidarr/LidarrMetadataProfileStartupSyncService.cs:126-133 | changing a new category's tags or legacy release types never changes the outcome |
| ProfileSync.FilteredCategories | Requestrr.WebApi/RequestrrBot/DownloadClients/Lidarr/LidarrMetadataProfileStartupSyncService.cs:65-66 | each category filtered by its own metadata profile, in order |
| ProfileSync.FilterCategories | Requestrr.WebApi/RequestrrBot/DownloadClients/Lidarr/LidarrMetadataProfileStartupSyncService.cs:65-66 | the profile filters succeed exactly when the profile ids are distinct and every category's profile exists, and then give each category filtered by its profile |
| ProfileSync.FilteredCategoriesUnique | Requestrr.WebApi/RequestrrBot/DownloadClients/Lidarr/LidarrMetadataProfileStartupSyncService.cs:65-66 | the categories filtered from the converted ones are exactly the filtered categories |
| ProfileSync.Refresh | Requestrr.WebApi/RequestrrBot/DownloadClients/Lidarr/LidarrMetadataProfileStartupSyncService.cs:60-71 | fails exactly when the filters cannot be applied or old ids repeat; otherwise writes the filtered model exactly when some filter set changed |
| ProfileSync.Sync | Requestrr.WebApi/RequestrrBot/DownloadClients/Lidarr/LidarrMetadataProfileStartupSyncService.cs:45-78 | skipped exactly when the client is not Lidarr ignoring case, Lidarr is not configured (host, API key and version non-blank, port positive) or there are no categories; otherwise fails, stays unchanged, or writes the converted settings with the filtered categories exactly when a filter set changed |
| LidarrController.CountDistinct | Requestrr.WebApi/Controllers/DownloadClients/Lidarr/LidarrClientController.cs:178-182 | a set built from a list is never larger than the list, and is as large exactly when the list has no repeats |
| LidarrController.ValidNameTrimmed | Requestrr.WebApi/Controllers/DownloadClients/Lidarr/LidarrClientController.cs:184-185 | a name matching the category-name pattern has no surrounding white space and is not blank |
| LidarrController.NameKeys | Requestrr.WebApi/Controllers/DownloadClients/Lidarr/LidarrClientController.cs:178 | the lower-cased name of each category, in order |
| LidarrController.Ids | Requestrr.WebApi/Controllers/DownloadClients/Lidarr/LidarrClientController.cs:181 | the id of each category, in order |
| LidarrController.CheckTrimmed | Requestrr.WebApi/Controllers/DownloadClients/Lidarr/LidarrClientController.cs:178-185 | trimmed categories pass exactly when their names differ ignoring case, their ids differ and every name matches the pattern; repeated names are reported before repeated ids, and those before an invalid name |
| LidarrController.ConvertToLidarrSettings | Requestrr.WebApi/Controllers/DownloadClients/Lidarr/LidarrClientController.cs:234-245 | the API key, host name and base URL are trimmed (a null one is an error), and the port, SSL flag and version are copied |
| LidarrController.ConvertIdempotent | Requestrr.WebApi/Controllers/DownloadClients/Lidarr/LidarrClientController.cs:234-245 | converting already-converted settings again changes nothing |
| LidarrController.ConvertedConfigured | Requestrr.WebApi/Controllers/DownloadClients/Lidarr/LidarrClientController.cs:234-245 | the converted settings count as configured exactly when the host name and API key are non-blank, the version is non-blank and the port is positive |
| LidarrController.StoredRestrictions | Requestrr.WebApi/Controllers/DownloadClients/Lidarr/LidarrClientController.cs:164 | blank or missing restrictions are stored as "None", any other value as given |
| LidarrController.TrimNames | Requestrr.WebApi/Controllers/DownloadClients/Lidarr/LidarrClientController.cs:173-176 | every category name is trimmed in place and nothing else changes |
| LidarrController.TrimmedStillNamed | Requestrr.WebApi/Controllers/DownloadClients/Lidarr/LidarrClientController.cs:170-176 | trimming keeps every category named |
| LidarrController.SaveAsync | Requestrr.WebApi/Controllers/DownloadClients/Lidarr/LidarrClientController.cs:159-225 | rejects an empty list, then a blank name (before trimming), then repeated names, repeated ids or an invalid name (after trimming), then unavailable profiles, repeated profile ids or a category with an unknown profile; otherwise saves the client as Lidarr with the stored restrictions and the trimmed connection and filtered categories |
| LidarrController.FetchAndFilter | Requestrr.WebApi/Controllers/DownloadClients/Lidarr/LidarrClientController.cs:187-225 | unavailable profiles are rejected with the categories untouched; repeated profile ids or an unknown profile reject; otherwise every category is filtered by its profile and saved with the trimmed connection |
| LidarrController.FilterInPlace | Requestrr.WebApi/Controllers/DownloadClients/Lidarr/LidarrClientController.cs:200-207 | repeated profile ids, or the first category whose profile is unknown, name the rejection; otherwise every category is filtered by its profile |
| LidarrController.SavedNamesClean | Requestrr.WebApi/Controllers/DownloadClients/Lidarr/LidarrClientController.cs:173-185 | every name that passed validation is present, trimmed and not blank |
| DiscordSettingsEquality.Canonical | Requestrr.WebApi/RequestrrBot/ChatClients/Discord/DiscordSettings.cs:36-52 | the settings with every null array replaced by an empty one, so no array field is null |
| DiscordSettingsEquality.Equals | Requestrr.WebApi/RequestrrBot/ChatClients/Discord/DiscordSettings.cs:30-54 | only a settings object can be equal, and two settings are equal exactly when they agree once null arrays are read as empty: every scalar field equal and every array equal element by element |
| DiscordSettingsEquality.OnlySettingsEqual | Requestrr.WebApi/RequestrrBot/ChatClients/Discord/DiscordSettings.cs:32 | nothing that is not a settings object (including null) is equal to settings |
| DiscordSettingsEquality.EqualsEquivalence | Requestrr.WebApi/RequestrrBot/ChatClients/Discord/DiscordSettings.cs:30-54 | equality is reflexive, symmetric and transitive |
| DiscordSettingsEquality.NullArrayEqualsEmpty | Requestrr.WebApi/RequestrrBot/ChatClients/Discord/DiscordSettings.cs:36 | a null array field equals an empty one |
| DiscordSettingsEquality.OrderMatters | Requestrr.WebApi/RequestrrBot/ChatClients/Discord/DiscordSettings.cs:36 | the same two channels in the other order are not equal |
| DiscordSettingsEquality.CanonicalNoRestart | Requestrr.WebApi/RequestrrBot/ChatBot.cs:113 | with a running bot and the language and guilds unchanged, settings that agree up to null arrays never restart the bot |
| DiscordSettingsEquality.ShouldRestart | Requestrr.WebApi/RequestrrBot/ChatBot.cs:113 | a language or guild change restarts; a stopped bot with its wait over and a token restarts; a running bot with language and guilds unchanged restarts exactly when the settings differ up to null arrays |
| LidarrActions.SetConnectionSettings | Requestrr.WebApi/ClientApp/src/store/actions/LidarrClientActions.jsx:84-106 | the host name, base URL, port, API key, SSL flag and version become the given ones and every other key is kept |
| LidarrActions.ConnectionLensLaws | Requestrr.WebApi/ClientApp/src/store/actions/LidarrClientActions.jsx:84-106 | writing back the current connection changes nothing, and a second connection update overrides the first |
| LidarrActions.AddCategory | Requestrr.WebApi/ClientApp/src/store/actions/LidarrClientActions.jsx:109-129 | the new category is appended after the existing ones, which are unchanged, and nothing else changes |
| LidarrActions.WithoutId | Requestrr.WebApi/ClientApp/src/store/actions/LidarrClientActions.jsx:137 | keeps exactly the categories whose id differs from the given one |
| LidarrActions.RemoveCategory | Requestrr.WebApi/ClientApp/src/store/actions/LidarrClientActions.jsx:132-152 | the categories left are exactly those with a different id, and nothing else changes |
| LidarrActions.WithoutAbsentId | Requestrr.WebApi/ClientApp/src/store/actions/LidarrClientActions.jsx:137 | removing an id no category has changes nothing |
| LidarrActions.WithoutIdConcat | Requestrr.WebApi/ClientApp/src/store/actions/LidarrClientActions.jsx:137 | removal works on each part of a list independently, so the kept categories stay in their order |
| LidarrActions.WithoutIdIdempotent | Requestrr.WebApi/ClientApp/src/store/actions/LidarrClientActions.jsx:137 | removing the same id twice is removing it once |
| LidarrActions.RemoveUndoesAdd | Requestrr.WebApi/ClientApp/src/store/actions/LidarrClientActions.jsx:109-152 | adding a category with a new id and then removing that id gives back the state |
| LidarrActions.FilterIn | Requestrr.WebApi/ClientApp/src/store/actions/LidarrClientActions.jsx:174-180 | the entries of the fixed ordered list that the data contains, and no others |
| LidarrActions.FilterInSameElements | Requestrr.WebApi/ClientApp/src/store/actions/LidarrClientActions.jsx:174-180 | only which listed entries the data contains matters, not its order or repeats |
| LidarrActions.FilterInIdempotent | Requestrr.WebApi/ClientApp/src/store/actions/LidarrClientActions.jsx:174-180 | filtering a filtered list again changes nothing |
| LidarrActions.FilterInDistinct | Requestrr.WebApi/ClientApp/src/store/actions/LidarrClientActions.jsx:176-180 | a fixed list without repeats gives a result without repeats |
| LidarrActions.FilterInAll | Requestrr.WebApi/ClientApp/src/store/actions/LidarrClientActions.jsx:174-180 | data containing every entry gives the whole fixed list |
| LidarrActions.TagIds | Requestrr.WebApi/ClientApp/src/store/actions/LidarrClientActions.jsx:174 | the id of each known tag, in order |
| LidarrActions.Apply | Requestrr.WebApi/ClientApp/src/store/actions/LidarrClientActions.jsx:163-183 | the named field of the category takes the new value and every other field is kept; tags become the known tag ids in the data and the type and status lists the entries of their fixed lists in the data; an unknown field leaves the category as it was |
| LidarrActions.ApplyIdempotent | Requestrr.WebApi/ClientApp/src/store/actions/LidarrClientActions.jsx:163-183 | applying the same edit twice is applying it once |
| LidarrActions.SetCategory | Requestrr.WebApi/ClientApp/src/store/actions/LidarrClientActions.jsx:155-201 | the loop replaces every category with the id by its edited copy and keeps every other key |
| LidarrActions.Edited | Requestrr.WebApi/ClientApp/src/store/actions/LidarrClientActions.jsx:161-185 | same length; every category keeps its id; exactly the categories with the id become their edited copy and the others stay as they were |
| LidarrActions.EditedNoChange | Requestrr.WebApi/ClientApp/src/store/actions/LidarrClientActions.jsx:161-185 | an unknown field or an id no category has leaves every category as it was |
| LidarrActions.EditedIdempotent | Requestrr.WebApi/ClientApp/src/store/actions/LidarrClientActions.jsx:161-185 | repeating the same edit changes nothing more |
| LidarrActions.RemoveAfterEdit | Requestrr.WebApi/ClientApp/src/store/actions/LidarrClientActions.jsx:132-185 | editing categories and then removing their id is removing it |
| LidarrActions.SetCategoriesAsWritten | Requestrr.WebApi/ClientApp/src/store/actions/LidarrClientActions.jsx:204-221 | as written, the list lands under the misspelt key and the categories stay unchanged |
| LidarrActions.SetCategoriesAsWrittenLosesList | Requestrr.WebApi/ClientApp/src/store/actions/LidarrClientActions.jsx:204-221 | as written, a different list never reaches the categories |
| LidarrActions.SetCategories | Requestrr.WebApi/ClientApp/src/store/actions/LidarrClientActions.jsx:204-221 | corrected, the categories become the given list and nothing else changes |
| LidarrActions.SetCategoriesLensLaws | Requestrr.WebApi/ClientApp/src/store/actions/LidarrClientActions.jsx:204-221 | writing back the current list changes nothing, a second write overrides the first, and removal then works on the written list |
| LidarrActions.LoadList | Requestrr.WebApi/ClientApp/src/store/actions/LidarrClientActions.jsx:224-377 | a loader dispatches and fetches only when the list is neither loaded nor loading, or a reload is forced; it then starts loading and stores the received list, or an empty list on failure |
| LidarrActions.LoadTags | Requestrr.WebApi/ClientApp/src/store/actions/LidarrClientActions.jsx:385-431 | the tag loader obeys the same guard and stores the tags with whether the fetch succeeded, an empty list on failure |
| LidarrActions.LoadGuard | Requestrr.WebApi/ClientApp/src/store/actions/LidarrClientActions.jsx:224-431 | a forced reload always fetches; a loaded or loading list is not fetched again; a failed fetch stores an empty list |
| MusicView.Rank | Requestrr.WebApi/ClientApp/src/views/Music.jsx:133-136 | a listed release type ranks at its position in the order list, any other type after all of them |
| MusicView.Insert | Requestrr.WebApi/ClientApp/src/views/Music.jsx:132-142 | inserting a type adds exactly that type |
| MusicView.InsertSorted | Requestrr.WebApi/ClientApp/src/views/Music.jsx:132-142 | inserting into a list in comparator order keeps it in order |
| MusicView.SortTypes | Requestrr.WebApi/ClientApp/src/views/Music.jsx:132-142 | the sort is a permutation in comparator order: by rank, ties by string order |
| MusicView.SortedPairwise | Requestrr.WebApi/ClientApp/src/views/Music.jsx:132-142 | in a sorted list every earlier type comes no later than every later one |
| MusicView.SortedUnique | Requestrr.WebApi/ClientApp/src/views/Music.jsx:132-142 | two sorted lists without repeats holding the same types are equal, so the order is fully determined |
| MusicView.PrimaryTypes | Requestrr.WebApi/ClientApp/src/views/Music.jsx:129 | exactly the primary types some category offers |
| MusicView.NonBlank | Requestrr.WebApi/ClientApp/src/views/Music.jsx:130 | exactly the types that are not blank |
| MusicView.Dedup | Requestrr.WebApi/ClientApp/src/views/Music.jsx:128-130 | the same types, each once |
| MusicView.AvailableTypes | Requestrr.WebApi/ClientApp/src/views/Music.jsx:127-142 | the available types are exactly the non-blank types some category offers, each once, in comparator order |
| MusicView.SortKeepsDistinct | Requestrr.WebApi/ClientApp/src/views/Music.jsx:132 | sorting a list without repeats gives a list without repeats |
| MusicView.DistinctOnce | Requestrr.WebApi/ClientApp/src/views/Music.jsx:128 | a list without repeats holds each type at most once |
| MusicView.ItemFor | Requestrr.WebApi/ClientApp/src/views/Music.jsx:144-147 | the item of a type has the id "Single:" followed by the type |
| MusicView.ItemForInjective | Requestrr.WebApi/ClientApp/src/views/Music.jsx:144-147 | different types give different item ids |
| MusicView.RestrictionItems | Requestrr.WebApi/ClientApp/src/views/Music.jsx:126-148 | one item per available type, in the sorted order |
| MusicView.RestrictionItemsExact | Requestrr.WebApi/ClientApp/src/views/Music.jsx:126-148 | a type has an item exactly when it is non-blank and some category offers it; item ids are distinct and in comparator order |
| MusicView.RestrictionItemsOrderFree | Requestrr.WebApi/ClientApp/src/views/Music.jsx:126-148 | the items depend only on which types are offered, not on the categories' order or repeats |
| MusicView.NormalizeLegacy | Requestrr.WebApi/ClientApp/src/views/Music.jsx:150-155 | the three legacy names map to their "Single:" ids and every other value is kept |
| MusicView.NormalizeLegacyIdempotent | Requestrr.WebApi/ClientApp/src/views/Music.jsx:150-155 | normalising twice is normalising once, and a "Single:" id is kept |
| MusicView.SelectedIdsOf | Requestrr.WebApi/ClientApp/src/views/Music.jsx:161-164 | an id is selected exactly when it is non-empty and is the trimmed, normalised form of some field |
| MusicView.SelectedIds | Requestrr.WebApi/ClientApp/src/views/Music.jsx:157-164 | an id is selected exactly when it is non-empty and is the trimmed, normalised form of some comma-separated field of the stored string |
| MusicView.KeepSelected | Requestrr.WebApi/ClientApp/src/views/Music.jsx:166 | exactly the items whose id is selected, as a subsequence of the items (their order kept), without repeats when the items have none |
| MusicView.KeepSelectedConcat | Requestrr.WebApi/ClientApp/src/views/Music.jsx:166 | the filter works on each part of the items independently, so the kept items stay in order |
| MusicView.SelectedRestrictions | Requestrr.WebApi/ClientApp/src/views/Music.jsx:157-167 | empty or "None" restrictions select nothing; otherwise exactly the available items whose id appears among the trimmed, normalised fields, in the available items' order and without repeats |
| MusicView.IdsOf | Requestrr.WebApi/ClientApp/src/views/Music.jsx:170 | the id of each item, in order |
| MusicView.NormalizeAll | Requestrr.WebApi/ClientApp/src/views/Music.jsx:176 | every id normalised, in order |
| MusicView.RestrictionsString | Requestrr.WebApi/ClientApp/src/views/Music.jsx:169-177 | no item, or a missing list, is stored as "None" |
| MusicView.StoredAsJoin | Requestrr.WebApi/ClientApp/src/views/Music.jsx:169-177 | a non-empty selection is stored as its normalised ids joined by commas |
| MusicView.AvailableIdsClean | Requestrr.WebApi/ClientApp/src/views/Music.jsx:126-177 | ids of available items without commas or surrounding white space are clean: non-empty, trimmed and never legacy names |
| MusicView.CleanIdsReadBack | Requestrr.WebApi/ClientApp/src/views/Music.jsx:157-177 | clean ids joined by commas read back as the same ids |
| MusicView.StoredString | Requestrr.WebApi/ClientApp/src/views/Music.jsx:157-177 | storing a non-empty set of storable available items gives a string that is neither empty nor "None" and reads back as their ids |
| MusicView.StoredIdsReadBack | Requestrr.WebApi/ClientApp/src/views/Music.jsx:157-177 | a non-empty selection of clean ids reads back as the same ids |
| MusicView.StoredItemsMatch | Requestrr.WebApi/ClientApp/src/views/Music.jsx:166-170 | among the available items, exactly the chosen ones have a chosen id |
| MusicView.StoredSelectionMatches | Requestrr.WebApi/ClientApp/src/views/Music.jsx:157-170 | a string that reads back as the chosen ids selects exactly the chosen items |
| MusicView.SelectedFromIds | Requestrr.WebApi/ClientApp/src/views/Music.jsx:157-167 | a stored string selects exactly the available items with an id it lists |
| MusicView.SelectedIdsOfClean | Requestrr.WebApi/ClientApp/src/views/Music.jsx:164 | no clean id is dropped |
| MusicView.RestrictionsRoundTrip | Requestrr.WebApi/ClientApp/src/views/Music.jsx:157-177 | storing available items with comma-free, trimmed ids and reading the string back gives the same items |
| MusicView.EmptySelection | Requestrr.WebApi/ClientApp/src/views/Music.jsx:157-177 | clearing the selection stores "None", which reads back as nothing selected |
| MusicView.StoredSingle | Requestrr.WebApi/ClientApp/src/views/Music.jsx:169-177 | one item is stored as its id alone |
| MusicView.TrailingIdDropped | Requestrr.WebApi/ClientApp/src/views/Music.jsx:161-164 | an id ending in white space is trimmed when read back, so it is not found as written |
| MusicView.TrailingSpaceNotReadBack | Requestrr.WebApi/ClientApp/src/views/Music.jsx:126-177 | an offered type ending in white space can be stored but is not selected when read back |
| MusicPage.RequestFor | Requestrr.WebApi/ClientApp/src/views/Music.jsx:73-82 | a disabled client saves as disabled; Lidarr saves its values and restrictions |
| MusicPage.SaveMessage | Requestrr.WebApi/ClientApp/src/views/Music.jsx:88-101 | a successful save leaves no error; a failed one shows the server's error text, or the generic message when there is none |
| MusicPage.CanSave | Requestrr.WebApi/ClientApp/src/views/Music.jsx:66-69 | a save is allowed for the disabled client always, for Lidarr exactly when its fields are valid, and for no other client, so a request can always be built |
| MusicPage.Page.constructor | Requestrr.WebApi/ClientApp/src/views/Music.jsx:31-40 | the page mounts loading, with nothing submitted or saved, no client, "None" restrictions and no Lidarr values |
| MusicPage.Page.SettingsLoaded | Requestrr.WebApi/ClientApp/src/views/Music.jsx:51-59 | the loaded settings set the client, the restrictions ("None" when empty or missing) and the Lidarr values, and loading ends |
| MusicPage.Page.Submit | Requestrr.WebApi/ClientApp/src/views/Music.jsx:62-124 | a submit while one is pending changes nothing; with a save in flight it only marks the submit; a disabled client, or Lidarr with valid fields, starts exactly one save with the matching request; otherwise the invalid-fields error is shown and the submit cleared |
| MusicPage.Page.SaveCompleted | Requestrr.WebApi/ClientApp/src/views/Music.jsx:84-102 | the answer ends the save and the submit, marks the save attempted and shows success or the error text |
| MusicPage.Page.ClientChanged | Requestrr.WebApi/ClientApp/src/views/Music.jsx:113-119 | the new client takes the store's Lidarr values and restrictions ("None" when empty), hides the last banner and clears the submit |
| MusicPage.Page.RestrictionsChanged | Requestrr.WebApi/ClientApp/src/views/Music.jsx:169-177 | the restrictions become the stored string of the picked items, "None" for none |
| MusicPage.Page.LidarrChanged | Requestrr.WebApi/ClientApp/src/views/Music.jsx:254 | the page takes the Lidarr form's values and nothing else changes |
| MusicPage.Page.LidarrValidated | Requestrr.WebApi/ClientApp/src/views/Music.jsx:255 | the page takes the Lidarr form's validity and nothing else changes |
| MusicPage.DoubleSubmit | Requestrr.WebApi/ClientApp/src/views/Music.jsx:62-124 | a second click before the save answers starts no second save (the page invariant, a pending submit only while a save is in flight, rules out a stale submit) |
| MusicClients.OrElse | Requestrr.WebApi/ClientApp/src/store/reducers/MusicClientsReducer.jsx:9 | a missing or empty value gives the fallback, any other value is kept |
| MusicClients.NormalizeCategory | Requestrr.WebApi/ClientApp/src/store/reducers/MusicClientsReducer.jsx:16-27 | the primary types keep a non-empty list, else take non-empty release types, else the default; secondary types and release statuses fall back to their defaults; every other field is copied |
| MusicClients.NormalizeKeepsComplete | Requestrr.WebApi/ClientApp/src/store/reducers/MusicClientsReducer.jsx:18-26 | a category whose three lists are all non-empty is stored unchanged |
| MusicClients.NormalizeIdempotent | Requestrr.WebApi/ClientApp/src/store/reducers/MusicClientsReducer.jsx:16-27 | normalising a stored category again changes nothing |
| MusicClients.IdleList | Requestrr.WebApi/ClientApp/src/store/reducers/MusicClientsReducer.jsx:31-46 | a fresh list is neither loading, loaded nor valid, and empty |
| MusicClients.LidarrFromPayload | Requestrr.WebApi/ClientApp/src/store/reducers/MusicClientsReducer.jsx:12-46 | the connection and request settings are copied, every category is normalised in order, and every list starts idle |
| MusicClients.Reduce | Requestrr.WebApi/ClientApp/src/store/reducers/MusicClientsReducer.jsx:5-58 | loading the settings sets the client, the restrictions ("None" when missing or empty), the Lidarr state and the other categories; disabling sets only the client to "Disabled"; any other action keeps the state |
| MusicClients.LoadedRestrictionsPresent | Requestrr.WebApi/ClientApp/src/store/reducers/MusicClientsReducer.jsx:9 | after loading the restrictions are present and non-empty, and read "None" exactly when the payload's were missing, empty or "None" |
| MusicClients.GetSettingsReplacesState | Requestrr.WebApi/ClientApp/src/store/reducers/MusicClientsReducer.jsx:7-48 | loading the settings overwrites all four keys of the music state, so the result depends on the payload alone |
| MusicClients.LoadedCategoriesComplete | Requestrr.WebApi/ClientApp/src/store/reducers/MusicClientsReducer.jsx:16-27 | every loaded category keeps its id and name, has non-empty type and status lists, and is stable under normalising |
| MusicClients.DisableIdempotent | Requestrr.WebApi/ClientApp/src/store/reducers/MusicClientsReducer.jsx:50-55 | disabling twice is disabling once, and keeps the Lidarr state and restrictions |
| Text.Trim | Requestrr.WebApi/Controllers/DownloadClients/Lidarr/LidarrClientController.cs:175 | a trimmed string is empty or starts and ends with a non-white-space character |
| Text.TrimBlank | Requestrr.WebApi/Controllers/DownloadClients/Lidarr/LidarrClientController.cs:170-175 | a string trims to empty exactly when it is blank |
| Text.TrimIdempotent | Requestrr.WebApi/Controllers/DownloadClients/Lidarr/LidarrClientController.cs:175 | trimming twice is trimming once |
| Text.LowerStr | Requestrr.WebApi/Controllers/DownloadClients/Lidarr/LidarrClientController.cs:178 | lower-cases character by character, keeping the length |
| Text.Split | Requestrr.WebApi/RequestrrBot/ChatBot.cs:396 | splitting gives at least one field and no field holds the separator |
| Text.SplitJoin | Requestrr.WebApi/RequestrrBot/ChatBot.cs:396 | fields without the separator, joined by it and split again, come back unchanged |
| Text.ParseInt32 | Requestrr.WebApi/RequestrrBot/ChatBot.cs:984-987 | a parsed 32-bit integer lies in the 32-bit range |
| Text.ParseInt32RoundTrip | Requestrr.WebApi/RequestrrBot/ChatBot.cs:984-987 | every 32-bit integer written out in decimal parses back to itself |
| Text.ParseUInt64 | Requestrr.WebApi/RequestrrBot/ChatBot.cs:396 | a parsed unsigned 64-bit integer lies in its range |
| Text.ParseUInt64RoundTrip | Requestrr.WebApi/RequestrrBot/ChatBot.cs:396 | every unsigned 64-bit integer written out in decimal parses back to itself |
| Text.IntToStringInjective | Requestrr.WebApi/RequestrrBot/ChatBot.cs:984-987 | different integers are written differently |

## Left out

- Discord transport and lifecycle: connecting, slash-command registration, the supervisor loop and the notification engine (Requestrr.WebApi/RequestrrBot/ChatBot.cs:83-347) are platform I/O. Message edits, reactions and DMs are recorded effects, and embeds are not built.
- Timing and concurrency: the 30s/2m/5m retry schedule, `Task.Delay` and `Task.Run` are left out. The sweep's `SemaphoreSlim` gate is a boolean flag that is taken and released.
- HTTP and JSON: the Lidarr GET/POST/PUT calls, the MusicBrainz fetch, `ThrowIfNotSuccessfulAsync` and the DTO classes are left out. Their answers are parameters, and the payloads are values.
- The approval store's `Dictionary` is modelled by its entry array and its free list, which fix the enumeration order. Hashing, buckets and resizing are left out; a resize copies the entries in order, so it does not change that order.
- File persistence of the approval store (RequestApprovalRepository.cs:91-134) is left out. The model keeps the map and the rule that a reload with repeated request ids yields an empty store.
- Dates and floats: `ParseReleaseDate` and `DateTime.TryParse` are not modelled. Release dates are optional integers, and only the sign of `SizeOnDisk` is kept.
- Localisation: `Language.Current` strings are constants. The Overseerr request-id marker is not in the sources, so it is a parameter required to be non-empty and digit-free.
- RequestMarker.MatchAt: the digit class is ASCII '0'-'9'. .NET `\d` also matches the other Unicode decimal digits, so text with the marker followed by such digits matches in the source and not in the model.
- RequestMarker.TryGetRequestId: on content whose first marker is followed by non-ASCII decimal digits, the source matches, fails `int.TryParse` and returns false without reading the footer. The model skips that position and may read a later match or the footer's id.
- DiscordText.LimitStringSize: counts characters. C# `Length` and `Substring` count UTF-16 code units, so a text with characters outside the Basic Multilingual Plane is cut at a different point, and the source can split a surrogate pair. The title and label builders that use it inherit this.
- Select placeholders are not modelled: the help texts of the lists, and the title the carried-over search list gets as its placeholder in the issue forms. A select is its id and its entries.
- Character classes: trimming, white space and case-insensitive comparison cover ASCII only, with no Unicode white space or case folding.
- LidarrController.CheckTrimmed: the model's `\w` is ASCII letters, digits and '_'; .NET's also matches other Unicode letters, digits and marks, so a name such as 'Café' is accepted by the source and rejected by the model. LidarrController.SaveAsync inherits this.
- JavaScript `localeCompare` is modelled as ordinal lexicographic order on characters.
- `DiscordSettings.GetHashCode` hashes array references and is not modelled.
- The `DownloadClient.Lidarr` constant is not in the sources, so the Lidarr client name is the parameter `lidarrName`.
- `ShowMusicAlbumSelection` paging and the album release-type filter are declared by the music interface but implemented in no file of this model, so they are not modelled. The workflow forwards the page index unchanged.
- The delegation wrapper LidarrClient.cs and the settings providers are plumbing and not modelled.
- LidarrClientV1's `RequestMusicAlbumAsync` (LidarrClientV1.cs:587-638) is not modelled. The album workflow records the album request as a directive.
- LidarrClient.SearchAlbums: takes the artist as given. The refresh of an existing artist before the album search (LidarrClientV1.cs:310-323) is HTTP and not modelled.
- LidarrClient.UpdateOf: `UpdateExistingMusic` mutates a JObject in place. Only the fields it sets are modelled.
- The `LIDARR_*` reducer that consumes the category actions is not in the sources. The actions are modelled as the state they produce, and the plain action builders are not modelled.
- The fetch bodies of the load thunks, `testLidarrSettings` and `saveLidarrClient` (LidarrClientActions.jsx:224-524), are I/O. Only the load guard and the list each failure dispatches are modelled.
- Music.jsx rendering is not modelled. The `{}` or undefined Lidarr value the page starts with is `NoValues`.
- MusicView.RestrictionsRoundTrip: requires trimmed, comma-free ids. An id with trailing white space is dropped on read-back (MusicView.TrailingSpaceNotReadBack).
- The mixed revisions in the music files are not reconciled. `MusicWorkflowFactory` passes a restrictions argument that the workflow's constructor does not take, so that argument is not modelled. The admin-role and approval-emoji settings ChatBot reads are extra inputs.

## Findings

| source | as written | input that shows it | evidently intended | confidence | as-written member | corrected member |
|---|---|---|---|---|---|---|
| Requestrr.WebApi/RequestrrBot/ChatBot.cs:1089-1114 | The "tirs" branch reads the show id from `values[1]` of the picked option. The season, episode and issue-type selects of the TV issue form carry one-field values such as "3", so that index is out of range. The "tirb" branch rebuilds the form from fields 2-4 only, so the season and episode in fields 5 and 6 of the TIRB id are lost. | the season option valued "3" under id `TIRSS/1/5/42/0/-1`; the button id `TIRB/1/5/42/0/3/7/Modal` | the select and button handlers read the show, season and episode from the component id, whose fields carry them | not executed | ComponentIdRoundTrips.TvIssueSeasonListFails, ComponentIdRoundTrips.TvIssueEpisodeListFails, ComponentIdRoundTrips.TvIssueTypeListFails, ComponentIdRoundTrips.TvIssueButtonRoundTrip | ComponentIdRoundTrips.FixedTvIssueSeasonList, ComponentIdRoundTrips.FixedTvIssueEpisodeList, ComponentIdRoundTrips.FixedTvIssueTypeList, ComponentIdRoundTrips.FixedTvIssueButton |
| Requestrr.WebApi/ClientApp/src/store/actions/LidarrClientActions.jsx:204-221 | `setLidarrCategories` writes the key `categoies`, so the state's `categories` list is not replaced | any new list of categories that differs from the stored one | the action replaces `categories` | not executed | LidarrActions.SetCategoriesAsWritten, LidarrActions.SetCategoriesAsWrittenLosesList | LidarrActions.SetCategories |
