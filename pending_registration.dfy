/**
 * Registering a pending request in the approval store
 * (`DisplayRequestPendingAsync` and `SendAdminPendingMessageAsync` of the
 * movie and TV user interfaces): the requester's own message first, then
 * one message per admin channel the bot could post to.
 *
 * Discord is an oracle here: `SentMessage` is the requester's message as
 * Discord returns it, and `Guild` says which channels exist and which
 * message id the bot's post in each one receives.
 */
module PendingRegistration {
  import opened Wrappers
  import opened Text
  import opened Approvals
  import ApprovalDecisions

  /** The interaction's original response: its channel, its id, and whether the channel is private. */
  datatype SentMessage = SentMessage(channelId: nat, messageId: nat, inPrivateChannel: bool)

  /** The guild the command came from: its channels and the id its post in each one receives. */
  datatype Guild = Guild(hasChannel: nat -> bool, postedMessageId: nat -> nat)

  /** Every record is stored under its own request id. */
  predicate Keyed(records: map<int, ApprovalRecord>)
  {
    forall k :: k in records ==> records[k].requestId == k
  }

  /** The requester's message: never an admin message, a direct message iff its channel is private. */
  function RequesterRef(original: SentMessage): (r: MessageRef)
    ensures !r.isAdmin && r.isDirectMessage == original.inPrivateChannel
    ensures r.channelId == original.channelId && r.messageId == original.messageId
  {
    MessageRef(original.channelId, original.messageId, false, original.inPrivateChannel)
  }

  /** The admin message posted for one configured id, if it parses and names a channel of the guild. */
  function AdminPost(channelId: string, guild: Option<Guild>): (r: Option<MessageRef>)
    ensures r.Some? <==> ParseUInt64(channelId).Some? && guild.Some? && guild.value.hasChannel(ParseUInt64(channelId).value)
    ensures r.Some? ==> r.value.isAdmin && !r.value.isDirectMessage && ParseUInt64(channelId) == Some(r.value.channelId)
  {
    match ParseUInt64(channelId)
    case None => None
    case Some(c) =>
      if guild.Some? && guild.value.hasChannel(c) then
        Some(MessageRef(c, guild.value.postedMessageId(c), true, false))
      else None
  }

  /** The admin messages posted for `ids`, in configuration order. */
  function AdminRefs(ids: seq<string>, guild: Option<Guild>): (r: seq<MessageRef>)
    ensures |r| <= |ids|
    ensures forall j :: 0 <= j < |r| ==> r[j].isAdmin && !r[j].isDirectMessage
  {
    if ids == [] then []
    else
      var prev := AdminRefs(ids[..|ids| - 1], guild);
      var post := AdminPost(ids[|ids| - 1], guild);
      if post.Some? then prev + [post.value] else prev
  }

  /** One more configured id adds its post, if any, at the end. */
  lemma AdminRefsSnoc(ids: seq<string>, i: nat, guild: Option<Guild>)
    requires i < |ids|
    ensures AdminPost(ids[i], guild).None? ==> AdminRefs(ids[..i + 1], guild) == AdminRefs(ids[..i], guild)
    ensures AdminPost(ids[i], guild).Some? ==>
            AdminRefs(ids[..i + 1], guild) == AdminRefs(ids[..i], guild) + [AdminPost(ids[i], guild).value]
  {
    assert ids[..i + 1][..i] == ids[..i];
  }

  /** The configured id an admin message was posted for. */
  lemma {:induction false} AdminRefSource(ids: seq<string>, guild: Option<Guild>, j: nat) returns (i: nat)
    requires j < |AdminRefs(ids, guild)|
    ensures i < |ids| && ParseUInt64(ids[i]) == Some(AdminRefs(ids, guild)[j].channelId)
    decreases |ids|
  {
    var init := ids[..|ids| - 1];
    var prev := AdminRefs(init, guild);
    var post := AdminPost(ids[|ids| - 1], guild);
    assert AdminRefs(ids, guild) == if post.Some? then prev + [post.value] else prev;
    if j < |prev| {
      i := AdminRefSource(init, guild, j);
      assert AdminRefs(ids, guild)[j] == prev[j];
      assert ids[i] == init[i];
    } else {
      assert post.Some? && AdminRefs(ids, guild)[j] == post.value;
      i := |ids| - 1;
    }
  }

  /** Every message registered as an admin message lies in a channel `IsAdminChannel` recognises. */
  lemma AdminRefsInAdminChannels(ids: seq<string>, guild: Option<Guild>, j: nat)
    requires j < |AdminRefs(ids, guild)|
    ensures ApprovalDecisions.IsAdminChannel(Some(ids), AdminRefs(ids, guild)[j].channelId)
  {
    var i := AdminRefSource(ids, guild, j);
    assert 0 <= i < |ids| && ParseUInt64(ids[i]) == Some(AdminRefs(ids, guild)[j].channelId);
  }

  /** The messages a pending request registers: the requester's, then the admin posts (none when no id is configured). */
  function PendingRefs(original: SentMessage, adminChannelIds: Option<seq<string>>, guild: Option<Guild>): (r: seq<MessageRef>)
    ensures |r| >= 1 && r[0] == RequesterRef(original)
    ensures adminChannelIds.None? ==> r == [RequesterRef(original)]
  {
    [RequesterRef(original)] + if adminChannelIds.Some? then AdminRefs(adminChannelIds.value, guild) else []
  }

  /** The store after one `AddMessage` of `ref` for `requestId`. */
  function Added(records: map<int, ApprovalRecord>, requestId: int, username: Option<string>, userId: nat,
                 ref: MessageRef): (r: map<int, ApprovalRecord>)
    requires Keyed(records)
    ensures Keyed(r) && r.Keys == records.Keys + {requestId}
    ensures HasPair(r[requestId].messages, ref.channelId, ref.messageId)
    ensures forall k :: k in records && k != requestId ==> r[k] == records[k]
  {
    var existing := if requestId in records then Some(records[requestId]) else None;
    records[requestId := AddedRecord(existing, requestId, username, userId,
                                     ref.channelId, ref.messageId, ref.isAdmin, ref.isDirectMessage)]
  }

  /** The store after `AddMessage` of every reference of `refs`, in order. */
  function AddedAll(records: map<int, ApprovalRecord>, requestId: int, username: Option<string>, userId: nat,
                    refs: seq<MessageRef>): (r: map<int, ApprovalRecord>)
    requires Keyed(records)
    ensures Keyed(r)
  {
    if refs == [] then records
    else Added(AddedAll(records, requestId, username, userId, refs[..|refs| - 1]), requestId, username, userId, refs[|refs| - 1])
  }

  /**
   * `DisplayRequestPendingAsync`: the requester's message is registered with
   * isAdmin false and isDirectMessage true iff its channel is private, then
   * the admin posts are registered.
   */
  method RegisterPending(repository: RequestApprovalRepository, requestId: int, username: Option<string>, userId: nat,
                         original: SentMessage, adminChannelIds: Option<seq<string>>, guild: Option<Guild>)
    requires repository.Valid()
    modifies repository
    ensures repository.Valid()
    ensures repository.records ==
            AddedAll(old(repository.records), requestId, username, userId, PendingRefs(original, adminChannelIds, guild))
    ensures repository.entries ==
            if requestId in old(repository.records) then old(repository.entries) else Insert(old(repository.entries), requestId)
    ensures repository.saves == old(repository.saves) + |PendingRefs(original, adminChannelIds, guild)|
    ensures repository.saved == repository.records
  {
    ghost var before := repository.records;
    repository.AddMessage(requestId, username, userId, original.channelId, original.messageId, false, original.inPrivateChannel);
    AddedAllSnoc(before, requestId, username, userId, [], RequesterRef(original));
    ghost var middle := repository.records;
    SendAdminPending(repository, requestId, username, userId, adminChannelIds, guild);
    AddedAllAppend(before, requestId, username, userId, [RequesterRef(original)],
                   if adminChannelIds.Some? then AdminRefs(adminChannelIds.value, guild) else []);
  }

  /**
   * `SendAdminPendingMessageAsync`: unless no admin channel id is
   * configured, each configured id in order, skipping one that does not
   * parse as a `ulong` or names no channel of the guild, and registering the
   * post with isAdmin true and isDirectMessage false.
   */
  method SendAdminPending(repository: RequestApprovalRepository, requestId: int, username: Option<string>, userId: nat,
                          adminChannelIds: Option<seq<string>>, guild: Option<Guild>)
    requires repository.Valid()
    modifies repository
    ensures repository.Valid()
    ensures repository.records ==
            AddedAll(old(repository.records), requestId, username, userId,
                     if adminChannelIds.Some? then AdminRefs(adminChannelIds.value, guild) else [])
    ensures var refs := if adminChannelIds.Some? then AdminRefs(adminChannelIds.value, guild) else [];
            repository.entries ==
              (if refs == [] || requestId in old(repository.records) then old(repository.entries)
               else Insert(old(repository.entries), requestId))
            && repository.saves == old(repository.saves) + |refs|
            && repository.saved == if refs == [] then old(repository.saved) else repository.records
  {
    if adminChannelIds.None? || |adminChannelIds.value| == 0 {
      return;
    }
    SendAdminPosts(repository, requestId, username, userId, adminChannelIds.value, guild);
  }

  /** The loop of `SendAdminPendingMessageAsync` over the configured ids `ids`. */
  method SendAdminPosts(repository: RequestApprovalRepository, requestId: int, username: Option<string>, userId: nat,
                        ids: seq<string>, guild: Option<Guild>)
    requires repository.Valid()
    modifies repository
    ensures repository.Valid()
    ensures repository.records == AddedAll(old(repository.records), requestId, username, userId, AdminRefs(ids, guild))
    ensures var refs := AdminRefs(ids, guild);
            repository.entries ==
              (if refs == [] || requestId in old(repository.records) then old(repository.entries)
               else Insert(old(repository.entries), requestId))
            && repository.saves == old(repository.saves) + |refs|
            && repository.saved == if refs == [] then old(repository.saved) else repository.records
  {
    ghost var before, entries0, saved0, saves0 := repository.records, repository.entries, repository.saved, repository.saves;
    var i := 0;
    while i < |ids|
      invariant 0 <= i <= |ids|
      invariant Registered(repository, requestId, username, userId, AdminRefs(ids[..i], guild), before, entries0, saved0, saves0)
    {
      SendAdminNext(repository, requestId, username, userId, ids, i, guild, before, entries0, saved0, saves0);
      i := i + 1;
    }
    assert ids[..i] == ids;
  }

  /**
   * The store after registering `refs` for `requestId`, starting from a store
   * holding `before` laid out as `entries0`, saved `saves0` times (last with
   * `saved0`).
   */
  ghost predicate Registered(repository: RequestApprovalRepository, requestId: int, username: Option<string>, userId: nat,
                             refs: seq<MessageRef>, before: map<int, ApprovalRecord>, entries0: Layout,
                             saved0: map<int, ApprovalRecord>, saves0: nat)
    reads repository
  {
    && repository.Valid()
    && RegisteredValues(repository.records, repository.entries, repository.saved, repository.saves,
                        requestId, username, userId, refs, before, entries0, saved0, saves0)
  }

  /** `Registered`, on the store's fields as values. */
  ghost predicate RegisteredValues(records: map<int, ApprovalRecord>, entries: Layout, saved: map<int, ApprovalRecord>, saves: nat,
                                   requestId: int, username: Option<string>, userId: nat,
                                   refs: seq<MessageRef>, before: map<int, ApprovalRecord>, entries0: Layout,
                                   saved0: map<int, ApprovalRecord>, saves0: nat)
  {
    && Keyed(before) && WellFormed(entries0)
    && records == AddedAll(before, requestId, username, userId, refs)
    && (refs != [] ==> requestId in records)
    && entries == (if refs == [] || requestId in before then entries0 else Insert(entries0, requestId))
    && saves == saves0 + |refs|
    && saved == if refs == [] then saved0 else records
  }

  /** One more post keeps the registered state: a post extends the references, no post changes nothing. */
  lemma RegisteredNext(records: map<int, ApprovalRecord>, entries: Layout, saved: map<int, ApprovalRecord>, saves: nat,
                       records': map<int, ApprovalRecord>, entries': Layout, saved': map<int, ApprovalRecord>, saves': nat,
                       post: Option<MessageRef>, requestId: int, username: Option<string>, userId: nat,
                       refs: seq<MessageRef>, before: map<int, ApprovalRecord>, entries0: Layout,
                       saved0: map<int, ApprovalRecord>, saves0: nat)
    requires RegisteredValues(records, entries, saved, saves, requestId, username, userId, refs, before, entries0, saved0, saves0)
    requires post.None? ==> records' == records && entries' == entries && saved' == saved && saves' == saves
    requires post.Some? ==> Keyed(records) && records' == Added(records, requestId, username, userId, post.value)
    requires post.Some? && requestId in records ==> entries' == entries
    requires post.Some? && requestId !in records ==> WellFormed(entries) && entries' == Insert(entries, requestId)
    requires post.Some? ==> saved' == records' && saves' == saves + 1
    ensures RegisteredValues(records', entries', saved', saves', requestId, username, userId,
                             refs + (if post.Some? then [post.value] else []), before, entries0, saved0, saves0)
  {
    if post.None? {
      assert refs + [] == refs;
    } else {
      AddedAllSnoc(before, requestId, username, userId, refs, post.value);
    }
  }

  /** One pass of the loop, from `ids[..i]` registered to `ids[..i + 1]` registered. */
  method SendAdminNext(repository: RequestApprovalRepository, requestId: int, username: Option<string>, userId: nat,
                       ids: seq<string>, i: nat, guild: Option<Guild>, ghost before: map<int, ApprovalRecord>,
                       ghost entries0: Layout, ghost saved0: map<int, ApprovalRecord>, ghost saves0: nat)
    requires i < |ids|
    requires Registered(repository, requestId, username, userId, AdminRefs(ids[..i], guild), before, entries0, saved0, saves0)
    modifies repository
    ensures Registered(repository, requestId, username, userId, AdminRefs(ids[..i + 1], guild), before, entries0, saved0, saves0)
  {
    AdminRefsSnoc(ids, i, guild);
    ghost var records, entries, saved, saves := repository.records, repository.entries, repository.saved, repository.saves;
    var post := SendAdminPost(repository, requestId, username, userId, ids[i], guild);
    RegisteredNext(records, entries, saved, saves,
                   repository.records, repository.entries, repository.saved, repository.saves,
                   post, requestId, username, userId, AdminRefs(ids[..i], guild), before, entries0, saved0, saves0);
  }

  /**
   * One pass of `SendAdminPendingMessageAsync`'s loop: post to the configured
   * channel `channelId` and register the post, unless the id does not parse
   * or names no channel of the guild.
   */
  method SendAdminPost(repository: RequestApprovalRepository, requestId: int, username: Option<string>, userId: nat,
                       channelId: string, guild: Option<Guild>) returns (post: Option<MessageRef>)
    requires repository.Valid()
    modifies repository
    ensures repository.Valid()
    ensures post == AdminPost(channelId, guild)
    ensures post.None? ==> unchanged(repository)
    ensures post.Some? ==>
              repository.records == Added(old(repository.records), requestId, username, userId, post.value)
              && repository.entries ==
                   (if requestId in old(repository.records) then old(repository.entries)
                    else Insert(old(repository.entries), requestId))
              && repository.saved == repository.records && repository.saves == old(repository.saves) + 1
  {
    var parsed := ParseUInt64(channelId);
    if parsed.Some? && guild.Some? && guild.value.hasChannel(parsed.value) {
      var c := parsed.value;
      post := Some(MessageRef(c, guild.value.postedMessageId(c), true, false));
      repository.AddMessage(requestId, username, userId, c, post.value.messageId, true, false);
    } else {
      post := None;
    }
  }

  /** Registering two lists one after the other is registering their concatenation. */
  lemma {:induction false} AddedAllAppend(records: map<int, ApprovalRecord>, requestId: int, username: Option<string>,
                                          userId: nat, first: seq<MessageRef>, second: seq<MessageRef>)
    requires Keyed(records)
    ensures AddedAll(AddedAll(records, requestId, username, userId, first), requestId, username, userId, second) ==
            AddedAll(records, requestId, username, userId, first + second)
    decreases |second|
  {
    if second == [] {
      assert first + second == first;
    } else {
      var init := second[..|second| - 1];
      var last := second[|second| - 1];
      var x := AddedAll(records, requestId, username, userId, first);
      assert AddedAll(x, requestId, username, userId, second) ==
             Added(AddedAll(x, requestId, username, userId, init), requestId, username, userId, last);
      AddedAllAppend(records, requestId, username, userId, first, init);
      AddedAllSnoc(records, requestId, username, userId, first + init, last);
      SplitLast(first, second);
    }
  }

  lemma SplitLast(first: seq<MessageRef>, second: seq<MessageRef>)
    requires second != []
    ensures first + second == (first + second[..|second| - 1]) + [second[|second| - 1]]
  {
    assert second == second[..|second| - 1] + [second[|second| - 1]];
  }

  /** Registering one more reference is one more `AddMessage`. */
  lemma AddedAllSnoc(records: map<int, ApprovalRecord>, requestId: int, username: Option<string>, userId: nat,
                     refs: seq<MessageRef>, ref: MessageRef)
    requires Keyed(records)
    ensures AddedAll(records, requestId, username, userId, refs + [ref]) ==
            Added(AddedAll(records, requestId, username, userId, refs), requestId, username, userId, ref)
  {
    assert (refs + [ref])[..|refs|] == refs;
  }

  // ------------------------------------------------------------ properties

  /** The record of a registered request holds every message registered for it. */
  lemma {:induction false} AddedAllHoldsEveryRef(records: map<int, ApprovalRecord>, requestId: int, username: Option<string>,
                                                 userId: nat, refs: seq<MessageRef>, j: nat)
    requires Keyed(records) && j < |refs|
    ensures var r := AddedAll(records, requestId, username, userId, refs);
            requestId in r && HasPair(r[requestId].messages, refs[j].channelId, refs[j].messageId)
    decreases |refs|
  {
    var init := refs[..|refs| - 1];
    var prev := AddedAll(records, requestId, username, userId, init);
    if j < |refs| - 1 {
      AddedAllHoldsEveryRef(records, requestId, username, userId, init, j);
      var old_ := prev[requestId];
      var k :| 0 <= k < |old_.messages| && old_.messages[k].channelId == refs[j].channelId && old_.messages[k].messageId == refs[j].messageId;
      var now := Added(prev, requestId, username, userId, refs[|refs| - 1])[requestId];
      assert now.messages[k] == old_.messages[k];
    }
  }

  /** Registering for one request leaves every other request's record as it was, and adds no other id. */
  lemma {:induction false} AddedAllKeepsOthers(records: map<int, ApprovalRecord>, requestId: int, username: Option<string>,
                                               userId: nat, refs: seq<MessageRef>)
    requires Keyed(records)
    ensures var r := AddedAll(records, requestId, username, userId, refs);
            (r.Keys == if refs == [] then records.Keys else records.Keys + {requestId})
            && forall k :: k in records && k != requestId ==> r[k] == records[k]
    decreases |refs|
  {
    if refs != [] {
      AddedAllKeepsOthers(records, requestId, username, userId, refs[..|refs| - 1]);
    }
  }

  /** Registration never stores two references to the same message. */
  lemma {:induction false} AddedAllKeepsPairsUnique(records: map<int, ApprovalRecord>, requestId: int, username: Option<string>,
                                                    userId: nat, refs: seq<MessageRef>)
    requires Keyed(records)
    requires requestId in records ==> UniquePairs(records[requestId].messages)
    ensures var r := AddedAll(records, requestId, username, userId, refs);
            requestId in r ==> UniquePairs(r[requestId].messages)
    decreases |refs|
  {
    if refs != [] {
      var init := refs[..|refs| - 1];
      var prev := AddedAll(records, requestId, username, userId, init);
      AddedAllKeepsPairsUnique(records, requestId, username, userId, init);
      AddedAllKeepsOthers(records, requestId, username, userId, init);
      var ref := refs[|refs| - 1];
      var existing := if requestId in prev then Some(prev[requestId]) else None;
      AddKeepsPairsUnique(existing, requestId, username, userId, ref.channelId, ref.messageId, ref.isAdmin, ref.isDirectMessage);
    }
  }

  /**
   * A request registered for the first time gets a record under the
   * requester's name whose first message is the requester's, not an admin
   * message, and which lists every admin post.
   */
  lemma NewPendingRecord(records: map<int, ApprovalRecord>, requestId: int, username: Option<string>, userId: nat,
                         original: SentMessage, adminChannelIds: Option<seq<string>>, guild: Option<Guild>)
    requires Keyed(records) && requestId !in records
    ensures var refs := PendingRefs(original, adminChannelIds, guild);
            var r := AddedAll(records, requestId, username, userId, refs)[requestId];
            r.requesterUsername == username.GetOr("") && r.requesterUserId == userId
            && |r.messages| >= 1 && r.messages[0] == RequesterRef(original)
            && forall j :: 0 <= j < |refs| ==> HasPair(r.messages, refs[j].channelId, refs[j].messageId)
  {
    var refs := PendingRefs(original, adminChannelIds, guild);
    forall j | 0 <= j < |refs| ensures HasPair(AddedAll(records, requestId, username, userId, refs)[requestId].messages, refs[j].channelId, refs[j].messageId) {
      AddedAllHoldsEveryRef(records, requestId, username, userId, refs, j);
    }
    NewRecordStart(records, requestId, username, userId, refs);
  }

  /** The record built from nothing keeps the requester and the first registered message. */
  lemma {:induction false} NewRecordStart(records: map<int, ApprovalRecord>, requestId: int, username: Option<string>,
                                          userId: nat, refs: seq<MessageRef>)
    requires Keyed(records) && requestId !in records && |refs| >= 1
    ensures var r := AddedAll(records, requestId, username, userId, refs)[requestId];
            r.requesterUsername == username.GetOr("") && r.requesterUserId == userId
            && |r.messages| >= 1 && r.messages[0] == refs[0]
    decreases |refs|
  {
    if |refs| > 1 {
      var init := refs[..|refs| - 1];
      NewRecordStart(records, requestId, username, userId, init);
      assert init[0] == refs[0];
    } else {
      assert refs[..0] == [];
    }
  }
}
