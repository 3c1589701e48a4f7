/**
 * The approval record store: which Discord messages show a pending request,
 * so that they can all be updated once the request is approved or declined.
 */
module Approvals {
  import opened Wrappers
  import Text
  import opened Sequences

  /** One Discord message that shows a pending request. */
  datatype MessageRef = MessageRef(channelId: nat, messageId: nat, isAdmin: bool, isDirectMessage: bool)

  /** Everything the store knows about one request. */
  datatype ApprovalRecord = ApprovalRecord(
    requestId: int,
    requesterUsername: string,
    requesterUserId: nat,
    messages: seq<MessageRef>)

  /** Some reference in `refs` points at message `messageId` of channel `channelId`. */
  predicate HasPair(refs: seq<MessageRef>, channelId: nat, messageId: nat)
  {
    exists i :: 0 <= i < |refs| && refs[i].channelId == channelId && refs[i].messageId == messageId
  }

  /** No two references point at the same message of the same channel. */
  predicate UniquePairs(refs: seq<MessageRef>)
  {
    forall i, j :: 0 <= i < j < |refs| ==>
      !(refs[i].channelId == refs[j].channelId && refs[i].messageId == refs[j].messageId)
  }

  /**
   * The record `AddMessage` stores for `requestId`, given the record stored
   * before (if any): a new record starts with the given requester; on an
   * existing one a non-blank name replaces the stored name, and only when the
   * name is blank does a non-zero user id replace a stored id of 0. The
   * message reference is appended unless its (channel, message) pair is
   * already there.
   */
  function AddedRecord(existing: Option<ApprovalRecord>, requestId: int, username: Option<string>,
                       userId: nat, channelId: nat, messageId: nat, isAdmin: bool, isDirectMessage: bool)
    : (r: ApprovalRecord)
    requires existing.Some? ==> existing.value.requestId == requestId
    ensures r.requestId == requestId
    ensures HasPair(r.messages, channelId, messageId)
    ensures existing.Some? && HasPair(existing.value.messages, channelId, messageId)
            ==> r.messages == existing.value.messages
    ensures existing.Some? && !HasPair(existing.value.messages, channelId, messageId)
            ==> r.messages == existing.value.messages + [MessageRef(channelId, messageId, isAdmin, isDirectMessage)]
    ensures existing.None? ==> r.messages == [MessageRef(channelId, messageId, isAdmin, isDirectMessage)]
  {
    var base :=
      match existing
      case None => ApprovalRecord(requestId, username.GetOr(""), userId, [])
      case Some(prev) =>
        if username.Some? && !Text.IsBlank(username.value) then prev.(requesterUsername := username.value)
        else if prev.requesterUserId == 0 && userId != 0 then prev.(requesterUserId := userId)
        else prev;
    var ref := MessageRef(channelId, messageId, isAdmin, isDirectMessage);
    if HasPair(base.messages, channelId, messageId) then base
    else
      var r := base.(messages := base.messages + [ref]);
      assert r.messages[|base.messages|] == ref;
      r
  }

  /** A brand-new record holds the requester (a missing name becomes "") and exactly the one reference. */
  lemma AddToUnknownCreates(requestId: int, username: Option<string>, userId: nat,
                            channelId: nat, messageId: nat, isAdmin: bool, isDirectMessage: bool)
    ensures AddedRecord(None, requestId, username, userId, channelId, messageId, isAdmin, isDirectMessage)
         == ApprovalRecord(requestId, username.GetOr(""), userId, [MessageRef(channelId, messageId, isAdmin, isDirectMessage)])
  {
  }

  /** Requester fields of an existing record after `AddMessage`. */
  lemma AddToExistingRequester(prev: ApprovalRecord, username: Option<string>, userId: nat,
                               channelId: nat, messageId: nat, isAdmin: bool, isDirectMessage: bool)
    ensures var r := AddedRecord(Some(prev), prev.requestId, username, userId, channelId, messageId, isAdmin, isDirectMessage);
      && (username.Some? && !Text.IsBlank(username.value) ==>
            r.requesterUsername == username.value && r.requesterUserId == prev.requesterUserId)
      && (!(username.Some? && !Text.IsBlank(username.value)) ==>
            r.requesterUsername == prev.requesterUsername
            && r.requesterUserId == (if prev.requesterUserId == 0 && userId != 0 then userId else prev.requesterUserId))
  {
  }

  /** Adding a reference keeps the (channel, message) pairs of a record unique. */
  lemma {:induction false} AddKeepsPairsUnique(existing: Option<ApprovalRecord>, requestId: int, username: Option<string>,
                                               userId: nat, channelId: nat, messageId: nat, isAdmin: bool, isDirectMessage: bool)
    requires existing.Some? ==> existing.value.requestId == requestId && UniquePairs(existing.value.messages)
    ensures UniquePairs(AddedRecord(existing, requestId, username, userId, channelId, messageId, isAdmin, isDirectMessage).messages)
  {
    var r := AddedRecord(existing, requestId, username, userId, channelId, messageId, isAdmin, isDirectMessage);
    if existing.Some? && !HasPair(existing.value.messages, channelId, messageId) {
      var prev := existing.value.messages;
      forall i, j | 0 <= i < j < |r.messages|
        ensures !(r.messages[i].channelId == r.messages[j].channelId && r.messages[i].messageId == r.messages[j].messageId)
      {
        if j == |prev| {
          assert r.messages[i] == prev[i];
        }
      }
    }
  }

  /**
   * `records.ToDictionary(x => x.RequestId)`: a map from id to record, or
   * nothing when two records share an id (the call throws).
   */
  function ToDictionary(rs: seq<ApprovalRecord>): (r: Option<map<int, ApprovalRecord>>)
    ensures r.Some? ==> (forall i :: 0 <= i < |rs| ==> rs[i].requestId in r.value && r.value[rs[i].requestId] == rs[i])
    ensures r.Some? ==> (forall k :: k in r.value ==> r.value[k].requestId == k)
    ensures r.Some? ==> (forall k :: k in r.value ==> exists i :: 0 <= i < |rs| && rs[i] == r.value[k])
  {
    if rs == [] then Some(map[])
    else
      match ToDictionary(rs[..|rs| - 1])
      case None => None
      case Some(m) =>
        var last := rs[|rs| - 1];
        if last.requestId in m then None
        else
          assert forall i :: 0 <= i < |rs| - 1 ==> rs[i] == rs[..|rs| - 1][i];
          Some(m[last.requestId := last])
  }

  predicate DistinctIds(rs: seq<ApprovalRecord>)
  {
    forall i, j :: 0 <= i < j < |rs| ==> rs[i].requestId != rs[j].requestId
  }

  /** `ToDictionary` throws only on a repeated id ... */
  lemma {:induction false} ToDictionaryFailsOnlyOnRepeats(rs: seq<ApprovalRecord>)
    requires DistinctIds(rs)
    ensures ToDictionary(rs).Some?
  {
    if rs != [] {
      var init := rs[..|rs| - 1];
      assert forall i :: 0 <= i < |rs| - 1 ==> rs[i] == init[i];
      ToDictionaryFailsOnlyOnRepeats(init);
    }
  }

  /** ... and always throws on one. */
  /** Building the dictionary succeeds exactly when the ids are distinct. */
  lemma ToDictionaryIffDistinct(rs: seq<ApprovalRecord>)
    ensures ToDictionary(rs).Some? <==> DistinctIds(rs)
  {
    if DistinctIds(rs) {
      ToDictionaryFailsOnlyOnRepeats(rs);
    } else if ToDictionary(rs).Some? {
      ToDictionaryRejectsRepeats(rs);
    }
  }

  lemma {:induction false} ToDictionaryRejectsRepeats(rs: seq<ApprovalRecord>)
    requires ToDictionary(rs).Some?
    ensures DistinctIds(rs)
  {
    if rs != [] {
      var init := rs[..|rs| - 1];
      assert forall i :: 0 <= i < |rs| - 1 ==> rs[i] == init[i];
      ToDictionaryRejectsRepeats(init);
      var m := ToDictionary(init).value;
      forall i, j | 0 <= i < j < |rs| ensures rs[i].requestId != rs[j].requestId {
        if j == |rs| - 1 {
          assert init[i].requestId in m;
        }
      }
    }
  }

  /** The request ids of `rs`, in order. */
  function Ids(rs: seq<ApprovalRecord>): (ids: seq<int>)
    ensures |ids| == |rs| && forall i :: 0 <= i < |rs| ==> ids[i] == rs[i].requestId
  {
    seq(|rs|, i requires 0 <= i < |rs| => rs[i].requestId)
  }

  /** `order` without `id`, the rest kept in order. */
  function Without(order: seq<int>, id: int): (r: seq<int>)
    ensures forall k :: k in r <==> k in order && k != id
    ensures |r| <= |order|
  {
    if order == [] then []
    else if order[0] == id then Without(order[1..], id)
    else [order[0]] + Without(order[1..], id)
  }

  lemma InMembers(o: seq<int>, m: map<int, ApprovalRecord>, k: int)
    requires forall k :: k in o <==> k in m
    requires k in o
    ensures k in m
  {
  }

  /** The values of `m` listed in the order `o` gives their keys. */
  function InOrder(m: map<int, ApprovalRecord>, o: seq<int>): (list: seq<ApprovalRecord>)
    requires forall k :: k in m ==> m[k].requestId == k
    requires Distinct(o) && forall k :: k in o <==> k in m
    ensures |list| == |o|
    ensures forall i :: 0 <= i < |list| ==> list[i].requestId in m && m[list[i].requestId] == list[i]
    ensures forall k :: k in m ==> exists i :: 0 <= i < |list| && list[i].requestId == k
    ensures DistinctIds(list)
  {
    forall i | 0 <= i < |o| ensures o[i] in m {
      InMembers(o, m, o[i]);
    }
    var list := seq(|o|, i requires 0 <= i < |o| && o[i] in m => m[o[i]]);
    assert forall i :: 0 <= i < |o| ==> list[i].requestId == o[i];
    list
  }

  /** A dictionary built from a list with distinct ids enumerates them in list order. */
  lemma ToDictionaryOrder(rs: seq<ApprovalRecord>)
    requires ToDictionary(rs).Some?
    ensures Distinct(Ids(rs))
    ensures forall k :: k in Ids(rs) <==> k in ToDictionary(rs).value
  {
    ToDictionaryRejectsRepeats(rs);
    var m := ToDictionary(rs).value;
    var ids := Ids(rs);
    forall k ensures k in ids <==> k in m {
      if k in m {
        var i :| 0 <= i < |rs| && rs[i] == m[k];
        assert ids[i] == k;
      }
    }
  }

  lemma {:induction false} WithoutAbsent(order: seq<int>, id: int)
    requires id !in order
    ensures Without(order, id) == order
  {
    if order != [] {
      WithoutAbsent(order[1..], id);
      assert [order[0]] + order[1..] == order;
    }
  }

  /** `order` without any of `ids`, the rest kept in order. */
  function WithoutAll(order: seq<int>, ids: set<int>): (r: seq<int>)
    ensures forall k :: k in r <==> k in order && k !in ids
  {
    if order == [] then []
    else if order[0] in ids then WithoutAll(order[1..], ids)
    else [order[0]] + WithoutAll(order[1..], ids)
  }

  /** Removing no id keeps the order. */
  lemma {:induction false} WithoutNothing(order: seq<int>)
    ensures WithoutAll(order, {}) == order
  {
    if order != [] {
      WithoutNothing(order[1..]);
      assert [order[0]] + order[1..] == order;
    }
  }

  /** Removing the ids one by one is removing them all at once. */
  lemma {:induction false} WithoutWithoutAll(order: seq<int>, ids: set<int>, id: int)
    ensures Without(WithoutAll(order, ids), id) == WithoutAll(order, ids + {id})
  {
    if order != [] {
      WithoutWithoutAll(order[1..], ids, id);
    }
  }

  /** Removing a stored key leaves one key fewer; removing any other changes nothing. */
  lemma RemovedCount(m: map<int, ApprovalRecord>, k: int)
    ensures k in m ==> |m - {k}| == |m| - 1
    ensures k !in m ==> m - {k} == m
  {
    if k in m {
      assert (m - {k}).Keys == m.Keys - {k};
      assert |(m - {k}).Keys| == |m.Keys| - 1;
    }
  }

  // ------------------------------------------------ dictionary entry layout

  /**
   * The entry array of a .NET `Dictionary<int, …>`: each entry holds a key
   * or is free. `Remove` frees an entry and pushes it on the free list; an
   * `Add` reuses the most recently freed entry, and appends a new entry
   * only when none is free. Enumeration walks the entries in array order.
   */
  datatype Layout = Layout(slots: seq<Option<int>>, freeList: seq<nat>)

  /** No key is held by two entries. */
  predicate SlotsDistinct(slots: seq<Option<int>>)
  {
    forall i, j :: 0 <= i < j < |slots| && slots[i].Some? ==> slots[i] != slots[j]
  }

  /** The free list names each free entry once and nothing else. */
  predicate WellFormed(l: Layout)
  {
    SlotsDistinct(l.slots) && Distinct(l.freeList)
    && (forall i :: i in l.freeList ==> i < |l.slots| && l.slots[i].None?)
    && (forall i :: 0 <= i < |l.slots| && l.slots[i].None? ==> i in l.freeList)
  }

  /** The keys in the order the dictionary enumerates them. */
  function Enumerate(slots: seq<Option<int>>): seq<int>
  {
    if slots == [] then []
    else (if slots[0].Some? then [slots[0].value] else []) + Enumerate(slots[1..])
  }

  /** The entries of a dictionary filled from `ids` without removals. */
  function Filled(ids: seq<int>): (l: Layout)
    ensures |l.slots| == |ids| && l.freeList == []
    ensures forall i :: 0 <= i < |ids| ==> l.slots[i] == Some(ids[i])
  {
    Layout(seq(|ids|, i requires 0 <= i < |ids| => Some(ids[i])), [])
  }

  /** The entry holding `id`. */
  function SlotOf(slots: seq<Option<int>>, id: int): (i: nat)
    requires Some(id) in slots
    ensures i < |slots| && slots[i] == Some(id)
  {
    if slots[0] == Some(id) then 0 else 1 + SlotOf(slots[1..], id)
  }

  /** `TryInsert` of a new key: the last freed entry when there is one, else a new entry at the end. */
  function Insert(l: Layout, id: int): (r: Layout)
    requires WellFormed(l)
    ensures Some(id) in r.slots
    ensures |r.slots| == |l.slots| + (if l.freeList == [] then 1 else 0)
    ensures |r.freeList| == if l.freeList == [] then 0 else |l.freeList| - 1
    ensures forall j :: 0 <= j < |l.slots| && l.slots[j].Some? ==> r.slots[j] == l.slots[j]
  {
    if l.freeList == [] then
      assert (l.slots + [Some(id)])[|l.slots|] == Some(id);
      Layout(l.slots + [Some(id)], [])
    else
      var i := l.freeList[|l.freeList| - 1];
      assert i in l.freeList;
      assert l.slots[i := Some(id)][i] == Some(id);
      Layout(l.slots[i := Some(id)], l.freeList[..|l.freeList| - 1])
  }

  /** `Remove` of a key: its entry becomes free and goes on top of the free list. */
  function Delete(l: Layout, id: int): (r: Layout)
    ensures |r.slots| == |l.slots|
    ensures forall j :: 0 <= j < |l.slots| && l.slots[j] != Some(id) ==> r.slots[j] == l.slots[j]
    ensures SlotsDistinct(l.slots) ==> Some(id) !in r.slots
    ensures Some(id) in l.slots <==> |r.freeList| == |l.freeList| + 1
  {
    if Some(id) in l.slots then
      var i := SlotOf(l.slots, id);
      Layout(l.slots[i := None], l.freeList + [i])
    else l
  }

  /** `Remove` of each key of `ids`, in order. */
  function DeleteEach(l: Layout, ids: seq<int>): Layout
  {
    if ids == [] then l else Delete(DeleteEach(l, ids[..|ids| - 1]), ids[|ids| - 1])
  }

  /** Removing several keys one after another enumerates the other keys in their order. */
  lemma {:induction false} DeleteEachEnumerates(l: Layout, ids: seq<int>)
    requires WellFormed(l)
    ensures WellFormed(DeleteEach(l, ids))
    ensures Enumerate(DeleteEach(l, ids).slots) == WithoutAll(Enumerate(l.slots), set k | k in ids)
  {
    if ids == [] {
      assert (set k | k in ids) == {};
      WithoutNothing(Enumerate(l.slots));
    } else {
      var init, last := ids[..|ids| - 1], ids[|ids| - 1];
      assert ids == init + [last];
      DeleteEachEnumerates(l, init);
      DeleteEnumerates(DeleteEach(l, init), last);
      WithoutWithoutAll(Enumerate(l.slots), (set k | k in init), last);
      ElementsSnoc(ids, init, last);
    }
  }

  lemma ElementsSnoc(ids: seq<int>, init: seq<int>, last: int)
    requires ids == init + [last]
    ensures (set k | k in ids) == (set k | k in init) + {last}
  {
  }

  /** A dictionary filled without removals holds its keys in order, each once, with no free entry. */
  lemma FilledLayout(ids: seq<int>)
    requires Distinct(ids)
    ensures WellFormed(Filled(ids)) && Enumerate(Filled(ids).slots) == ids
    ensures forall k :: Some(k) in Filled(ids).slots <==> k in ids
  {
    var l := Filled(ids);
    forall k ensures Some(k) in l.slots <==> k in ids {
      if k in ids {
        var i :| 0 <= i < |ids| && ids[i] == k;
        assert l.slots[i] == Some(k);
      }
    }
    FilledEnumerate(ids);
  }

  lemma {:induction false} FilledEnumerate(ids: seq<int>)
    ensures Enumerate(Filled(ids).slots) == ids
  {
    if ids != [] {
      assert Filled(ids).slots[1..] == Filled(ids[1..]).slots;
      FilledEnumerate(ids[1..]);
      assert ids == [ids[0]] + ids[1..];
    }
  }

  /** The entries of a loaded dictionary hold exactly its keys, in list order. */
  lemma LoadedLayout(rs: seq<ApprovalRecord>)
    requires ToDictionary(rs).Some?
    ensures WellFormed(Filled(Ids(rs))) && Enumerate(Filled(Ids(rs)).slots) == Ids(rs)
    ensures forall k :: Some(k) in Filled(Ids(rs)).slots <==> k in ToDictionary(rs).value
  {
    ToDictionaryOrder(rs);
    FilledLayout(Ids(rs));
  }

  /** A key is enumerated exactly when some entry holds it. */
  lemma {:induction false} EnumerateHas(slots: seq<Option<int>>, k: int)
    ensures k in Enumerate(slots) <==> Some(k) in slots
  {
    if slots != [] {
      EnumerateHas(slots[1..], k);
      assert slots == [slots[0]] + slots[1..];
    }
  }

  /** Entries that hold distinct keys are enumerated without repeats. */
  lemma {:induction false} EnumerateDistinct(slots: seq<Option<int>>)
    requires SlotsDistinct(slots)
    ensures Distinct(Enumerate(slots))
  {
    if slots != [] {
      var rest := Enumerate(slots[1..]);
      assert SlotsDistinct(slots[1..]) by {
        forall i, j | 0 <= i < j < |slots[1..]| && slots[1..][i].Some? ensures slots[1..][i] != slots[1..][j] {
          assert slots[1..][i] == slots[i + 1] && slots[1..][j] == slots[j + 1];
        }
      }
      EnumerateDistinct(slots[1..]);
      if slots[0].Some? {
        assert Some(slots[0].value) !in slots[1..] by {
          forall j | 0 <= j < |slots[1..]| ensures slots[1..][j] != slots[0] {
            assert slots[1..][j] == slots[j + 1];
          }
        }
        EnumerateHas(slots[1..], slots[0].value);
        var r := [slots[0].value] + rest;
        forall i, j | 0 <= i < j < |r| ensures r[i] != r[j] {
          assert r[j] == rest[j - 1] && r[j] in rest;
          if i > 0 { assert r[i] == rest[i - 1]; }
        }
      }
    }
  }

  /** Freeing the entry of a key enumerates the others in their order. */
  lemma {:induction false} EnumerateFreed(slots: seq<Option<int>>, i: nat, id: int)
    requires i < |slots| && slots[i] == Some(id) && SlotsDistinct(slots)
    ensures Enumerate(slots[i := None]) == Without(Enumerate(slots), id)
  {
    var rest := slots[1..];
    assert slots == [slots[0]] + rest && slots[i := None][1..] == if i == 0 then rest else rest[i - 1 := None];
    EnumerateHas(rest, id);
    if i == 0 {
      assert Some(id) !in rest by {
        forall j | 0 <= j < |rest| ensures rest[j] != Some(id) {
          assert rest[j] == slots[j + 1];
        }
      }
      WithoutAbsent(Enumerate(rest), id);
    } else {
      assert slots[0] != Some(id);
      assert SlotsDistinct(rest) by {
        forall a, b | 0 <= a < b < |rest| && rest[a].Some? ensures rest[a] != rest[b] {
          assert rest[a] == slots[a + 1] && rest[b] == slots[b + 1];
        }
      }
      assert rest[i - 1] == slots[i];
      EnumerateFreed(rest, i - 1, id);
      var e := Enumerate(rest);
      var head := if slots[0].Some? then [slots[0].value] else [];
      assert slots[i := None][0] == slots[0];
      assert Enumerate(slots[i := None]) == head + Without(e, id);
      assert Enumerate(slots) == head + e;
      if slots[0].Some? {
        assert (head + e)[0] == slots[0].value && (head + e)[1..] == e;
      } else {
        assert head + e == e;
      }
    }
  }

  /** Removing a key frees its entry and keeps the free list exact. */
  lemma DeleteWellFormed(l: Layout, id: int)
    requires WellFormed(l)
    ensures WellFormed(Delete(l, id))
    ensures Enumerate(Delete(l, id).slots) == Without(Enumerate(l.slots), id)
    ensures forall k :: Some(k) in Delete(l, id).slots <==> Some(k) in l.slots && k != id
  {
    DeleteEnumerates(l, id);
    forall k ensures Some(k) in Delete(l, id).slots <==> Some(k) in l.slots && k != id {
      EnumerateHas(Delete(l, id).slots, k);
      EnumerateHas(l.slots, k);
    }
  }

  lemma DeleteEnumerates(l: Layout, id: int)
    requires WellFormed(l)
    ensures WellFormed(Delete(l, id))
    ensures Enumerate(Delete(l, id).slots) == Without(Enumerate(l.slots), id)
  {
    DeleteKeepsWellFormed(l, id);
    if Some(id) in l.slots {
      EnumerateFreed(l.slots, SlotOf(l.slots, id), id);
    } else {
      EnumerateHas(l.slots, id);
      WithoutAbsent(Enumerate(l.slots), id);
    }
  }

  lemma DeleteKeepsWellFormed(l: Layout, id: int)
    requires WellFormed(l)
    ensures WellFormed(Delete(l, id))
  {
    if Some(id) in l.slots {
      var i := SlotOf(l.slots, id);
      var r := Delete(l, id);
      assert i !in l.freeList;
      assert r.slots == l.slots[i := None] && r.freeList == l.freeList + [i];
      assert SlotsDistinct(r.slots) by {
        forall a, b | 0 <= a < b < |r.slots| && r.slots[a].Some? ensures r.slots[a] != r.slots[b] {
          assert a != i && r.slots[a] == l.slots[a];
        }
      }
      forall j | j in r.freeList ensures j < |r.slots| && r.slots[j].None? {
        assert j == i || j in l.freeList;
      }
      forall j | 0 <= j < |r.slots| && r.slots[j].None? ensures j in r.freeList {
        assert j == i || l.slots[j].None?;
      }
    }
  }

  /** Adding a new key keeps the layout exact and enumerates the old keys and the new one. */
  lemma InsertWellFormed(l: Layout, id: int)
    requires WellFormed(l) && Some(id) !in l.slots
    ensures WellFormed(Insert(l, id))
    ensures forall k :: Some(k) in Insert(l, id).slots <==> Some(k) in l.slots || k == id
    ensures l.freeList == [] ==> Enumerate(Insert(l, id).slots) == Enumerate(l.slots) + [id]
  {
    if l.freeList == [] {
      EnumerateAppend(l.slots, id);
    } else {
      ReusedEntryKeys(l, id);
      ReusedEntryExact(l, id);
    }
  }

  /** Taking a freed entry adds the new key and keeps every old one. */
  lemma ReusedEntryKeys(l: Layout, id: int)
    requires WellFormed(l) && l.freeList != []
    ensures forall k :: Some(k) in Insert(l, id).slots <==> Some(k) in l.slots || k == id
  {
    var r := Insert(l, id);
    var i := l.freeList[|l.freeList| - 1];
    assert i in l.freeList;
    forall k ensures Some(k) in r.slots <==> Some(k) in l.slots || k == id {
      if Some(k) in l.slots {
        var j :| 0 <= j < |l.slots| && l.slots[j] == Some(k);
        assert j != i && r.slots[j] == Some(k);
      }
      if Some(k) in r.slots {
        var j :| 0 <= j < |r.slots| && r.slots[j] == Some(k);
        assert j == i || l.slots[j] == Some(k);
      }
    }
  }

  /** Taking a freed entry for a new key keeps every key in one entry and the free list exact. */
  lemma ReusedEntryExact(l: Layout, id: int)
    requires WellFormed(l) && Some(id) !in l.slots && l.freeList != []
    ensures WellFormed(Insert(l, id))
  {
    var r := Insert(l, id);
    var n := |l.freeList| - 1;
    var i := l.freeList[n];
    assert i in l.freeList;
    assert r.slots == l.slots[i := Some(id)] && r.freeList == l.freeList[..n];
    forall j | j in r.freeList ensures j in l.freeList && j != i {
      var a :| 0 <= a < n && r.freeList[a] == j;
      assert l.freeList[a] == j;
    }
    forall j | 0 <= j < |r.slots| && r.slots[j].None? ensures j in r.freeList {
      assert j != i && j in l.freeList;
      var a :| 0 <= a < |l.freeList| && l.freeList[a] == j;
      assert a != n && r.freeList[a] == j;
    }
    assert SlotsDistinct(r.slots) by {
      forall a, b | 0 <= a < b < |r.slots| && r.slots[a].Some? ensures r.slots[a] != r.slots[b] {
        if a == i {
          assert Some(id) !in l.slots && l.slots[b] in l.slots;
        } else if b == i {
          assert l.slots[a] in l.slots;
        }
      }
    }
  }

  /** An entry appended at the end is enumerated last. */
  lemma {:induction false} EnumerateAppend(slots: seq<Option<int>>, id: int)
    ensures Enumerate(slots + [Some(id)]) == Enumerate(slots) + [id]
  {
    var s := slots + [Some(id)];
    if slots == [] {
      assert s == [Some(id)] && s[1..] == [];
    } else {
      assert s[0] == slots[0] && s[1..] == slots[1..] + [Some(id)];
      EnumerateAppend(slots[1..], id);
      var head := if slots[0].Some? then [slots[0].value] else [];
      assert Enumerate(s) == head + (Enumerate(slots[1..]) + [id]);
      Assoc(head, Enumerate(slots[1..]), [id]);
    }
  }

  /**
   * After adding 1 and 2, removing 1 and adding 3, the dictionary
   * enumerates 3 before 2: the new key takes the freed first entry.
   */
  lemma ReusedEntryEnumeratedFirst()
    ensures Enumerate(Insert(Delete(Insert(Insert(Layout([], []), 1), 2), 1), 3).slots) == [3, 2]
  {
    FirstTwoAppended();
    FirstRemovedFreed();
    ThirdTakesFreedEntry();
  }

  lemma ThirdTakesFreedEntry()
    ensures WellFormed(Layout([None, Some(2)], [0]))
    ensures Enumerate(Insert(Layout([None, Some(2)], [0]), 3).slots) == [3, 2]
  {
    var l := Layout([None, Some(2)], [0]);
    assert WellFormed(l);
    var slots := Insert(l, 3).slots;
    assert slots == [Some(3), Some(2)];
    assert slots[1..] == [Some(2)] && slots[1..][1..] == [];
  }

  lemma FirstTwoAppended()
    ensures WellFormed(Insert(Layout([], []), 1))
    ensures Insert(Insert(Layout([], []), 1), 2) == Layout([Some(1), Some(2)], [])
  {
    assert WellFormed(Layout([], []));
    assert [] + [Some(1)] == [Some(1)];
    assert Insert(Layout([], []), 1) == Layout([Some(1)], []);
    assert WellFormed(Layout([Some(1)], []));
    assert [Some(1)] + [Some(2)] == [Some(1), Some(2)];
  }

  lemma FirstRemovedFreed()
    ensures Delete(Layout([Some(1), Some(2)], []), 1) == Layout([None, Some(2)], [0])
    ensures WellFormed(Layout([None, Some(2)], [0]))
  {
    assert SlotOf([Some(1), Some(2)], 1) == 0;
  }

  /** What the settings folder holds when the store is created. */
  datatype StoredFile =
    | Missing                                  // no approval file yet
    | Unreadable                               // reading or parsing threw
    | Parsed(records: Option<seq<ApprovalRecord>>)  // the JSON list (None: the literal null)

  /**
   * The dictionary and its entries after loading `file`: the file's records
   * in file order when it holds a list with distinct ids, and empty
   * otherwise (a missing or unreadable file, a null list, a repeated id).
   */
  function LoadedStore(file: StoredFile): (r: (map<int, ApprovalRecord>, Layout))
    ensures forall k :: k in r.0 ==> r.0[k].requestId == k
    ensures WellFormed(r.1) && forall k :: Some(k) in r.1.slots <==> k in r.0
    ensures file.Parsed? && file.records.Some? ==> r.0 == ToDictionary(file.records.value).GetOr(map[])
    ensures file.Parsed? && file.records.Some? && DistinctIds(file.records.value) ==>
      r.1 == Filled(Ids(file.records.value)) && Enumerate(r.1.slots) == Ids(file.records.value)
    ensures !(file.Parsed? && file.records.Some? && DistinctIds(file.records.value)) ==>
      r.0 == map[] && r.1 == Layout([], [])
  {
    if file.Parsed? && file.records.Some? then
      var rs := file.records.value;
      ToDictionaryIffDistinct(rs);
      if DistinctIds(rs) then
        LoadedLayout(rs);
        (ToDictionary(rs).value, Filled(Ids(rs)))
      else
        assert WellFormed(Layout([], []));
        (map[], Layout([], []))
    else
      assert WellFormed(Layout([], []));
      (map[], Layout([], []))
  }

  /**
   * The repository. The lock around every operation makes each call atomic,
   * so the model is single-threaded; `saved` is what the last successful save
   * wrote and `saves` counts the saves attempted.
   */
  class RequestApprovalRepository {
    /** The dictionary's contents ... */
    var records: map<int, ApprovalRecord>
    /** ... and its entry array, which fixes the order it enumerates them in. */
    var entries: Layout
    ghost var saved: map<int, ApprovalRecord>
    ghost var saves: nat

    /** Every record is stored under its own request id, in exactly one entry. */
    ghost predicate Valid()
      reads this
    {
      && (forall k :: k in records ==> records[k].requestId == k)
      && WellFormed(entries)
      && (forall k :: Some(k) in entries.slots <==> k in records)
    }

    /** The keys in enumeration order. */
    function Order(): (r: seq<int>)
      reads this
      requires Valid()
      ensures Distinct(r) && forall k :: k in r <==> k in records
    {
      EnumerateDistinct(entries.slots);
      forall k ensures k in Enumerate(entries.slots) <==> k in records {
        EnumerateHas(entries.slots, k);
      }
      Enumerate(entries.slots)
    }

    /** The whole store after loading: a missing file gives an empty store that is saved at once; an unreadable file or duplicate ids give an empty store. */
    constructor (file: StoredFile)
      ensures Valid()
      ensures file.Missing? ==> records == map[] && saves == 1 && saved == map[]
      ensures file.Unreadable? ==> records == map[] && saves == 0
      ensures file.Parsed? && file.records.None? ==> records == map[] && saves == 0
      ensures file.Parsed? && file.records.Some? ==>
        saves == 0 && records == ToDictionary(file.records.value).GetOr(map[])
      ensures file.Parsed? && file.records.Some? && DistinctIds(file.records.value) ==>
        entries == Filled(Ids(file.records.value)) && Enumerate(entries.slots) == Ids(file.records.value)
      ensures !(file.Parsed? && file.records.Some? && DistinctIds(file.records.value)) ==> entries == Layout([], [])
      ensures !file.Missing? ==> saved == map[]
    {
      saves := 0;
      saved := map[];
      var loaded := LoadedStore(file);
      records, entries := loaded.0, loaded.1;
      new;
      if file.Missing? {
        Save();
      }
    }

    /** `SaveToFile`: the file now holds the current records. */
    method Save()
      modifies this`saved, this`saves
      ensures saved == records && saves == old(saves) + 1
    {
      saved := records;
      saves := saves + 1;
    }

    /** `GetSnapshot`: a copy of the stored record, or nothing for an unknown id. */
    function GetSnapshot(requestId: int): (r: Option<ApprovalRecord>)
      reads this
      requires Valid()
      ensures r.None? <==> requestId !in records
      ensures r.Some? ==> r.value.requestId == requestId && r.value == records[requestId]
    {
      if requestId in records then Some(records[requestId]) else None
    }

    /** `GetAllSnapshots`: one copy of every stored record, each exactly once, in enumeration order. */
    function GetAllSnapshots(): (list: seq<ApprovalRecord>)
      reads this
      requires Valid()
      ensures |list| == |Order()|
      ensures forall i :: 0 <= i < |list| ==> list[i].requestId == Order()[i]
      ensures forall i :: 0 <= i < |list| ==> list[i].requestId in records && records[list[i].requestId] == list[i]
      ensures forall k :: k in records ==> exists i :: 0 <= i < |list| && list[i].requestId == k
      ensures DistinctIds(list)
    {
      InOrder(records, Order())
    }

    /** `AddMessage`: store the (possibly new) record for `requestId` and save. */
    method AddMessage(requestId: int, username: Option<string>, userId: nat,
                      channelId: nat, messageId: nat, isAdmin: bool, isDirectMessage: bool)
      requires Valid()
      modifies this
      ensures Valid()
      ensures records == old(records)[requestId :=
        AddedRecord(old(GetSnapshot(requestId)), requestId, username, userId, channelId, messageId, isAdmin, isDirectMessage)]
      ensures entries == if requestId in old(records) then old(entries) else Insert(old(entries), requestId)
      ensures saved == records && saves == old(saves) + 1
    {
      var record: ApprovalRecord;
      if requestId !in records {
        record := ApprovalRecord(requestId, username.GetOr(""), userId, []);
      } else if username.Some? && !Text.IsBlank(username.value) {
        record := records[requestId].(requesterUsername := username.value);
      } else if records[requestId].requesterUserId == 0 && userId != 0 {
        record := records[requestId].(requesterUserId := userId);
      } else {
        record := records[requestId];
      }
      if !HasPair(record.messages, channelId, messageId) {
        record := record.(messages := record.messages + [MessageRef(channelId, messageId, isAdmin, isDirectMessage)]);
      }
      if requestId !in records {
        InsertWellFormed(entries, requestId);
        entries := Insert(entries, requestId);
      }
      records := records[requestId := record];
      Save();
    }

    /** `Remove`: forget `requestId`; the file is rewritten only when something was removed. */
    method Remove(requestId: int)
      requires Valid()
      modifies this
      ensures Valid()
      ensures records == old(records) - {requestId}
      ensures entries == Delete(old(entries), requestId)
      ensures Order() == Without(old(Order()), requestId)
      ensures requestId in old(records) ==> saved == records && saves == old(saves) + 1
      ensures requestId !in old(records) ==> saved == old(saved) && saves == old(saves) && entries == old(entries)
      ensures saves == old(saves) + |old(records)| - |records|
      ensures saves == old(saves) ==> saved == old(saved) && records == old(records)
      ensures saves != old(saves) ==> saved == records
    {
      DeleteWellFormed(entries, requestId);
      RemovedCount(records, requestId);
      if requestId in records {
        records := records - {requestId};
        entries := Delete(entries, requestId);
        Save();
      }
    }
  }
}
