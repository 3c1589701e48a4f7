/**
 * The bot's side of the Overseerr approval flow that changes state: the
 * periodic sweep over the stored records, the handling of an admin's
 * reaction, and the fan-out that updates every message of a request.
 *
 * Discord and Overseerr are oracles (`Platform`); what the bot does to them
 * is recorded in `effects`, in order.
 */
module ApprovalSync {
  import opened Wrappers
  import opened Text
  import opened Approvals
  import opened ApprovalDecisions
  import Sequences

  /** Overseerr's status of a request; the statuses other than pending and approved are not told apart. */
  datatype RequestStatus = Pending | Approved | OtherStatus(code: int)

  /** The download client configured for movies or for TV shows. */
  datatype DownloadClient = Overseerr | OtherClient

  /** What fetching a recorded message for an update gives. */
  datatype Surface =
    | Found           // the message is there and is edited
    | ChannelMissing  // no channel
    | MessageMissing  // no message in the channel
    | Failing         // any other error: logged and skipped

  /** What reaching the requester's direct-message channel gives. */
  datatype DirectChannel =
    | NoMember         // the requester is in no guild
    | DmMessageFound   // the recorded direct message is edited
    | DmMessageGone    // the recorded direct message is gone: a status message is sent instead
    | DmFailing        // any other error

  /** The outside world as the bot sees it. */
  datatype Platform = Platform(
    statusOf: int -> Option<RequestStatus>,  // None: Overseerr unreachable or the lookup failed
    pushFails: int -> bool,                  // approving or declining that request throws
    observe: MessageRef -> Observation,      // reading a message for its reactions
    surface: MessageRef -> Surface,          // fetching a message for an update
    dm: MessageRef -> DirectChannel)         // reaching the requester by direct message

  /** What the bot does to Overseerr and Discord. */
  datatype Effect =
    | PushDecision(requestId: int, approved: bool)
    | EditMessage(channelId: nat, messageId: nat, approved: bool, asAdmin: bool, requester: string)
    | EditDirectMessage(userId: nat, messageId: nat, approved: bool, asAdmin: bool, requester: string)
    | SendDirectStatus(userId: nat, approved: bool)

  // ------------------------------------------------------------ fan-out

  /** `TryUpdateRequesterDmAsync` for one direct-message reference. */
  function DirectEffects(record: ApprovalRecord, ref: MessageRef, approved: bool, p: Platform): (r: seq<Effect>)
    ensures |r| <= 1
    ensures !ref.isDirectMessage || record.requesterUserId == 0 ==> r == []
  {
    if !ref.isDirectMessage || record.requesterUserId == 0 then []
    else
      match p.dm(ref)
      case DmMessageFound => [EditDirectMessage(record.requesterUserId, ref.messageId, approved, ref.isAdmin, record.requesterUsername)]
      case DmMessageGone => [SendDirectStatus(record.requesterUserId, approved)]
      case _ => []
  }

  /** One reference of `UpdateApprovalMessagesAsync`. */
  function RefEffects(record: ApprovalRecord, ref: MessageRef, approved: bool, p: Platform): seq<Effect>
  {
    match p.surface(ref)
    case Found => [EditMessage(ref.channelId, ref.messageId, approved, ref.isAdmin, record.requesterUsername)]
    case ChannelMissing => DirectEffects(record, ref, approved, p)
    case MessageMissing => DirectEffects(record, ref, approved, p)
    case Failing => []
  }

  /** `UpdateApprovalMessagesAsync` over the references `refs`, in order. */
  function FanOutEffects(record: ApprovalRecord, refs: seq<MessageRef>, approved: bool, p: Platform): seq<Effect>
  {
    if refs == [] then []
    else FanOutEffects(record, refs[..|refs| - 1], approved, p) + RefEffects(record, refs[|refs| - 1], approved, p)
  }

  /**
   * The fan-out does at most one thing per reference, never pushes a decision,
   * tells every surface the same outcome, and edits every message it finds.
   */
  lemma {:induction false} FanOutShape(record: ApprovalRecord, refs: seq<MessageRef>, approved: bool, p: Platform)
    ensures |FanOutEffects(record, refs, approved, p)| <= |refs|
    ensures forall e :: e in FanOutEffects(record, refs, approved, p) ==> !e.PushDecision? && e.approved == approved
    ensures forall i :: 0 <= i < |refs| && p.surface(refs[i]) == Found ==>
              EditMessage(refs[i].channelId, refs[i].messageId, approved, refs[i].isAdmin, record.requesterUsername)
                in FanOutEffects(record, refs, approved, p)
  {
    if refs != [] {
      var init := refs[..|refs| - 1];
      FanOutShape(record, init, approved, p);
      var last := RefEffects(record, refs[|refs| - 1], approved, p);
      assert |last| <= 1;
      forall i | 0 <= i < |refs| && p.surface(refs[i]) == Found
        ensures EditMessage(refs[i].channelId, refs[i].messageId, approved, refs[i].isAdmin, record.requesterUsername)
                  in FanOutEffects(record, refs, approved, p)
      {
        if i < |refs| - 1 { assert refs[i] == init[i]; }
      }
    }
  }

  /** A reference that is not a direct message and cannot be fetched is skipped. */
  lemma MissingChannelMessageSkipped(record: ApprovalRecord, ref: MessageRef, approved: bool, p: Platform)
    requires !ref.isDirectMessage && p.surface(ref) != Found
    ensures RefEffects(record, ref, approved, p) == []
  {
  }

  // ------------------------------------------------------------ per-record outcome

  /**
   * What the sweep decides for one record: nothing while the status is
   * unknown, or pending without a decision; for a pending request with a
   * decision, push it (`true` in the second component); for any other status,
   * mirror it, where only APPROVED counts as approved.
   */
  function Resolution(record: ApprovalRecord, status: Option<RequestStatus>, observe: MessageRef -> Observation,
                      approve: string, deny: string): (r: Option<(bool, bool)>)
    ensures status.None? ==> r.None?
    ensures status == Some(Pending) ==> (r.Some? <==> InferDecision(record.messages, observe, approve, deny).Some?)
    ensures status == Some(Pending) && r.Some? ==> r.value == (InferDecision(record.messages, observe, approve, deny).value, true)
    ensures status.Some? && status.value != Pending ==> r == Some((status.value == Approved, false))
  {
    match status
    case None => None
    case Some(Pending) =>
      var d := InferDecision(record.messages, observe, approve, deny);
      if d.Some? then Some((d.value, true)) else None
    case Some(s) => Some((s == Approved, false))
  }

  /** The sweep removes the record: it was resolved, and a decision to push did not fail. */
  predicate Settles(record: ApprovalRecord, p: Platform, approve: string, deny: string)
  {
    var r := Resolution(record, p.statusOf(record.requestId), p.observe, approve, deny);
    r.Some? && !(r.value.1 && p.pushFails(record.requestId))
  }

  /** What the sweep does for one record. */
  function RecordEffects(record: ApprovalRecord, p: Platform, approve: string, deny: string): seq<Effect>
  {
    var r := Resolution(record, p.statusOf(record.requestId), p.observe, approve, deny);
    if r.None? then []
    else if r.value.1 then
      if p.pushFails(record.requestId) then []
      else [PushDecision(record.requestId, r.value.0)] + FanOutEffects(record, record.messages, r.value.0, p)
    else if |record.messages| > 0 then FanOutEffects(record, record.messages, r.value.0, p)
    else []
  }

  /** The sweep over `records`, in order. */
  function SweepEffects(records: seq<ApprovalRecord>, p: Platform, approve: string, deny: string): seq<Effect>
  {
    if records == [] then []
    else SweepEffects(records[..|records| - 1], p, approve, deny) + RecordEffects(records[|records| - 1], p, approve, deny)
  }

  /** The request ids the sweep over `records` removes. */
  function SettledIds(records: seq<ApprovalRecord>, p: Platform, approve: string, deny: string): set<int>
  {
    if records == [] then {}
    else
      var last := records[|records| - 1];
      SettledIds(records[..|records| - 1], p, approve, deny) + (if Settles(last, p, approve, deny) then {last.requestId} else {})
  }

  /** The request ids the sweep over `records` removes, in the order it removes them. */
  function SettledOrder(records: seq<ApprovalRecord>, p: Platform, approve: string, deny: string): (r: seq<int>)
    ensures forall k :: k in r <==> k in SettledIds(records, p, approve, deny)
  {
    if records == [] then []
    else
      var last := records[|records| - 1];
      SettledOrder(records[..|records| - 1], p, approve, deny) + (if Settles(last, p, approve, deny) then [last.requestId] else [])
  }

  /** What the dictionary enumerates after the sweep over `records` deleted the settled ids from layout `l`. */
  lemma SweepEnumerates(l: Layout, records: seq<ApprovalRecord>, p: Platform, approve: string, deny: string)
    requires WellFormed(l)
    ensures Enumerate(DeleteEach(l, SettledOrder(records, p, approve, deny)).slots)
            == WithoutAll(Enumerate(l.slots), SettledIds(records, p, approve, deny))
  {
    DeleteEachEnumerates(l, SettledOrder(records, p, approve, deny));
    assert (set k | k in SettledOrder(records, p, approve, deny)) == SettledIds(records, p, approve, deny);
  }

  /** One more record of the sweep, on the entry layout. */
  lemma EntriesStep(start: Layout, order: seq<int>, before: Layout, after: Layout, id: int, settles: bool)
    requires before == DeleteEach(start, order)
    requires after == if settles then Delete(before, id) else before
    ensures after == DeleteEach(start, order + (if settles then [id] else []))
  {
    if settles {
      assert (order + [id])[..|order|] == order;
    } else {
      assert order + [] == order;
    }
  }

  /** The sweep removes exactly the ids of the records that settle. */
  lemma {:induction false} SettledIdsMembers(records: seq<ApprovalRecord>, p: Platform, approve: string, deny: string)
    ensures forall id :: id in SettledIds(records, p, approve, deny) <==>
              exists i :: 0 <= i < |records| && records[i].requestId == id && Settles(records[i], p, approve, deny)
  {
    if records != [] {
      var init := records[..|records| - 1];
      SettledIdsMembers(init, p, approve, deny);
      assert forall i :: 0 <= i < |init| ==> init[i] == records[i];
    }
  }

  /**
   * Each record's outcome on its own: an unknown status or an undecided
   * pending request keeps the record; any other status removes it whatever
   * the reactions say; a decided pending request is removed once the
   * decision is pushed.
   */
  lemma SettlesCases(record: ApprovalRecord, p: Platform, approve: string, deny: string)
    ensures p.statusOf(record.requestId).None? ==> !Settles(record, p, approve, deny)
    ensures p.statusOf(record.requestId) == Some(Pending) ==>
              (Settles(record, p, approve, deny) <==>
                 InferDecision(record.messages, p.observe, approve, deny).Some? && !p.pushFails(record.requestId))
    ensures p.statusOf(record.requestId).Some? && p.statusOf(record.requestId) != Some(Pending) ==>
              Settles(record, p, approve, deny)
  {
  }

  /** A pushed decision comes before the message updates, and the updates carry the pushed choice. */
  lemma PushBeforeUpdates(record: ApprovalRecord, p: Platform, approve: string, deny: string)
    requires p.statusOf(record.requestId) == Some(Pending)
    requires InferDecision(record.messages, p.observe, approve, deny).Some?
    requires !p.pushFails(record.requestId)
    ensures var b := InferDecision(record.messages, p.observe, approve, deny).value;
            var es := RecordEffects(record, p, approve, deny);
            |es| >= 1 && es[0] == PushDecision(record.requestId, b)
            && forall k :: 1 <= k < |es| ==> !es[k].PushDecision? && es[k].approved == b
  {
    var b := InferDecision(record.messages, p.observe, approve, deny).value;
    var es := RecordEffects(record, p, approve, deny);
    FanOutShape(record, record.messages, b, p);
    assert es == [PushDecision(record.requestId, b)] + FanOutEffects(record, record.messages, b, p);
    forall k | 1 <= k < |es| ensures !es[k].PushDecision? && es[k].approved == b {
      assert es[k] in FanOutEffects(record, record.messages, b, p);
    }
  }

  /** A request Overseerr already decided is never pushed again by the sweep. */
  lemma {:induction false} TerminalNotPushed(records: seq<ApprovalRecord>, p: Platform, approve: string, deny: string)
    requires forall i :: 0 <= i < |records| ==>
               p.statusOf(records[i].requestId).None? || p.statusOf(records[i].requestId) != Some(Pending)
    ensures forall e :: e in SweepEffects(records, p, approve, deny) ==> !e.PushDecision?
  {
    if records != [] {
      var init := records[..|records| - 1];
      var last := records[|records| - 1];
      assert forall i :: 0 <= i < |init| ==> init[i] == records[i];
      TerminalNotPushed(init, p, approve, deny);
      var r := Resolution(last, p.statusOf(last.requestId), p.observe, approve, deny);
      if r.Some? {
        FanOutShape(last, last.messages, r.value.0, p);
      }
    }
  }

  lemma MapMinusMinus<K, V>(m: map<K, V>, a: set<K>, b: set<K>)
    ensures (m - a) - b == m - (a + b)
  {
  }

  /** The sweep over one more record. */
  lemma SweepStep(records: seq<ApprovalRecord>, i: nat, p: Platform, approve: string, deny: string)
    requires i < |records|
    ensures SettledIds(records[..i + 1], p, approve, deny) ==
              SettledIds(records[..i], p, approve, deny) + (if Settles(records[i], p, approve, deny) then {records[i].requestId} else {})
    ensures SweepEffects(records[..i + 1], p, approve, deny) ==
              SweepEffects(records[..i], p, approve, deny) + RecordEffects(records[i], p, approve, deny)
    ensures SettledOrder(records[..i + 1], p, approve, deny) ==
              SettledOrder(records[..i], p, approve, deny) + (if Settles(records[i], p, approve, deny) then [records[i].requestId] else [])
  {
    assert records[..i + 1][..i] == records[..i];
  }

  // ------------------------------------------------------------ the bot

  /** The approval part of the bot: the store, the sweep gate and the recorded effects. */
  class ApprovalBot {
    const repository: RequestApprovalRepository
    /** `_overseerrSyncGate` is taken. */
    var gateHeld: bool
    var effects: seq<Effect>

    ghost predicate Valid()
      reads repository
    {
      repository.Valid()
    }

    constructor (repository: RequestApprovalRepository)
      requires repository.Valid()
      ensures Valid() && this.repository == repository
      ensures !gateHeld && effects == []
    {
      this.repository := repository;
      gateHeld := false;
      effects := [];
    }

    /** `TryUpdateRequesterDmAsync`. */
    method UpdateRequesterDm(record: ApprovalRecord, ref: MessageRef, approved: bool, p: Platform)
      modifies this`effects
      ensures effects == old(effects) + DirectEffects(record, ref, approved, p)
    {
      if !ref.isDirectMessage || record.requesterUserId == 0 {
        return;
      }
      match p.dm(ref) {
        case DmMessageFound =>
          effects := effects + [EditDirectMessage(record.requesterUserId, ref.messageId, approved, ref.isAdmin, record.requesterUsername)];
        case DmMessageGone =>
          effects := effects + [SendDirectStatus(record.requesterUserId, approved)];
        case NoMember =>
        case DmFailing =>
      }
    }

    /** `UpdateApprovalMessagesAsync`: tell every recorded message of the request the outcome. */
    method UpdateApprovalMessages(record: ApprovalRecord, approved: bool, p: Platform)
      modifies this`effects
      ensures effects == old(effects) + FanOutEffects(record, record.messages, approved, p)
    {
      var i := 0;
      while i < |record.messages|
        invariant 0 <= i <= |record.messages|
        invariant effects == old(effects) + FanOutEffects(record, record.messages[..i], approved, p)
      {
        var ref := record.messages[i];
        match p.surface(ref) {
          case Found =>
            effects := effects + [EditMessage(ref.channelId, ref.messageId, approved, ref.isAdmin, record.requesterUsername)];
          case ChannelMissing =>
            UpdateRequesterDm(record, ref, approved, p);
          case MessageMissing =>
            UpdateRequesterDm(record, ref, approved, p);
          case Failing =>
        }
        assert record.messages[..i + 1][..i] == record.messages[..i];
        i := i + 1;
      }
      assert record.messages[..i] == record.messages;
    }

    /**
     * The messages' side of one pass of the sweep's loop: resolve `record` as
     * `Resolution` says and report whether the record is to be forgotten.
     */
    method ResolveRecord(record: ApprovalRecord, p: Platform, approve: string, deny: string) returns (settled: bool)
      modifies this`effects
      ensures settled == Settles(record, p, approve, deny)
      ensures effects == old(effects) + RecordEffects(record, p, approve, deny)
    {
      settled := false;
      var status := p.statusOf(record.requestId);
      if status.Some? {
        if status.value == Pending {
          var decision := InferDecision(record.messages, p.observe, approve, deny);
          if decision.Some? && !p.pushFails(record.requestId) {
            effects := effects + [PushDecision(record.requestId, decision.value)];
            UpdateApprovalMessages(record, decision.value, p);
            settled := true;
          }
        } else {
          var approved := status.value == Approved;
          if |record.messages| > 0 {
            UpdateApprovalMessages(record, approved, p);
          }
          settled := true;
        }
      }
    }

    /**
     * One pass of the sweep's loop: resolve `record` as `Resolution` says,
     * and forget it once it is settled.
     */
    method SweepRecord(record: ApprovalRecord, p: Platform, approve: string, deny: string)
      requires Valid()
      modifies this`effects, repository
      ensures Valid()
      ensures repository.records == old(repository.records) - (if Settles(record, p, approve, deny) then {record.requestId} else {})
      ensures effects == old(effects) + RecordEffects(record, p, approve, deny)
      ensures repository.entries ==
                if Settles(record, p, approve, deny) then Delete(old(repository.entries), record.requestId)
                else old(repository.entries)
      ensures repository.Order() ==
                if Settles(record, p, approve, deny) then Without(old(repository.Order()), record.requestId)
                else old(repository.Order())
      ensures repository.saves == old(repository.saves) + |old(repository.records)| - |repository.records|
      ensures repository.saves == old(repository.saves) ==>
                repository.saved == old(repository.saved) && repository.records == old(repository.records)
      ensures repository.saves != old(repository.saves) ==> repository.saved == repository.records
    {
      var settled := ResolveRecord(record, p, approve, deny);
      if settled {
        repository.Remove(record.requestId);
      }
    }

    /**
     * The state after the sweep has worked through `prefix`, starting from a
     * store holding `records0` laid out as `entries0`, saved `saves0` times
     * (last with `saved0`), and from the effects `effects0`.
     */
    ghost predicate Swept(prefix: seq<ApprovalRecord>, p: Platform, approve: string, deny: string,
                          records0: map<int, ApprovalRecord>, entries0: Layout, saved0: map<int, ApprovalRecord>,
                          saves0: nat, effects0: seq<Effect>)
      reads this, repository
    {
      && Valid()
      && repository.records == records0 - SettledIds(prefix, p, approve, deny)
      && effects == effects0 + SweepEffects(prefix, p, approve, deny)
      && repository.entries == DeleteEach(entries0, SettledOrder(prefix, p, approve, deny))
      && repository.saves == saves0 + |records0| - |repository.records|
      && (repository.saves == saves0 ==> repository.saved == saved0)
      && (repository.saves != saves0 ==> repository.saved == repository.records)
    }

    /** Nothing is swept yet. */
    lemma SweptStart(p: Platform, approve: string, deny: string)
      requires Valid()
      ensures Swept([], p, approve, deny, repository.records, repository.entries, repository.saved, repository.saves, effects)
    {
    }

    /** One pass of the sweep's loop, from `records[..i]` swept to `records[..i + 1]` swept. */
    method SweepNext(records: seq<ApprovalRecord>, i: nat, p: Platform, approve: string, deny: string,
                     ghost records0: map<int, ApprovalRecord>, ghost entries0: Layout, ghost saved0: map<int, ApprovalRecord>,
                     ghost saves0: nat, ghost effects0: seq<Effect>)
      requires i < |records|
      requires Swept(records[..i], p, approve, deny, records0, entries0, saved0, saves0, effects0)
      modifies this`effects, repository
      ensures Swept(records[..i + 1], p, approve, deny, records0, entries0, saved0, saves0, effects0)
    {
      ghost var removed := SettledIds(records[..i], p, approve, deny);
      ghost var done := SweepEffects(records[..i], p, approve, deny);
      ghost var order := SettledOrder(records[..i], p, approve, deny);
      ghost var entriesBefore := repository.entries;
      SweepRecord(records[i], p, approve, deny);
      SweepStep(records, i, p, approve, deny);
      ghost var settled := if Settles(records[i], p, approve, deny) then {records[i].requestId} else {};
      MapMinusMinus(records0, removed, settled);
      Sequences.Assoc(effects0, done, RecordEffects(records[i], p, approve, deny));
      EntriesStep(entries0, order, entriesBefore, repository.entries, records[i].requestId, Settles(records[i], p, approve, deny));
    }

    /**
     * The sweep's loop over the snapshots taken at its start, from a store
     * holding `records0` laid out as `entries0`, saved `saves0` times (last
     * with `saved0`), and from the effects `effects0`.
     */
    method SweepAll(records: seq<ApprovalRecord>, p: Platform, approve: string, deny: string,
                    ghost records0: map<int, ApprovalRecord>, ghost entries0: Layout, ghost saved0: map<int, ApprovalRecord>,
                    ghost saves0: nat, ghost effects0: seq<Effect>)
      requires Swept([], p, approve, deny, records0, entries0, saved0, saves0, effects0)
      modifies this`effects, repository
      ensures Swept(records, p, approve, deny, records0, entries0, saved0, saves0, effects0)
    {
      var i := 0;
      assert records[..0] == [];
      while i < |records|
        invariant 0 <= i <= |records|
        invariant Swept(records[..i], p, approve, deny, records0, entries0, saved0, saves0, effects0)
      {
        SweepNext(records, i, p, approve, deny, records0, entries0, saved0, saves0, effects0);
        i := i + 1;
      }
      assert records[..i] == records;
    }

    /**
     * The whole sweep over `records`: the settled ones are removed, one save
     * each, and the dictionary enumerates what is left in its old order.
     */
    method SweepRecords(records: seq<ApprovalRecord>, p: Platform, approve: string, deny: string)
      requires Valid()
      modifies this`effects, repository
      ensures Valid()
      ensures repository.records == old(repository.records) - SettledIds(records, p, approve, deny)
      ensures effects == old(effects) + SweepEffects(records, p, approve, deny)
      ensures repository.entries == DeleteEach(old(repository.entries), SettledOrder(records, p, approve, deny))
      ensures repository.Order() == WithoutAll(old(repository.Order()), SettledIds(records, p, approve, deny))
      ensures repository.saves == old(repository.saves) + |old(repository.records)| - |repository.records|
      ensures repository.saves == old(repository.saves) ==> repository.saved == old(repository.saved)
      ensures repository.saves != old(repository.saves) ==> repository.saved == repository.records
    {
      SweptStart(p, approve, deny);
      SweepAll(records, p, approve, deny, repository.records, repository.entries, repository.saved, repository.saves, effects);
      SweepEnumerates(old(repository.entries), records, p, approve, deny);
    }

    /**
     * The body of the sweep once the gate is taken: snapshot the store and,
     * unless it is empty, resolve every snapshot in turn.
     */
    method SweepStored(p: Platform, approve: string, deny: string)
      requires Valid()
      modifies this`effects, repository
      ensures Valid()
      ensures var snapshots := old(repository.GetAllSnapshots());
              repository.records == old(repository.records) - SettledIds(snapshots, p, approve, deny)
              && effects == old(effects) + SweepEffects(snapshots, p, approve, deny)
              && repository.entries == DeleteEach(old(repository.entries), SettledOrder(snapshots, p, approve, deny))
              && repository.Order() == WithoutAll(old(repository.Order()), SettledIds(snapshots, p, approve, deny))
      ensures repository.saves == old(repository.saves) + |old(repository.records)| - |repository.records|
      ensures repository.saves == old(repository.saves) ==> repository.saved == old(repository.saved)
      ensures repository.saves != old(repository.saves) ==> repository.saved == repository.records
    {
      var records := repository.GetAllSnapshots();
      if |records| == 0 {
        assert SettledIds(records, p, approve, deny) == {} && SettledOrder(records, p, approve, deny) == [];
        WithoutNothing(repository.Order());
        return;
      }
      SweepRecords(records, p, approve, deny);
    }

    /** Take the sweep's gate, sweep the store and release the gate again. */
    method SweepGated(p: Platform, approve: string, deny: string)
      requires Valid()
      modifies this`gateHeld, this`effects, repository
      ensures Valid()
      ensures gateHeld == false
      ensures var snapshots := old(repository.GetAllSnapshots());
              repository.records == old(repository.records) - SettledIds(snapshots, p, approve, deny)
              && effects == old(effects) + SweepEffects(snapshots, p, approve, deny)
              && repository.entries == DeleteEach(old(repository.entries), SettledOrder(snapshots, p, approve, deny))
              && repository.Order() == WithoutAll(old(repository.Order()), SettledIds(snapshots, p, approve, deny))
      ensures repository.saves == old(repository.saves) + |old(repository.records)| - |repository.records|
      ensures repository.saves == old(repository.saves) ==> repository.saved == old(repository.saved)
      ensures repository.saves != old(repository.saves) ==> repository.saved == repository.records
    {
      gateHeld := true;
      SweepStored(p, approve, deny);
      gateHeld := false;
    }

    /**
     * `SyncPendingOverseerrApprovalsAsync`: when Overseerr serves movies or TV
     * shows and no other sweep holds the gate, resolve every stored record as
     * `Resolution` says, removing exactly the settled ones; the gate is
     * released on every path.
     */
    method Sweep(movieClient: DownloadClient, tvClient: DownloadClient, p: Platform,
                 approveSetting: Option<string>, denySetting: Option<string>)
      requires Valid()
      modifies this`gateHeld, this`effects, repository
      ensures Valid()
      ensures gateHeld == old(gateHeld)
      ensures (movieClient != Overseerr && tvClient != Overseerr) || old(gateHeld) ==>
                unchanged(repository) && effects == old(effects)
      ensures (movieClient == Overseerr || tvClient == Overseerr) && !old(gateHeld) ==>
                var snapshots, approve, deny := old(repository.GetAllSnapshots()), ApproveEmoji(approveSetting), DenyEmoji(denySetting);
                repository.records == old(repository.records) - SettledIds(snapshots, p, approve, deny)
                && effects == old(effects) + SweepEffects(snapshots, p, approve, deny)
                && repository.entries == DeleteEach(old(repository.entries), SettledOrder(snapshots, p, approve, deny))
                && repository.Order() == WithoutAll(old(repository.Order()), SettledIds(snapshots, p, approve, deny))
      ensures repository.saves == old(repository.saves) + |old(repository.records)| - |repository.records|
      ensures repository.saves == old(repository.saves) ==> repository.saved == old(repository.saved)
      ensures repository.saves != old(repository.saves) ==> repository.saved == repository.records
    {
      if movieClient != Overseerr && tvClient != Overseerr {
        return;
      }
      if gateHeld {
        return;
      }
      SweepGated(p, ApproveEmoji(approveSetting), DenyEmoji(denySetting));
    }

    /**
     * Tell the request's messages the outcome: every recorded message when
     * the store has a record with messages (and forget the record), otherwise
     * only the message that was reacted to.
     */
    method SettleMessages(channelId: nat, messageId: nat, requestId: int, approved: bool,
                          adminChannelIds: Option<seq<string>>, p: Platform)
      requires Valid()
      modifies this`effects, repository
      ensures Valid()
      ensures var snapshot := old(repository.GetSnapshot(requestId));
        if snapshot.Some? && |snapshot.value.messages| > 0 then
          repository.records == old(repository.records) - {requestId}
          && effects == old(effects) + FanOutEffects(snapshot.value, snapshot.value.messages, approved, p)
        else
          repository.records == old(repository.records)
          && effects == old(effects) + [EditMessage(channelId, messageId, approved, IsAdminChannel(adminChannelIds, channelId), "")]
      ensures var snapshot := old(repository.GetSnapshot(requestId));
        if snapshot.Some? && |snapshot.value.messages| > 0 then
          repository.entries == Delete(old(repository.entries), requestId)
          && repository.Order() == Without(old(repository.Order()), requestId)
          && repository.saved == repository.records && repository.saves == old(repository.saves) + 1
        else
          unchanged(repository)
    {
      var snapshot := repository.GetSnapshot(requestId);
      if snapshot.Some? && |snapshot.value.messages| > 0 {
        UpdateApprovalMessages(snapshot.value, approved, p);
        repository.Remove(requestId);
      } else {
        effects := effects + [EditMessage(channelId, messageId, approved, IsAdminChannel(adminChannelIds, channelId), "")];
      }
    }

    /**
     * `HandleOverseerrRequestDecisionAsync`: an admin reacted with `approved`
     * to message (`channelId`, `messageId`) of request `requestId`. When
     * Overseerr already decided, its status is mirrored and the reaction is not
     * pushed; otherwise the reaction is pushed (a failing push ends the call)
     * and the messages are told.
     */
    method HandleDecision(channelId: nat, messageId: nat, requestId: int, approved: bool,
                          adminChannelIds: Option<seq<string>>, p: Platform)
      requires Valid()
      modifies this`effects, repository
      ensures Valid()
      ensures var status := p.statusOf(requestId);
        var decided := status.Some? && status.value != Pending;
        var outcome := if decided then status.value == Approved else approved;
        var snapshot := old(repository.GetSnapshot(requestId));
        var told :=
          if snapshot.Some? && |snapshot.value.messages| > 0 then FanOutEffects(snapshot.value, snapshot.value.messages, outcome, p)
          else [EditMessage(channelId, messageId, outcome, IsAdminChannel(adminChannelIds, channelId), "")];
        if !decided && p.pushFails(requestId) then
          repository.records == old(repository.records) && effects == old(effects)
        else
          effects == old(effects) + (if decided then [] else [PushDecision(requestId, approved)]) + told
          && repository.records ==
               if snapshot.Some? && |snapshot.value.messages| > 0 then old(repository.records) - {requestId}
               else old(repository.records)
      ensures var status := p.statusOf(requestId);
        var snapshot := old(repository.GetSnapshot(requestId));
        if (status.None? || status.value == Pending) && p.pushFails(requestId) then
          unchanged(repository)
        else if snapshot.Some? && |snapshot.value.messages| > 0 then
          repository.entries == Delete(old(repository.entries), requestId)
          && repository.Order() == Without(old(repository.Order()), requestId)
          && repository.saved == repository.records && repository.saves == old(repository.saves) + 1
        else
          unchanged(repository)
    {
      var status := p.statusOf(requestId);
      if status.Some? && status.value != Pending {
        SettleMessages(channelId, messageId, requestId, status.value == Approved, adminChannelIds, p);
        return;
      }
      if p.pushFails(requestId) {
        return;
      }
      effects := effects + [PushDecision(requestId, approved)];
      SettleMessages(channelId, messageId, requestId, approved, adminChannelIds, p);
    }
  }

  /** An admin's reaction never overrides a decision Overseerr already holds: nothing is pushed and every message shows Overseerr's outcome. */
  lemma MirroredOutcome(snapshot: Option<ApprovalRecord>, channelId: nat, messageId: nat, status: RequestStatus,
                        adminChannelIds: Option<seq<string>>, p: Platform)
    requires status != Pending
    ensures var outcome := status == Approved;
      var told :=
        if snapshot.Some? && |snapshot.value.messages| > 0 then FanOutEffects(snapshot.value, snapshot.value.messages, outcome, p)
        else [EditMessage(channelId, messageId, outcome, IsAdminChannel(adminChannelIds, channelId), "")];
      forall e :: e in told ==> !e.PushDecision? && e.approved == outcome
  {
    if snapshot.Some? && |snapshot.value.messages| > 0 {
      FanOutShape(snapshot.value, snapshot.value.messages, status == Approved, p);
    }
  }
}
