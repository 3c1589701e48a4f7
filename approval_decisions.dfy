/**
 * The read-only decision rules of the bot's approval flow: which emoji count
 * as approve and deny, which channels are admin channels, which reaction is a
 * decision, and the decision a set of reacted-to messages expresses.
 *
 * Discord is an oracle here: `observe` says what reading a recorded message
 * gives (nothing, or its reactions).
 */
module ApprovalDecisions {
  import opened Wrappers
  import opened Text
  import opened Approvals
  import RequestMarker

  const DefaultApproveEmoji: string := "✅"
  const DefaultDenyEmoji: string := "❌"

  /** The configured emoji, trimmed, when it is set and not blank; else the fallback. */
  function ConfiguredEmoji(configured: Option<string>, fallback: string): (r: string)
    ensures configured.None? || IsBlank(configured.value) ==> r == fallback
    ensures configured.Some? && !IsBlank(configured.value) ==> r == Trim(configured.value) && !IsBlank(r)
  {
    if configured.None? || IsBlank(configured.value) then fallback
    else
      TrimBlank(configured.value);
      assert Trim(configured.value) != [];
      assert !IsBlank(Trim(configured.value)) by {
        assert !IsWhiteSpace(Trim(configured.value)[0]);
      }
      Trim(configured.value)
  }

  /** `GetApprovalEmojiApprove`; the pending message offers the same emoji. */
  function ApproveEmoji(configured: Option<string>): string
  {
    ConfiguredEmoji(configured, DefaultApproveEmoji)
  }

  /** `GetApprovalEmojiDeny`; the pending message offers the same emoji. */
  function DenyEmoji(configured: Option<string>): string
  {
    ConfiguredEmoji(configured, DefaultDenyEmoji)
  }

  /** The configured emoji is used as written apart from surrounding white space, and the defaults otherwise. */
  lemma EmojiChoice(approve: Option<string>, deny: Option<string>)
    ensures approve.None? ==> ApproveEmoji(approve) == "✅"
    ensures deny.None? ==> DenyEmoji(deny) == "❌"
    ensures approve.Some? && !IsBlank(approve.value) ==> ApproveEmoji(Some(" " + approve.value + "\n")) == ApproveEmoji(approve)
  {
    if approve.Some? && !IsBlank(approve.value) {
      var v := approve.value;
      TrimAround(v);
      NotBlankAround(v);
    }
  }

  /** Surrounding a non-blank string with white space keeps it non-blank. */
  lemma NotBlankAround(v: string)
    requires !IsBlank(v)
    ensures !IsBlank(" " + v + "\n")
  {
    var k :| 0 <= k < |v| && !IsWhiteSpace(v[k]);
    assert (" " + v + "\n")[k + 1] == v[k];
  }

  /** Surrounding a string with white space does not change its trimmed form. */
  lemma TrimAround(v: string)
    ensures Trim(" " + v + "\n") == Trim(v)
  {
    assert " " + v + "\n" == [' '] + (v + "\n");
    TrimStartSkip(' ', v + "\n");
    TrimStartAppend(v, "\n");
    if TrimStart(v) == [] {
      TrimStartSkip('\n', []);
    } else {
      TrimEndSkip(TrimStart(v), '\n');
    }
  }

  /** A leading white-space character is trimmed away. */
  lemma TrimStartSkip(c: char, s: string)
    requires IsWhiteSpace(c)
    ensures TrimStart([c] + s) == TrimStart(s)
  {
    assert ([c] + s)[1..] == s;
  }

  /** A trailing white-space character is trimmed away. */
  lemma TrimEndSkip(s: string, c: char)
    requires IsWhiteSpace(c)
    ensures TrimEnd(s + [c]) == TrimEnd(s)
  {
    assert (s + [c])[..|s|] == s;
  }

  /** Trimming the start of `v + w` trims `v` first when `v` is not blank. */
  lemma {:induction false} TrimStartAppend(v: string, w: string)
    ensures TrimStart(v) != [] ==> TrimStart(v + w) == TrimStart(v) + w
    ensures TrimStart(v) == [] ==> TrimStart(v + w) == TrimStart(w)
  {
    if |v| > 0 && IsWhiteSpace(v[0]) {
      assert (v + w)[1..] == v[1..] + w;
      TrimStartAppend(v[1..], w);
    } else if v == [] {
      assert v + w == w;
    }
  }

  /** `IsApproveEmoji`: ordinal equality with the approve emoji. */
  predicate IsApproveEmoji(name: string, configured: Option<string>)
  {
    name == ApproveEmoji(configured)
  }

  /** `IsDenyEmoji`: ordinal equality with the deny emoji. */
  predicate IsDenyEmoji(name: string, configured: Option<string>)
  {
    name == DenyEmoji(configured)
  }

  // ------------------------------------------------------------ admin channels

  /** `xs.Any(p)`: some element satisfies `p`. */
  function Any<T>(xs: seq<T>, p: T -> bool): (r: bool)
    ensures r <==> exists i :: 0 <= i < |xs| && p(xs[i])
  {
    if xs == [] then false
    else if p(xs[0]) then true
    else
      var r := Any(xs[1..], p);
      assert r <==> exists i :: 1 <= i < |xs| && p(xs[i]) by {
        if r {
          var i :| 0 <= i < |xs[1..]| && p(xs[1..][i]);
          assert xs[i + 1] == xs[1..][i];
        }
        if exists i :: 1 <= i < |xs| && p(xs[i]) {
          var i :| 1 <= i < |xs| && p(xs[i]);
          assert xs[1..][i - 1] == xs[i];
        }
      }
      r
  }

  /**
   * `IsAdminChannel`: the channel is an admin channel iff one of the configured
   * admin channel ids (absent means none) parses to it; unparsable ids never match.
   */
  function IsAdminChannel(adminChannelIds: Option<seq<string>>, channelId: nat): (r: bool)
    ensures r <==> adminChannelIds.Some? &&
                   (exists i :: 0 <= i < |adminChannelIds.value| && ParseUInt64(adminChannelIds.value[i]) == Some(channelId))
  {
    adminChannelIds.Some? && |adminChannelIds.value| > 0 &&
    Any(adminChannelIds.value, id => ParseUInt64(id) == Some(channelId))
  }

  /** A channel id written by the bot is recognised as an admin channel. */
  lemma AdminChannelListed(ids: seq<string>, k: nat, channelId: nat)
    requires k < |ids| && ids[k] == NatToString(channelId) && channelId <= UInt64Max
    ensures IsAdminChannel(Some(ids), channelId)
  {
    ParseUInt64RoundTrip(channelId);
  }

  // ------------------------------------------------------------ reactions

  /** One reaction on a message; a missing emoji reads as the empty name. */
  datatype Reaction = Reaction(emojiName: Option<string>, count: int)

  /** What reading a recorded message gives: nothing (no channel, no message, an error) or its reactions. */
  datatype Observation = Unreadable | Readable(reactions: seq<Reaction>)

  /** Some reaction with that emoji has a positive count. */
  predicate HasReaction(reactions: seq<Reaction>, emoji: string)
  {
    exists i :: 0 <= i < |reactions| && reactions[i].emojiName.GetOr("") == emoji && reactions[i].count > 0
  }

  /** A readable message that carries an approve or a deny reaction stops the search. */
  predicate Decisive(o: Observation, approve: string, deny: string)
  {
    o.Readable? && (HasReaction(o.reactions, approve) || HasReaction(o.reactions, deny))
  }

  /** What a decisive message says: approve or deny alone, or nothing when it has both. */
  function Verdict(o: Observation, approve: string, deny: string): (r: Option<bool>)
    requires Decisive(o, approve, deny)
    ensures r == Some(true) <==> HasReaction(o.reactions, approve) && !HasReaction(o.reactions, deny)
    ensures r == Some(false) <==> HasReaction(o.reactions, deny) && !HasReaction(o.reactions, approve)
  {
    var a := HasReaction(o.reactions, approve);
    var d := HasReaction(o.reactions, deny);
    if a && d then None else if a then Some(true) else Some(false)
  }

  /** The admin references, in their recorded order. */
  function Admins(refs: seq<MessageRef>): (r: seq<MessageRef>)
    ensures forall i :: 0 <= i < |r| ==> r[i].isAdmin
  {
    if refs == [] then []
    else if refs[0].isAdmin then [refs[0]] + Admins(refs[1..])
    else Admins(refs[1..])
  }

  /** The non-admin references, in their recorded order. */
  function NonAdmins(refs: seq<MessageRef>): (r: seq<MessageRef>)
    ensures forall i :: 0 <= i < |r| ==> !r[i].isAdmin
  {
    if refs == [] then []
    else if refs[0].isAdmin then NonAdmins(refs[1..])
    else [refs[0]] + NonAdmins(refs[1..])
  }

  /** The two groups together hold exactly the recorded references. */
  lemma {:induction false} AdminsNonAdminsSplit(refs: seq<MessageRef>)
    ensures multiset(Admins(refs)) + multiset(NonAdmins(refs)) == multiset(refs)
  {
    if refs != [] {
      AdminsNonAdminsSplit(refs[1..]);
      assert refs == [refs[0]] + refs[1..];
    }
  }

  /**
   * `OrderByDescending(x => x.IsAdmin)`, a stable sort: the admin references,
   * then the others, each group in recorded order.
   */
  function AdminFirst(refs: seq<MessageRef>): (r: seq<MessageRef>)
    ensures forall i, j :: 0 <= i < j < |r| && r[j].isAdmin ==> r[i].isAdmin
  {
    var a := Admins(refs);
    var r := a + NonAdmins(refs);
    assert forall i :: 0 <= i < |r| ==> (r[i].isAdmin <==> i < |a|);
    r
  }

  /** The reordering loses and adds nothing. */
  lemma AdminFirstPermutes(refs: seq<MessageRef>)
    ensures multiset(AdminFirst(refs)) == multiset(refs)
  {
    AdminsNonAdminsSplit(refs);
  }

  /** No message of `visit` before position `i` is decisive. */
  predicate NoneDecisiveBefore(visit: seq<MessageRef>, observe: MessageRef -> Observation, approve: string, deny: string, i: int)
  {
    forall j :: 0 <= j < i && j < |visit| ==> !Decisive(observe(visit[j]), approve, deny)
  }

  /**
   * The verdict of the first decisive message, visiting `visit` in order: a
   * verdict is what the first decisive message says, and with no decisive
   * message there is none.
   */
  function FirstVerdict(visit: seq<MessageRef>, observe: MessageRef -> Observation, approve: string, deny: string)
    : (r: Option<bool>)
    ensures r.Some? ==> exists i :: 0 <= i < |visit| && Decisive(observe(visit[i]), approve, deny)
                                    && Verdict(observe(visit[i]), approve, deny) == r
                                    && NoneDecisiveBefore(visit, observe, approve, deny, i)
    ensures (forall i :: 0 <= i < |visit| ==> !Decisive(observe(visit[i]), approve, deny)) ==> r.None?
  {
    if visit == [] then None
    else if Decisive(observe(visit[0]), approve, deny) then Verdict(observe(visit[0]), approve, deny)
    else
      var rest := FirstVerdict(visit[1..], observe, approve, deny);
      VerdictPastHead(visit, observe, approve, deny, rest);
      rest
  }

  /** What the search of the tail finds, past a head that is not decisive, is what the search of the whole finds. */
  lemma VerdictPastHead(visit: seq<MessageRef>, observe: MessageRef -> Observation, approve: string, deny: string, r: Option<bool>)
    requires visit != [] && !Decisive(observe(visit[0]), approve, deny)
    requires r.Some? ==> exists i :: 0 <= i < |visit[1..]| && Decisive(observe(visit[1..][i]), approve, deny)
                                     && Verdict(observe(visit[1..][i]), approve, deny) == r
                                     && NoneDecisiveBefore(visit[1..], observe, approve, deny, i)
    requires (forall i :: 0 <= i < |visit[1..]| ==> !Decisive(observe(visit[1..][i]), approve, deny)) ==> r.None?
    ensures r.Some? ==> exists i :: 0 <= i < |visit| && Decisive(observe(visit[i]), approve, deny)
                                    && Verdict(observe(visit[i]), approve, deny) == r
                                    && NoneDecisiveBefore(visit, observe, approve, deny, i)
    ensures (forall i :: 0 <= i < |visit| ==> !Decisive(observe(visit[i]), approve, deny)) ==> r.None?
  {
    if r.Some? {
      var i :| 0 <= i < |visit[1..]| && Decisive(observe(visit[1..][i]), approve, deny)
               && Verdict(observe(visit[1..][i]), approve, deny) == r
               && NoneDecisiveBefore(visit[1..], observe, approve, deny, i);
      forall j | 0 <= j < i + 1
        ensures !Decisive(observe(visit[j]), approve, deny)
      {
        if j > 0 {
          assert visit[j] == visit[1..][j - 1];
        }
      }
      assert visit[i + 1] == visit[1..][i];
      assert NoneDecisiveBefore(visit, observe, approve, deny, i + 1);
    }
    if forall i :: 0 <= i < |visit| ==> !Decisive(observe(visit[i]), approve, deny) {
      forall i | 0 <= i < |visit[1..]|
        ensures !Decisive(observe(visit[1..][i]), approve, deny)
      {
        assert visit[1..][i] == visit[i + 1];
      }
    }
  }

  /** The first decisive message alone decides, whatever later messages say. */
  lemma {:induction false} FirstVerdictAt(visit: seq<MessageRef>, observe: MessageRef -> Observation, approve: string, deny: string, i: nat)
    requires i < |visit| && Decisive(observe(visit[i]), approve, deny)
    requires forall j :: 0 <= j < i ==> !Decisive(observe(visit[j]), approve, deny)
    ensures FirstVerdict(visit, observe, approve, deny) == Verdict(observe(visit[i]), approve, deny)
  {
    if i > 0 {
      assert forall j :: 0 <= j < i - 1 ==> visit[1..][j] == visit[j + 1];
      FirstVerdictAt(visit[1..], observe, approve, deny, i - 1);
    }
  }

  /** Searching `a + b` searches `b` only when nothing in `a` is decisive. */
  lemma {:induction false} FirstVerdictAppend(a: seq<MessageRef>, b: seq<MessageRef>, observe: MessageRef -> Observation, approve: string, deny: string)
    ensures (exists i :: 0 <= i < |a| && Decisive(observe(a[i]), approve, deny)) ==>
              FirstVerdict(a + b, observe, approve, deny) == FirstVerdict(a, observe, approve, deny)
    ensures (forall i :: 0 <= i < |a| ==> !Decisive(observe(a[i]), approve, deny)) ==>
              FirstVerdict(a + b, observe, approve, deny) == FirstVerdict(b, observe, approve, deny)
  {
    if a != [] {
      assert (a + b)[1..] == a[1..] + b;
      assert forall i :: 0 <= i < |a[1..]| ==> a[1..][i] == a[i + 1];
      FirstVerdictAppend(a[1..], b, observe, approve, deny);
      if !Decisive(observe(a[0]), approve, deny) && exists i :: 0 <= i < |a| && Decisive(observe(a[i]), approve, deny) {
        var i :| 0 <= i < |a| && Decisive(observe(a[i]), approve, deny);
        assert a[1..][i - 1] == a[i];
      }
    } else {
      assert a + b == b;
    }
  }

  /**
   * `TryGetPendingDecisionFromMessagesAsync`: the admin messages are read
   * first, then the others; the first readable message with an approve or a
   * deny reaction decides (nothing when it has both); messages that cannot be
   * read are skipped; tallies of different messages are never combined.
   */
  function InferDecision(messages: seq<MessageRef>, observe: MessageRef -> Observation, approve: string, deny: string)
    : (r: Option<bool>)
    ensures messages == [] ==> r.None?
  {
    FirstVerdict(AdminFirst(messages), observe, approve, deny)
  }

  /** When some admin message is decisive, the other messages are not looked at. */
  lemma AdminMessagesDecideFirst(messages: seq<MessageRef>, observe: MessageRef -> Observation, approve: string, deny: string)
    requires exists i :: 0 <= i < |messages| && messages[i].isAdmin && Decisive(observe(messages[i]), approve, deny)
    ensures InferDecision(messages, observe, approve, deny) == FirstVerdict(Admins(messages), observe, approve, deny)
  {
    var i :| 0 <= i < |messages| && messages[i].isAdmin && Decisive(observe(messages[i]), approve, deny);
    var a := Admins(messages);
    AdminsNonAdminsSplit(messages);
    assert messages[i] in multiset(messages);
    assert messages[i] !in multiset(NonAdmins(messages));
    assert messages[i] in multiset(a);
    var k :| 0 <= k < |a| && a[k] == messages[i];
    FirstVerdictAppend(a, NonAdmins(messages), observe, approve, deny);
  }

  /** Reordering keeps exactly the recorded references. */
  lemma AdminFirstMembers(messages: seq<MessageRef>)
    ensures forall m :: m in AdminFirst(messages) <==> m in messages
  {
    var v := AdminFirst(messages);
    AdminFirstPermutes(messages);
    forall m ensures m in v <==> m in messages {
      assert m in v <==> m in multiset(v);
      assert m in messages <==> m in multiset(messages);
    }
  }

  /** A decision needs a message that shows that choice alone. */
  lemma DecisionNeedsOneSidedMessage(messages: seq<MessageRef>, observe: MessageRef -> Observation, approve: string, deny: string, b: bool)
    requires InferDecision(messages, observe, approve, deny) == Some(b)
    ensures exists m :: (m in messages && observe(m).Readable?
        && HasReaction(observe(m).reactions, if b then approve else deny)
        && !HasReaction(observe(m).reactions, if b then deny else approve))
  {
    var v := AdminFirst(messages);
    AdminFirstMembers(messages);
    var i :| 0 <= i < |v| && Decisive(observe(v[i]), approve, deny) && Verdict(observe(v[i]), approve, deny) == Some(b);
    assert v[i] in messages;
  }

  /** Without an approve or deny reaction on any readable message there is no decision. */
  lemma NoReactionNoDecision(messages: seq<MessageRef>, observe: MessageRef -> Observation, approve: string, deny: string)
    requires forall m :: m in messages ==> !Decisive(observe(m), approve, deny)
    ensures InferDecision(messages, observe, approve, deny).None?
  {
    var v := AdminFirst(messages);
    AdminFirstMembers(messages);
    assert forall i :: 0 <= i < |v| ==> v[i] in messages;
  }

  // ------------------------------------------------------------ the reaction entry point

  /**
   * `DiscordMessageReactionAddedHandler` up to the decision call: a human
   * member holding one of the admin roles (role ids are compared as their
   * decimal text) reacted to a message the bot wrote and whose request id can
   * be read; the approve emoji means approve, the deny emoji means deny, and
   * anything else is ignored. The result is the request id and the choice.
   */
  function ReactionDecision(userIsBot: bool, adminRoleIds: seq<string>, memberRoleIds: seq<nat>,
                            authoredByBot: bool, content: string, footer: string, marker: string,
                            emojiName: Option<string>, approveSetting: Option<string>, denySetting: Option<string>)
    : (r: Option<(int, bool)>)
    ensures r.Some? ==>
      !userIsBot && authoredByBot
      && (exists k :: 0 <= k < |memberRoleIds| && NatToString(memberRoleIds[k]) in adminRoleIds)
      && RequestMarker.TryGetRequestId(content, footer, marker) == Some(r.value.0)
      && (r.value.1 <==> IsApproveEmoji(emojiName.GetOr(""), approveSetting))
    ensures r.Some? && !r.value.1 ==> IsDenyEmoji(emojiName.GetOr(""), denySetting)
    ensures !userIsBot && authoredByBot && (exists k :: 0 <= k < |memberRoleIds| && NatToString(memberRoleIds[k]) in adminRoleIds)
            && RequestMarker.TryGetRequestId(content, footer, marker).Some?
            && (IsApproveEmoji(emojiName.GetOr(""), approveSetting) || IsDenyEmoji(emojiName.GetOr(""), denySetting))
            ==> r.Some?
  {
    var isAdmin := exists k :: 0 <= k < |memberRoleIds| && NatToString(memberRoleIds[k]) in adminRoleIds;
    var id := RequestMarker.TryGetRequestId(content, footer, marker);
    var name := emojiName.GetOr("");
    if userIsBot || |adminRoleIds| == 0 || !isAdmin || !authoredByBot || id.None? then None
    else if IsApproveEmoji(name, approveSetting) then Some((id.value, true))
    else if IsDenyEmoji(name, denySetting) then Some((id.value, false))
    else None
  }
}
