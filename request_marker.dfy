/**
 * The Overseerr request id carried by a pending-request message: the footer
 * written under the request embed and the case-insensitive
 * `marker\s*(\d+)` search that reads it back.
 *
 * The marker text itself is a constant of the bot that is not part of this
 * model, so it is a parameter here.
 */
module RequestMarker {
  import opened Wrappers
  import opened Text

  /**
   * The footer of a pending request: `{marker} {id}`, or
   * `{base} | {marker} {id}` when the embed already had a non-blank footer.
   */
  function PendingFooter(baseFooter: Option<string>, marker: string, requestId: int): (r: string)
    ensures baseFooter.None? || IsBlank(baseFooter.value) ==> StartsWith(r, marker)
    ensures baseFooter.Some? && !IsBlank(baseFooter.value) ==> StartsWith(r, baseFooter.value + " | " + marker)
  {
    var tail := marker + " " + IntToString(requestId);
    if baseFooter.None? || IsBlank(baseFooter.value) then
      assert tail[..|marker|] == marker;
      tail
    else
      var r := baseFooter.value + " | " + tail;
      assert r == (baseFooter.value + " | " + marker) + " " + IntToString(requestId);
      r
  }

  // ------------------------------------------------------------ the pattern

  /** The marker occurs at position `i` of `s`, ignoring case. */
  predicate MarkerAt(s: string, i: nat, marker: string)
  {
    i + |marker| <= |s| && EqualsIgnoreCase(s[i..i + |marker|], marker)
  }

  /** The first position at or after `j` that is not white space (`\s*`). */
  function SkipSpaces(s: string, j: nat): (k: nat)
    requires j <= |s|
    ensures j <= k <= |s|
    ensures forall q :: j <= q < k ==> IsWhiteSpace(s[q])
    ensures k == |s| || !IsWhiteSpace(s[k])
    decreases |s| - j
  {
    if j < |s| && IsWhiteSpace(s[j]) then SkipSpaces(s, j + 1) else j
  }

  /** The end of the run of digits starting at `j` (greedy `\d+`). */
  function DigitRunEnd(s: string, j: nat): (k: nat)
    requires j <= |s|
    ensures j <= k <= |s|
    ensures forall q :: j <= q < k ==> IsDigit(s[q])
    ensures k == |s| || !IsDigit(s[k])
    decreases |s| - j
  {
    if j < |s| && IsDigit(s[j]) then DigitRunEnd(s, j + 1) else j
  }

  /** The captured digits of a match that starts at `i`, if one does. */
  function MatchAt(s: string, i: nat, marker: string): (r: Option<string>)
    ensures r.Some? ==> MarkerAt(s, i, marker) && |r.value| >= 1 && AllDigits(r.value)
    ensures !MarkerAt(s, i, marker) ==> r.None?
  {
    if MarkerAt(s, i, marker) then
      var k := SkipSpaces(s, i + |marker|);
      var e := DigitRunEnd(s, k);
      if e > k then Some(s[k..e]) else None
    else None
  }

  /** `Regex.Match` from position `from`: the leftmost match, if any. */
  function FirstMatch(s: string, marker: string, from: nat): (r: Option<string>)
    ensures r.None? ==> forall i :: from <= i <= |s| ==> MatchAt(s, i, marker).None?
    ensures r.Some? ==> exists i :: from <= i <= |s| && MatchAt(s, i, marker) == r
                                  && forall j :: from <= j < i ==> MatchAt(s, j, marker).None?
    decreases |s| + 1 - from
  {
    if from > |s| then None
    else if MatchAt(s, from, marker).Some? then MatchAt(s, from, marker)
    else FirstMatch(s, marker, from + 1)
  }

  /**
   * `TryGetOverseerrRequestId`: the first match in the message content wins,
   * and only when the content has none is the first embed's footer searched;
   * the captured digits must then fit an `int`. A missing content or footer
   * is the empty string.
   */
  function TryGetRequestId(content: string, footer: string, marker: string): (r: Option<int>)
    ensures FirstMatch(content, marker, 0).Some? ==> r == ParseInt32(FirstMatch(content, marker, 0).value)
    ensures FirstMatch(content, marker, 0).None? ==>
              r == (if FirstMatch(footer, marker, 0).Some? then ParseInt32(FirstMatch(footer, marker, 0).value) else None)
    ensures r.Some? ==> 0 <= r.value <= Int32Max
  {
    var m := FirstMatch(content, marker, 0);
    var m' := if m.Some? then m else FirstMatch(footer, marker, 0);
    if m'.Some? then
      ParseInt32Digits(m'.value);
      ParseInt32(m'.value)
    else None
  }

  // ------------------------------------------------------------ round trip

  /** No match starts before `p` ⇒ the search from `from` is the search from `p`. */
  lemma {:induction false} FirstMatchSkips(s: string, marker: string, from: nat, p: nat)
    requires from <= p <= |s|
    requires forall i :: from <= i < p ==> MatchAt(s, i, marker).None?
    ensures FirstMatch(s, marker, from) == FirstMatch(s, marker, p)
    decreases p - from
  {
    if from < p {
      assert MatchAt(s, from, marker).None?;
      assert FirstMatch(s, marker, from) == FirstMatch(s, marker, from + 1);
      FirstMatchSkips(s, marker, from + 1, p);
    }
  }

  /** A marker that can be written into a footer and found again. */
  predicate WellFormedMarker(marker: string)
  {
    |marker| >= 1 && DigitFree(marker) && !IsWhiteSpace(marker[|marker| - 1])
  }

  /** The captured digits of the marker that ends a footer are exactly the id. */
  lemma MatchAtTail(prefix: string, marker: string, id: nat)
    requires |marker| >= 1
    ensures MatchAt(prefix + marker + " " + NatToString(id), |prefix|, marker) == Some(NatToString(id))
  {
    var digits := NatToString(id);
    var s := prefix + marker + " " + digits;
    var p := |prefix|;
    assert s[p..p + |marker|] == marker;
    assert s[p + |marker|] == ' ';
    var k := SkipSpaces(s, p + |marker|);
    assert k == p + |marker| + 1 by {
      assert SkipSpaces(s, p + |marker|) == SkipSpaces(s, p + |marker| + 1);
      assert s[p + |marker| + 1] == digits[0];
    }
    forall q | k <= q < |s| ensures s[q] == digits[q - k] {}
    var e := DigitRunEnd(s, k);
    assert e == |s|;
    assert s[k..e] == digits;
  }

  /** A match that starts before the marker of a digit-free prefix cannot exist. */
  lemma NoEarlierMatch(prefix: string, marker: string, id: nat, i: nat)
    requires WellFormedMarker(marker) && DigitFree(prefix) && i < |prefix|
    ensures MatchAt(prefix + marker + " " + NatToString(id), i, marker).None?
  {
    var s := prefix + marker + " " + NatToString(id);
    var last := |prefix| + |marker| - 1;
    assert s[last] == marker[|marker| - 1];
    if MarkerAt(s, i, marker) {
      var k := SkipSpaces(s, i + |marker|);
      assert k <= last;
      assert !IsDigit(s[k]) by {
        if k < |prefix| { assert s[k] == prefix[k]; }
        else { assert s[k] == marker[k - |prefix|]; }
      }
    }
  }

  /** The text a pending footer puts before the marker. */
  function FooterPrefix(baseFooter: Option<string>): string
  {
    if baseFooter.None? || IsBlank(baseFooter.value) then "" else baseFooter.value + " | "
  }

  lemma FooterShape(baseFooter: Option<string>, marker: string, requestId: nat)
    ensures PendingFooter(baseFooter, marker, requestId) == FooterPrefix(baseFooter) + marker + " " + NatToString(requestId)
  {
  }

  /** The leftmost match in a footer whose prefix is digit-free captures the id. */
  lemma {:induction false} FooterMatch(prefix: string, marker: string, id: nat)
    requires WellFormedMarker(marker) && DigitFree(prefix)
    ensures FirstMatch(prefix + marker + " " + NatToString(id), marker, 0) == Some(NatToString(id))
  {
    var footer := prefix + marker + " " + NatToString(id);
    forall i | 0 <= i < |prefix| ensures MatchAt(footer, i, marker).None? {
      NoEarlierMatch(prefix, marker, id, i);
    }
    FirstMatchSkips(footer, marker, 0, |prefix|);
    MatchAtTail(prefix, marker, id);
  }

  /**
   * The id written into a pending footer is the id read back from it, as long
   * as the message content holds no match of its own and the text before the
   * marker holds no digit.
   */
  lemma {:induction false} RequestIdRoundTrip(content: string, baseFooter: Option<string>, marker: string, requestId: nat)
    requires WellFormedMarker(marker)
    requires baseFooter.Some? ==> DigitFree(baseFooter.value)
    requires FirstMatch(content, marker, 0).None?
    requires requestId <= Int32Max
    ensures TryGetRequestId(content, PendingFooter(baseFooter, marker, requestId), marker) == Some(requestId)
  {
    var prefix := FooterPrefix(baseFooter);
    assert DigitFree(prefix) by {
      if prefix != "" {
        assert prefix == baseFooter.value + " | ";
        forall k | 0 <= k < |prefix| ensures !IsDigit(prefix[k]) {
          if k < |baseFooter.value| { assert prefix[k] == baseFooter.value[k]; }
        }
      }
    }
    FooterShape(baseFooter, marker, requestId);
    FooterMatch(prefix, marker, requestId);
    ParseInt32RoundTrip(requestId);
  }
}
