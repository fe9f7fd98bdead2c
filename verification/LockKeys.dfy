// Names of automatic-login locks: validation, rendering, and why no two locks and no lock and counter ever collide.
module LockKeys {

  /** A bare string is the older form of a session-expiry trigger. */
  datatype Trigger = PlainEvent(id: string) | SessionExpiry(id: string) | AuthenticationAttempt(id: string)

  predicate Lower(c: char) { 'a' <= c <= 'z' }

  predicate Digit(c: char) { '0' <= c <= '9' }

  predicate IsBankCode(s: string) {
    && 1 <= |s| <= 32 && Lower(s[0])
    && forall i :: 1 <= i < |s| ==> Lower(s[i]) || Digit(s[i]) || s[i] == '_' || s[i] == '-'
  }

  predicate IsEventId(s: string) {
    1 <= |s| <= 64 && forall i :: 0 <= i < |s| ==> Lower(s[i]) || 'A' <= s[i] <= 'Z' || Digit(s[i]) || s[i] == '-'
  }

  predicate IsAttemptId(s: string) {
    |s| == 64 && forall i :: 0 <= i < |s| ==> 'a' <= s[i] <= 'f' || Digit(s[i])
  }

  predicate IsTrigger(t: Trigger) { if t.AuthenticationAttempt? then IsAttemptId(t.id) else IsEventId(t.id) }

  const PREFIX := "autologin:lock"

  function BuildLockKey(bankCode: string, t: Trigger): string {
    match t
    case AuthenticationAttempt(id) => PREFIX + ":" + "v2" + ":" + bankCode + ":" + "authentication_attempt" + ":" + id
    case _ => PREFIX + ":" + bankCode + ":" + t.id
  }

  function FenceKey(key: string): string { key + ":" + "fence" }

  predicate SameTrigger(t: Trigger, u: Trigger) { t.AuthenticationAttempt? == u.AuthenticationAttempt? && t.id == u.id }

  ghost predicate IsLockKey(key: string) {
    exists b, t :: IsBankCode(b) && IsTrigger(t) && key == BuildLockKey(b, t)
  }

  // ---- segments ---------------------------------------------------------------------------------------------

  function Join(segments: seq<string>): string
    requires segments != []
  {
    if |segments| == 1 then segments[0] else segments[0] + ":" + Join(segments[1..])
  }

  predicate ColonFree(s: string) { ':' !in s }

  predicate AllColonFree(segments: seq<string>) { forall i :: 0 <= i < |segments| ==> ColonFree(segments[i]) }

  /** The first colon splits a string in one way only. */
  lemma FirstColonSplits(a: string, x: string, b: string, y: string)
    requires ColonFree(a) && ColonFree(b) && a + ":" + x == b + ":" + y
    ensures a == b && x == y
  {
    var s, t := a + ":" + x, b + ":" + y;
    assert s[|a|] == ':' && t[|b|] == ':';
    assert (forall i :: 0 <= i < |a| ==> s[i] == a[i]) && (forall i :: 0 <= i < |b| ==> t[i] == b[i]);
    assert s[..|a|] == a && t[..|b|] == b;
    assert s[|a| + 1..] == x && t[|b| + 1..] == y;
  }

  lemma JoinHasColon(s: seq<string>)
    requires |s| > 1
    ensures ':' in Join(s)
  {
  }

  /** Joined colon-free segments can be told apart again. */
  lemma {:induction false} JoinIsInjective(s: seq<string>, t: seq<string>)
    requires s != [] && t != [] && AllColonFree(s) && AllColonFree(t) && Join(s) == Join(t)
    ensures s == t
    decreases |s|
  {
    if |s| > 1 { JoinHasColon(s); }
    if |t| > 1 { JoinHasColon(t); }
    if |s| > 1 {
      FirstColonSplits(s[0], Join(s[1..]), t[0], Join(t[1..]));
      JoinIsInjective(s[1..], t[1..]);
      assert s == [s[0]] + s[1..] && t == [t[0]] + t[1..];
    }
  }

  lemma {:induction false} JoinSnoc(s: seq<string>, x: string)
    requires s != []
    ensures Join(s + [x]) == Join(s) + ":" + x
    decreases |s|
  {
    if |s| == 1 {
      assert (s + [x])[1..] == [x];
    } else {
      JoinSnoc(s[1..], x);
      assert (s + [x])[1..] == s[1..] + [x];
    }
  }

  /** What follows the common prefix. */
  function Segments(bankCode: string, t: Trigger): seq<string> {
    if t.AuthenticationAttempt? then ["v2", bankCode, "authentication_attempt", t.id] else [bankCode, t.id]
  }

  lemma SegmentsAreColonFree(bankCode: string, t: Trigger)
    requires IsBankCode(bankCode) && IsTrigger(t)
    ensures AllColonFree(Segments(bankCode, t)) && AllColonFree(Segments(bankCode, t) + ["fence"])
  {
    assert ColonFree(bankCode) && ColonFree(t.id);
  }

  lemma JoinTwo(p: string, a: string, b: string)
    ensures p + a + ":" + b == p + Join([a, b])
  {
  }

  lemma JoinFour(p: string, a: string, b: string, c: string, d: string)
    ensures p + a + ":" + b + ":" + c + ":" + d == p + Join([a, b, c, d])
  {
    JoinTwo(p, a, b);
    assert [a, b] + [c] == [a, b, c] && [a, b, c] + [d] == [a, b, c, d];
    JoinSnoc([a, b], c);
    JoinSnoc([a, b, c], d);
    assert p + Join([a, b]) + ":" + c + ":" + d == p + (Join([a, b]) + ":" + c + ":" + d);
  }

  /** A lock's name is the prefix and its segments, joined by colons. */
  lemma KeyIsJoined(bankCode: string, t: Trigger)
    ensures BuildLockKey(bankCode, t) == PREFIX + ":" + Join(Segments(bankCode, t))
  {
    if t.AuthenticationAttempt? {
      JoinFour(PREFIX + ":", "v2", bankCode, "authentication_attempt", t.id);
    } else {
      JoinTwo(PREFIX + ":", bankCode, t.id);
    }
  }

  lemma SuffixesAgree(p: string, x: string, y: string)
    requires p + x == p + y
    ensures x == y
  {
    assert (p + x)[|p|..] == x && (p + y)[|p|..] == y;
  }

  // ---- no collisions ----------------------------------------------------------------------------------------

  /** Locks collide exactly for the same bank and the same trigger, a bare event id being its session expiry. */
  lemma KeysAreInjective(b: string, t: Trigger, c: string, u: Trigger)
    requires IsBankCode(b) && IsTrigger(t) && IsBankCode(c) && IsTrigger(u)
    ensures BuildLockKey(b, t) == BuildLockKey(c, u) <==> b == c && SameTrigger(t, u)
  {
    KeyIsJoined(b, t);
    KeyIsJoined(c, u);
    SegmentsAreColonFree(b, t);
    SegmentsAreColonFree(c, u);
    if BuildLockKey(b, t) == BuildLockKey(c, u) {
      SuffixesAgree(PREFIX + ":", Join(Segments(b, t)), Join(Segments(c, u)));
      JoinIsInjective(Segments(b, t), Segments(c, u));
      assert |Segments(b, t)| == |Segments(c, u)|;
      assert Segments(b, t)[if t.AuthenticationAttempt? then 1 else 0] == b;
      assert Segments(b, t)[if t.AuthenticationAttempt? then 3 else 1] == t.id;
    }
  }

  lemma FenceIsJoined(bankCode: string, t: Trigger)
    ensures FenceKey(BuildLockKey(bankCode, t)) == PREFIX + ":" + Join(Segments(bankCode, t) + ["fence"])
  {
    KeyIsJoined(bankCode, t);
    JoinSnoc(Segments(bankCode, t), "fence");
    assert FenceKey(BuildLockKey(bankCode, t)) == PREFIX + ":" + (Join(Segments(bankCode, t)) + ":" + "fence");
  }

  /** No lock is ever another lock's counter, and no two locks share a counter. */
  lemma FencesAreApart(key: string, other: string)
    requires IsLockKey(key) && IsLockKey(other)
    ensures key != FenceKey(other)
    ensures FenceKey(key) == FenceKey(other) ==> key == other
  {
    var b, t :| IsBankCode(b) && IsTrigger(t) && key == BuildLockKey(b, t);
    var c, u :| IsBankCode(c) && IsTrigger(u) && other == BuildLockKey(c, u);
    FenceNotALock(b, t, c, u);
    assert FenceKey(key)[..|FenceKey(key)| - 6] == key && FenceKey(other)[..|FenceKey(other)| - 6] == other;
  }

  /** Locks have two or four segments after the prefix, counters three or five. */
  lemma FenceNotALock(b: string, t: Trigger, c: string, u: Trigger)
    requires IsBankCode(b) && IsTrigger(t) && IsBankCode(c) && IsTrigger(u)
    ensures BuildLockKey(b, t) != FenceKey(BuildLockKey(c, u))
  {
    KeyIsJoined(b, t);
    FenceIsJoined(c, u);
    SegmentsAreColonFree(b, t);
    SegmentsAreColonFree(c, u);
    if BuildLockKey(b, t) == FenceKey(BuildLockKey(c, u)) {
      SuffixesAgree(PREFIX + ":", Join(Segments(b, t)), Join(Segments(c, u) + ["fence"]));
      JoinIsInjective(Segments(b, t), Segments(c, u) + ["fence"]);
      assert false;
    }
  }
}
