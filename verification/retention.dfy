/** Exactly what a produce leaves in its topic. */
module Retention {
  import opened Collections
  import opened Model
  import opened Topics
  import opened TopicFacts
  import opened Idempotence

  /** The produce answers from memory and stores nothing. */
  predicate Resent(t: TopicState, item: ProduceItem) {
    item.producerId != "" && (item.producerId, item.seqNo) in t.dedup.entries
  }

  /** The offset after the last one stored. */
  function EndAfter(t: TopicState, item: ProduceItem): nat {
    if Resent(t, item) then t.nextOffset else t.nextOffset + 1
  }

  /** When the message at the offset was produced. */
  function TimeAt(t: TopicState, item: ProduceItem, o: nat): nat {
    if o in t.messages then t.messages[o].tsMs else item.tsMs
  }

  /** What the topic's settings keep of the newest messages; without any setting that is a million. */
  predicate WithinCount(t: TopicState, end: nat, o: nat) {
    if t.retainMaxMessages == 0 && t.retainMaxAgeMs == 0 then end - o <= 1_000_000
    else t.retainMaxMessages == 0 || end - o <= t.retainMaxMessages
  }

  /** The message, or an older one still there, is within the age the settings allow. */
  ghost predicate WithinAge(t: TopicState, item: ProduceItem, o: nat) {
    t.retainMaxAgeMs == 0 ||
    exists p: nat :: Base(t) <= p <= o && item.tsMs <= TimeAt(t, item, p) + t.retainMaxAgeMs
  }

  // ---------------------------------------------------------------- the leading run past its age

  lemma {:induction false} AgedOutIs(keys: seq<nat>, messages: map<nat, Message>, nowMs: nat, maxAgeMs: nat)
    requires forall k | k in keys :: k in messages
    ensures var n := AgedOut(keys, messages, nowMs, maxAgeMs);
            && (forall i | 0 <= i < n :: nowMs > messages[keys[i]].tsMs + maxAgeMs)
            && (n < |keys| ==> nowMs <= messages[keys[n]].tsMs + maxAgeMs)
    decreases |keys|
  {
    if keys != [] && SatSub(nowMs, messages[keys[0]].tsMs) > maxAgeMs {
      var tail := keys[1..];
      assert forall k | k in tail :: k in keys;
      AgedOutIs(tail, messages, nowMs, maxAgeMs);
      var n := AgedOut(tail, messages, nowMs, maxAgeMs);
      forall i | 0 <= i < n + 1 ensures nowMs > messages[keys[i]].tsMs + maxAgeMs {
        if i > 0 {
          assert keys[i] == tail[i - 1];
        }
      }
    }
  }

  ghost predicate YoungBelow(s: TopicState, nowMs: nat, o: nat) {
    exists p: nat :: p in s.messages && p <= o && nowMs <= s.messages[p].tsMs + s.retainMaxAgeMs
  }

  /** What the age leaves, offset by offset. */
  lemma AgedIff(s: TopicState, nowMs: nat, leases: nat, o: nat)
    requires TopicInv(s, leases) && o in s.messages
    ensures Base(s) + AgedOut(SortedKeys(s.messages.Keys), s.messages, nowMs, s.retainMaxAgeMs) <= o <==> YoungBelow(s, nowMs, o)
  {
    hide TopicInv, AgedOut, SortedKeys, Base;
    var keys := SortedKeys(s.messages.Keys);
    var n := AgedOut(keys, s.messages, nowMs, s.retainMaxAgeMs);
    SoundSize(s, leases);
    IncreasingInterval(keys, Base(s), s.nextOffset);
    AgedOutIs(keys, s.messages, nowMs, s.retainMaxAgeMs);
    if Base(s) + n <= o {
      assert keys[n] in keys && keys[n] == Base(s) + n;
    }
    if YoungBelow(s, nowMs, o) {
      var p :| p in s.messages && p <= o && nowMs <= s.messages[p].tsMs + s.retainMaxAgeMs;
      assert keys[p - Base(s)] == p;
    }
  }

  lemma PurgeCountIs(s: TopicState, nowMs: nat, leases: nat, o: nat)
    requires TopicInv(s, leases) && o in s.messages
    ensures Base(s) + PurgeCount(s, nowMs) <= o <==>
            WithinCount(s, s.nextOffset, o) && (s.retainMaxAgeMs == 0 || YoungBelow(s, nowMs, o))
  {
    hide TopicInv, AgedOut, SortedKeys, Base, YoungBelow;
    SoundSize(s, leases);
    AgedIff(s, nowMs, leases, o);
  }

  lemma PurgedIff(s: TopicState, nowMs: nat, leases: nat, o: nat)
    requires TopicInv(s, leases)
    ensures o in PurgeRetained(s, nowMs).messages <==>
            && o in s.messages && WithinCount(s, s.nextOffset, o)
            && (s.retainMaxAgeMs == 0 || YoungBelow(s, nowMs, o))
  {
    hide TopicInv, PurgeRetained, PurgeCount, Base, YoungBelow, WithinCount;
    PurgeFacts(s, nowMs, leases);
    SoundSize(PurgeRetained(s, nowMs), leases);
    SoundSize(s, leases);
    hide Purged;
    if o in s.messages {
      PurgeCountIs(s, nowMs, leases, o);
    }
  }

  /** Exactly what a produce leaves in its topic, a resent one too: of the messages that were there and its own, those within
      the number the topic's settings keep, counted from the newest, and not in the leading run of messages past the age they
      allow. */
  lemma RetainedIff(t: TopicState, item: ProduceItem, leases: nat, o: nat)
    requires TopicInv(t, leases) && t.nextOffset <= MAX_COUNTER
    ensures o in ProduceTo(t, item).0.messages <==>
            && Base(t) <= o < EndAfter(t, item)
            && WithinCount(t, EndAfter(t, item), o) && WithinAge(t, item, o)
  {
    hide TopicInv, PurgeRetained, Base, RememberKey, WithinAge;
    var s := if Resent(t, item) then t else Stored(t, item);
    if !Resent(t, item) {
      StoredFacts(t, item, leases);
    }
    SoundSize(t, leases);
    SoundSize(s, leases);
    PurgedIff(s, item.tsMs, leases, o);
    if o in s.messages {
      SameAge(s.messages, t, item, o, s.nextOffset);
    }
  }

  /** The stored topic has the same times. */
  lemma SameAge(messages: map<nat, Message>, t: TopicState, item: ProduceItem, o: nat, end: nat)
    requires forall p: nat :: p in messages <==> Base(t) <= p < end
    requires forall p | p in messages :: messages[p].tsMs == TimeAt(t, item, p)
    requires o in messages
    ensures (t.retainMaxAgeMs == 0 || exists p: nat :: p in messages && p <= o && item.tsMs <= messages[p].tsMs + t.retainMaxAgeMs)
       <==> WithinAge(t, item, o)
  {
    hide Base, TimeAt;
    if p: nat :| p in messages && p <= o && item.tsMs <= messages[p].tsMs + t.retainMaxAgeMs {
      assert Base(t) <= p <= o && item.tsMs <= TimeAt(t, item, p) + t.retainMaxAgeMs;
    }
    if p: nat :| Base(t) <= p <= o && item.tsMs <= TimeAt(t, item, p) + t.retainMaxAgeMs {
      assert p in messages;
    }
  }

  /** So with clocks that do not go back, nothing that is left is past its age. */
  lemma LeftIsYoung(t: TopicState, item: ProduceItem, leases: nat, o: nat)
    requires TopicInv(t, leases) && t.nextOffset <= MAX_COUNTER && t.retainMaxAgeMs > 0
    requires forall p: nat, r: nat | Base(t) <= p <= r < EndAfter(t, item) :: TimeAt(t, item, p) <= TimeAt(t, item, r)
    requires o in ProduceTo(t, item).0.messages
    ensures item.tsMs <= TimeAt(t, item, o) + t.retainMaxAgeMs
  {
    hide TopicInv, ProduceTo, Base, TimeAt, Resent, WithinCount;
    RetainedIff(t, item, leases, o);
  }

  const YOUNG := Message(0, 0, Raw, [], 100)
  const OLD := Message(1, 0, Raw, [], 1)
  const NOW := ProduceItem("t", 0, Raw, [], "", 0, 100)

  /** A young message before an old one, with room for two messages that are at most ten milliseconds old. */
  const MIXED := EMPTY_TOPIC.(nextOffset := 2, messages := map[0 := YOUNG, 1 := OLD], retainMaxMessages := 2, retainMaxAgeMs := 10)

  /** With clocks that do go back something can be: the age stops at the first young message, and the count then takes it. */
  lemma LeftCanBeOld()
    ensures TopicInv(MIXED, 0)
    ensures 1 in ProduceTo(MIXED, NOW).0.messages && NOW.tsMs > TimeAt(MIXED, NOW, 1) + MIXED.retainMaxAgeMs
  {
    assert Retains(MIXED.messages, 0, 2);
    TopicInvIntro(MIXED, 0, 0);
    hide TopicInv, ProduceTo, Base;
    RetainedIff(MIXED, NOW, 0, 1);
    assert 0 <= 0 <= 1 && NOW.tsMs <= TimeAt(MIXED, NOW, 0) + MIXED.retainMaxAgeMs;
  }
}
