/** What a push subscription remembers about the messages it has handed to its client. */
module Tracking {
  import opened Collections

  const MAX_LEASE_REFRESHES := 2
  const MAX_LEASE_ALIASES := 8

  datatype Track = Track(leaseId: nat, deadlineMs: u64, refreshes: nat, leases: seq<nat>)

  datatype Outcome = Push | Refreshed | AlreadyAcked

  datatype Tracked = Tracked(byOffset: map<nat, Track>, leaseToOffset: map<nat, nat>, ackedRecently: map<nat, u64>)

  const NOTHING := Tracked(map[], map[], map[])

  // ---------------------------------------------------------------- the four operations

  predicate Remembered(t: Tracked, offset: nat, now: u64) {
    offset in t.ackedRecently && t.ackedRecently[offset] > now
  }

  /** A full alias list gives up its oldest. */
  function Trimmed(leases: seq<nat>): seq<nat> {
    if |leases| > MAX_LEASE_ALIASES then leases[1..] else leases
  }

  function Forgotten(leases: seq<nat>): set<nat> {
    if |leases| > MAX_LEASE_ALIASES then {leases[0]} else {}
  }

  function Renewed(k: Track, lease: nat, deadline: u64): Track {
    Track(lease, deadline, if k.refreshes < MAX_LEASE_REFRESHES then k.refreshes + 1 else 0, Trimmed(k.leases + [lease]))
  }

  function Delivered(t: Tracked, offset: nat, lease: nat, deadline: u64): Tracked {
    var acked := t.ackedRecently - {offset};
    if offset in t.byOffset then
      var k := t.byOffset[offset];
      Tracked(t.byOffset[offset := Renewed(k, lease, deadline)],
              (t.leaseToOffset - Forgotten(k.leases + [lease]))[lease := offset], acked)
    else
      Tracked(t.byOffset[offset := Track(lease, deadline, 0, [lease])], t.leaseToOffset[lease := offset], acked)
  }

  function Deliver(t: Tracked, offset: nat, lease: nat, deadline: u64, now: u64): (Tracked, Outcome) {
    if Remembered(t, offset, now) then (t, AlreadyAcked)
    else
      (Delivered(t, offset, lease, deadline),
       if offset in t.byOffset && t.byOffset[offset].refreshes < MAX_LEASE_REFRESHES then Refreshed else Push)
  }

  function Dropped(t: Tracked, offset: nat): Tracked
    requires offset in t.byOffset
  {
    t.(byOffset := t.byOffset - {offset}, leaseToOffset := t.leaseToOffset - Elements(t.byOffset[offset].leases))
  }

  function Resolve(t: Tracked, lease: nat, ackedUntil: Option<u64>): (Tracked, Option<nat>) {
    if lease in t.leaseToOffset && t.leaseToOffset[lease] in t.byOffset then
      var offset := t.leaseToOffset[lease];
      var r := Dropped(t, offset);
      (if ackedUntil.Some? then r.(ackedRecently := r.ackedRecently[offset := ackedUntil.value]) else r,
       Some(t.byOffset[offset].leaseId))
    else (t, None)
  }

  predicate IsStale(k: Track, now: u64, grace: u64) { SatAdd(k.deadlineMs, grace) <= now }

  function Stale(t: Tracked, now: u64, grace: u64): set<nat> {
    set o | o in t.byOffset && IsStale(t.byOffset[o], now, grace)
  }

  /** Every alias of the given offsets. */
  function AliasesOf(tracks: map<nat, Track>, offsets: set<nat>): set<nat> {
    set o, l | o in offsets && o in tracks && l in tracks[o].leases :: l
  }

  function Expired(t: Tracked, now: u64, grace: u64): Tracked {
    var stale := Stale(t, now, grace);
    Tracked(t.byOffset - stale, t.leaseToOffset - AliasesOf(t.byOffset, stale),
            map o | o in t.ackedRecently && t.ackedRecently[o] > now :: t.ackedRecently[o])
  }

  /** Offsets whose lease is still running. */
  function Live(tracks: map<nat, Track>, now: u64): set<nat> {
    set o | o in tracks && tracks[o].deadlineMs > now
  }

  function CurrentLeases(tracks: map<nat, Track>): multiset<nat>
    decreases |tracks|
  {
    if tracks == map[] then multiset{}
    else
      var o := MinOf(tracks.Keys);
      multiset{tracks[o].leaseId} + CurrentLeases(tracks - {o})
  }

  // ---------------------------------------------------------------- the object

  class SubTracking {
    var byOffset: map<nat, Track>
    var leaseToOffset: map<nat, nat>
    var ackedRecently: map<nat, u64>

    constructor ()
      ensures State() == NOTHING
    {
      byOffset, leaseToOffset, ackedRecently := map[], map[], map[];
    }

    function State(): Tracked
      reads this
    {
      Tracked(byOffset, leaseToOffset, ackedRecently)
    }

    method DeliverOffset(offset: nat, lease: nat, deadline: u64, now: u64) returns (outcome: Outcome)
      modifies this
      ensures (State(), outcome) == Deliver(old(State()), offset, lease, deadline, now)
    {
      if offset in ackedRecently {
        if ackedRecently[offset] > now {
          return AlreadyAcked;
        }
        ackedRecently := ackedRecently - {offset};
      }
      assert ackedRecently == old(ackedRecently) - {offset};
      if offset in byOffset {
        var track := byOffset[offset];
        var refresh := track.refreshes < MAX_LEASE_REFRESHES;
        track := track.(refreshes := if refresh then track.refreshes + 1 else 0);
        track := track.(leaseId := lease, deadlineMs := deadline, leases := track.leases + [lease]);
        if |track.leases| > MAX_LEASE_ALIASES {
          var oldest := track.leases[0];
          track := track.(leases := track.leases[1..]);
          leaseToOffset := leaseToOffset - {oldest};
        }
        assert leaseToOffset == old(leaseToOffset) - Forgotten(old(byOffset)[offset].leases + [lease]);
        byOffset := byOffset[offset := track];
        leaseToOffset := leaseToOffset[lease := offset];
        return if refresh then Refreshed else Push;
      } else {
        byOffset := byOffset[offset := Track(lease, deadline, 0, [lease])];
        leaseToOffset := leaseToOffset[lease := offset];
        return Push;
      }
    }

    method Unalias(leases: seq<nat>)
      modifies this`leaseToOffset
      ensures leaseToOffset == old(leaseToOffset) - Elements(leases)
    {
      for i := 0 to |leases|
        invariant leaseToOffset == old(leaseToOffset) - Elements(leases[..i])
      {
        assert leases[..i + 1] == leases[..i] + [leases[i]];
        assert Elements(leases[..i + 1]) == Elements(leases[..i]) + {leases[i]};
        leaseToOffset := leaseToOffset - {leases[i]};
      }
      assert leases[..|leases|] == leases;
    }

    method ResolveLease(lease: nat, ackedUntil: Option<u64>) returns (newest: Option<nat>)
      modifies this
      ensures (State(), newest) == Resolve(old(State()), lease, ackedUntil)
    {
      if lease !in leaseToOffset {
        return None;
      }
      var offset := leaseToOffset[lease];
      if offset !in byOffset {
        return None;
      }
      var track := byOffset[offset];
      byOffset := byOffset - {offset};
      Unalias(track.leases);
      if ackedUntil.Some? {
        ackedRecently := ackedRecently[offset := ackedUntil.value];
      }
      return Some(track.leaseId);
    }

    /** Everything is forgotten; the current lease of each tracked offset is returned, in no particular order. */
    method DrainLeases() returns (leases: seq<nat>)
      modifies this
      ensures State() == NOTHING
      ensures multiset(leases) == CurrentLeases(old(byOffset))
    {
      leaseToOffset, ackedRecently := map[], map[];
      leases := [];
      while byOffset != map[]
        invariant leaseToOffset == map[] && ackedRecently == map[]
        invariant multiset(leases) + CurrentLeases(byOffset) == CurrentLeases(old(byOffset))
        decreases |byOffset|
      {
        var offset := MinOf(byOffset.Keys);
        leases := leases + [byOffset[offset].leaseId];
        byOffset := byOffset - {offset};
      }
    }

    method DropTracks(offsets: set<nat>)
      modifies this`byOffset, this`leaseToOffset
      ensures byOffset == old(byOffset) - offsets
      ensures leaseToOffset == old(leaseToOffset) - AliasesOf(old(byOffset), offsets)
    {
      hide AliasesOf, Elements;
      var left := offsets;
      ghost var gone := {};
      assert AliasesOf(old(byOffset), gone) == {} by { NoAliases(old(byOffset)); }
      while left != {}
        invariant left !! gone && left + gone == offsets
        invariant byOffset == old(byOffset) - gone
        invariant leaseToOffset == old(leaseToOffset) - AliasesOf(old(byOffset), gone)
        decreases |left|
      {
        var offset :| offset in left;
        MoreAliases(old(byOffset), gone, offset);
        MinusTwice(old(byOffset), gone, {offset});
        if offset in byOffset {
          var track := byOffset[offset];
          byOffset := byOffset - {offset};
          MinusTwice(old(leaseToOffset), AliasesOf(old(byOffset), gone), Elements(track.leases));
          Unalias(track.leases);
        }
        left, gone := left - {offset}, gone + {offset};
      }
    }

    /** Forgets what is stale and says how many leases are still running. */
    method LiveCount(now: u64, grace: u64) returns (live: nat)
      modifies this
      ensures State() == Expired(old(State()), now, grace)
      ensures live == |Live(old(byOffset), now)|
    {
      ackedRecently := map o | o in ackedRecently && ackedRecently[o] > now :: ackedRecently[o];
      var stale := Stale(State(), now, grace);
      DropTracks(stale);
      SurvivorsLive(old(byOffset), stale, now, grace);
      live := |Live(byOffset, now)|;
    }
  }

  lemma MinusTwice<V>(m: map<nat, V>, a: set<nat>, b: set<nat>)
    ensures m - a - b == m - (a + b)
  {
  }

  lemma NoAliases(tracks: map<nat, Track>)
    ensures AliasesOf(tracks, {}) == {}
  {
  }

  lemma MoreAliases(tracks: map<nat, Track>, offsets: set<nat>, o: nat)
    ensures AliasesOf(tracks, offsets + {o})
         == AliasesOf(tracks, offsets) + if o in tracks then Elements(tracks[o].leases) else {}
  {
  }

  lemma SurvivorsLive(tracks: map<nat, Track>, gone: set<nat>, now: u64, grace: u64)
    requires forall o | o in gone :: o in tracks && IsStale(tracks[o], now, grace)
    ensures Live(tracks - gone, now) == Live(tracks, now)
  {
  }
}
