/** A consumer group's record, updated in place by the loops of the source. */
module GroupObject {
  import opened Collections
  import opened Model
  import opened Groups
  import opened Topics
  import opened Selection

  class Group {
    var watermark: nat
    var ackedAbove: set<nat>
    var inFlight: map<nat, Lease>
    var leasedOffsets: map<nat, nat>
    var pollCount: nat
    var lastActiveMs: nat

    constructor (g: GroupState)
      ensures State() == g
    {
      watermark, ackedAbove, inFlight, leasedOffsets, pollCount, lastActiveMs :=
        g.watermark, g.ackedAbove, g.inFlight, g.leasedOffsets, g.pollCount, g.lastActiveMs;
    }

    function State(): GroupState
      reads this
    {
      GroupState(watermark, ackedAbove, inFlight, leasedOffsets, pollCount, lastActiveMs)
    }

    method SlideOver()
      modifies this`watermark, this`ackedAbove
      ensures State() == Slid(old(State()))
    {
      while watermark in ackedAbove
        invariant Slide(watermark, ackedAbove) == Slide(old(watermark), old(ackedAbove))
        decreases |ackedAbove|
      {
        ackedAbove := ackedAbove - {watermark};
        watermark := SatAdd(watermark, 1);
      }
    }

    method MarkOffset(offset: nat)
      modifies this`watermark, this`ackedAbove
      ensures State() == MarkAcked(old(State()), offset)
    {
      if offset < watermark {
        return;
      }
      ackedAbove := ackedAbove + {offset};
      SlideOver();
    }

    method Release(leaseId: nat)
      modifies this`inFlight, this`leasedOffsets
      ensures State() == Unlease(old(State()), leaseId)
    {
      if leaseId in inFlight {
        var lease := inFlight[leaseId];
        inFlight := inFlight - {leaseId};
        leasedOffsets := leasedOffsets - {lease.offset};
      }
    }

    method ReleaseAll(ids: set<nat>)
      modifies this`inFlight, this`leasedOffsets
      ensures State() == DropLeases(old(State()), ids)
    {
      hide DropLeases, Unlease;
      DropNone(State());
      var left := ids;
      ghost var gone := {};
      while left != {}
        invariant left !! gone && left + gone == ids
        invariant State() == DropLeases(old(State()), gone)
        decreases |left|
      {
        var id := MinOf(left);
        DropOneMore(old(State()), gone, id);
        Release(id);
        left, gone := left - {id}, gone + {id};
      }
      assert gone == ids;
    }

    method ReleaseDue(nowMs: nat)
      modifies this`inFlight, this`leasedOffsets
      ensures State() == Expire(old(State()), nowMs)
    {
      ReleaseAll(set l | l in inFlight && inFlight[l].deadlineMs <= nowMs);
      assert DueLeases(old(State()), nowMs) == set l | l in old(inFlight) && old(inFlight)[l].deadlineMs <= nowMs;
    }

    method Advance(to: nat)
      modifies this`watermark, this`ackedAbove, this`inFlight, this`leasedOffsets
      ensures State() == AdvanceWatermark(old(State()), to)
    {
      hide DropLeases, Slid;
      if to > watermark {
        watermark := to;
      }
      ackedAbove := AckedFrom(ackedAbove, watermark);
      ReleaseAll(LeasesBelow(State(), watermark));
      assert State() == Raised(old(State()), to);
      SlideOver();
    }

    /** The group's part of an acknowledgement. */
    method Settle(leaseId: nat)
      modifies this`watermark, this`ackedAbove, this`inFlight, this`leasedOffsets
      ensures State() == AckLease(old(State()), leaseId)
    {
      hide MarkAcked;
      if leaseId in inFlight {
        var offset := inFlight[leaseId].offset;
        Release(leaseId);
        MarkOffset(offset);
      }
    }

    /** The group's part of a poll after the selection: one lease for each chosen message. */
    method Issue(messages: map<nat, Message>, chosen: seq<Item>, firstLease: u64, deadlineMs: nat)
      returns (items: seq<Delivered>, nextLease: u64)
      requires forall x | x in chosen :: x.offset in messages
      modifies this`inFlight, this`leasedOffsets
      ensures State() == IssueLeases(old(State()), chosen, firstLease, deadlineMs)
      ensures items == Deliveries(messages, chosen, firstLease)
      ensures nextLease == SatAdd(firstLease, |chosen|)
    {
      hide Leased;
      items, nextLease := [], firstLease;
      for i := 0 to |chosen|
        invariant IssueLeases(State(), chosen[i..], nextLease, deadlineMs)
               == IssueLeases(old(State()), chosen, firstLease, deadlineMs)
        invariant items + Deliveries(messages, chosen[i..], nextLease) == Deliveries(messages, chosen, firstLease)
        invariant nextLease == SatAdd(firstLease, i)
      {
        assert chosen[i..][0] == chosen[i] && chosen[i..][1..] == chosen[i + 1..];
        var offset := chosen[i].offset;
        assert Leased(State(), nextLease, offset, deadlineMs)
            == State().(inFlight := inFlight[nextLease := Lease(offset, deadlineMs)],
                        leasedOffsets := leasedOffsets[offset := deadlineMs])
          by { LeasedFields(State(), nextLease, offset, deadlineMs); }
        inFlight := inFlight[nextLease := Lease(offset, deadlineMs)];
        leasedOffsets := leasedOffsets[offset := deadlineMs];
        var m := messages[offset];
        items := items + [Delivered(nextLease, offset, m.priority, m.contentType, m.payload, m.tsMs)];
        nextLease := SatAdd(nextLease, 1);
      }
      assert chosen[|chosen|..] == [];
    }
  }

  lemma LeasedFields(g: GroupState, leaseId: nat, offset: nat, deadlineMs: nat)
    ensures Leased(g, leaseId, offset, deadlineMs)
         == g.(inFlight := g.inFlight[leaseId := Lease(offset, deadlineMs)],
               leasedOffsets := g.leasedOffsets[offset := deadlineMs])
  {
  }

  lemma DropNone(g: GroupState)
    ensures DropLeases(g, {}) == g
  {
  }

  lemma DropOneMore(g: GroupState, gone: set<nat>, id: nat)
    ensures Unlease(DropLeases(g, gone), id) == DropLeases(g, gone + {id})
  {
    var d := DropLeases(g, gone);
    assert d.inFlight - {id} == g.inFlight - (gone + {id});
    if id in d.inFlight {
      assert (set l | l in gone + {id} && l in g.inFlight :: g.inFlight[l].offset)
          == (set l | l in gone && l in g.inFlight :: g.inFlight[l].offset) + {g.inFlight[id].offset};
    } else {
      assert (set l | l in gone + {id} && l in g.inFlight :: g.inFlight[l].offset)
          == (set l | l in gone && l in g.inFlight :: g.inFlight[l].offset);
    }
  }
}
