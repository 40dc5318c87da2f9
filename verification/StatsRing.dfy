/** `ConnectionStats` (renet/src/connection_stats.rs) with its fixed arrays, proved against `Stats`. */
module StatsRing {
  import opened Common
  import opened Stats

  class ConnectionStats {
    const packetsSent: array<nat>
    const packetsAcked: array<nat>
    var currentIndex: nat

    ghost predicate Valid()
      reads this
    {
      packetsSent != packetsAcked && packetsSent.Length == packetsAcked.Length == SIZE && currentIndex < SIZE
    }

    ghost function Model(): (s: StatsState)
      requires Valid()
      reads this, packetsSent, packetsAcked
      ensures WfStats(s)
    {
      StatsState(packetsSent[..], packetsAcked[..], currentIndex)
    }

    constructor ()
      ensures Valid() && Model() == NewStats()
      ensures fresh(packetsSent) && fresh(packetsAcked)
    {
      packetsSent := new nat[SIZE](_ => 0);
      packetsAcked := new nat[SIZE](_ => 0);
      currentIndex := 0;
    }

    method Update(now: Time)
      requires Valid()
      modifies this`currentIndex, packetsSent, packetsAcked
      ensures Valid() && Model() == UpdateStats(old(Model()), now)
    {
      var i := Index(now);
      if currentIndex != i {
        currentIndex := i;
        packetsSent[i] := 0;
        packetsAcked[i] := 0;
      }
    }

    method SentPackets(n: nat)
      requires Valid()
      modifies packetsSent
      ensures Model() == CountSent(old(Model()), n)
    {
      packetsSent[currentIndex] := packetsSent[currentIndex] + n;
    }

    method AckedPacket(sentAt: Time, now: Time)
      requires Valid()
      modifies packetsAcked
      ensures Model() == CountAcked(old(Model()), sentAt, now)
    {
      if now - sentAt > WINDOW {
        return;
      }
      var i := Index(sentAt);
      packetsAcked[i] := packetsAcked[i] + 1;
    }

    /** The sum of a counter over the slots that count. */
    static method Total(counts: array<nat>, current: nat) returns (sum: int)
      requires counts.Length == SIZE && current < SIZE
      ensures sum == SettledSum(counts[..], current)
    {
      sum := 0;
      for i := 0 to SIZE
        invariant sum == Sum(counts[..i])
      {
        sum := sum + counts[i];
        assert counts[..i + 1][..i] == counts[..i];
      }
      assert counts[..SIZE] == counts[..];
      sum := sum - counts[current];
      sum := sum - counts[(current + SIZE - 1) % SIZE];
      sum := sum - counts[(current + SIZE - 2) % SIZE];
    }

    method PacketLoss() returns (loss: real)
      requires Valid()
      ensures loss == Stats.PacketLoss(Model())
      ensures (forall i :: 0 <= i < SIZE ==> packetsAcked[i] <= packetsSent[i]) ==> 0.0 <= loss <= 1.0
    {
      var totalPacketsSent := Total(packetsSent, currentIndex);
      var totalPacketsAcked := Total(packetsAcked, currentIndex);
      if forall i :: 0 <= i < SIZE ==> packetsAcked[i] <= packetsSent[i] {
        LossInUnitInterval(Model());
      }
      if totalPacketsSent == 0 {
        return 0.0;
      }
      loss := (totalPacketsSent - totalPacketsAcked) as real / totalPacketsSent as real;
    }
  }
}
