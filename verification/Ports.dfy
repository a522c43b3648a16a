/** The order in which listen ports are tried. */
module Ports {
  import opened World
  import Machine

  const PORT_COUNT: nat := 10_000

  /** Occupied by a WireGuard device, the service's or another, or reserved by a row. */
  predicate Busy(w: World, port: nat) {
    || port in w.otherPorts
    || (exists i :: i in w.ifaces && w.ifaces[i].wg.Some? && w.ifaces[i].wg.value.port == port)
    || exists n :: n in w.rows && w.rows[n].port == port
  }

  /** Ports from the preferred one on, and from the first one again after the last. */
  predicate InScanOrder(tried: seq<nat>, asn: nat) {
    && (tried != [] ==> tried[0] == 20_000 + asn % 10_000)
    && forall i, j :: 0 <= i && j == i + 1 < |tried| ==> tried[j] == if tried[i] == 29_999 then 20_000 else tried[i] + 1
  }

  lemma CandidatesInOrder(tried: seq<nat>, asn: nat)
    requires |tried| <= PORT_COUNT && forall i :: 0 <= i < |tried| ==> tried[i] == Machine.CandidatePort(asn, i)
    ensures InScanOrder(tried, asn) && forall i :: 0 <= i < |tried| ==> 20_000 <= tried[i] < 30_000
  {
  }

  /** The order determines every port of it, so the scan can do nothing else. */
  lemma {:induction false} ScanOrderDetermines(tried: seq<nat>, other: seq<nat>, asn: nat)
    requires InScanOrder(tried, asn) && InScanOrder(other, asn) && |tried| == |other|
    ensures tried == other
  {
    if tried != [] {
      var n := |tried| - 1;
      ScanOrderDetermines(tried[..n], other[..n], asn);
      assert tried[..n] == other[..n];
      assert n > 0 ==> tried[n - 1] == tried[..n][n - 1] == other[..n][n - 1] == other[n - 1];
      assert tried[n] == other[n];
      assert tried == tried[..n] + [tried[n]] && other == other[..n] + [other[n]];
    }
  }

  /** Candidates fit a port number and differ from each other. */
  lemma CandidatesDiffer(asn: nat, j: nat, k: nat)
    requires j < k < PORT_COUNT
    ensures 20_000 <= Machine.CandidatePort(asn, k) < 30_000
    ensures Machine.CandidatePort(asn, j) != Machine.CandidatePort(asn, k)
  {
  }

  /** The scan reaches every port. */
  lemma CandidatesCover(asn: nat, port: nat)
    requires 20_000 <= port < 30_000
    ensures exists k: nat :: k < PORT_COUNT && Machine.CandidatePort(asn, k) == port
  {
    var start, offset := asn % PORT_COUNT, port - 20_000;
    var k: nat := if offset >= start then offset - start else offset + PORT_COUNT - start;
    assert (start + k) % PORT_COUNT == offset;
    assert Machine.CandidatePort(asn, k) == port;
  }

  lemma AllCandidatesBusy(w: World, asn: nat)
    requires forall k: nat :: k < PORT_COUNT ==> Busy(w, Machine.CandidatePort(asn, k))
    ensures forall port :: 20_000 <= port < 30_000 ==> Busy(w, port)
  {
    forall port | 20_000 <= port < 30_000 ensures Busy(w, port) {
      CandidatesCover(asn, port);
    }
  }
}
