/** The TCP port search (util/util.go GetFreeTCPPort), with its 16-bit counter. */
module Ports {
  import opened Wrappers

  const PORTS: int := 0x1_0000

  newtype Port = p: int | 0 <= p < 0x1_0000

  /** The port after `first` has been incremented k times, wrapping at 65535. */
  function Probe(first: Port, k: nat): Port {
    ((first as int + k) % PORTS) as Port
  }

  /** The search is still going after k increments: everything probed so far was taken. */
  predicate Searching(first: Port, taken: set<Port>, k: nat) {
    forall j: nat :: j < k ==> Probe(first, j) in taken
  }

  /** The port `k` places on, counted round, is neither listening nor used. */
  predicate FreeAt(first: Port, listening: set<Port>, used: set<Port>, k: nat) {
    var p := ((first as int + k) % 65536) as Port;
    p !in listening && p !in used
  }

  /** It is the first such. */
  ghost predicate FreeAfter(first: Port, listening: set<Port>, used: set<Port>, k: nat) {
    FreeAt(first, listening, used, k) && forall j: nat :: j < k ==> !FreeAt(first, listening, used, j)
  }

  predicate SomeFree(taken: set<Port>) {
    exists p: Port :: p !in taken
  }

  /** `listening` is what netstat reports, `used` what other VMs were given. `probes` bounds
      how long the search is watched: it has ended by then, with the first free port in
      cyclic order, or it is still going on. */
  method GetFreeTcpPort(first: Port, listening: set<Port>, used: set<Port>, probes: nat) returns (port: Option<Port>)
    ensures port.None? <==> Searching(first, listening + used, probes)
    ensures port.Some? ==>
              && port.value !in listening && port.value !in used
              && exists k: nat :: k < probes && port.value == Probe(first, k) && Searching(first, listening + used, k)
    ensures port.Some? ==>
              exists k: nat :: k < probes && FreeAfter(first, listening, used, k) &&
                port.value as int == (first as int + k) % 65536
    ensures port.None? <==> forall k: nat :: k < probes ==> !FreeAt(first, listening, used, k)
  {
    var candidate := first;
    for k := 0 to probes
      invariant candidate == Probe(first, k) && Searching(first, listening + used, k)
      invariant forall j: nat :: j < k ==> !FreeAt(first, listening, used, j)
    {
      assert FreeAt(first, listening, used, k) <==> candidate !in listening && candidate !in used;
      if candidate !in listening && candidate !in used {
        assert FreeAfter(first, listening, used, k) && candidate as int == (first as int + k) % 65536;
        return Some(candidate);
      }
      candidate := if candidate == 65535 then 0 else candidate + 1;
    }
    return None;
  }

  /** Every port is some increment away from every other. */
  lemma ProbeReaches(first: Port, p: Port)
    ensures Probe(first, (p as int - first as int) % PORTS) == p
  {
  }

  lemma FreePortIsReached(first: Port, taken: set<Port>)
    requires SomeFree(taken)
    ensures exists k: nat :: k < PORTS && Probe(first, k) !in taken
  {
    var p: Port :| p !in taken;
    ProbeReaches(first, p);
  }

  /** The loop ends exactly when one of the 65536 ports is free, and then within 65536
      probes; otherwise it goes on for ever. */
  lemma SearchEndsExactlyWhenFree(first: Port, taken: set<Port>)
    ensures SomeFree(taken) <==> exists k: nat :: !Searching(first, taken, k)
    ensures SomeFree(taken) ==> !Searching(first, taken, PORTS)
  {
    if SomeFree(taken) {
      FreePortIsReached(first, taken);
      assert !Searching(first, taken, PORTS);
    }
  }
}
