/** The port scan both `FindAvailablePort` functions perform: probe the
    hundred ports from 8080 upwards in order and take the first one that is
    free, falling back to 8080 when none is. Whether a port is free is a
    socket probe in the program; here it is the predicate `available`. */
module PortSearch {

  const StartPort: int := 8080
  const PortCount: int := 100

  /** `p` is one of the ports the scan probes, `[8080, 8180)`. */
  predicate InScanRange(p: int)
  {
    StartPort <= p < StartPort + PortCount
  }

  /** The first available port in `[from, 8180)`, or 8080 when there is none. */
  function FirstAvailableFrom(available: int -> bool, from: int): int
    requires StartPort <= from <= StartPort + PortCount
    decreases StartPort + PortCount - from
  {
    if from == StartPort + PortCount then StartPort
    else if available(from) then from
    else FirstAvailableFrom(available, from + 1)
  }

  /** The port the scan settles on. */
  function FirstAvailable(available: int -> bool): int
  {
    FirstAvailableFrom(available, StartPort)
  }

  /** The scan from `from` onwards: its port lies in the range, no port it
      skipped is available, and it is available unless no port from `from`
      on is, in which case it is 8080. */
  lemma {:induction false} FirstAvailableFromIsLeast(available: int -> bool, from: int)
    requires StartPort <= from <= StartPort + PortCount
    ensures InScanRange(FirstAvailableFrom(available, from))
    ensures forall q :: from <= q < FirstAvailableFrom(available, from) ==> !available(q)
    ensures (exists q :: from <= q < StartPort + PortCount && available(q)) ==>
              from <= FirstAvailableFrom(available, from) && available(FirstAvailableFrom(available, from))
    ensures (forall q :: from <= q < StartPort + PortCount ==> !available(q)) ==>
              FirstAvailableFrom(available, from) == StartPort
    decreases StartPort + PortCount - from
  {
    if from < StartPort + PortCount && !available(from) {
      FirstAvailableFromIsLeast(available, from + 1);
      if exists q :: from <= q < StartPort + PortCount && available(q) {
        var q :| from <= q < StartPort + PortCount && available(q);
        assert from + 1 <= q;
      }
    }
  }

  /** The scan's port is the least available port of `[8080, 8180)`, or 8080
      when every port there is taken; it always lies in that range. */
  lemma FirstAvailableIsLeast(available: int -> bool)
    ensures InScanRange(FirstAvailable(available))
    ensures forall q :: StartPort <= q < FirstAvailable(available) ==> !available(q)
    ensures available(FirstAvailable(available)) || forall q :: InScanRange(q) ==> !available(q)
    ensures (forall q :: InScanRange(q) ==> !available(q)) ==> FirstAvailable(available) == StartPort
  {
    FirstAvailableFromIsLeast(available, StartPort);
  }

  /** Nothing but the least available port satisfies the scan's contract. */
  lemma FirstAvailableUnique(available: int -> bool, p: int)
    requires InScanRange(p)
    requires forall q :: StartPort <= q < p ==> !available(q)
    requires available(p) || forall q :: InScanRange(q) ==> !available(q)
    requires (forall q :: InScanRange(q) ==> !available(q)) ==> p == StartPort
    ensures p == FirstAvailable(available)
  {
    FirstAvailableIsLeast(available);
  }
}
