/**
 Changing a live container's limits. The engine reads zero as "unchanged", so the update body names
 only what changes, and a set limit cannot be cleared in place.
 */
module Limits {

  datatype Limits = Limits(
    cpuShares: int, nanoCpus: int, cpuQuota: int, cpuPeriod: int, cpusetCpus: string, cpusetMems: string,
    memory: int, memorySwap: int, memoryReservation: int, blkioWeight: int, pidsLimit: int)

  /** An update body; `pids` is a pointer and may be absent, the weight has 16 bits. */
  datatype Update = Update(
    cpuShares: int, nanoCpus: int, cpuQuota: int, cpuPeriod: int, cpusetCpus: string, cpusetMems: string,
    memory: int, memorySwap: int, memoryReservation: int, blkioWeight: int, hasPids: bool, pids: int)

  const MIN_MEMORY := 6 * 1024 * 1024

  const EMPTY := Update(0, 0, 0, 0, "", "", 0, 0, 0, 0, false, 0)

  predicate SwapSet(mem: int, swap: int) { swap == -1 || swap == 0 || swap >= mem }

  /** The engine's rules for one set of limits; `cpuset` is the grammar of CPU lists. */
  predicate Acceptable(r: Limits, cpuset: string -> bool)
  {
    && r.memory >= 0 && r.memoryReservation >= 0
    && (r.memory == 0 || r.memory >= MIN_MEMORY)
    && (r.memory == 0 || r.memoryReservation <= r.memory)
    && r.memorySwap >= -1 && SwapSet(r.memory, r.memorySwap)
    && (r.cpuShares == 0 || r.cpuShares >= 2)
    && (r.blkioWeight == 0 || 10 <= r.blkioWeight <= 1000)
    && r.nanoCpus >= 0
    && (r.nanoCpus == 0 || (r.cpuQuota == 0 && r.cpuPeriod == 0))
    && (r.cpuQuota == 0 || r.cpuQuota >= 1000)
    && (r.cpuPeriod == 0 || 1000 <= r.cpuPeriod <= 1000000)
    && (r.cpusetCpus == "" || cpuset(r.cpusetCpus)) && (r.cpusetMems == "" || cpuset(r.cpusetMems))
    && r.pidsLimit >= 0
  }

  /** What validation refuses because it would clear a limit or switch cpus with quota. */
  predicate Clears(c: Limits, r: Limits)
  {
    || (c.cpuShares != 0 && r.cpuShares == 0)
    || (c.nanoCpus != 0 && r.nanoCpus == 0 && r.cpuQuota == 0)
    || (c.cpuQuota != 0 && r.cpuQuota == 0 && r.nanoCpus == 0)
    || (c.cpuPeriod != 0 && r.cpuPeriod == 0 && r.nanoCpus == 0)
    || (c.cpusetCpus != "" && r.cpusetCpus == "")
    || (c.cpusetMems != "" && r.cpusetMems == "")
    || (c.memory != 0 && r.memory == 0)
    || (c.memoryReservation != 0 && r.memoryReservation == 0)
    || (c.memorySwap != 0 && r.memorySwap == 0)
    || (c.blkioWeight != 0 && r.blkioWeight == 0)
    || (c.nanoCpus != 0 && (r.cpuQuota != 0 || r.cpuPeriod != 0))
    || ((c.cpuQuota != 0 || c.cpuPeriod != 0) && r.nanoCpus != 0)
  }

  function Delta(cur: Limits, want: Limits): Update
  {
    var mem := want.memory != cur.memory || want.memorySwap != cur.memorySwap;
    Update(
      if want.cpuShares != cur.cpuShares then want.cpuShares else 0,
      if want.nanoCpus != cur.nanoCpus then want.nanoCpus else 0,
      if want.cpuQuota != cur.cpuQuota then want.cpuQuota else 0,
      if want.cpuPeriod != cur.cpuPeriod then want.cpuPeriod else 0,
      if want.cpusetCpus != cur.cpusetCpus then want.cpusetCpus else "",
      if want.cpusetMems != cur.cpusetMems then want.cpusetMems else "",
      if mem && want.memory != cur.memory then want.memory else 0,
      if mem then want.memorySwap else 0,
      if want.memoryReservation != cur.memoryReservation then want.memoryReservation else 0,
      if want.blkioWeight != cur.blkioWeight then want.blkioWeight % 0x1_0000 else 0,
      want.pidsLimit != cur.pidsLimit,
      if want.pidsLimit == cur.pidsLimit then 0 else if want.pidsLimit == 0 then -1 else want.pidsLimit)
  }

  /** The number sent is the new one when it changes, and zero when it does not. */
  predicate Sends(cur: int, want: int, sent: int) { (cur == want ==> sent == 0) && (cur != want ==> sent == want) }

  predicate SendsText(cur: string, want: string, sent: string)
  {
    (cur == want ==> sent == "") && (cur != want ==> sent == want)
  }

  /**
   The body names what changes and nothing else; but the swap limit goes along with the memory
   limit, no processes at all is sent as -1, and the weight is cut to 16 bits.
   */
  predicate Names(cur: Limits, want: Limits, u: Update)
  {
    && Sends(cur.cpuShares, want.cpuShares, u.cpuShares) && Sends(cur.nanoCpus, want.nanoCpus, u.nanoCpus)
    && Sends(cur.cpuQuota, want.cpuQuota, u.cpuQuota) && Sends(cur.cpuPeriod, want.cpuPeriod, u.cpuPeriod)
    && SendsText(cur.cpusetCpus, want.cpusetCpus, u.cpusetCpus)
    && SendsText(cur.cpusetMems, want.cpusetMems, u.cpusetMems)
    && Sends(cur.memory, want.memory, u.memory)
    && Sends(cur.memoryReservation, want.memoryReservation, u.memoryReservation)
    && (if cur.memory != want.memory then u.memorySwap == want.memorySwap
        else Sends(cur.memorySwap, want.memorySwap, u.memorySwap))
    && (cur.blkioWeight == want.blkioWeight ==> u.blkioWeight == 0)
    && (cur.blkioWeight != want.blkioWeight ==> u.blkioWeight == want.blkioWeight % 65536)
    && (u.hasPids <==> cur.pidsLimit != want.pidsLimit)
    && (u.hasPids ==> u.pids == if want.pidsLimit == 0 then -1 else want.pidsLimit)
  }

  method CpuDelta(cur: Limits, want: Limits) returns (rs: Update, changed: bool)
    ensures var d := Delta(cur, want);
            rs == EMPTY.(cpuShares := d.cpuShares, nanoCpus := d.nanoCpus,
                         cpuQuota := d.cpuQuota, cpuPeriod := d.cpuPeriod,
                         cpusetCpus := d.cpusetCpus, cpusetMems := d.cpusetMems)
    ensures !changed <==>
      && cur.cpuShares == want.cpuShares && cur.nanoCpus == want.nanoCpus && cur.cpuQuota == want.cpuQuota
      && cur.cpuPeriod == want.cpuPeriod && cur.cpusetCpus == want.cpusetCpus && cur.cpusetMems == want.cpusetMems
  {
    rs, changed := EMPTY, false;
    if want.cpuShares != cur.cpuShares { rs, changed := rs.(cpuShares := want.cpuShares), true; }
    if want.nanoCpus != cur.nanoCpus { rs, changed := rs.(nanoCpus := want.nanoCpus), true; }
    if want.cpuQuota != cur.cpuQuota { rs, changed := rs.(cpuQuota := want.cpuQuota), true; }
    if want.cpuPeriod != cur.cpuPeriod { rs, changed := rs.(cpuPeriod := want.cpuPeriod), true; }
    if want.cpusetCpus != cur.cpusetCpus { rs, changed := rs.(cpusetCpus := want.cpusetCpus), true; }
    if want.cpusetMems != cur.cpusetMems { rs, changed := rs.(cpusetMems := want.cpusetMems), true; }
  }

  /** The update body, built field by field, and whether there is anything to send. */
  method ResourceDelta(cur: Limits, want: Limits) returns (rs: Update, changed: bool)
    ensures rs == Delta(cur, want) && Names(cur, want, rs)
    ensures changed <==> cur != want
  {
    rs, changed := CpuDelta(cur, want);
    if want.memoryReservation != cur.memoryReservation {
      rs, changed := rs.(memoryReservation := want.memoryReservation), true;
    }
    if want.blkioWeight != cur.blkioWeight { rs, changed := rs.(blkioWeight := want.blkioWeight % 0x1_0000), true; }
    if want.memory != cur.memory || want.memorySwap != cur.memorySwap {
      rs, changed := rs.(memory := want.memory, memorySwap := want.memorySwap), true;
      if want.memory == cur.memory { rs := rs.(memory := 0); }
      if want.memorySwap == 0 { rs := rs.(memorySwap := 0); }
    }
    if want.pidsLimit != cur.pidsLimit {
      rs, changed := rs.(hasPids := true, pids := if want.pidsLimit == 0 then -1 else want.pidsLimit), true;
    }
  }

  function Num(cur: int, sent: int): int { if sent == 0 then cur else sent }
  function Str(cur: string, sent: string): string { if sent == "" then cur else sent }

  /** The engine: zero and "" leave a limit alone; a pids limit of zero or less is none, shown as 0. */
  function Applied(c: Limits, u: Update): Limits
  {
    Limits(
      Num(c.cpuShares, u.cpuShares), Num(c.nanoCpus, u.nanoCpus),
      Num(c.cpuQuota, u.cpuQuota), Num(c.cpuPeriod, u.cpuPeriod),
      Str(c.cpusetCpus, u.cpusetCpus), Str(c.cpusetMems, u.cpusetMems),
      Num(c.memory, u.memory), Num(c.memorySwap, u.memorySwap),
      Num(c.memoryReservation, u.memoryReservation), Num(c.blkioWeight, u.blkioWeight),
      if !u.hasPids then c.pidsLimit else if u.pids > 0 then u.pids else 0)
  }

  /**
   Validation refuses exactly what the engine cannot do: for acceptable limits the update reaches
   the requested ones if and only if nothing is cleared or switched.
   */
  lemma DeltaReachesIffNotClearing(cur: Limits, want: Limits, cpuset: string -> bool)
    requires Acceptable(want, cpuset)
    ensures Applied(cur, Delta(cur, want)) == want <==> !Clears(cur, want)
  {
    assert want.blkioWeight % 0x1_0000 == want.blkioWeight;
    var a := Applied(cur, Delta(cur, want));
    if Clears(cur, want) {
      assert a.nanoCpus != want.nanoCpus || a.cpuQuota != want.cpuQuota || a.cpuPeriod != want.cpuPeriod ||
             a.cpuShares != want.cpuShares || a.cpusetCpus != want.cpusetCpus || a.cpusetMems != want.cpusetMems ||
             a.memory != want.memory || a.memoryReservation != want.memoryReservation ||
             a.memorySwap != want.memorySwap ||
             a.blkioWeight != want.blkioWeight;
    }
  }

  /** Nothing is sent exactly when nothing is to change, and a sent body is never the empty one. */
  lemma EmptyIffEqual(cur: Limits, want: Limits, cpuset: string -> bool)
    requires Acceptable(want, cpuset) && !Clears(cur, want)
    ensures Delta(cur, want) == EMPTY <==> cur == want
  {
    DeltaReachesIffNotClearing(cur, want, cpuset);
    if Delta(cur, want) == EMPTY { assert Applied(cur, EMPTY) == cur; }
  }
}
