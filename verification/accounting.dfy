/** Tick accounting: the per-task statistics of p_stats.c and init_stats. */
module Accounting {
  import opened Machine

  /** `struct stats`; every field is an `unsigned long` of 32 bits. */
  datatype Stats = Stats(user: u32, system: u32, blocked: u32, ready: u32,
                         elapsed: u32, trans: u32, remaining: u32)

  /** The counter that an update charges with the ticks since `elapsed`. */
  datatype Account = UserTicks | SystemTicks | ReadyTicks

  function InitStats(first: u32, second: u32): Stats {
    Stats(0, 0, 0, 0, first, 0, second)
  }

  function Charge(st: Stats, a: Account, now: u32): Stats {
    var d := now - st.elapsed;
    match a
    case UserTicks => st.(user := Add32(st.user, d), elapsed := now)
    case SystemTicks => st.(system := Add32(st.system, d), elapsed := now)
    case ReadyTicks => st.(ready := Add32(st.ready, d), elapsed := now)
  }

  /** The tick at which the accounts would have to have been empty for every tick up to `elapsed`
      to be on exactly one of them. */
  function Origin(st: Stats): u32 {
    (st.elapsed - (st.user + st.system + st.ready + st.blocked)) % WORD
  }

  /** Charging any account at any clock reading, wrapped or not, never moves the origin: no tick is lost
      or counted twice. */
  lemma ChargeKeepsOrigin(st: Stats, a: Account, now: u32)
    ensures Origin(Charge(st, a, now)) == Origin(st)
  {
    var after := Charge(st, a, now);
    var v := match a case UserTicks => st.user case SystemTicks => st.system case ReadyTicks => st.ready;
    var x := v + (now - st.elapsed);
    var q := x / WORD;
    assert x == q * WORD + Add32(v, now - st.elapsed);
    var before := st.elapsed - (st.user + st.system + st.ready + st.blocked);
    ModCongruent(after.elapsed - (after.user + after.system + after.ready + after.blocked), before, q);
  }

  lemma InitOrigin(first: u32, second: u32)
    ensures Origin(InitStats(first, second)) == first
  {
  }
}
