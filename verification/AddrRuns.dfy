/** Runs of the address manager: any calls in any order leave tables in which its own check finds no fault. */
module AddrRuns {
  import opened Common
  import opened AddrTables
  import opened AddrCheck
  import AddrMan

  datatype Call =
    | Announced(a: Address, routable: bool, source: Ip, penalty: int, time: int)
    | Reached(a: Address, time: int)
    | Tried(a: Address, time: int)
    | Online(a: Address, time: int)
    | Asked

  /** A time that the check accepts in an entry: a success later than zero, an attempt not before it. */
  predicate Timely(c: Call) {
    match c
    case Reached(_, time) => time > 0
    case Tried(_, time) => time >= 0
    case _ => true
  }

  /** The service that a success or an attempt is reported for is known. */
  predicate Recorded(t: Tables, c: Call) {
    (c.Reached? || c.Tried?) && AddrMan.Known(t.info, t.addr, c.a)
  }

  /** In tables that keep the invariant only times and successes are left for the check to find. */
  lemma SoundTimes(hs: Hashes, t: Tables)
    requires Inv(hs, t, None)
    ensures Sound(t) <==> TimesOk(t.info) && TriedSucceeded(t.info)
  {
    CheckedInvariant(hs, t);
    if Sound(t) {
      forall id | id in t.info
        ensures t.info[id].lastTry >= 0 && t.info[id].lastSuccess >= 0
        ensures t.info[id].inTried ==> t.info[id].lastSuccess != 0
      {
        assert EntrySound(t, id);
      }
    }
  }

  lemma AttemptTimes(info: map<Id, Info>, id: Id, time: int)
    requires id in info && TimesOk(info) && TriedSucceeded(info)
    ensures var after := info[id := info[id].(lastTry := time, attempts := info[id].attempts + 1)];
            TriedSucceeded(after) && (TimesOk(after) <==> time >= 0)
  {
    var after := info[id := info[id].(lastTry := time, attempts := info[id].attempts + 1)];
    assert after[id].lastTry == time;
  }

  /** The check stays silent exactly if the time that a call records is one that it accepts. */
  method Step(m: AddrMan.AddrMan, c: Call)
    requires m.Valid() && Sound(m.View())
    modifies m
    ensures m.Valid()
    ensures Sound(m.View()) <==> Recorded(old(m.View()), c) ==> Timely(c)
  {
    ghost var t := m.View();
    hide Inv, Sound, AddrMan.Refreshed, AddrMan.Succeeded, AddrMan.Dated;
    SoundTimes(m.hashes, t);
    match c {
      case Announced(a, routable, source, penalty, time) =>
        var added := m.Add(a, routable, source, penalty, time);
      case Reached(a, time) => m.Good(a, time);
      case Tried(a, time) =>
        m.Attempt(a, time);
        if AddrMan.Known(t.info, t.addr, a) { AttemptTimes(t.info, t.addr[a.ip], time); }
      case Online(a, time) => m.Connected(a, time);
      case Asked => var told := m.GetAddr();
    }
    SoundTimes(m.hashes, m.View());
  }

  /** A new manager, used in any way with times after zero, passes its check. */
  method Use(hs: Hashes, calls: seq<Call>) returns (m: AddrMan.AddrMan, code: int)
    requires forall i :: 0 <= i < |calls| ==> Timely(calls[i])
    ensures fresh(m) && m.Valid() && Sound(m.View()) && code == 0
  {
    m := new AddrMan.AddrMan(hs);
    SoundTimes(hs, m.View());
    hide Sound, Inv;
    var n := 0;
    while n < |calls|
      invariant 0 <= n <= |calls| && m.Valid() && Sound(m.View())
    {
      Step(m, calls[n]);
      n := n + 1;
    }
    code := Check(m.View());
  }
}
