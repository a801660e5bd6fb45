/** Traffic totals per peer, accumulated over polls of counters that the kernel may reset. */
module Traffic {
  import opened Lists

  /** One peer line of `wg show dump`. */
  datatype Sample = Sample(key: string, rx: nat, tx: nat)

  datatype Totals = Totals(rx: nat, tx: nat)

  /** Everything the collector knows about one peer; entries missing from its maps read as zero. */
  datatype Meter = Meter(seen: bool, prev: Totals, base: Totals, session: Totals)

  /** What a counter has grown by; a drop means it restarted from zero. */
  function Growth(prev: nat, now: nat): nat {
    if now >= prev then now - prev else now
  }

  function Observed(m: Meter, now: Totals): Meter {
    if !m.seen then m.(seen := true, prev := now)
    else m.(prev := now,
            session := Totals(m.session.rx + Growth(m.prev.rx, now.rx), m.session.tx + Growth(m.prev.tx, now.tx)))
  }

  function Reported(m: Meter): Totals {
    Totals(m.base.rx + m.session.rx, m.base.tx + m.session.tx)
  }

  /** What remains of a peer that is no longer listed: the received totals are forgotten, the sent
      ones are not. */
  function Vanished(m: Meter): Meter {
    Meter(false, Totals(0, 0), Totals(0, m.base.tx), Totals(0, m.session.tx))
  }

  /** The lines about one peer, in order. */
  function ObservedIn(m: Meter, key: string, samples: seq<Sample>): Meter {
    if samples == [] then m
    else
      var before, last := ObservedIn(m, key, samples[..|samples| - 1]), samples[|samples| - 1];
      if last.key == key then Observed(before, Totals(last.rx, last.tx)) else before
  }

  ghost predicate Listed(key: string, samples: seq<Sample>) {
    exists i :: 0 <= i < |samples| && samples[i].key == key
  }

  ghost predicate DistinctKeys(samples: seq<Sample>) {
    forall i, j :: 0 <= i < j < |samples| ==> samples[i].key != samples[j].key
  }

  /** One poll, for one peer: its meter, and whether it was listed last; a failed dump changes nothing. */
  datatype Track = Track(meter: Meter, known: bool)

  ghost function Polled(t: Track, key: string, dump: Option<seq<Sample>>): Track {
    if dump == None then t
    else if Listed(key, dump.value) then Track(ObservedIn(t.meter, key, dump.value), true)
    else Track(if t.known then Vanished(t.meter) else t.meter, false)
  }

  ghost function PolledAll(t: Track, key: string, dumps: seq<Option<seq<Sample>>>): Track {
    if dumps == [] then t else Polled(PolledAll(t, key, dumps[..|dumps| - 1]), key, dumps[|dumps| - 1])
  }

  function Get(m: map<string, nat>, key: string): nat {
    if key in m then m[key] else 0
  }

  function With(m: map<string, nat>, key: string, n: nat): (r: map<string, nat>)
    ensures forall k :: Get(r, k) == if k == key then n else Get(m, k)
  {
    m[key := n]
  }

  function Without(m: map<string, nat>, key: string): (r: map<string, nat>)
    ensures forall k :: Get(r, k) == if k == key then 0 else Get(m, k)
  {
    m - {key}
  }

  /** The received and sent totals of the listed peers together. */
  function Sum(samples: seq<Sample>, peers: map<string, Totals>): Totals {
    if samples == [] then Totals(0, 0)
    else
      var init, key := Sum(samples[..|samples| - 1], peers), samples[|samples| - 1].key;
      if key in peers then Totals(init.rx + peers[key].rx, init.tx + peers[key].tx) else init
  }

  lemma {:induction false} SumIgnores(samples: seq<Sample>, peers: map<string, Totals>, key: string, t: Totals)
    requires !Listed(key, samples)
    ensures Sum(samples, peers[key := t]) == Sum(samples, peers)
  {
    if samples != [] {
      var init := samples[..|samples| - 1];
      assert samples[|samples| - 1].key != key;
      assert forall i :: 0 <= i < |init| ==> init[i] == samples[i];
      SumIgnores(init, peers, key, t);
    }
  }

  lemma {:induction false} SumOnlyListed(samples: seq<Sample>, peers: map<string, Totals>, fewer: map<string, Totals>)
    requires forall key :: Listed(key, samples) ==>
             (key in peers <==> key in fewer) && (key in peers ==> peers[key] == fewer[key])
    ensures Sum(samples, fewer) == Sum(samples, peers)
  {
    if samples != [] {
      var init := samples[..|samples| - 1];
      assert Listed(samples[|samples| - 1].key, samples);
      forall key | Listed(key, init)
        ensures Listed(key, samples)
      {
        var i :| 0 <= i < |init| && init[i].key == key;
        assert samples[i].key == key;
      }
      SumOnlyListed(init, peers, fewer);
    }
  }

  /** The sum of lists of peers is that of the parts, and of one peer its totals. */
  lemma {:induction false} SumAdds(a: seq<Sample>, b: seq<Sample>, peers: map<string, Totals>)
    ensures Sum(a + b, peers) == Totals(Sum(a, peers).rx + Sum(b, peers).rx, Sum(a, peers).tx + Sum(b, peers).tx)
    ensures |b| == 1 && b[0].key in peers ==> Sum(b, peers) == peers[b[0].key]
    decreases |b|
  {
    if b == [] {
      assert a + b == a;
    } else {
      var init := b[..|b| - 1];
      assert (a + b)[..|a + b| - 1] == a + init;
      SumAdds(a, init, peers);
    }
  }

  lemma ObservedSnoc(m: Meter, key: string, samples: seq<Sample>, s: Sample)
    ensures ObservedIn(m, key, samples + [s]) ==
            if s.key == key then Observed(ObservedIn(m, key, samples), Totals(s.rx, s.tx))
               else ObservedIn(m, key, samples)
  {
    var all := samples + [s];
    assert all[..|all| - 1] == samples && all[|all| - 1] == s;
  }

  class Collector {
    var prevRx: map<string, nat>
    var prevTx: map<string, nat>
    var baseRx: map<string, nat>
    var baseTx: map<string, nat>
    var sessionRx: map<string, nat>
    var sessionTx: map<string, nat>
    var seen: set<string>
    var peers: map<string, Totals>
    var total: Totals
    var isUp: bool

    ghost function MeterOf(key: string): Meter
      reads this`prevRx, this`prevTx, this`baseRx, this`baseTx, this`sessionRx, this`sessionTx, this`seen
    {
      Meter(key in seen, Totals(Get(prevRx, key), Get(prevTx, key)), Totals(Get(baseRx, key), Get(baseTx, key)),
            Totals(Get(sessionRx, key), Get(sessionTx, key)))
    }

    constructor ()
      ensures peers == map[] && total == Totals(0, 0) && !isUp
      ensures forall key :: MeterOf(key) == Meter(false, Totals(0, 0), Totals(0, 0), Totals(0, 0))
    {
      prevRx, prevTx, baseRx, baseTx, sessionRx, sessionTx := map[], map[], map[], map[], map[], map[];
      seen, peers, total, isUp := {}, map[], Totals(0, 0), false;
    }

    method SetPeerBases(bases: map<string, Totals>)
      modifies this
      ensures forall key :: MeterOf(key) ==
                if key in bases then old(MeterOf(key)).(base := bases[key]) else old(MeterOf(key))
      ensures peers == old(peers) && total == old(total) && isUp == old(isUp)
    {
      hide Get;
      hide With;
      var todo := bases.Keys;
      while todo != {}
        invariant todo <= bases.Keys
        invariant forall key :: MeterOf(key) ==
                    if key in bases && key !in todo then old(MeterOf(key)).(base := bases[key]) else old(MeterOf(key))
        invariant peers == old(peers) && total == old(total) && isUp == old(isUp)
        decreases |todo|
      {
        var key :| key in todo;
        baseRx, baseTx := With(baseRx, key, bases[key].rx), With(baseTx, key, bases[key].tx);
        todo := todo - {key};
      }
    }

    method ResetPeerBase(key: string)
      modifies this
      ensures MeterOf(key) == Meter(false, Totals(0, 0), Totals(0, 0), Totals(0, 0))
      ensures forall k :: k != key ==> MeterOf(k) == old(MeterOf(k))
      ensures peers == old(peers) && total == old(total) && isUp == old(isUp)
    {
      hide Get;
      hide With;
      hide Without;
      baseRx, baseTx := With(baseRx, key, 0), With(baseTx, key, 0);
      sessionRx, sessionTx := With(sessionRx, key, 0), With(sessionTx, key, 0);
      seen := seen - {key};
      prevRx, prevTx := Without(prevRx, key), Without(prevTx, key);
    }

    /** One line of the dump. */
    method Observe(s: Sample) returns (combined: Totals)
      modifies this`prevRx, this`prevTx, this`sessionRx, this`sessionTx, this`seen, this`peers
      ensures MeterOf(s.key) == Observed(old(MeterOf(s.key)), Totals(s.rx, s.tx))
      ensures forall k :: k != s.key ==> MeterOf(k) == old(MeterOf(k))
      ensures combined == Reported(MeterOf(s.key)) && peers == old(peers)[s.key := combined]
      ensures var m, m' := old(MeterOf(s.key)), MeterOf(s.key);
              && m'.seen && m'.prev == Totals(s.rx, s.tx) && m'.base == m.base
              && combined == Totals(m'.base.rx + m'.session.rx, m'.base.tx + m'.session.tx)
              && m'.session.rx - m.session.rx ==
                 (if !m.seen then 0 else if s.rx < m.prev.rx then s.rx else s.rx - m.prev.rx)
              && m'.session.tx - m.session.tx ==
                 (if !m.seen then 0 else if s.tx < m.prev.tx then s.tx else s.tx - m.prev.tx)
    {
      hide Get;
      hide With;
      var key := s.key;
      if key !in seen {
        seen := seen + {key};
      } else {
        var growthRx := if s.rx >= Get(prevRx, key) then s.rx - Get(prevRx, key) else s.rx;
        var growthTx := if s.tx >= Get(prevTx, key) then s.tx - Get(prevTx, key) else s.tx;
        sessionRx := With(sessionRx, key, Get(sessionRx, key) + growthRx);
        sessionTx := With(sessionTx, key, Get(sessionTx, key) + growthTx);
      }
      prevRx, prevTx := With(prevRx, key, s.rx), With(prevTx, key, s.tx);
      combined := Totals(Get(baseRx, key) + Get(sessionRx, key), Get(baseTx, key) + Get(sessionTx, key));
      peers := peers[key := combined];
    }

    method ForgetOne(key: string)
      modifies this`peers, this`seen, this`prevRx, this`prevTx, this`baseRx, this`sessionRx
      ensures peers == old(peers) - {key}
      ensures forall k :: MeterOf(k) == if k == key then Vanished(old(MeterOf(k))) else old(MeterOf(k))
    {
      hide Get;
      hide Without;
      peers, seen := peers - {key}, seen - {key};
      prevRx, prevTx := Without(prevRx, key), Without(prevTx, key);
      baseRx, sessionRx := Without(baseRx, key), Without(sessionRx, key);
    }

    /** Forgets the peers that are not listed any more, in whatever order. */
    method Forget(listed: set<string>)
      modifies this`peers, this`seen, this`prevRx, this`prevTx, this`baseRx, this`sessionRx
      ensures forall k :: MeterOf(k) ==
                if k in old(peers) && k !in listed then Vanished(old(MeterOf(k))) else old(MeterOf(k))
      ensures peers.Keys == old(peers).Keys * listed && forall k :: k in peers ==> peers[k] == old(peers)[k]
    {
      hide MeterOf;
      hide Vanished;
      var todo := peers.Keys - listed;
      while todo != {}
        invariant todo !! listed && todo <= peers.Keys <= old(peers).Keys
        invariant forall k :: k in old(peers) ==> k in peers || k !in listed
        invariant forall k :: k in peers ==> (k in todo || k in listed) && peers[k] == old(peers)[k]
        invariant forall k ::
                  MeterOf(k) == if k in old(peers) && k !in peers then Vanished(old(MeterOf(k))) else old(MeterOf(k))
        decreases |todo|
      {
        var key :| key in todo;
        ForgetOne(key);
        todo := todo - {key};
      }
    }

    ghost function TrackOf(key: string): Track
      reads this`prevRx, this`prevTx, this`baseRx, this`baseTx, this`sessionRx, this`sessionTx, this`seen, this`peers
    {
      Track(MeterOf(key), key in peers)
    }

    /** Every peer shown is shown with the totals of its meter. */
    ghost predicate Shown()
      reads this`prevRx, this`prevTx, this`baseRx, this`baseTx, this`sessionRx, this`sessionTx, this`seen, this`peers
    {
      forall key :: key in peers ==> peers[key] == Reported(MeterOf(key))
    }

    /** The polling loop, over the dumps its polls get to see. */
    method PollLoop(dumps: seq<Option<seq<Sample>>>)
      requires Shown()
      modifies this
      ensures Shown() && forall key :: TrackOf(key) == PolledAll(old(TrackOf(key)), key, dumps)
    {
      hide MeterOf;
      hide ObservedIn;
      hide Vanished;
      hide Reported;
      hide Listed;
      assert dumps[..0] == [];
      for i := 0 to |dumps|
        invariant Shown() && forall key :: TrackOf(key) == PolledAll(old(TrackOf(key)), key, dumps[..i])
      {
        assert dumps[..i + 1][..i] == dumps[..i];
        Poll(dumps[i]);
      }
      assert dumps[..|dumps|] == dumps;
    }

    /** One poll. A failed dump changes nothing but the up flag. */
    method Poll(dump: Option<seq<Sample>>)
      modifies this
      ensures isUp == dump.Some?
      ensures dump == None ==> peers == old(peers) && total == old(total) && forall k :: MeterOf(k) == old(MeterOf(k))
      ensures dump.Some? ==>
                && (forall k :: MeterOf(k) ==
                      if Listed(k, dump.value) then ObservedIn(old(MeterOf(k)), k, dump.value)
                      else if k in old(peers) then Vanished(old(MeterOf(k)))
                      else old(MeterOf(k)))
                && (forall k :: k in peers <==> Listed(k, dump.value))
                && (forall k :: k in peers ==> peers[k] == Reported(MeterOf(k)))
                && (DistinctKeys(dump.value) ==> total == Sum(dump.value, peers))
    {
      hide MeterOf;
      hide ObservedIn;
      hide Observed;
      hide Vanished;
      hide Reported;
      hide Sum;
      hide Listed;
      NothingListed();
      if dump == None {
        isUp := false;
        return;
      }
      isUp := true;
      var samples := dump.value;
      var sum := Totals(0, 0);
      var listed: set<string> := {};
      assert samples[..0] == [];
      for i := 0 to |samples|
        invariant isUp && forall k :: k in listed <==> Listed(k, samples[..i])
        invariant forall k :: MeterOf(k) == ObservedIn(old(MeterOf(k)), k, samples[..i])
        invariant forall k :: k in peers <==> k in old(peers) || k in listed
        invariant forall k :: k in listed ==> peers[k] == Reported(MeterOf(k))
        invariant DistinctKeys(samples) ==> sum == Sum(samples[..i], peers)
      {
        ghost var before, was := samples[..i], peers;
        assert samples[..i + 1] == before + [samples[i]];
        var combined := Observe(samples[i]);
        sum := Totals(sum.rx + combined.rx, sum.tx + combined.tx);
        listed := listed + {samples[i].key};
        OneMoreLine(before, samples[i], was, combined);
        DistinctIsNew(samples, i);
        forall k
          ensures MeterOf(k) == ObservedIn(old(MeterOf(k)), k, samples[..i + 1])
        {
          ObservedSnoc(old(MeterOf(k)), k, before, samples[i]);
        }
      }
      assert samples[..|samples|] == samples;
      ghost var was := peers;
      Forget(listed);
      forall k | !Listed(k, samples)
        ensures ObservedIn(old(MeterOf(k)), k, samples) == old(MeterOf(k))
      {
        UnlistedUnchanged(old(MeterOf(k)), k, samples);
      }
      SumOnlyListed(samples, was, peers);
      total := sum;
    }
  }

  lemma {:induction false} UnlistedUnchanged(m: Meter, key: string, samples: seq<Sample>)
    requires !Listed(key, samples)
    ensures ObservedIn(m, key, samples) == m
  {
    if samples != [] {
      var init := samples[..|samples| - 1];
      assert samples[|samples| - 1].key != key && forall i :: 0 <= i < |init| ==> init[i] == samples[i];
      UnlistedUnchanged(m, key, init);
    }
  }

  lemma NothingListed()
    ensures forall k :: !Listed(k, [])
    ensures forall m, k :: ObservedIn(m, k, []) == m
    ensures forall peers :: Sum([], peers) == Totals(0, 0)
  {
  }

  lemma DistinctIsNew(samples: seq<Sample>, i: nat)
    requires i < |samples|
    ensures DistinctKeys(samples) ==> !Listed(samples[i].key, samples[..i])
  {
  }

  lemma OneMoreLine(before: seq<Sample>, s: Sample, was: map<string, Totals>, combined: Totals)
    ensures forall k :: Listed(k, before + [s]) <==> Listed(k, before) || k == s.key
    ensures !Listed(s.key, before) ==>
              var sum := Sum(before, was);
              Sum(before + [s], was[s.key := combined]) == Totals(sum.rx + combined.rx, sum.tx + combined.tx)
  {
    var all := before + [s];
    assert all[..|all| - 1] == before && all[|all| - 1] == s;
    forall k
      ensures Listed(k, all) <==> Listed(k, before) || k == s.key
    {
      if Listed(k, before) {
        var i :| 0 <= i < |before| && before[i].key == k;
        assert all[i].key == k;
      }
      if k == s.key {
        assert all[|before|].key == k;
      }
    }
    if !Listed(s.key, before) {
      SumIgnores(before, was, s.key, combined);
    }
  }

  // ---------------------------------------------------------------- totals over runs

  /** Exactly one line of the dump is about the peer. */
  ghost predicate ListsOnce(samples: seq<Sample>, key: string) {
    && Listed(key, samples)
    && forall i, j :: 0 <= i < |samples| && 0 <= j < |samples| && samples[i].key == key && samples[j].key == key ==>
       i == j
  }

  /** The counters of the peer in a dump: those of its last line. */
  function Reading(samples: seq<Sample>, key: string): Totals {
    if samples == [] then Totals(0, 0)
    else if samples[|samples| - 1].key == key then Totals(samples[|samples| - 1].rx, samples[|samples| - 1].tx)
    else Reading(samples[..|samples| - 1], key)
  }

  /** A dump that lists the peer once is one reading of its counters. */
  lemma {:induction false} ListedOnce(m: Meter, samples: seq<Sample>, key: string)
    requires ListsOnce(samples, key)
    ensures ObservedIn(m, key, samples) == Observed(m, Reading(samples, key))
    ensures exists i ::
            0 <= i < |samples| && samples[i] == Sample(key, Reading(samples, key).rx, Reading(samples, key).tx)
  {
    hide Observed;
    var init, last := samples[..|samples| - 1], samples[|samples| - 1];
    if last.key == key {
      forall i | 0 <= i < |init|
        ensures init[i].key != key
      {
        assert init[i] == samples[i];
      }
      UnlistedUnchanged(m, key, init);
    } else {
      var i :| 0 <= i < |samples| && samples[i].key == key;
      assert init[i].key == key && forall j :: 0 <= j < |init| ==> init[j] == samples[j];
      ListedOnce(m, init, key);
    }
  }

  /** A peer that is in every dump: its meter after a run of readings. */
  function Metered(m: Meter, readings: seq<Totals>): Meter {
    if readings == [] then m else Observed(Metered(m, readings[..|readings| - 1]), readings[|readings| - 1])
  }

  /** What the counters grew by from the first reading to the last. */
  function TotalGrowth(readings: seq<Totals>): Totals {
    if |readings| < 2 then Totals(0, 0)
    else
      var init, prev, now := TotalGrowth(readings[..|readings| - 1]), readings[|readings| - 2],
          readings[|readings| - 1];
      Totals(init.rx + Growth(prev.rx, now.rx), init.tx + Growth(prev.tx, now.tx))
  }

  /** The reported totals are the totals at the start plus everything the counters grew by since the
      first reading, each restart counted from zero. */
  lemma {:induction false} TotalsAccumulate(m: Meter, readings: seq<Totals>)
    requires !m.seen && readings != []
    ensures var r, grown := Metered(m, readings), TotalGrowth(readings);
            && r.seen && r.prev == readings[|readings| - 1] && r.base == m.base
            && Reported(r) == Totals(Reported(m).rx + grown.rx, Reported(m).tx + grown.tx)
  {
    var init := readings[..|readings| - 1];
    if init != [] {
      TotalsAccumulate(m, init);
      assert init[|init| - 1] == readings[|readings| - 2];
    } else {
      assert Metered(m, init) == m;
    }
  }

  /** What the successful dumps say about the peer, one reading each. */
  function Readings(dumps: seq<Option<seq<Sample>>>, key: string): seq<Totals> {
    if dumps == [] then []
    else
      Readings(dumps[..|dumps| - 1], key) + match dumps[|dumps| - 1] case None => [] case Some(d) => [Reading(d, key)]
  }

  /** A run of polls whose dumps, where there is one, list the peer once is a run of its readings. */
  lemma {:induction false} DumpsAreReadings(t: Track, key: string, dumps: seq<Option<seq<Sample>>>)
    requires forall d :: d in dumps && d.Some? ==> ListsOnce(d.value, key)
    ensures PolledAll(t, key, dumps).meter == Metered(t.meter, Readings(dumps, key))
  {
    hide Observed;
    hide ObservedIn;
    if dumps != [] {
      var init, last := dumps[..|dumps| - 1], dumps[|dumps| - 1];
      assert dumps == init + [last] && last in dumps;
      DumpsAreReadings(t, key, init);
      if last.Some? {
        ListedOnce(PolledAll(t, key, init).meter, last.value, key);
        var all := Readings(dumps, key);
        assert all[..|all| - 1] == Readings(init, key);
      } else {
        assert Readings(init, key) + [] == Readings(init, key);
      }
    }
  }

  /** So over every such run the totals of a peer, new to the collector, are those at the start plus
      everything its counters grew by from the first dump to the last, however many polls failed. */
  lemma PollingAccumulates(t: Track, key: string, dumps: seq<Option<seq<Sample>>>)
    requires !t.meter.seen && forall d :: d in dumps && d.Some? ==> ListsOnce(d.value, key)
    requires exists d :: d in dumps && d.Some?
    ensures var after, grown := PolledAll(t, key, dumps), TotalGrowth(Readings(dumps, key));
            after.known
                && Reported(after.meter) == Totals(Reported(t.meter).rx + grown.rx, Reported(t.meter).tx + grown.tx)
  {
    hide Observed;
    hide Reported;
    hide TotalGrowth;
    DumpsAreReadings(t, key, dumps);
    SomeReading(t, key, dumps);
    TotalsAccumulate(t.meter, Readings(dumps, key));
  }

  lemma {:induction false} SomeReading(t: Track, key: string, dumps: seq<Option<seq<Sample>>>)
    requires (forall d :: d in dumps && d.Some? ==> ListsOnce(d.value, key)) && exists d :: d in dumps && d.Some?
    ensures Readings(dumps, key) != [] && PolledAll(t, key, dumps).known
  {
    hide ObservedIn;
    var init, last := dumps[..|dumps| - 1], dumps[|dumps| - 1];
    assert dumps == init + [last];
    if last == None {
      SomeReading(t, key, init);
    } else {
      assert last in dumps;
    }
  }

  /** Totals never shrink while the peer is listed. */
  lemma {:induction false} TotalsNeverShrink(m: Meter, readings: seq<Totals>, n: nat)
    requires n <= |readings|
    ensures var early, late := Reported(Metered(m, readings[..n])), Reported(Metered(m, readings));
            early.rx <= late.rx && early.tx <= late.tx
  {
    if n == |readings| {
      assert readings[..n] == readings;
    } else {
      var init := readings[..|readings| - 1];
      assert init[..n] == readings[..n];
      TotalsNeverShrink(m, init, n);
    }
  }

  /** Without a restart the growth telescopes to the last reading minus the first. */
  lemma {:induction false} GrowthTelescopes(readings: seq<Totals>)
    requires readings != []
    requires forall i :: 0 < i < |readings| ==>
             readings[i - 1].rx <= readings[i].rx && readings[i - 1].tx <= readings[i].tx
    ensures var first, last, grown := readings[0], readings[|readings| - 1], TotalGrowth(readings);
            grown.rx == last.rx - first.rx && grown.tx == last.tx - first.tx
  {
    if |readings| > 1 {
      GrowthTelescopes(readings[..|readings| - 1]);
    }
  }

  /** The counters given up by restarts: at each drop, what had been reached before it. */
  ghost function GivenUp(readings: seq<Totals>): Totals {
    if |readings| < 2 then Totals(0, 0)
    else
      var init, prev, now := GivenUp(readings[..|readings| - 1]), readings[|readings| - 2], readings[|readings| - 1];
      Totals(init.rx + (if now.rx < prev.rx then prev.rx else 0), init.tx + (if now.tx < prev.tx then prev.tx else 0))
  }

  /** With restarts the growth is the last reading plus what the restarts gave up, minus the first. */
  lemma {:induction false} RestartsAreMadeUp(readings: seq<Totals>)
    requires readings != []
    ensures var first, last, grown, gone := readings[0], readings[|readings| - 1], TotalGrowth(readings),
            GivenUp(readings);
            grown.rx == last.rx + gone.rx - first.rx && grown.tx == last.tx + gone.tx - first.tx
  {
    if |readings| > 1 {
      RestartsAreMadeUp(readings[..|readings| - 1]);
    }
  }

  /** A reading below the one before it counts in full: 40 after 100 adds 40. */
  lemma DropCountsInFull(m: Meter, now: Totals)
    requires m.seen && now.rx < m.prev.rx && now.tx < m.prev.tx
    ensures Reported(Observed(m, now)) == Totals(Reported(m).rx + now.rx, Reported(m).tx + now.tx)
    ensures TotalGrowth([Totals(100, 100), Totals(40, 40)]) == Totals(40, 40)
  {
    var readings := [Totals(100, 100), Totals(40, 40)];
    assert readings[..1] == [Totals(100, 100)];
  }

  /** Across a poll that does not list it, a peer loses its received total and keeps its sent one:
      when it comes back it is reported with nothing received and what it had sent. */
  lemma VanishingForgetsReceived(m: Meter, now: Totals)
    ensures Reported(Observed(Vanished(m), now)) == Totals(0, Reported(m).tx)
    ensures Reported(Observed(Vanished(m), now)) == Reported(m) <==> Reported(m).rx == 0
  {
  }
}
