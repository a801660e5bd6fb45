/** When the dirty flag tells the truth: the file equals memory exactly while no statistics wait to be
    saved, as long as no recorded counter falls below the one in memory. */
module StatsFlag {
  import opened Lists
  import opened Models
  import opened ConfigStore

  /** The flag is right about the file. */
  ghost predicate FlagRight(m: Persistent) {
    m.yaml.Some? && (m.dirty <==> m.yaml.value != m.config)
  }

  predicate AtMost(a: Stats, b: Stats) {
    a.lastSeen <= b.lastSeen && a.rx <= b.rx && a.tx <= b.tx
  }

  /** The same entries, none with a counter ahead of the other list's. */
  ghost predicate Behind(a: seq<Entry>, b: seq<Entry>) {
    && |a| == |b|
    && forall i :: 0 <= i < |a| ==> a[i].(stats := b[i].stats) == b[i] && AtMost(a[i].stats, b[i].stats)
  }

  /** The flag is right, and the file lags behind memory in counters only. */
  ghost predicate FlagTight(m: Persistent) {
    && FlagRight(m) && !m.diverged
    && m.yaml.value.(entries := m.config.entries) == m.config
    && Behind(m.yaml.value.entries, m.config.entries)
  }

  /** No recorded counter is below the one in memory. */
  ghost predicate Rising(entries: seq<Entry>, stats: map<string, Stats>) {
    forall e :: e in entries && e.publicKey in stats ==>
      e.stats.rx <= stats[e.publicKey].rx && e.stats.tx <= stats[e.publicKey].tx
  }

  /** Something changes, and nothing goes up. */
  ghost predicate Falls(entries: seq<Entry>, stats: map<string, Stats>) {
    Recorded(entries, stats) != entries && Behind(Recorded(entries, stats), entries)
  }

  /** Where every history starts: a store just loaded from its file. */
  lemma LoadedIsTight(m: Persistent)
    requires m.yaml == Some(m.config) && !m.dirty && !m.diverged
    ensures FlagTight(m)
  {
  }

  // ---------------------------------------------------------------- one step

  lemma RecordedAhead(entries: seq<Entry>, stats: map<string, Stats>)
    requires Rising(entries, stats)
    ensures Behind(entries, Recorded(entries, stats))
  {
    forall i | 0 <= i < |entries|
      ensures AtMost(entries[i].stats, RecordedOne(entries[i], stats).stats)
    {
      assert entries[i] in entries;
    }
  }

  lemma BehindTransitive(a: seq<Entry>, b: seq<Entry>, c: seq<Entry>)
    requires Behind(a, b) && Behind(b, c)
    ensures Behind(a, c)
  {
  }

  lemma BehindBoth(a: seq<Entry>, b: seq<Entry>)
    requires Behind(a, b) && Behind(b, a)
    ensures a == b
  {
    forall i | 0 <= i < |a|
      ensures a[i] == b[i]
    {
      assert a[i].stats == b[i].stats;
    }
  }

  lemma BehindItself(a: seq<Entry>)
    ensures Behind(a, a)
  {
  }

  /** Recording keeps the flag right, and the file behind, while no counter falls. */
  lemma RecordKeeps(m: Persistent, stats: map<string, Stats>)
    requires FlagTight(m) && Rising(m.config.entries, stats)
    ensures FlagTight(RecordStep(m, stats))
  {
    var file, now, then' := m.yaml.value.entries, m.config.entries, Recorded(m.config.entries, stats);
    RecordedAhead(now, stats);
    BehindTransitive(file, now, then');
    if file == then' {
      BehindBoth(file, now);
    }
  }

  /** One recording leaves the flag right for every file that may lie behind memory, exactly if it
      changes nothing or takes something up. */
  lemma RecordExact(config: AppConfig, stats: map<string, Stats>)
    ensures (forall m :: FlagTight(m) && m.config == config ==> FlagRight(RecordStep(m, stats)))
            <==> !Falls(config.entries, stats)
  {
    var now, then' := config.entries, Recorded(config.entries, stats);
    if Falls(now, stats) {
      var lagging := Persistent(config, false, true, Some(config.(entries := then')), false);
      assert FlagTight(lagging);
      assert !FlagRight(RecordStep(lagging, stats));
    } else {
      forall m | FlagTight(m) && m.config == config
        ensures FlagRight(RecordStep(m, stats))
      {
        if then' == m.yaml.value.entries {
          assert Behind(then', now);
        }
      }
    }
  }

  /** A write leaves the flag right unless rendering fails and the file cannot be put back; then the
      flag is right only by coincidence. */
  lemma WriteExact(m: Persistent, m': Persistent, edited: (AppConfig, bool), valid: AppConfig -> bool, io: Io)
    requires FlagTight(m) && Transacted(m, m', edited, valid, io)
    ensures FlagRight(m') <==>
            Progress(edited, valid, io) != RenderFailed(false) || WithGatewayTables(edited.0) == m.config
    ensures Progress(edited, valid, io) != RenderFailed(false) ==> FlagTight(m')
  {
    hide WithGatewayTables;
    BehindItself(m'.config.entries);
  }

  /** Whatever came before, a complete save makes the flag right again: one of waiting statistics, or
      that of a write that gets through or is put back. */
  lemma SavingRecovers(m: Persistent, m': Persistent, edited: (AppConfig, bool), valid: AppConfig -> bool, io: Io)
    ensures m.dirty ==> FlagTight(SaveStep(m, true))
    ensures Transacted(m, m', edited, valid, io) && Progress(edited, valid, io) in {Saved, RenderFailed(true)} ==>
            FlagTight(m')
  {
    hide WithGatewayTables;
    BehindItself(m.config.entries);
    BehindItself(m'.config.entries);
  }

  // ---------------------------------------------------------------- whole runs

  datatype Event =
    | Recording(stats: map<string, Stats>)
    | Saving(saved: bool)
    | Writing(edited: (AppConfig, bool), valid: AppConfig -> bool, io: Io)

  ghost predicate Next(m: Persistent, e: Event, m': Persistent) {
    match e
    case Recording(stats) => m' == RecordStep(m, stats)
    case Saving(saved) => m' == SaveStep(m, saved)
    case Writing(edited, valid, io) => Transacted(m, m', edited, valid, io)
  }

  /** What keeps the flag right: counters do not fall, and no write leaves the file behind. */
  ghost predicate Orderly(m: Persistent, e: Event) {
    match e
    case Recording(stats) => Rising(m.config.entries, stats)
    case Saving(_) => true
    case Writing(edited, valid, io) => Progress(edited, valid, io) != RenderFailed(false)
  }

  /** The states of the store under a sequence of recordings, saves and writes, each of which may fail. */
  ghost predicate History(states: seq<Persistent>, events: seq<Event>) {
    |states| == |events| + 1 && forall i :: 0 <= i < |events| ==> Next(states[i], events[i], states[i + 1])
  }

  lemma OrderlyStep(m: Persistent, e: Event, m': Persistent)
    requires FlagTight(m) && Next(m, e, m') && Orderly(m, e)
    ensures FlagTight(m')
  {
    match e
    case Recording(stats) =>
      RecordKeeps(m, stats);
    case Saving(saved) =>
      BehindItself(m.config.entries);
    case Writing(edited, valid, io) =>
      WriteExact(m, m', edited, valid, io);
  }

  /** The file equals memory exactly while the flag is clear, in every state of every such history in
      which counters do not fall and failed writes are put back. */
  lemma {:induction false} FlagRightForever(states: seq<Persistent>, events: seq<Event>)
    requires History(states, events) && FlagTight(states[0])
    requires forall i :: 0 <= i < |events| ==> Orderly(states[i], events[i])
    ensures forall m :: m in states ==> FlagTight(m)
    decreases |events|
  {
    hide FlagTight;
    hide Next;
    hide Orderly;
    if events != [] {
      OrderlyStep(states[0], events[0], states[1]);
      FlagRightForever(states[1..], events[1..]);
      assert states == [states[0]] + states[1..];
    }
  }
}
