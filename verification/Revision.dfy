/** The observed ZeroTier state with its change revision and the channel that wakes long polls. */
module Revision {
  import opened Lists

  /** A Go channel that is only ever closed. */
  class Channel {
    var closed: bool

    constructor ()
      ensures !closed
    {
      closed := false;
    }

    method Close()
      requires !closed
      modifies this
      ensures closed
    {
      closed := true;
    }
  }

  /** What is shown to the user; detail stands for status, networks and peers. */
  datatype Snapshot = Snapshot(enabled: bool, err: string, serviceErr: string, hint: string, detail: string)

  /** Outcome of the locked part of a wait: at once, or when the channel closes. */
  datatype Wait = AtOnce | Until(channel: Channel)

  class Board {
    var snap: Snapshot
    var revision: nat
    var changed: Channel
    var serviceErr: string
    var hint: string

    /** history[r] is the snapshot of revision r and channels[r] the channel its waiters get. */
    ghost var history: seq<Snapshot>
    ghost var channels: seq<Channel>

    ghost predicate Valid()
      reads this, channels
    {
      && |history| == |channels| == revision + 1
      && history[revision] == snap && channels[revision] == changed
      && (forall r :: 0 <= r <= revision ==> (channels[r].closed <==> r < revision))
      && (forall r, q :: 0 <= r < q <= revision ==> channels[r] != channels[q])
      && (forall r :: 0 <= r < revision ==> history[r] != history[r + 1])
    }

    constructor ()
      ensures Valid() && fresh(channels) && revision == 0
      ensures snap == Snapshot(false, "", "", "", "")
    {
      var first := new Channel();
      snap := Snapshot(false, "", "", "", "");
      revision, changed, serviceErr, hint := 0, first, "", "";
      history, channels := [Snapshot(false, "", "", "", "")], [first];
    }

    /** The daemon complained: remembered until its process is replaced. */
    method ServiceFailed(line: string, remedy: Option<string>)
      requires Valid()
      modifies this`serviceErr, this`hint
      ensures Valid() && serviceErr == line && hint == (if remedy.Some? then remedy.value else old(hint))
    {
      serviceErr := line;
      if remedy.Some? {
        hint := remedy.value;
      }
    }

    /** Stores an observation. Only a real change gets a new revision, and then exactly the waiters of
        the revision it replaces are woken. */
    method SetSnapshot(observed: Snapshot)
      requires Valid()
      modifies this`snap, this`revision, this`changed, this`history, this`channels, changed
      ensures Valid() && fresh(set c | c in channels && c !in old(channels))
      ensures snap == (if observed.enabled then observed.(serviceErr := serviceErr, hint := hint) else observed)
      ensures if snap == old(snap)
              then revision == old(revision) && history == old(history) && channels == old(channels)
              else revision == old(revision) + 1 && history == old(history) + [snap] && old(channels) < channels
    {
      var next := if observed.enabled then observed.(serviceErr := serviceErr, hint := hint) else observed;
      var differs := next != snap;
      snap := next;
      if differs {
        revision := revision + 1;
        changed.Close();
        changed := new Channel();
        history, channels := history + [next], channels + [changed];
      }
    }

    /** The snapshot and the revision that names it. */
    method SnapshotVersion() returns (s: Snapshot, r: nat)
      requires Valid()
      ensures r == revision && r < |history| && s == history[r]
    {
      s, r := snap, revision;
    }

    /** The locked part of a wait. A revision that is no longer current returns at once; a current one
        gets the channel that closes exactly when it stops being current. */
    method WaitForChange(r: nat) returns (w: Wait)
      requires Valid()
      ensures w == AtOnce <==> r != revision
      ensures w.Until? ==> r < |channels| && w.channel == channels[r] && !w.channel.closed
    {
      w := if r != revision then AtOnce else Until(changed);
    }
  }

  /** Whatever happened in between, two reads with the same revision saw the same snapshot, and a
      channel captured at revision r is closed exactly if the revision has moved past r. */
  twostate lemma SameRevisionSameSnapshot(board: Board, r: nat)
    requires old(board.Valid()) && board.Valid()
    requires old(board.history) <= board.history && old(board.channels) <= board.channels
    requires old(board.revision) == r
    ensures r < |board.history| && old(board.snap) == board.history[r]
    ensures board.revision == r ==> board.snap == old(board.snap)
    ensures old(board.changed).closed <==> r < board.revision
  {
    assert board.history[r] == old(board.history)[r];
    assert board.channels[r] == old(board.channels)[r];
  }

  /** A long poll against a board that changes while nobody waits: the poll that comes back with the
      revision it last saw is answered at once, and the one that was waiting has been woken. */
  method LongPoll(board: Board, observed: seq<Snapshot>) returns (waited: Wait, again: Wait, missed: bool)
    requires board.Valid()
    modifies board, board.channels
    ensures board.Valid()
    ensures missed <==> old(board.revision) != board.revision
    ensures missed ==> again == AtOnce && waited.Until? && waited.channel.closed
    ensures !missed ==> board.snap == old(board.snap) && waited.Until? && !waited.channel.closed && again == waited
  {
    var s, r := board.SnapshotVersion();
    waited := board.WaitForChange(r);
    ghost var channel := board.changed;
    for i := 0 to |observed|
      invariant board.Valid() && old(board.history) <= board.history && old(board.channels) <= board.channels
      invariant fresh(set c | c in board.channels && c !in old(board.channels))
      invariant r <= board.revision
    {
      board.SetSnapshot(observed[i]);
    }
    again := board.WaitForChange(r);
    missed := board.revision != r;
    assert board.channels[r] == old(board.channels)[r];
    assert board.history[r] == old(board.history)[r];
  }
}
