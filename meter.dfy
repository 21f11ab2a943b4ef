/**
 * The page's mutable state: the dictionary of per-gauge channels, created
 * once from the gauge ids, appended to by each feed message and pruned
 * and read by each tick of the update loop. The clock is an input: the
 * page's opening time is fixed at construction and each tick is given
 * the current time.
 */
module Meter {
  import opened Channels
  import opened Window
  import opened Classifier
  import opened Estimator

  class EditRateMeter {
    /** Seconds since the epoch at which the page opened. */
    const begin: real

    /** One channel per gauge id. */
    var channels: map<string, Channel>

    /** Units and ceilings stay those the registry gave each id. */
    predicate Valid()
      reads this
    {
      Consistent(channels)
    }

    /** Creates one empty channel per gauge id, in document order. */
    constructor (ids: seq<string>, begin: real)
      ensures Valid() && this.begin == begin
      ensures channels == Declare(ids)
    {
      var declared := map[];
      for i := 0 to |ids|
        invariant declared == Declare(ids[..i])
      {
        var id := ids[i];
        declared := declared[id := Fresh(id)];
        assert ids[..i + 1] == ids[..i] + [id];
      }
      assert ids[..|ids|] == ids;
      DeclaredChannels(ids);
      this.begin := begin;
      channels := declared;
    }

    /** Handles one message of the recent-change feed: canary events are
        dropped; a tracked wiki's event is pushed onto its own buffer, then
        an event that feeds the aggregate onto "global". A push onto a
        missing buffer throws, keeping the pushes made before it. */
    method OnMessage(e: Event) returns (threw: bool)
      requires Valid()
      modifies this
      ensures Valid()
      ensures Delivery(channels, threw) == Deliver(old(channels), e)
    {
      threw := false;
      if IsCanary(e) {
        return;
      }
      // the pushes still to be made, as the classifier lists them
      ghost var pending := Targets(e);
      assert pending == (if e.wiki in TrackedWikis then [e.wiki] else []) + (if FeedsGlobal(e) then [GlobalKey] else []);
      if e.wiki in TrackedWikis {
        assert pending[0] == e.wiki;
        if e.wiki !in channels {
          threw := true;
          return;
        }
        channels := channels[e.wiki := Append(channels[e.wiki], e.timestamp)];
        pending := pending[1..];
      }
      assert Deliver(old(channels), e) == PushAll(channels, pending, e.timestamp);
      assert pending == if FeedsGlobal(e) then [GlobalKey] else [];
      if FeedsGlobal(e) {
        if GlobalKey !in channels {
          threw := true;
          return;
        }
        channels := channels[GlobalKey := Append(channels[GlobalKey], e.timestamp)];
        pending := pending[1..];
      }
      assert pending == [];
    }

    /** One tick of the update loop at time `now`: for every channel, in
        bootstrap the whole buffer is scaled by the elapsed time; in steady
        phase the buffer is first pruned to the last window. Returns what
        each gauge shows. */
    method UpdateCounters(now: real) returns (shown: map<string, Number>)
      requires Valid()
      modifies this
      ensures Valid()
      ensures channels == AdvanceAll(old(channels), now, now - begin)
      ensures shown == DisplayAll(old(channels), now, now - begin)
    {
      var elapsed := now - begin;
      ghost var before := channels;
      var pending := channels.Keys;
      shown := map[];
      while pending != {}
        invariant TickedExcept(before, channels, shown, pending, now, elapsed)
        decreases pending
      {
        var id :| id in pending;
        var next, reading := TickChannel(channels[id], now, elapsed);
        TickStep(before, channels, shown, pending, now, elapsed, id);
        channels := channels[id := next];
        shown := shown[id := reading];
        pending := pending - {id};
      }
      TickDone(before, channels, shown, now, elapsed);
    }
  }

  /** Loop invariant of the update loop: the channels still `pending` are
      as they were, every other one has been ticked, and exactly those have
      a reading. */
  ghost predicate TickedExcept(before: map<string, Channel>, channels: map<string, Channel>,
                               shown: map<string, Number>, pending: set<string>, now: real, elapsed: real)
  {
    && pending <= before.Keys && channels.Keys == before.Keys
    && (forall id :: id in pending ==> channels[id] == before[id])
    && (forall id :: id in before && id !in pending ==> channels[id] == Advance(before[id], now, elapsed))
    && shown.Keys == before.Keys - pending
    && (forall id :: id in shown ==> shown[id] == Displayed(before[id], now, elapsed))
  }

  /** Ticking one more pending channel keeps the loop invariant. */
  lemma TickStep(before: map<string, Channel>, channels: map<string, Channel>,
                 shown: map<string, Number>, pending: set<string>, now: real, elapsed: real, id: string)
    requires TickedExcept(before, channels, shown, pending, now, elapsed) && id in pending
    ensures id in channels && channels[id] == before[id]
    ensures TickedExcept(before, channels[id := Advance(channels[id], now, elapsed)],
                         shown[id := Displayed(channels[id], now, elapsed)], pending - {id}, now, elapsed)
  {
  }

  /** Once nothing is pending, every channel has been ticked and read. */
  lemma TickDone(before: map<string, Channel>, channels: map<string, Channel>,
                 shown: map<string, Number>, now: real, elapsed: real)
    requires TickedExcept(before, channels, shown, {}, now, elapsed)
    ensures channels == AdvanceAll(before, now, elapsed)
    ensures shown == DisplayAll(before, now, elapsed)
    ensures Consistent(before) ==> Consistent(channels)
  {
  }

  /** The body of the update loop for one channel: in bootstrap the count
      so far is scaled by the elapsed time; in steady phase the buffer is
      pruned to the last window first. Returns the channel as it is left
      and what its gauge shows. */
  method TickChannel(ch: Channel, now: real, elapsed: real) returns (next: Channel, shown: Number)
    ensures next == Advance(ch, now, elapsed)
    ensures shown == Displayed(ch, now, elapsed)
  {
    next := ch;
    var count: Number;
    if elapsed < Period {
      count := Quotient(|next.buffer| as real * BootstrapScale(next.perMinute), elapsed);
    } else {
      next := next.(buffer := Prune(next.buffer, now - Period));
      count := Finite(|next.buffer| as real * SteadyScale(next.perMinute));
    }
    shown := AtMost(count, next.max);
  }
}
