/**
 * The channel registry of the edit-rate page: one channel per gauge id,
 * each holding the timestamps of the edits seen recently, whether it is
 * shown in edits per minute or edits per second, and the ceiling of its
 * gauge.
 */
module Channels {

  /** The gauge ids whose gauges read in edits per minute. */
  const PerMinuteWikis: seq<string> := ["global", "wikidatawiki", "commonswiki"]

  /** Gauge ceiling of a per-minute channel (edits/min). */
  const PerMinuteCeiling: real := 600.0

  /** Gauge ceiling of a per-second channel (edits/sec). */
  const PerSecondCeiling: real := 10.0

  /** One channel: its timestamp buffer, its unit and its gauge ceiling. */
  datatype Channel = Channel(buffer: seq<real>, perMinute: bool, max: real)

  /** The ceiling a channel of the given unit is created with. */
  function Ceiling(perMinute: bool): real
  {
    if perMinute then PerMinuteCeiling else PerSecondCeiling
  }

  /** The channel created for gauge `id`: an empty buffer, the unit the
      id's membership in PerMinuteWikis decides, and the matching ceiling. */
  function Fresh(id: string): (ch: Channel)
    ensures ch.buffer == []
    ensures ch.perMinute <==> id in PerMinuteWikis
    ensures ch.max == (if id in PerMinuteWikis then 600.0 else 10.0)
  {
    var perMinute := id in PerMinuteWikis;
    Channel([], perMinute, Ceiling(perMinute))
  }

  /** Reference definition of the registry built from the gauge ids:
      every id, once, with a fresh channel. */
  function Declare(ids: seq<string>): (chs: map<string, Channel>)
    ensures forall id :: id in chs <==> id in ids
    ensures |chs| <= |ids|
    ensures forall id :: id in chs ==> chs[id] == Fresh(id)
  {
    DeclareSize(ids);
    map id | id in ids :: Fresh(id)
  }

  /** Helper: a registry built from `ids` has at most `|ids|` entries (a
      repeated id shares one channel). */
  lemma {:induction false} DeclareSize(ids: seq<string>)
    ensures |(map id | id in ids :: Fresh(id))| <= |ids|
  {
    if ids != [] {
      var last := ids[|ids| - 1];
      var init := ids[..|ids| - 1];
      DeclareSize(init);
      assert ids == init + [last];
      var m := map id | id in ids :: Fresh(id);
      var m0 := map id | id in init :: Fresh(id);
      assert m.Keys <= m0.Keys + {last};
      assert |m.Keys| <= |m0.Keys + {last}| by {
        SubsetSize(m.Keys, m0.Keys + {last});
      }
    }
  }

  /** Helper: a subset is no larger than its superset. */
  lemma {:induction false} SubsetSize(a: set<string>, b: set<string>)
    requires a <= b
    ensures |a| <= |b|
  {
    if a != {} {
      var x :| x in a;
      SubsetSize(a - {x}, b - {x});
    }
  }

  /** Every channel's unit and ceiling agree with its id. */
  predicate Consistent(chs: map<string, Channel>)
  {
    forall id :: id in chs ==>
      chs[id].perMinute == (id in PerMinuteWikis) && chs[id].max == Ceiling(chs[id].perMinute)
  }

  /** The channel appended to: the same unit and ceiling, `ts` added last. */
  function Append(ch: Channel, ts: real): (r: Channel)
    ensures r.perMinute == ch.perMinute && r.max == ch.max
    ensures |r.buffer| == |ch.buffer| + 1 && r.buffer[..|ch.buffer|] == ch.buffer
    ensures r.buffer[|ch.buffer|] == ts
  {
    ch.(buffer := ch.buffer + [ts])
  }

  /** Every id gets exactly one channel, each starts empty, the units and
      ceilings follow PerMinuteWikis, and every ceiling is positive. */
  lemma DeclaredChannels(ids: seq<string>)
    ensures Declare(ids).Keys == set id | id in ids
    ensures Consistent(Declare(ids))
    ensures forall id :: id in Declare(ids) ==>
      Declare(ids)[id].buffer == [] && Declare(ids)[id].max > 0.0
    ensures forall id :: id in Declare(ids) ==>
      Declare(ids)[id].max == (if id in PerMinuteWikis then 600.0 else 10.0)
  {
  }
}
