/**
 * The classifier of recent-change events: which channel buffers an event's
 * timestamp is pushed onto, and what the registry looks like afterwards,
 * including the partial state left when a push finds no buffer and throws.
 */
module Classifier {
  import opened Channels

  /** The wikis whose own channel receives their events. */
  const TrackedWikis: seq<string> :=
    ["global", "bnwiki", "bnwikivoyage", "bnwiktionary", "bnwikibooks", "bnwikiquote", "wikidatawiki", "commonswiki"]

  /** The aggregate channel. */
  const GlobalKey: string := "global"

  datatype Option<T> = None | Some(value: T)

  /** The fields of a recent-change event the page reads; `domain` is
      `meta.domain`, absent when the event has no `meta` or no domain. */
  datatype Event = Event(wiki: string, serverName: string, domain: Option<string>, timestamp: real)

  /** The registry after one event, and whether handling it threw because a
      buffer it pushes onto does not exist. */
  datatype Delivery = Delivery(channels: map<string, Channel>, threw: bool)

  /** `pattern` occurs in `text` as a contiguous substring (what matching a
      regular expression without special characters amounts to). */
  predicate Contains(text: string, pattern: string)
  {
    |pattern| <= |text| && (text[..|pattern|] == pattern || Contains(text[1..], pattern))
  }

  /** `pattern` starts at position `i` of `text`. */
  predicate OccursAt(text: string, pattern: string, i: int)
  {
    0 <= i && i + |pattern| <= |text| && text[i..i + |pattern|] == pattern
  }

  /** `Contains` is the substring test: the pattern occurs at some position. */
  lemma {:induction false} ContainsIsSubstring(text: string, pattern: string)
    ensures Contains(text, pattern) <==> exists i :: OccursAt(text, pattern, i)
    decreases |text|
  {
    if |pattern| <= |text| {
      if text[..|pattern|] == pattern {
        assert OccursAt(text, pattern, 0);
      } else {
        // here text is not empty, since the empty pattern is a prefix of any text
        ContainsIsSubstring(text[1..], pattern);
        if Contains(text[1..], pattern) {
          var i :| OccursAt(text[1..], pattern, i);
          assert text[1..][i..i + |pattern|] == text[i + 1..i + 1 + |pattern|];
          assert OccursAt(text, pattern, i + 1);
        } else {
          forall i | OccursAt(text, pattern, i)
            ensures OccursAt(text[1..], pattern, i - 1)
          {
            assert text[1..][i - 1..i - 1 + |pattern|] == text[i..i + |pattern|];
          }
        }
      }
    }
  }

  /** Synthetic liveness events from the feed. */
  predicate IsCanary(e: Event)
  {
    e.domain == Some("canary")
  }

  /** Events that count towards the aggregate channel: any Wikipedia edit,
      and every Wikidata and Commons edit. */
  predicate FeedsGlobal(e: Event)
  {
    Contains(e.serverName, "wikipedia") || e.wiki == "wikidatawiki" || e.wiki == "commonswiki"
  }

  /** An event feeds the aggregate exactly when "wikipedia" occurs somewhere
      in its server name or its wiki is Wikidata or Commons. */
  lemma FeedsGlobalExactly(e: Event)
    ensures FeedsGlobal(e) <==>
      (exists i :: OccursAt(e.serverName, "wikipedia", i)) || e.wiki == "wikidatawiki" || e.wiki == "commonswiki"
  {
    ContainsIsSubstring(e.serverName, "wikipedia");
  }

  /** The registry has a buffer for every tracked wiki, "global" included. */
  predicate Registered(chs: map<string, Channel>)
  {
    forall w :: w in TrackedWikis ==> w in chs
  }

  /** The buffers an event is pushed onto, in the order of the pushes. */
  function Targets(e: Event): (keys: seq<string>)
    ensures IsCanary(e) ==> keys == []
    ensures |keys| <= 2
    ensures forall k :: k in keys ==> k == e.wiki || k == GlobalKey
    ensures e.wiki in keys <==> !IsCanary(e) && e.wiki in TrackedWikis
    ensures GlobalKey in keys <==> !IsCanary(e) && (FeedsGlobal(e) || e.wiki == GlobalKey)
  {
    if IsCanary(e) then []
    else (if e.wiki in TrackedWikis then [e.wiki] else []) + (if FeedsGlobal(e) then [GlobalKey] else [])
  }

  /** How many times `key` occurs in `keys`. */
  function Occurrences(keys: seq<string>, key: string): nat
  {
    if keys == [] then 0 else (if keys[0] == key then 1 else 0) + Occurrences(keys[1..], key)
  }

  /** How often an event names each buffer: once for its own tracked wiki,
      once more for "global" when it feeds the aggregate. */
  lemma TargetCount(e: Event, id: string)
    ensures Occurrences(Targets(e), id) ==
      (if !IsCanary(e) && e.wiki in TrackedWikis && id == e.wiki then 1 else 0) +
      (if !IsCanary(e) && FeedsGlobal(e) && id == GlobalKey then 1 else 0)
  {
    var own: seq<string> := if e.wiki in TrackedWikis then [e.wiki] else [];
    var agg: seq<string> := if FeedsGlobal(e) then [GlobalKey] else [];
    if !IsCanary(e) {
      assert Targets(e) == own + agg;
      if own != [] {
        assert Targets(e)[1..] == agg;
        assert Occurrences(Targets(e), id) == (if e.wiki == id then 1 else 0) + Occurrences(agg, id);
      }
      if agg != [] {
        assert Occurrences(agg, id) == (if id == GlobalKey then 1 else 0) + Occurrences(agg[1..], id);
      }
    }
  }

  /** `n` copies of `ts`. */
  function Repeat(ts: real, n: nat): (r: seq<real>)
    ensures |r| == n && forall i :: 0 <= i < n ==> r[i] == ts
  {
    if n == 0 then [] else [ts] + Repeat(ts, n - 1)
  }

  /** Pushes `ts` onto the buffers named by `keys`, in order; the first
      missing buffer throws and leaves the pushes already made in place. */
  function PushAll(chs: map<string, Channel>, keys: seq<string>, ts: real): (r: Delivery)
    ensures r.channels.Keys == chs.Keys
    ensures forall id :: id in chs ==>
      r.channels[id].perMinute == chs[id].perMinute && r.channels[id].max == chs[id].max
    decreases |keys|
  {
    if keys == [] then Delivery(chs, false)
    else if keys[0] !in chs then Delivery(chs, true)
    else PushAll(chs[keys[0] := Append(chs[keys[0]], ts)], keys[1..], ts)
  }

  /** The registry after the page handles one event. */
  function Deliver(chs: map<string, Channel>, e: Event): (r: Delivery)
    ensures r.channels.Keys == chs.Keys
  {
    PushAll(chs, Targets(e), e.timestamp)
  }

  /** Pushing throws exactly when some target has no buffer. */
  lemma {:induction false} PushAllThrows(chs: map<string, Channel>, keys: seq<string>, ts: real)
    ensures PushAll(chs, keys, ts).threw <==> exists k :: k in keys && k !in chs
    decreases |keys|
  {
    if keys != [] && keys[0] in chs {
      var next := chs[keys[0] := Append(chs[keys[0]], ts)];
      PushAllThrows(next, keys[1..], ts);
      assert forall k :: k in keys <==> k == keys[0] || k in keys[1..];
    }
  }

  /** When every target has a buffer, each buffer gains one copy of the
      timestamp per time it is named, at its end. */
  lemma {:induction false} PushAllAppends(chs: map<string, Channel>, keys: seq<string>, ts: real)
    requires forall k :: k in keys ==> k in chs
    ensures !PushAll(chs, keys, ts).threw
    ensures PushAll(chs, keys, ts).channels.Keys == chs.Keys
    ensures forall id :: id in chs ==>
      PushAll(chs, keys, ts).channels[id] == chs[id].(buffer := chs[id].buffer + Repeat(ts, Occurrences(keys, id)))
    decreases |keys|
  {
    if keys != [] {
      var next := chs[keys[0] := Append(chs[keys[0]], ts)];
      PushAllAppends(next, keys[1..], ts);
      forall id | id in chs
        ensures PushAll(chs, keys, ts).channels[id] == chs[id].(buffer := chs[id].buffer + Repeat(ts, Occurrences(keys, id)))
      {
        if id == keys[0] {
          assert chs[id].buffer + [ts] + Repeat(ts, Occurrences(keys[1..], id))
              == chs[id].buffer + Repeat(ts, Occurrences(keys, id));
        }
      }
    }
  }

  /** A canary event changes nothing and never throws. */
  lemma CanaryIsInert(chs: map<string, Channel>, e: Event)
    requires IsCanary(e)
    ensures Deliver(chs, e) == Delivery(chs, false)
  {
  }

  /** An event of a wiki that is neither tracked nor feeds the aggregate
      channel changes nothing and never throws. */
  lemma UnmatchedIsInert(chs: map<string, Channel>, e: Event)
    requires e.wiki !in TrackedWikis && !FeedsGlobal(e)
    ensures Deliver(chs, e) == Delivery(chs, false)
  {
  }

  /** On a registry holding every tracked wiki, an event leaves every buffer
      as it was exactly when it is a canary or is neither of a tracked wiki
      nor one that feeds the aggregate. */
  lemma InertExactly(chs: map<string, Channel>, e: Event)
    requires Registered(chs)
    ensures Deliver(chs, e).channels == chs <==>
      IsCanary(e) || (e.wiki !in TrackedWikis && !FeedsGlobal(e))
  {
    if !IsCanary(e) && (e.wiki in TrackedWikis || FeedsGlobal(e)) {
      var k := if e.wiki in TrackedWikis then e.wiki else GlobalKey;
      assert GlobalKey in TrackedWikis;
      DeliverAppends(chs, e);
      TargetCount(e, k);
      assert |Deliver(chs, e).channels[k].buffer| > |chs[k].buffer|;
    }
  }

  /** Handling an event throws exactly when it is not a canary and one of
      the buffers it pushes onto is missing; it never adds or removes a
      channel, changes a unit or a ceiling, or throws on a registered map. */
  lemma DeliverThrows(chs: map<string, Channel>, e: Event)
    ensures Deliver(chs, e).channels.Keys == chs.Keys
    ensures Consistent(chs) ==> Consistent(Deliver(chs, e).channels)
    ensures Deliver(chs, e).threw <==>
      !IsCanary(e) && ((e.wiki in TrackedWikis && e.wiki !in chs) || (FeedsGlobal(e) && GlobalKey !in chs))
    ensures Registered(chs) ==> !Deliver(chs, e).threw
  {
    PushAllThrows(chs, Targets(e), e.timestamp);
  }

  /** On a registered map, each buffer gains as many copies of the event's
      timestamp as the event names it, appended after its old contents. */
  lemma DeliverAppends(chs: map<string, Channel>, e: Event)
    requires Registered(chs)
    ensures !Deliver(chs, e).threw && Deliver(chs, e).channels.Keys == chs.Keys
    ensures forall id :: id in chs ==>
      Deliver(chs, e).channels[id] == chs[id].(buffer := chs[id].buffer + Repeat(e.timestamp, Occurrences(Targets(e), id)))
  {
    PushAllAppends(chs, Targets(e), e.timestamp);
  }

  /** A tracked wiki's own event ends up at the end of its own buffer, with
      the old contents kept as a prefix. */
  lemma OwnWikiAppended(chs: map<string, Channel>, e: Event)
    requires Registered(chs) && !IsCanary(e) && e.wiki in TrackedWikis
    ensures var old_buf := chs[e.wiki].buffer;
            var new_buf := Deliver(chs, e).channels[e.wiki].buffer;
            |new_buf| > |old_buf| && new_buf[..|old_buf|] == old_buf && new_buf[|old_buf|] == e.timestamp
  {
    DeliverAppends(chs, e);
    var old_buf := chs[e.wiki].buffer;
    var n := Occurrences(Targets(e), e.wiki);
    assert n >= 1;
    assert (old_buf + Repeat(e.timestamp, n))[..|old_buf|] == old_buf;
  }

  /** For an event of any wiki other than "global", the aggregate buffer
      grows by one entry exactly when the event feeds it, and by none
      otherwise. */
  lemma GlobalFedExactly(chs: map<string, Channel>, e: Event)
    requires Registered(chs) && !IsCanary(e) && e.wiki != GlobalKey
    ensures |Deliver(chs, e).channels[GlobalKey].buffer| ==
      |chs[GlobalKey].buffer| + (if FeedsGlobal(e) then 1 else 0)
  {
    DeliverAppends(chs, e);
    TargetCount(e, GlobalKey);
  }

  /** No buffer other than the event's own wiki's and "global" changes. */
  lemma OthersUnchanged(chs: map<string, Channel>, e: Event, id: string)
    requires id in chs && id != e.wiki && id != GlobalKey
    ensures id in Deliver(chs, e).channels && Deliver(chs, e).channels[id] == chs[id]
  {
    PushAllUntouched(chs, Targets(e), e.timestamp, id);
  }

  /** No buffer grows by more than one entry, except that an event of wiki
      "global" that also feeds the aggregate pushes two entries onto it. */
  lemma AtMostOnePerBuffer(chs: map<string, Channel>, e: Event)
    requires Registered(chs)
    ensures !(e.wiki == GlobalKey && !IsCanary(e) && FeedsGlobal(e)) ==> forall id :: id in chs ==>
      |Deliver(chs, e).channels[id].buffer| <= |chs[id].buffer| + 1
    ensures e.wiki == GlobalKey && !IsCanary(e) && FeedsGlobal(e) ==>
      |Deliver(chs, e).channels[GlobalKey].buffer| == |chs[GlobalKey].buffer| + 2
  {
    DeliverAppends(chs, e);
    forall id | id in chs
      ensures Occurrences(Targets(e), id) <= (if e.wiki == GlobalKey && !IsCanary(e) && FeedsGlobal(e) then 2 else 1)
    {
      TargetCount(e, id);
    }
    TargetCount(e, GlobalKey);
  }

  /** Pushing leaves alone every buffer that is not named. */
  lemma {:induction false} PushAllUntouched(chs: map<string, Channel>, keys: seq<string>, ts: real, id: string)
    requires id !in keys
    ensures id in chs ==> id in PushAll(chs, keys, ts).channels && PushAll(chs, keys, ts).channels[id] == chs[id]
    decreases |keys|
  {
    if keys != [] && keys[0] in chs {
      PushAllUntouched(chs[keys[0] := Append(chs[keys[0]], ts)], keys[1..], ts, id);
    }
  }
}
