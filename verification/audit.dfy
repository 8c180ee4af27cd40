// The bounded audit trail with redaction, internal/audit/audit.go.

module Audit {
  import Text

  const DEFAULT_MAX_EVENTS: int := 10_000
  const REDACTED: string := "[REDACTED]"

  type Metadata = map<string, string>

  datatype Event = Event(id: string, timestamp: int, actor: string, eventType: string, target: string,
                         status: string, metadata: Metadata)

  const BLANK: Event := Event("", 0, "", "", "", "", map[])

  predicate Sensitive(name: string) {
    var lower := Text.ToLower(name);
    Text.Contains(lower, "key") || Text.Contains(lower, "password")
    || Text.Contains(lower, "token") || Text.Contains(lower, "secret")
  }

  // Every name stays, the values under sensitive names do not.
  function Redact(m: Metadata): Metadata {
    map k | k in m :: if Sensitive(k) then REDACTED else m[k]
  }

  function Redacted(e: Event): Event {
    e.(metadata := Redact(e.metadata))
  }

  // A name is sensitive exactly when some part of it spells one of the four words, in any case.
  lemma SensitiveByWords(name: string)
    ensures Sensitive(name)
       <==> || Text.Spells(name, "key") || Text.Spells(name, "password")
            || Text.Spells(name, "token") || Text.Spells(name, "secret")
  {
    hide Text.Contains, Text.Spells;
    Text.SmallWords();
    Text.ContainsAnyCase(name, "key");
    Text.ContainsAnyCase(name, "password");
    Text.ContainsAnyCase(name, "token");
    Text.ContainsAnyCase(name, "secret");
  }

  // The last `n` entries, or all if there are fewer.
  function Last<T>(s: seq<T>, n: nat): seq<T> {
    if |s| <= n then s else s[|s| - n..]
  }

  class MemoryStore {
    const maxEvents: int
    var events: array<Event>
    var len: nat

    ghost predicate Valid()
      reads this
    {
      0 < maxEvents && len <= maxEvents && len <= events.Length
    }

    ghost function Contents(): seq<Event>
      reads this, events
      requires Valid()
    {
      events[..len]
    }

    constructor (maxEvents: int)
      ensures Valid() && fresh(events) && Contents() == []
      ensures this.maxEvents == if maxEvents <= 0 then 10_000 else maxEvents
    {
      var limit := if maxEvents <= 0 then DEFAULT_MAX_EVENTS else maxEvents;
      this.maxEvents := limit;
      events := new Event[limit](_ => BLANK);
      len := 0;
    }

    // The redaction loop over a map, in whatever order it is visited.
    static method Sanitize(m: Metadata) returns (r: Metadata)
      ensures r == Redact(m)
    {
      r := map[];
      var rest := m.Keys;
      while rest != {}
        invariant rest <= m.Keys && r.Keys == m.Keys - rest
        invariant forall k :: k in r ==> r[k] == Redact(m)[k]
      {
        var k :| k in rest;
        r := r[k := if Sensitive(k) then REDACTED else m[k]];
        rest := rest - {k};
      }
    }

    // Room for one more event: a full backing array is replaced by a larger one.
    method Reserve()
      requires Valid()
      modifies this`events
      ensures Valid() && len < events.Length
      ensures Contents() == old(Contents()) && (events == old(events) || fresh(events))
    {
      if len == events.Length {
        var larger := new Event[2 * len + 1](_ => BLANK);
        for i := 0 to len
          invariant events == old(events) && larger[..i] == events[..i]
          invariant events[..] == old(events[..])
        {
          larger[i] := events[i];
        }
        events := larger;
      }
    }

    // The overlapping copy to the front of the array.
    static method ShiftDown(a: array<Event>, drop: nat, count: nat)
      requires drop + count <= a.Length
      modifies a
      ensures a[..count] == old(a[drop..drop + count])
    {
      ghost var before := a[..];
      for i := 0 to count
        invariant forall j :: 0 <= j < i ==> a[j] == before[drop + j]
        invariant forall j :: i <= j < a.Length ==> a[j] == before[j]
      {
        a[i] := a[drop + i];
      }
      assert forall j :: 0 <= j < count ==> a[..count][j] == before[drop..drop + count][j];
    }

    // Appends the redacted event and drops the oldest beyond the cap.
    method Log(event: Event)
      requires Valid()
      modifies this, events
      ensures Valid() && (events == old(events) || fresh(events))
      ensures Contents() == Last(old(Contents()) + [Redacted(event)], maxEvents)
    {
      var sanitized := Sanitize(event.metadata);
      Reserve();
      events[len] := event.(metadata := sanitized);
      assert events[..len + 1] == old(Contents()) + [Redacted(event)];
      if len + 1 > maxEvents {
        var drop := len + 1 - maxEvents;
        ShiftDown(events, drop, maxEvents);
        len := maxEvents;
      } else {
        len := len + 1;
      }
    }

    // A copy, so that later logging cannot change what a reader holds.
    method List() returns (res: array<Event>)
      requires Valid()
      ensures fresh(res) && res[..] == Contents()
    {
      res := new Event[len](_ => BLANK);
      for i := 0 to len
        invariant res[..i] == events[..i]
      {
        res[i] := events[i];
      }
      assert res[..] == res[..len];
    }

    // A snapshot stays what it was, whatever is logged after it.
    method LogAllAfterList(more: seq<Event>) returns (snapshot: array<Event>)
      requires Valid()
      modifies this, events
      ensures Valid() && snapshot[..] == old(Contents())
      ensures Contents() == Replay(old(Contents()), more, maxEvents)
    {
      snapshot := List();
      for i := 0 to |more|
        invariant Valid() && snapshot != events && (events == old(events) || fresh(events))
        invariant snapshot[..] == old(Contents())
        invariant Contents() == Replay(old(Contents()), more[..i], maxEvents)
      {
        assert more[..i + 1][..i] == more[..i];
        Log(more[i]);
      }
      assert more[..|more|] == more;
    }
  }

  // ---------------------------------------------------------------------------------------
  // What is kept over a run
  // ---------------------------------------------------------------------------------------

  function Replay(kept: seq<Event>, events: seq<Event>, max: nat): seq<Event> {
    if events == [] then kept
    else Last(Replay(kept, events[..|events| - 1], max) + [Redacted(events[|events| - 1])], max)
  }

  function AllRedacted(events: seq<Event>): seq<Event> {
    seq(|events|, i requires 0 <= i < |events| => Redacted(events[i]))
  }

  // After any run of logging the store holds the last entries, at most `max`, of the whole
  // redacted history, in order.
  lemma {:induction false} KeepsTheLatest(events: seq<Event>, max: nat)
    requires max > 0
    ensures Replay([], events, max) == Last(AllRedacted(events), max)
  {
    if events != [] {
      var n := |events| - 1;
      KeepsTheLatest(events[..n], max);
      assert AllRedacted(events) == AllRedacted(events[..n]) + [Redacted(events[n])];
      LastOfLast(AllRedacted(events[..n]), Redacted(events[n]), max);
    }
  }

  lemma LastOfLast<T>(s: seq<T>, x: T, n: nat)
    requires n > 0
    ensures Last(Last(s, n) + [x], n) == Last(s + [x], n)
  {
  }

  // After any run each stored event is the one logged at its place in the history, with exactly the
  // values under sensitive names hidden; storing it again would change nothing.
  lemma ExactlySensitiveNamesAreHidden(events: seq<Event>, max: nat, i: nat)
    requires max > 0 && i < |Replay([], events, max)|
    ensures |Replay([], events, max)| <= |events|
    ensures var stored := Replay([], events, max)[i];
            var logged := events[|events| - |Replay([], events, max)| + i];
            && stored == logged.(metadata := stored.metadata) && Redacted(stored) == stored
            && stored.metadata.Keys == logged.metadata.Keys
            && forall name :: name in logged.metadata ==>
                 stored.metadata[name] == if Sensitive(name) then "[REDACTED]" else logged.metadata[name]
  {
    hide Sensitive;
    KeepsTheLatest(events, max);
    var stored := Replay([], events, max)[i];
    assert Redact(stored.metadata) == stored.metadata;
  }

  // Only names are examined: a secret under a harmless name is stored as it is.
  lemma HarmlessNameKeepsSecret()
    ensures var event := BLANK.(metadata := map["id" := "password"]);
            Replay([], [event], DEFAULT_MAX_EVENTS) == [event]
  {
    var event := BLANK.(metadata := map["id" := "password"]);
    assert |Text.ToLower("id")| == 2 && !Sensitive("id");
    assert Redact(event.metadata) == event.metadata;
    assert [event][..0] == [] && Replay([], [event][..0], DEFAULT_MAX_EVENTS) == [];
    assert [] + [Redacted(event)] == [event];
  }
}
