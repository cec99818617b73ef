/** The edit events that flow through the pipeline, and how each one is stamped with a time. */
module Events {
  import opened Sets

  datatype Option<+T> = None | Some(value: T)

  /** One message payload. A field that is missing or null is `None`; `timestamp` is `None` unless it is a number. */
  datatype Event = Event(
    wiki: Option<string>, kind: Option<string>, user: Option<string>, bot: bool, timestamp: Option<real>)

  /** The three breakdowns a window keeps. */
  datatype Dimension = ByWiki | ByType | ByUser

  function OrElse(field: Option<string>, placeholder: string): string {
    if field.Some? && field.value != "" then field.value else placeholder
  }

  function Label(d: Dimension, e: Event): string {
    match d
    case ByWiki => OrElse(e.wiki, "unknown")
    case ByType => OrElse(e.kind, "unknown")
    case ByUser => OrElse(e.user, "anonymous")
  }

  // The time source is a free-form setting; only these two values have a meaning of their own.
  const ARRIVAL := "arrival"
  const EVENT := "event"

  lemma OneSource()
    ensures EVENT != ARRIVAL
  {
    assert EVENT[0] != ARRIVAL[0];
  }

  function EventTimestamp(e: Event, arrival: real, source: string): real {
    if source == EVENT && e.timestamp.Some? && e.timestamp.value > 0.0 then e.timestamp.value else arrival
  }

  /** The payload carries a usable clock of its own. */
  predicate Stamped(e: Event) {
    e.timestamp.Some? && e.timestamp.value > 0.0
  }

  /** A message is stamped the same on every replay exactly when event mode finds a usable clock in the payload. */
  lemma ReplayStampIsStable(e: Event, source: string)
    ensures (forall first, replayed :: EventTimestamp(e, first, source) == EventTimestamp(e, replayed, source))
            <==> source == EVENT && Stamped(e)
  {
    if !(source == EVENT && Stamped(e)) {
      assert EventTimestamp(e, 0.0, source) != EventTimestamp(e, 1.0, source);
    }
  }

  /** How many events carry `name` along dimension `d`: plain counting, independent of any counter. */
  function Occurrences(events: seq<Event>, d: Dimension, name: string): nat {
    if events == [] then 0
    else Occurrences(events[..|events| - 1], d, name) + (if Label(d, events[|events| - 1]) == name then 1 else 0)
  }

  function BotEdits(events: seq<Event>): (n: nat)
    ensures n <= |events|
  {
    if events == [] then 0
    else BotEdits(events[..|events| - 1]) + (if events[|events| - 1].bot then 1 else 0)
  }

  lemma {:induction false} OccurrencesConcat(a: seq<Event>, b: seq<Event>, d: Dimension, name: string)
    ensures Occurrences(a + b, d, name) == Occurrences(a, d, name) + Occurrences(b, d, name)
  {
    if b == [] {
      assert a + b == a;
    } else {
      assert (a + b)[..|a + b| - 1] == a + b[..|b| - 1];
      OccurrencesConcat(a, b[..|b| - 1], d, name);
    }
  }

  lemma {:induction false} BotEditsConcat(a: seq<Event>, b: seq<Event>)
    ensures BotEdits(a + b) == BotEdits(a) + BotEdits(b)
  {
    if b == [] {
      assert a + b == a;
    } else {
      assert (a + b)[..|a + b| - 1] == a + b[..|b| - 1];
      BotEditsConcat(a, b[..|b| - 1]);
    }
  }

  /** The parts of a stream, one after the other. */
  function Joined(parts: seq<seq<Event>>): seq<Event> {
    if parts == [] then [] else Joined(parts[..|parts| - 1]) + parts[|parts| - 1]
  }

  /** Counting does not depend on the order of the events. */
  lemma {:induction false} CountingIgnoresOrder(a: seq<Event>, b: seq<Event>, d: Dimension, name: string)
    requires multiset(a) == multiset(b)
    ensures |a| == |b| && Occurrences(a, d, name) == Occurrences(b, d, name) && BotEdits(a) == BotEdits(b)
  {
    assert |multiset(a)| == |multiset(b)|;
    if a != [] {
      var i := Extract(a, b);
      var left, right := b[..i], b[i + 1..];
      CountingIgnoresOrder(a[..|a| - 1], left + right, d, name);
      OccurrencesConcat(left, right, d, name);
      BotEditsConcat(left, right);
      OccurrencesConcat(left, [b[i]], d, name);
      BotEditsConcat(left, [b[i]]);
      OccurrencesConcat(left + [b[i]], right, d, name);
      BotEditsConcat(left + [b[i]], right);
      OccurrencesOfOne(b[i], d, name);
    }
  }

  lemma OccurrencesOfOne(e: Event, d: Dimension, name: string)
    ensures Occurrences([e], d, name) == (if Label(d, e) == name then 1 else 0)
    ensures BotEdits([e]) == (if e.bot then 1 else 0)
  {
    assert [e][..0] == [];
  }
}
