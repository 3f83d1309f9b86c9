/**
 Log entries, the sinks and their level gates, and the synchronous logger that hands every entry
 above its minimum level to every sink.
 */
module LogSinks {

  /** `logging::Level`: DISABLED = 0, MESSAGE, TRACE, INFO, WARN, ERROR = 5. */
  type Level = n: nat | n <= 5

  datatype Entry = Entry(level: Level, text: string)

  /** The entries whose level is at least `least`, in order. */
  function Keep(es: seq<Entry>, least: nat): seq<Entry> {
    if es == [] then []
    else Keep(es[..|es| - 1], least) + (if es[|es| - 1].level >= least then [es[|es| - 1]] else [])
  }

  lemma {:induction false} KeepAppend(es: seq<Entry>, e: Entry, least: nat)
    ensures Keep(es + [e], least) == Keep(es, least) + (if e.level >= least then [e] else [])
  {
    assert (es + [e])[..|es|] == es;
  }

  /** Two gates in a row pass what the higher one passes. */
  lemma {:induction false} KeepTwice(es: seq<Entry>, a: nat, b: nat)
    ensures Keep(Keep(es, a), b) == Keep(es, if a < b then b else a)
  {
    if es != [] {
      var init, e := es[..|es| - 1], es[|es| - 1];
      assert es == init + [e];
      KeepTwice(init, a, b);
      KeepAppend(init, e, a);
      KeepAppend(Keep(init, a), e, b);
      KeepAppend(init, e, if a < b then b else a);
      assert Keep(init, a) + [] == Keep(init, a);
    }
  }

  /** The sinks of a logger: what each was handed, and what each wrote. */
  class Sinks {
    const levels: seq<Level>
    var handed: seq<seq<Entry>>
    var emitted: seq<seq<Entry>>

    ghost predicate Valid()
      reads this
    {
      && |handed| == |emitted| == |levels|
      && forall k :: 0 <= k < |levels| ==> emitted[k] == Keep(handed[k], levels[k])
    }

    constructor (levels: seq<Level>)
      ensures Valid() && this.levels == levels && forall k :: 0 <= k < |levels| ==> handed[k] == []
    {
      this.levels := levels;
      handed := seq(|levels|, _ => []);
      emitted := seq(|levels|, _ => []);
    }

    /** `for_each(m_sinks, sink->sink(entry))`. */
    method Deliver(e: Entry)
      requires Valid()
      modifies this
      ensures Valid() && forall k :: 0 <= k < |levels| ==> handed[k] == old(handed[k]) + [e]
    {
      for k := 0 to |levels|
        invariant |handed| == |emitted| == |levels|
        invariant forall j :: 0 <= j < |levels| ==> handed[j] == if j < k then old(handed[j]) + [e] else old(handed[j])
        invariant forall j :: 0 <= j < |levels| ==> emitted[j] == Keep(handed[j], levels[j])
      {
        KeepAppend(handed[k], e, levels[k]);
        handed := handed[k := handed[k] + [e]];
        if e.level >= levels[k] {
          emitted := emitted[k := emitted[k] + [e]];
        }
      }
    }

    /** The synchronous `log`. */
    method Log(minimum: Level, e: Entry)
      requires Valid()
      modifies this
      ensures Valid()
      ensures forall k :: 0 <= k < |levels| ==> handed[k] == old(handed[k]) + Keep([e], minimum + 1)
    {
      if e.level > minimum {
        Deliver(e);
      }
    }

    /** A history of synchronous `log` calls. */
    method LogAll(minimum: Level, es: seq<Entry>)
      requires Valid()
      modifies this
      ensures Valid()
      ensures forall k :: 0 <= k < |levels| ==> handed[k] == old(handed[k]) + Keep(es, minimum + 1)
    {
      for i := 0 to |es|
        invariant Valid()
        invariant forall k :: 0 <= k < |levels| ==> handed[k] == old(handed[k]) + Keep(es[..i], minimum + 1)
      {
        assert es[..i + 1] == es[..i] + [es[i]];
        KeepAppend(es[..i], es[i], minimum + 1);
        KeepAppend([], es[i], minimum + 1);
        Log(minimum, es[i]);
      }
      assert es[..|es|] == es;
    }

    /** The loop that empties the queue once the logging thread has seen the stop request. */
    method Flush(queue: seq<Entry>) returns (rest: seq<Entry>)
      requires Valid()
      modifies this
      ensures Valid() && rest == []
      ensures forall k :: 0 <= k < |levels| ==> handed[k] == old(handed[k]) + queue
    {
      rest := queue;
      while rest != []
        invariant Valid() && |rest| <= |queue| && rest == queue[|queue| - |rest|..]
        invariant forall k :: 0 <= k < |levels| ==> handed[k] == old(handed[k]) + queue[..|queue| - |rest|]
      {
        assert queue[..|queue| - |rest| + 1] == queue[..|queue| - |rest|] + [rest[0]];
        var message := rest[0];
        rest := rest[1..];
        Deliver(message);
      }
    }
  }
}
