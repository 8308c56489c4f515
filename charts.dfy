/** The `charts` object of static/js/app.js: six named slots, each holding a chart handle
    or `null`, and `destroyAllCharts`, which destroys and clears every occupied slot.
    Chart.js itself is not modelled: a handle is an identity, and each `destroy()` call is
    an entry in the slot table's event log. */
module Charts {

  /** The six keys of `charts`. */
  datatype Slot = ClosePrice | Volume | MA | KD | MACD | RSI

  /** The order `for...in` visits the keys: the order the object literal declares them. */
  const SlotOrder: seq<Slot> := [ClosePrice, Volume, MA, KD, MACD, RSI]

  /** Where a slot sits in `SlotOrder`. */
  function SlotIndex(s: Slot): (i: nat)
    ensures i < |SlotOrder| && SlotOrder[i] == s
  {
    match s
    case ClosePrice => 0
    case Volume => 1
    case MA => 2
    case KD => 3
    case MACD => 4
    case RSI => 5
  }

  /** `SlotOrder` lists each slot once: position and slot determine each other. */
  lemma SlotOrderIndexed()
    ensures forall j :: 0 <= j < |SlotOrder| ==> SlotIndex(SlotOrder[j]) == j
  {
    forall j | 0 <= j < |SlotOrder| ensures SlotIndex(SlotOrder[j]) == j {
      if j == 0 {} else if j == 1 {} else if j == 2 {} else if j == 3 {} else if j == 4 {} else {}
    }
  }

  /** A Chart.js chart, reduced to its identity and the slot it was made for. */
  class ChartHandle {
    const slot: Slot

    constructor (slot: Slot)
      ensures this.slot == slot
    {
      this.slot := slot;
    }
  }

  /** What happened to the slots, in order: a chart destroyed or a chart created. */
  datatype Event = Destroyed(slot: Slot) | Created(slot: Slot)

  /** The destructions `destroyAllCharts` performs visiting `slots` in order: one for each
      occupied slot. */
  function DestroyEvents(charts: map<Slot, ChartHandle?>, slots: seq<Slot>): seq<Event> {
    if slots == [] then []
    else
      var s := slots[|slots| - 1];
      DestroyEvents(charts, slots[..|slots| - 1])
      + (if s in charts && charts[s] != null then [Destroyed(s)] else [])
  }

  /** Over the six slots, exactly the occupied slots are destroyed, each once, in the
      order of `SlotOrder`. */
  lemma {:induction false} DestroyEventsSpec(charts: map<Slot, ChartHandle?>, slots: seq<Slot>, s: Slot)
    requires forall i, j :: 0 <= i < j < |slots| ==> slots[i] != slots[j]
    ensures forall e :: e in DestroyEvents(charts, slots) ==> e.Destroyed? && e.slot in slots
    ensures Destroyed(s) in DestroyEvents(charts, slots) <==> s in slots && s in charts && charts[s] != null
    ensures multiset(DestroyEvents(charts, slots))[Destroyed(s)] <= 1
  {
    if slots != [] {
      var last := slots[|slots| - 1];
      var front := slots[..|slots| - 1];
      DestroyEventsSpec(charts, front, s);
      assert slots == front + [last];
      assert last !in front;
    }
  }

  /** The slots after `destroyAllCharts` has visited the first `n` keys of `SlotOrder`. */
  function ClearFirst(charts: map<Slot, ChartHandle?>, n: nat): map<Slot, ChartHandle?>
    requires n <= |SlotOrder|
  {
    if n == 0 then charts else ClearFirst(charts, n - 1)[SlotOrder[n - 1] := null]
  }

  /** Visiting all six keys empties every slot. */
  lemma {:induction false} ClearFirstSpec(charts: map<Slot, ChartHandle?>, n: nat, s: Slot)
    requires n <= |SlotOrder|
    ensures s in ClearFirst(charts, n) <==> SlotIndex(s) < n || s in charts
    ensures SlotIndex(s) < n ==> ClearFirst(charts, n)[s] == null
    ensures n <= SlotIndex(s) && s in charts ==> ClearFirst(charts, n)[s] == charts[s]
  {
    if n > 0 {
      ClearFirstSpec(charts, n - 1, s);
      SlotOrderIndexed();
    }
  }

  /** The `charts` object. `log` records, for the proofs, every destruction and creation. */
  class ChartSet {
    var charts: map<Slot, ChartHandle?>
    ghost var log: seq<Event>

    /** Every slot is present, and a handle sits in the slot it was made for (so no handle
        sits in two slots). */
    ghost predicate Valid()
      reads this
    {
      && (forall s: Slot :: s in charts)
      && (forall s :: s in charts && charts[s] != null ==> charts[s].slot == s)
    }

    /** `let charts = { closePrice: null, … }`. */
    constructor ()
      ensures Valid()
      ensures forall s :: charts[s] == null
      ensures log == []
    {
      charts := map[ClosePrice := null, Volume := null, MA := null, KD := null, MACD := null, RSI := null];
      log := [];
      new;
      forall s: Slot ensures s in charts && charts[s] == null {
        match s
        case ClosePrice =>
        case Volume =>
        case MA =>
        case KD =>
        case MACD =>
        case RSI =>
      }
    }

    /** One step of `destroyAllCharts`: an occupied slot has its chart destroyed (the log
        records the `destroy()` call) and is set to `null`; an empty slot is left alone. */
    method Clear(key: Slot)
      requires Valid()
      modifies this
      ensures Valid()
      ensures charts == old(charts)[key := null]
      ensures log == old(log) + (if old(charts[key]) != null then [Destroyed(key)] else [])
    {
      if charts[key] != null {
        log := log + [Destroyed(key)];
        charts := charts[key := null];
      }
    }

    /** `destroyAllCharts`: afterwards every slot is empty, and the log gains one
        destruction per occupied slot, in slot order (see DestroyEventsSpec: each occupied
        slot exactly once, no empty slot). */
    method DestroyAll()
      requires Valid()
      modifies this
      ensures Valid()
      ensures forall s :: charts[s] == null
      ensures log == old(log) + DestroyEvents(old(charts), SlotOrder)
    {
      ghost var start := charts;
      var i := 0;
      while i < |SlotOrder|
        invariant i <= |SlotOrder|
        invariant Valid()
        invariant charts == ClearFirst(start, i)
        invariant log == old(log) + DestroyEvents(start, SlotOrder[..i])
      {
        var key := SlotOrder[i];
        ClearFirstSpec(start, i, key);
        SlotOrderIndexed();
        assert SlotOrder[..i + 1] == SlotOrder[..i] + [key];
        assert (SlotOrder[..i] + [key])[..i] == SlotOrder[..i];
        Clear(key);
        i := i + 1;
      }
      assert SlotOrder[..i] == SlotOrder;
      forall s ensures charts[s] == null {
        ClearFirstSpec(start, i, s);
      }
    }

    /** `charts.<slot> = create…Chart(data)`: the slot receives a new chart. */
    method Create(slot: Slot)
      requires Valid()
      modifies this
      ensures Valid()
      ensures charts[slot] != null && fresh(charts[slot])
      ensures charts == old(charts)[slot := charts[slot]]
      ensures log == old(log) + [Created(slot)]
    {
      var chart := new ChartHandle(slot);
      charts := charts[slot := chart];
      log := log + [Created(slot)];
    }
  }
}
