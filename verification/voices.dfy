/**
 The voice set (`KEYS_PRESSED`) and the event path that feeds it: the
 range filter in the keyboard-event handler, the ordered queue, and the
 receive loop that inserts a scancode on a press and removes it on a
 release. The queue is an ordered sequence and the set a plain `set<nat>`.
 */
module Voices {
  import opened Pitch

  datatype ElementState = Pressed | Released

  /** A keyboard event: a raw scancode and its transition. */
  datatype KeyEvent = KeyEvent(scancode: nat, state: ElementState)

  datatype Option<T> = None | Some(value: T)

  /** Only scancodes that have a pitch-table entry are sent to the queue. */
  predicate Admitted(e: KeyEvent) {
    e.scancode < MaxScancode
  }

  /** Every member of a voice set indexes the pitch table. */
  predicate InRange(voices: set<nat>) {
    forall k :: k in voices ==> k < MaxScancode
  }

  /** The events the handler sends to the queue, in arrival order. */
  function Enqueue(events: seq<KeyEvent>): (queue: seq<KeyEvent>)
    ensures |queue| <= |events|
    ensures forall e :: e in queue <==> e in events && Admitted(e)
  {
    if |events| == 0 then []
    else
      var rest := Enqueue(events[1..]);
      assert forall e :: e in events <==> e == events[0] || e in events[1..];
      if Admitted(events[0]) then [events[0]] + rest else rest
  }

  /** Filtering commutes with concatenation: the queue keeps arrival order. */
  lemma {:induction false} EnqueueAppend(a: seq<KeyEvent>, b: seq<KeyEvent>)
    ensures Enqueue(a + b) == Enqueue(a) + Enqueue(b)
  {
    if |a| > 0 {
      assert (a + b)[1..] == a[1..] + b;
      EnqueueAppend(a[1..], b);
    } else {
      assert a + b == b;
    }
  }

  /** Events that are all in range pass through unchanged. */
  lemma {:induction false} EnqueueKeepsAdmitted(events: seq<KeyEvent>)
    requires forall i :: 0 <= i < |events| ==> Admitted(events[i])
    ensures Enqueue(events) == events
  {
    if |events| > 0 {
      EnqueueKeepsAdmitted(events[1..]);
    }
  }

  /** One iteration of the receive loop: a press inserts the scancode, a
      release removes it, and no other scancode changes. Inserting a
      present scancode or removing an absent one leaves the set as it was. */
  function Apply(voices: set<nat>, e: KeyEvent): (r: set<nat>)
    ensures forall k :: k in r <==> (if k == e.scancode then e.state == Pressed else k in voices)
    ensures e.state == Pressed && e.scancode in voices ==> r == voices
    ensures e.state == Released && e.scancode !in voices ==> r == voices
  {
    match e.state
    case Pressed => voices + {e.scancode}
    case Released => voices - {e.scancode}
  }

  /** The voice set after the receive loop has consumed `events` in order.
      A scancode that no event carries keeps its membership. */
  function ApplyAll(voices: set<nat>, events: seq<KeyEvent>): (r: set<nat>)
    ensures forall k :: (forall i :: 0 <= i < |events| ==> events[i].scancode != k) ==>
      (k in r <==> k in voices)
  {
    if |events| == 0 then voices
    else
      var init := events[..|events| - 1];
      assert forall i :: 0 <= i < |init| ==> init[i] == events[i];
      Apply(ApplyAll(voices, init), events[|events| - 1])
  }

  /** The transition of the last event for scancode `k`, if there is one:
      `Some(s)` when some event carries `k` with transition `s` and no later
      event carries `k`, `None` when no event carries `k`. */
  function LastState(events: seq<KeyEvent>, k: nat): (r: Option<ElementState>)
    ensures r.None? <==> forall i :: 0 <= i < |events| ==> events[i].scancode != k
    ensures r.Some? ==>
      exists i :: 0 <= i < |events| && events[i] == KeyEvent(k, r.value) &&
                  forall j :: i < j < |events| ==> events[j].scancode != k
  {
    if |events| == 0 then None
    else if events[|events| - 1].scancode == k then Some(events[|events| - 1].state)
    else
      var init := events[..|events| - 1];
      var r := LastState(init, k);
      assert forall i :: 0 <= i < |init| ==> init[i] == events[i];
      r
  }

  /** Whether `k` should be sounding after `events`: its last event was a
      press, or it had no event and was sounding before. */
  predicate HeldAfter(voices: set<nat>, events: seq<KeyEvent>, k: nat) {
    match LastState(events, k)
    case None => k in voices
    case Some(s) => s == Pressed
  }

  /** The voice set holds exactly the scancodes whose last event was a
      press, plus those without events that were already held. */
  lemma {:induction false} ApplyAllHeld(voices: set<nat>, events: seq<KeyEvent>, k: nat)
    ensures k in ApplyAll(voices, events) <==> HeldAfter(voices, events, k)
  {
    if |events| > 0 {
      ApplyAllHeld(voices, events[..|events| - 1], k);
    }
  }

  /** Consuming the queue in two batches is the same as consuming it at once. */
  lemma {:induction false} ApplyAllAppend(voices: set<nat>, a: seq<KeyEvent>, b: seq<KeyEvent>)
    ensures ApplyAll(voices, a + b) == ApplyAll(ApplyAll(voices, a), b)
  {
    if |b| == 0 {
      assert a + b == a;
    } else {
      assert (a + b)[..|a + b| - 1] == a + b[..|b| - 1];
      ApplyAllAppend(voices, a, b[..|b| - 1]);
    }
  }

  /** Admitted events keep the voice set inside the pitch table. */
  lemma {:induction false} ApplyAllInRange(voices: set<nat>, events: seq<KeyEvent>)
    requires InRange(voices)
    requires forall e :: e in events ==> Admitted(e)
    ensures InRange(ApplyAll(voices, events))
  {
    if |events| > 0 {
      var init := events[..|events| - 1];
      assert forall e :: e in init ==> e in events;
      assert events[|events| - 1] in events;
      ApplyAllInRange(voices, init);
    }
  }

  /** Starting from silence, whatever keyboard events arrive, every sounding
      scancode has a pitch-table entry, and at most `MaxScancode` voices sound. */
  lemma ReachableVoicesInRange(events: seq<KeyEvent>)
    ensures InRange(ApplyAll({}, Enqueue(events)))
    ensures |ApplyAll({}, Enqueue(events))| <= MaxScancode
  {
    ApplyAllInRange({}, Enqueue(events));
    InRangeBound(ApplyAll({}, Enqueue(events)));
  }

  /** A set of scancodes below `MaxScancode` has at most that many members. */
  lemma InRangeBound(voices: set<nat>)
    requires InRange(voices)
    ensures |voices| <= MaxScancode
  {
    SubsetSize(voices, Below(MaxScancode));
  }

  lemma {:induction false} SubsetSize(a: set<nat>, b: set<nat>)
    requires a <= b
    ensures |a| <= |b|
    decreases a
  {
    if a != {} {
      var x :| x in a;
      SubsetSize(a - {x}, b - {x});
    }
  }

  /** The scancodes below `n`. */
  function Below(n: nat): (s: set<nat>)
    ensures |s| == n
    ensures forall k: nat :: k in s <==> k < n
  {
    if n == 0 then {} else Below(n - 1) + {n - 1}
  }

  /** The receive loop: takes events off the queue one at a time, in order,
      and applies each to the voice set. */
  method DrainQueue(voices: set<nat>, queue: seq<KeyEvent>) returns (held: set<nat>)
    ensures forall k :: k in held <==> HeldAfter(voices, queue, k)
  {
    held := voices;
    var i := 0;
    while i < |queue|
      invariant 0 <= i <= |queue|
      invariant held == ApplyAll(voices, queue[..i])
    {
      assert queue[..i + 1][..i] == queue[..i];
      held := Apply(held, queue[i]);
      i := i + 1;
    }
    assert queue[..|queue|] == queue;
    forall k
      ensures k in held <==> HeldAfter(voices, queue, k)
    {
      ApplyAllHeld(voices, queue, k);
    }
  }
}
